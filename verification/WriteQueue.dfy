/**
 The single-writer queue: a bounded FIFO of envelopes that one worker executes, each in
 its own transaction, while callers submit, wait, give up or stop the queue.
 */
module WriteQueue {
  import opened Basics

  /** What running an envelope inside an open transaction comes to. */
  datatype Exec<S, R> = Done(state: S, result: R) | Threw(error: string)

  /** `deadline` is `None` for a barrier, whose deadline lies in the year 9999. */
  datatype Envelope<!S, !R> = Envelope(deadline: Option<int>, run: S -> Exec<S, R>)

  datatype Future<R> = Pending | Cancelled | Resolved(result: R) | Rejected(error: string)

  /** How the worker was done with an envelope. */
  datatype Ending = Committed | RolledBack | Expired | Skipped

  /**
   The queue and its past: `envelopes` are all that were ever accepted, in order, of which
   the worker has taken the first `taken` and ended the first `|endings|`.
   */
  datatype State<!S, !R> = State(
    capacity: nat,
    running: bool,
    envelopes: seq<Envelope<S, R>>,
    futures: seq<Future<R>>,
    taken: nat,
    executing: bool,
    endings: seq<Ending>,
    db: S)

  datatype Action<!S, !R> =
    | Submit(envelope: Envelope<S, R>)
    | Barrier(noop: R)
    | Cancel(id: nat)
    | Take(now: int)
    | Finish(commits: bool)
    | Stop

  function New<S, R>(capacity: nat, db: S): State<S, R> {
    State(capacity, true, [], [], 0, false, [], db)
  }

  /** `asyncio.Queue`: a maximum size of zero means no maximum. */
  predicate Full<S, R>(q: State<S, R>) {
    q.capacity > 0 && |q.envelopes| - q.taken >= q.capacity
  }

  function Enqueued<S, R>(q: State<S, R>, e: Envelope<S, R>): State<S, R> {
    q.(envelopes := q.envelopes + [e], futures := q.futures + [Pending])
  }

  /** A future is only ever written while it is pending. */
  function Settle<R>(futures: seq<Future<R>>, i: nat, f: Future<R>): seq<Future<R>> {
    if i < |futures| && futures[i].Pending? then futures[i := f] else futures
  }

  predicate CanTake<S, R>(q: State<S, R>) {
    !q.executing && q.taken < |q.envelopes| && q.taken < |q.futures|
  }

  function TakeNext<S, R>(q: State<S, R>, now: int): State<S, R>
    requires CanTake(q)
  {
    var e, i := q.envelopes[q.taken], q.taken;
    if q.futures[i].Cancelled? then q.(taken := i + 1, endings := q.endings + [Skipped])
    else if e.deadline.Some? && now > e.deadline.value
    then q.(taken := i + 1, endings := q.endings + [Expired],
            futures := Settle(q.futures, i, Rejected("IPC_DEADLINE_EXCEEDED")))
    else q.(taken := i + 1, executing := true)
  }

  /** What the caller of a rolled-back envelope is told: its own error, or that of the commit. */
  function Failure<S, R>(e: Exec<S, R>): string {
    if e.Threw? then e.error else "COMMIT_FAILED"
  }

  predicate CanFinish<S, R>(q: State<S, R>) {
    q.executing && 0 < q.taken <= |q.envelopes|
  }

  function FinishCurrent<S, R>(q: State<S, R>, commits: bool): State<S, R>
    requires CanFinish(q)
  {
    var i := q.taken - 1;
    match q.envelopes[i].run(q.db)
    case Done(s, r) =>
      if commits
      then q.(executing := false, db := s, endings := q.endings + [Committed],
              futures := Settle(q.futures, i, Resolved(r)))
      else q.(executing := false, endings := q.endings + [RolledBack],
              futures := Settle(q.futures, i, Rejected("COMMIT_FAILED")))
    case Threw(error) =>
      q.(executing := false, endings := q.endings + [RolledBack], futures := Settle(q.futures, i, Rejected(error)))
  }

  /** One step of a caller or of the worker; an impossible or refused one changes nothing. */
  function Step<S, R>(q: State<S, R>, a: Action<S, R>): State<S, R> {
    match a
    case Submit(e) => if !q.running || Full(q) then q else Enqueued(q, e)
    case Barrier(noop) => if Full(q) then q else Enqueued(q, Envelope(None, s => Done(s, noop)))
    case Cancel(id) => q.(futures := Settle(q.futures, id, Cancelled))
    case Take(now) => if CanTake(q) then TakeNext(q, now) else q
    case Finish(commits) => if CanFinish(q) then FinishCurrent(q, commits) else q
    case Stop => q.(running := false)
  }

  ghost function RunAll<S, R>(q: State<S, R>, actions: seq<Action<S, R>>): State<S, R> {
    if actions == [] then q else Step(RunAll(q, actions[..|actions| - 1]), actions[|actions| - 1])
  }

  // ---- Serialisability --------------------------------------------------------------------

  /** The database after the first `n` envelopes: the committed ones applied in order, the others ignored. */
  ghost function Fold<S, R>(db: S, envelopes: seq<Envelope<S, R>>, endings: seq<Ending>, n: nat): S
    requires n <= |envelopes| && n <= |endings|
  {
    if n == 0 then db
    else
      var s := Fold(db, envelopes, endings, n - 1);
      if endings[n - 1].Committed? && envelopes[n - 1].run(s).Done? then envelopes[n - 1].run(s).state else s
  }

  /** Future `i` of an ended envelope tells its own outcome, unless its caller had given up. */
  ghost predicate Told<S, R>(initial: S, q: State<S, R>, i: nat)
    requires i < |q.endings| && |q.endings| <= |q.envelopes| == |q.futures|
  {
    var s := Fold(initial, q.envelopes, q.endings, i);
    match q.endings[i]
    case Skipped => q.futures[i].Cancelled?
    case Expired => q.futures[i] == Rejected("IPC_DEADLINE_EXCEEDED")
    case RolledBack =>
      q.futures[i].Cancelled? || q.futures[i] == Rejected(Failure(q.envelopes[i].run(s)))
    case Committed =>
      q.envelopes[i].run(s).Done? && (q.futures[i].Cancelled? || q.futures[i] == Resolved(q.envelopes[i].run(s).result))
  }

  ghost predicate Serial<S, R>(initial: S, q: State<S, R>) {
    && |q.futures| == |q.envelopes| && q.taken <= |q.envelopes|
    && |q.endings| == (if q.executing then q.taken - 1 else q.taken)
    && (q.capacity > 0 ==> |q.envelopes| - q.taken <= q.capacity)
    && q.db == Fold(initial, q.envelopes, q.endings, |q.endings|)
    && (forall i: nat :: i < |q.endings| ==> Told(initial, q, i))
    && (forall i: nat :: |q.endings| <= i < |q.futures| ==> q.futures[i].Pending? || q.futures[i].Cancelled?)
  }

  lemma {:induction false} FoldStable<S, R>(db: S, envelopes: seq<Envelope<S, R>>, endings: seq<Ending>,
                                            envelopes': seq<Envelope<S, R>>, endings': seq<Ending>, n: nat)
    requires n <= |envelopes| && n <= |endings| && envelopes <= envelopes' && endings <= endings'
    ensures Fold(db, envelopes, endings, n) == Fold(db, envelopes', endings', n)
  {
    if n > 0 {
      FoldStable(db, envelopes, endings, envelopes', endings', n - 1);
    }
  }

  /** Longer histories tell the same about an ended envelope whose future did not change. */
  lemma {:induction false} ToldStable<S, R>(initial: S, q: State<S, R>, q': State<S, R>, i: nat)
    requires |q.endings| <= |q.envelopes| == |q.futures| && |q'.endings| <= |q'.envelopes| == |q'.futures|
    requires i < |q.endings| && q.envelopes <= q'.envelopes && q.endings <= q'.endings
    requires Told(initial, q, i) && q'.futures[i] == q.futures[i]
    ensures Told(initial, q', i)
  {
    FoldStable(initial, q.envelopes, q.endings, q'.envelopes, q'.endings, i);
    assert q'.envelopes[i] == q.envelopes[i] && q'.endings[i] == q.endings[i];
  }

  lemma {:induction false} EnqueueKeeps<S, R>(initial: S, q: State<S, R>, e: Envelope<S, R>)
    requires Serial(initial, q) && !Full(q)
    ensures Serial(initial, Enqueued(q, e))
  {
    var q' := Enqueued(q, e);
    FoldStable(initial, q.envelopes, q.endings, q'.envelopes, q'.endings, |q.endings|);
    forall i: nat | i < |q'.endings|
      ensures Told(initial, q', i)
    {
      ToldStable(initial, q, q', i);
    }
  }

  lemma {:induction false} CancelKeeps<S, R>(initial: S, q: State<S, R>, id: nat)
    requires Serial(initial, q)
    ensures Serial(initial, q.(futures := Settle(q.futures, id, Cancelled)))
  {
    var q' := q.(futures := Settle(q.futures, id, Cancelled));
    forall i: nat | i < |q'.endings|
      ensures Told(initial, q', i)
    {
      assert Told(initial, q, i);
      ToldStable(initial, q, q', i);
    }
  }

  lemma {:induction false} TakeKeeps<S, R>(initial: S, q: State<S, R>, now: int)
    requires Serial(initial, q) && CanTake(q)
    ensures Serial(initial, TakeNext(q, now))
  {
    var q' := TakeNext(q, now);
    if !q'.executing {
      FoldStable(initial, q.envelopes, q.endings, q'.envelopes, q'.endings, |q.endings|);
    }
    forall i: nat | i < |q'.endings|
      ensures Told(initial, q', i)
    {
      if i < |q.endings| {
        ToldStable(initial, q, q', i);
      }
    }
  }

  lemma {:induction false} FinishKeeps<S, R>(initial: S, q: State<S, R>, commits: bool)
    requires Serial(initial, q) && CanFinish(q)
    ensures Serial(initial, FinishCurrent(q, commits))
  {
    var q' := FinishCurrent(q, commits);
    FoldStable(initial, q.envelopes, q.endings, q'.envelopes, q'.endings, |q.endings|);
    forall i: nat | i < |q'.endings|
      ensures Told(initial, q', i)
    {
      if i < |q.endings| {
        ToldStable(initial, q, q', i);
      }
    }
  }

  lemma {:induction false} StepKeeps<S, R>(initial: S, q: State<S, R>, a: Action<S, R>)
    requires Serial(initial, q)
    ensures Serial(initial, Step(q, a))
  {
    match a
    case Submit(e) => if q.running && !Full(q) { EnqueueKeeps(initial, q, e); }
    case Barrier(noop) => if !Full(q) { EnqueueKeeps(initial, q, Envelope(None, s => Done(s, noop))); }
    case Cancel(id) => CancelKeeps(initial, q, id);
    case Take(now) => if CanTake(q) { TakeKeeps(initial, q, now); }
    case Finish(commits) => if CanFinish(q) { FinishKeeps(initial, q, commits); }
    case Stop =>
      forall i: nat | i < |q.endings|
        ensures Told(initial, Step(q, a), i)
      {
        ToldStable(initial, q, Step(q, a), i);
      }
  }

  /**
   Serialisability: however submissions, cancellations, expiries and failures interleave,
   the committed database is the fold, in enqueue order, of exactly the envelopes that
   committed, and each ended envelope's future tells its own outcome.
   */
  lemma {:induction false} Serialisable<S, R>(capacity: nat, db: S, actions: seq<Action<S, R>>)
    ensures Serial(db, RunAll(New(capacity, db), actions))
  {
    if actions != [] {
      Serialisable(capacity, db, actions[..|actions| - 1]);
      StepKeeps(db, RunAll(New(capacity, db), actions[..|actions| - 1]), actions[|actions| - 1]);
    }
  }

  lemma {:induction false} SettledStays<S, R>(q: State<S, R>, a: Action<S, R>, i: nat)
    requires i < |q.futures| && !q.futures[i].Pending?
    ensures i < |Step(q, a).futures| && Step(q, a).futures[i] == q.futures[i]
  {
  }

  /** A settled future is never written again. */
  lemma {:induction false} SettledOnce<S, R>(q: State<S, R>, actions: seq<Action<S, R>>, i: nat)
    requires i < |q.futures| && !q.futures[i].Pending?
    ensures i < |RunAll(q, actions).futures| && RunAll(q, actions).futures[i] == q.futures[i]
  {
    if actions != [] {
      var before := RunAll(q, actions[..|actions| - 1]);
      SettledOnce(q, actions[..|actions| - 1], i);
      SettledStays(before, actions[|actions| - 1], i);
    }
  }

  /** The envelopes that committed, in enqueue order. */
  ghost function Survivors<S, R>(envelopes: seq<Envelope<S, R>>, endings: seq<Ending>, n: nat): seq<Envelope<S, R>>
    requires n <= |envelopes| && n <= |endings|
  {
    if n == 0 then []
    else Survivors(envelopes, endings, n - 1) + if endings[n - 1].Committed? then [envelopes[n - 1]] else []
  }

  /** Running envelopes one after the other, with nothing in between. */
  ghost function RunInOrder<S, R>(db: S, envelopes: seq<Envelope<S, R>>): S {
    if envelopes == [] then db
    else
      var s := RunInOrder(db, envelopes[..|envelopes| - 1]);
      var e := envelopes[|envelopes| - 1].run(s);
      if e.Done? then e.state else s
  }

  /** Everything that did not commit might as well never have been submitted. */
  lemma {:induction false} TheRestLeavesNoTrace<S, R>(db: S, envelopes: seq<Envelope<S, R>>, endings: seq<Ending>,
                                                      n: nat)
    requires n <= |envelopes| && n <= |endings|
    ensures Fold(db, envelopes, endings, n) == RunInOrder(db, Survivors(envelopes, endings, n))
  {
    if n > 0 {
      TheRestLeavesNoTrace(db, envelopes, endings, n - 1);
      var before := Survivors(envelopes, endings, n - 1);
      assert (before + [envelopes[n - 1]])[..|before|] == before;
      assert before + [] == before;
    }
  }

  ghost predicate IsBarrier<S(!new), R>(e: Envelope<S, R>) {
    e.deadline.None? && forall s :: e.run(s).Done? && e.run(s).state == s
  }

  /**
   The step that resolves a barrier does so in a database that is the fold of everything
   enqueued before it, all of which has ended.
   */
  lemma {:induction false} BarrierSeesEverythingBefore<S(!new), R>(initial: S, q: State<S, R>, a: Action<S, R>, b: nat)
    requires Serial(initial, q) && b < |q.futures| && IsBarrier(q.envelopes[b])
    requires q.futures[b].Pending? && Step(q, a).futures[b].Resolved?
    ensures |q.endings| == b && Step(q, a).db == q.db == Fold(initial, q.envelopes, q.endings, b)
  {
  }

  // ---- The queue as an object -------------------------------------------------------------

  datatype Refusal = Stopped | Backpressure

  /** `WriteQueue`; ids stand for the envelopes, whose futures they index. */
  class WriteQueue<!S, !R> {
    var capacity: nat
    var running: bool
    var queue: seq<nat>
    var current: Option<nat>
    var db: S
    var envelopes: seq<Envelope<S, R>>
    var futures: seq<Future<R>>
    ghost var taken: nat
    ghost var endings: seq<Ending>

    ghost function View(): State<S, R>
      reads this
    {
      State(capacity, running, envelopes, futures, taken, current.Some?, endings, db)
    }

    /** The pending ids are the accepted ones not yet taken, in order. */
    ghost predicate Valid()
      reads this
    {
      && |futures| == |envelopes| && taken + |queue| == |envelopes|
      && (forall k :: 0 <= k < |queue| ==> queue[k] == taken + k)
      && (current.Some? ==> current.value + 1 == taken)
    }

    constructor (capacity: nat, db: S)
      ensures Valid() && View() == New(capacity, db)
    {
      this.capacity, running, queue, current, this.db := capacity, true, [], None, db;
      envelopes, futures, taken, endings := [], [], 0, [];
    }

    method Put(e: Envelope<S, R>) returns (ok: bool)
      requires Valid()
      modifies this
      ensures Valid() && ok == !Full(old(View()))
      ensures View() == if ok then Enqueued(old(View()), e) else old(View())
    {
      if capacity > 0 && |queue| >= capacity {
        return false;
      }
      queue := queue + [|envelopes|];
      envelopes := envelopes + [e];
      futures := futures + [Pending];
      return true;
    }

    method SubmitEnvelope(e: Envelope<S, R>) returns (refusal: Option<Refusal>)
      requires Valid()
      modifies this
      ensures Valid() && View() == Step(old(View()), Submit(e))
      ensures refusal.None? <==> old(running) && !Full(old(View()))
    {
      if !running {
        return Some(Stopped);
      }
      var ok := Put(e);
      return if ok then None else Some(Backpressure);
    }

    /** A barrier is accepted even after the queue was stopped. */
    method SubmitBarrier(noop: R) returns (ok: bool)
      requires Valid()
      modifies this
      ensures Valid() && View() == Step(old(View()), Barrier(noop)) && ok == !Full(old(View()))
    {
      ok := Put(Envelope(None, s => Done(s, noop)));
    }

    method CancelFuture(id: nat)
      requires Valid()
      modifies this
      ensures Valid() && View() == Step(old(View()), Cancel(id))
    {
      if id < |futures| && futures[id].Pending? {
        futures := futures[id := Cancelled];
      }
    }

    /** `stop`: from now on nothing is accepted; what is queued is still executed. */
    method StopAccepting()
      requires Valid()
      modifies this
      ensures Valid() && View() == Step(old(View()), Stop)
    {
      running := false;
    }

    /** The worker gets the next envelope and decides whether to execute it. */
    method TakeEnvelope(now: int)
      requires Valid()
      modifies this
      ensures Valid() && View() == Step(old(View()), Take(now))
    {
      if current.Some? || |queue| == 0 {
        return;
      }
      var id := queue[0];
      queue := queue[1..];
      taken := taken + 1;
      if futures[id].Cancelled? {
        endings := endings + [Skipped];
        return;
      }
      var deadline := envelopes[id].deadline;
      if deadline.Some? && now > deadline.value {
        if futures[id].Pending? {
          futures := futures[id := Rejected("IPC_DEADLINE_EXCEEDED")];
        }
        endings := endings + [Expired];
        return;
      }
      current := Some(id);
    }

    /** The transaction ends: commit and result, or rollback and error, for a future still pending. */
    method FinishEnvelope(commits: bool)
      requires Valid()
      modifies this
      ensures Valid() && View() == Step(old(View()), Finish(commits))
    {
      if current.None? {
        return;
      }
      var id := current.value;
      var e := envelopes[id].run(db);
      current := None;
      var f: Future<R>;
      if e.Done? && commits {
        db := e.state;
        f := Resolved(e.result);
        endings := endings + [Committed];
      } else {
        f := Rejected(Failure(e));
        endings := endings + [RolledBack];
      }
      if futures[id].Pending? {
        futures := futures[id := f];
      }
    }
  }
}
