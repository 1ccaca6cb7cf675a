/**
 What decides how an envelope ends: the moment it was taken, whether its caller had given up
 by then, and whether its commit went through, all read off the actions themselves.
 */
module QueueHistory {
  import opened Basics
  import opened WriteQueue

  /** An envelope is taken: when, and whether its caller had given up. */
  datatype Taken = Taken(at: int, abandoned: bool)

  /** The takes that found an idle worker and a waiting envelope, in order. */
  ghost function Takes<S, R>(capacity: nat, db: S, actions: seq<Action<S, R>>): seq<Taken> {
    if actions == [] then []
    else
      var front, last := actions[..|actions| - 1], actions[|actions| - 1];
      var q, before := RunAll(New(capacity, db), front), Takes(capacity, db, front);
      if last.Take? && !q.executing && q.taken < |q.envelopes|
      then before + [Taken(last.now, q.taken < |q.futures| && q.futures[q.taken].Cancelled?)]
      else before
  }

  /** For each envelope that ended, whether a commit was tried and went through. */
  ghost function Commits<S, R>(capacity: nat, db: S, actions: seq<Action<S, R>>): seq<bool> {
    if actions == [] then []
    else
      var front, last := actions[..|actions| - 1], actions[|actions| - 1];
      var q, q' := RunAll(New(capacity, db), front), RunAll(New(capacity, db), actions);
      var before := Commits(capacity, db, front);
      if |q'.endings| == |q.endings| then before else before + [last.Finish? && last.commits]
  }

  /** The envelope was taken after its deadline; a barrier has none. */
  predicate Late<S, R>(e: Envelope<S, R>, at: int) {
    e.deadline.Some? && e.deadline.value < at
  }

  /** How envelope `i` ended, and why. */
  ghost predicate EndedFor<S, R>(initial: S, q: State<S, R>, takes: seq<Taken>, commits: seq<bool>, i: nat)
    requires i < |q.endings| <= |q.envelopes| && |q.endings| <= |takes| && |q.endings| <= |commits|
  {
    var e, s := q.envelopes[i], Fold(initial, q.envelopes, q.endings, i);
    match q.endings[i]
    case Skipped => takes[i].abandoned
    case Expired => !takes[i].abandoned && Late(e, takes[i].at)
    case Committed => !takes[i].abandoned && !Late(e, takes[i].at) && e.run(s).Done? && commits[i]
    case RolledBack => !takes[i].abandoned && !Late(e, takes[i].at) && !(e.run(s).Done? && commits[i])
  }

  ghost predicate Explained<S, R>(initial: S, q: State<S, R>, takes: seq<Taken>, commits: seq<bool>) {
    && Serial(initial, q) && |takes| == q.taken && |commits| == |q.endings|
    && (forall i: nat :: i < |q.endings| ==> EndedFor(initial, q, takes, commits, i))
    && (q.executing ==> q.taken > 0 && !takes[q.taken - 1].abandoned
                        && !Late(q.envelopes[q.taken - 1], takes[q.taken - 1].at))
  }

  lemma {:induction false} EndedStays<S, R>(initial: S, q: State<S, R>, takes: seq<Taken>, commits: seq<bool>,
                                            q': State<S, R>, takes': seq<Taken>, commits': seq<bool>, i: nat)
    requires i < |q.endings| <= |q.envelopes| && |q.endings| <= |takes| && |q.endings| <= |commits|
    requires |q'.endings| <= |q'.envelopes| && |q'.endings| <= |takes'| && |q'.endings| <= |commits'|
    requires q.envelopes <= q'.envelopes && q.endings <= q'.endings && takes <= takes' && commits <= commits'
    requires EndedFor(initial, q, takes, commits, i)
    ensures EndedFor(initial, q', takes', commits', i)
  {
    FoldStable(initial, q.envelopes, q.endings, q'.envelopes, q'.endings, i);
    assert q'.envelopes[i] == q.envelopes[i] && q'.endings[i] == q.endings[i];
    assert takes'[i] == takes[i] && commits'[i] == commits[i];
  }

  /** Steps that neither take nor end an envelope. */
  lemma {:induction false} QuietStep<S, R>(initial: S, q: State<S, R>, a: Action<S, R>, takes: seq<Taken>,
                                           commits: seq<bool>)
    requires Explained(initial, q, takes, commits) && !a.Take? && !a.Finish?
    ensures Explained(initial, Step(q, a), takes, commits) && |Step(q, a).endings| == |q.endings|
  {
    var q' := Step(q, a);
    StepKeeps(initial, q, a);
    assert q'.endings == q.endings && q'.executing == q.executing && q'.taken == q.taken;
    forall i: nat | i < |q'.endings|
      ensures EndedFor(initial, q', takes, commits, i)
    {
      EndedStays(initial, q, takes, commits, q', takes, commits, i);
    }
  }

  /** The worker takes an envelope: skips it, rejects it, or starts on it. */
  lemma {:induction false} TakeStep<S, R>(initial: S, q: State<S, R>, now: int, takes: seq<Taken>, commits: seq<bool>)
    requires Explained(initial, q, takes, commits) && CanTake(q)
    ensures
      var q' := TakeNext(q, now);
      Explained(initial, q', takes + [Taken(now, q.futures[q.taken].Cancelled?)],
                if q'.executing then commits else commits + [false])
  {
    var q', takes' := TakeNext(q, now), takes + [Taken(now, q.futures[q.taken].Cancelled?)];
    var commits' := if q'.executing then commits else commits + [false];
    TakeKeeps(initial, q, now);
    forall i: nat | i < |q'.endings|
      ensures EndedFor(initial, q', takes', commits', i)
    {
      if i < |q.endings| {
        EndedStays(initial, q, takes, commits, q', takes', commits', i);
      }
    }
  }

  /** The worker finishes the envelope it took. */
  lemma {:induction false} FinishStep<S, R>(initial: S, q: State<S, R>, committed: bool, takes: seq<Taken>,
                                            commits: seq<bool>)
    requires Explained(initial, q, takes, commits) && CanFinish(q)
    ensures Explained(initial, FinishCurrent(q, committed), takes, commits + [committed])
  {
    var q', commits' := FinishCurrent(q, committed), commits + [committed];
    FinishKeeps(initial, q, committed);
    FoldStable(initial, q.envelopes, q.endings, q'.envelopes, q'.endings, |q.endings|);
    forall i: nat | i < |q'.endings|
      ensures EndedFor(initial, q', takes, commits', i)
    {
      if i < |q.endings| {
        EndedStays(initial, q, takes, commits, q', takes, commits', i);
      }
    }
  }

  /** One action: what it takes and what it ends. */
  lemma {:induction false} StepExplained<S, R>(initial: S, q: State<S, R>, a: Action<S, R>, takes: seq<Taken>,
                                               commits: seq<bool>, takes': seq<Taken>, commits': seq<bool>)
    requires Explained(initial, q, takes, commits)
    requires takes' == if a.Take? && !q.executing && q.taken < |q.envelopes|
                       then takes + [Taken(a.now, q.taken < |q.futures| && q.futures[q.taken].Cancelled?)] else takes
    requires commits' == if |Step(q, a).endings| == |q.endings| then commits else commits + [a.Finish? && a.commits]
    ensures Explained(initial, Step(q, a), takes', commits')
  {
    match a
    case Take(now) => if CanTake(q) { TakeStep(initial, q, now, takes, commits); }
    case Finish(committed) => if CanFinish(q) { FinishStep(initial, q, committed, takes, commits); }
    case _ => QuietStep(initial, q, a, takes, commits);
  }

  lemma {:induction false} AllExplained<S, R>(capacity: nat, db: S, actions: seq<Action<S, R>>)
    ensures Explained(db, RunAll(New(capacity, db), actions), Takes(capacity, db, actions),
                      Commits(capacity, db, actions))
  {
    if actions != [] {
      var front, last := actions[..|actions| - 1], actions[|actions| - 1];
      AllExplained(capacity, db, front);
      StepExplained(db, RunAll(New(capacity, db), front), last, Takes(capacity, db, front),
                    Commits(capacity, db, front), Takes(capacity, db, actions), Commits(capacity, db, actions));
    }
  }

  /**
   An envelope that its caller had not given up ends expired exactly when it was taken after
   its deadline; taken in time, it commits exactly when it runs through and its commit does.
   */
  lemma {:induction false} DeadlinesDecide<S, R>(capacity: nat, db: S, actions: seq<Action<S, R>>, i: nat)
    requires i < |RunAll(New(capacity, db), actions).endings|
    ensures
      var q, takes := RunAll(New(capacity, db), actions), Takes(capacity, db, actions);
      var commits := Commits(capacity, db, actions);
      && |takes| == q.taken && |commits| == |q.endings| <= |q.envelopes| && |q.endings| <= q.taken
      && (q.endings[i] == Skipped <==> takes[i].abandoned)
      && (q.endings[i] == Expired <==> !takes[i].abandoned && Late(q.envelopes[i], takes[i].at))
      && (q.endings[i] == Committed <==>
          && !takes[i].abandoned && !Late(q.envelopes[i], takes[i].at)
          && q.envelopes[i].run(Fold(db, q.envelopes, q.endings, i)).Done? && commits[i])
  {
    AllExplained(capacity, db, actions);
    assert EndedFor(db, RunAll(New(capacity, db), actions), Takes(capacity, db, actions),
                    Commits(capacity, db, actions), i);
  }

  /** What is being executed was taken in time, and nobody had given it up. */
  lemma {:induction false} ExecutedInTime<S, R>(capacity: nat, db: S, actions: seq<Action<S, R>>)
    requires RunAll(New(capacity, db), actions).executing
    ensures
      var q, takes := RunAll(New(capacity, db), actions), Takes(capacity, db, actions);
      && 0 < q.taken == |takes| <= |q.envelopes|
      && !takes[q.taken - 1].abandoned && !Late(q.envelopes[q.taken - 1], takes[q.taken - 1].at)
  {
    AllExplained(capacity, db, actions);
  }

  /** What a caller that has not given up is told: its own result or error, a failed commit, or a missed deadline. */
  lemma {:induction false} CallersAreTold<S, R>(capacity: nat, db: S, actions: seq<Action<S, R>>, i: nat)
    requires i < |RunAll(New(capacity, db), actions).endings|
    ensures
      var q := RunAll(New(capacity, db), actions);
      && |q.endings| <= |q.envelopes| == |q.futures|
      && var e := q.envelopes[i].run(Fold(db, q.envelopes, q.endings, i));
         q.futures[i].Cancelled? || q.futures[i] ==
           match q.endings[i]
           case Committed => if e.Done? then Resolved(e.result) else Rejected(e.error)
           case RolledBack => Rejected(if e.Threw? then e.error else "COMMIT_FAILED")
           case Expired => Rejected("IPC_DEADLINE_EXCEEDED")
           case Skipped => Cancelled
  {
    Serialisable(capacity, db, actions);
    assert Told(db, RunAll(New(capacity, db), actions), i);
  }

  // ---- Callers ----------------------------------------------------------------------------

  /** The queue takes an envelope while it runs and has room, and a barrier as long as it has room. */
  lemma {:induction false} AcceptsExactly<S, R>(q: State<S, R>, e: Envelope<S, R>, noop: R)
    ensures Step(q, Submit(e)).envelopes ==
            if q.running && (q.capacity == 0 || |q.envelopes| - q.taken < q.capacity)
            then q.envelopes + [e] else q.envelopes
    ensures q.capacity == 0 || |q.envelopes| - q.taken < q.capacity <==>
            |Step(q, Barrier(noop)).envelopes| == |q.envelopes| + 1
  {
  }

  lemma {:induction false} OnlyStopStops<S, R>(q: State<S, R>, a: Action<S, R>)
    ensures Step(q, a).running <==> q.running && !a.Stop?
  {
  }

  /** It runs until somebody stops it. */
  lemma {:induction false} RunsUntilStopped<S, R>(capacity: nat, db: S, actions: seq<Action<S, R>>)
    ensures RunAll(New(capacity, db), actions).running <==> forall k :: 0 <= k < |actions| ==> !actions[k].Stop?
  {
    if actions != [] {
      var front, last := actions[..|actions| - 1], actions[|actions| - 1];
      RunsUntilStopped(capacity, db, front);
      OnlyStopStops(RunAll(New(capacity, db), front), last);
      assert forall k :: 0 <= k < |actions| ==> actions[k] == if k < |front| then front[k] else last;
    }
  }

  /** Action `k` gives future `i` up while it is pending. */
  ghost predicate GivesUp<S, R>(capacity: nat, db: S, actions: seq<Action<S, R>>, k: nat, i: nat) {
    && k < |actions| && actions[k] == Cancel(i)
    && var q := RunAll(New(capacity, db), actions[..k]); i < |q.futures| && q.futures[i].Pending?
  }

  lemma {:induction false} StepCancels<S, R>(q: State<S, R>, a: Action<S, R>, i: nat)
    requires i < |Step(q, a).futures|
    ensures Step(q, a).futures[i].Cancelled? <==>
            i < |q.futures| && (q.futures[i].Cancelled? || (q.futures[i].Pending? && a == Cancel(i)))
  {
  }

  /** A future is cancelled exactly when its own caller gave it up in time. */
  lemma {:induction false} CancelledExactly<S, R>(capacity: nat, db: S, actions: seq<Action<S, R>>, i: nat)
    requires i < |RunAll(New(capacity, db), actions).futures|
    ensures RunAll(New(capacity, db), actions).futures[i].Cancelled? <==>
            exists k: nat :: GivesUp(capacity, db, actions, k, i)
  {
    if actions != [] {
      var n := |actions| - 1;
      var front := actions[..n];
      var q := RunAll(New(capacity, db), front);
      StepCancels(q, actions[n], i);
      forall k: nat | k < n
        ensures GivesUp(capacity, db, actions, k, i) <==> GivesUp(capacity, db, front, k, i)
      {
        assert front[..k] == actions[..k];
      }
      assert GivesUp(capacity, db, actions, n, i) <==>
             actions[n] == Cancel(i) && i < |q.futures| && q.futures[i].Pending?;
      if i < |q.futures| {
        CancelledExactly(capacity, db, front, i);
        assert (exists k: nat :: GivesUp(capacity, db, actions, k, i)) <==>
               (exists k: nat :: GivesUp(capacity, db, front, k, i)) || GivesUp(capacity, db, actions, n, i);
      } else {
        forall k: nat | k <= n
          ensures !GivesUp(capacity, db, actions, k, i)
        {
          if k < n && GivesUp(capacity, db, front, k, i) {
            FuturesStay(capacity, db, front, k);
          }
        }
      }
    }
  }

  lemma {:induction false} FuturesOnlyAdded<S, R>(q: State<S, R>, a: Action<S, R>)
    ensures |q.futures| <= |Step(q, a).futures|
  {
  }

  lemma {:induction false} FuturesStay<S, R>(capacity: nat, db: S, actions: seq<Action<S, R>>, k: nat)
    requires k <= |actions|
    ensures |RunAll(New(capacity, db), actions[..k]).futures| <= |RunAll(New(capacity, db), actions).futures|
  {
    var n := |actions|;
    if k < n {
      FuturesStay(capacity, db, actions[..n - 1], k);
      FuturesOnlyAdded(RunAll(New(capacity, db), actions[..n - 1]), actions[n - 1]);
      assert actions[..n - 1][..k] == actions[..k];
    } else {
      assert actions[..k] == actions;
    }
  }
}
