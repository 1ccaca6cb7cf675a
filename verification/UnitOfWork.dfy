/**
 One unit of work: look the idempotency key up, claim it, run the command, append its
 events, enqueue its outbox rows, complete the key.  All of it happens inside the
 transaction of the write queue, which rolls a failed call back as a whole.
 */
module UnitOfWork {
  import opened Basics
  import opened WriteQueue

  /** A command's response: a bare string is stored as it is, any other JSON tree is serialised. */
  datatype Response<+J> = Text(text: string) | Tree(tree: J)

  /** `json.dumps` on trees that are not strings, and `json.loads`, which may raise. */
  datatype Codec<!J> = Codec(dumps: J -> string, loads: string -> Option<Response<J>>)

  /** What Python's `json` promises: trees come back, and a string literal is longer than its value. */
  ghost predicate Faithful<J(!new)>(c: Codec<J>) {
    && (forall t :: c.loads(c.dumps(t)) == Some(Tree(t)) && c.dumps(t) != "")
    && (forall s :: c.loads(s).Some? && c.loads(s).value.Text? ==> |c.loads(s).value.text| < |s|)
  }

  datatype Event = Event(id: nat, company: Option<nat>, payload: string)
  datatype Record = Record(event: Option<nat>, topic: string, payload: string)
  datatype OutboxRow = OutboxRow(event: nat, topic: string, payload: string)
  datatype CommandResult<+J> = CommandResult(response: Response<J>, events: seq<Event>, outbox: seq<Record>)

  datatype KeyStatus = Processing | Completed | Failed
  datatype KeyRow = KeyRow(hash: string, status: KeyStatus, response: Option<string>, error: string)

  /** `app` is every table the unit of work itself does not write. */
  datatype Store<+A> = Store(app: A, keys: map<string, KeyRow>, events: seq<Event>, outbox: seq<OutboxRow>)

  datatype Call<!A, !J> = Call(key: Option<string>, hash: string, command: A -> Exec<A, CommandResult<J>>)

  // ---- What one call does -----------------------------------------------------------------

  /** An empty key is no key. */
  predicate Keyed<A, J>(call: Call<A, J>) {
    call.key.Some? && call.key.value != ""
  }

  datatype Cached = Miss | Hit(response: string) | Error(error: string) | Conflict

  function Lookup(keys: map<string, KeyRow>, key: string, hash: string): Cached {
    if key !in keys then Miss
    else
      var row := keys[key];
      if row.hash != hash then Conflict
      else if row.status.Completed? && row.response.Some? && row.response.value != "" then Hit(row.response.value)
      else if row.status.Failed? then Error(row.error)
      else if row.status.Processing? then Conflict
      else Miss
  }

  predicate HasEvent(log: seq<Event>, id: nat) {
    exists i :: 0 <= i < |log| && log[i].id == id
  }

  predicate DistinctIds(log: seq<Event>) {
    forall i, j :: 0 <= i < j < |log| ==> log[i].id != log[j].id
  }

  /** `domain_events` takes these rows: each names a company, and no id occurs twice. */
  predicate Appendable(log: seq<Event>, events: seq<Event>) {
    && (forall i :: 0 <= i < |events| ==> events[i].company.Some? && !HasEvent(log, events[i].id))
    && DistinctIds(events)
  }

  /** The first outbox record that names no event, or one that does not exist. */
  function OutboxFault(log: seq<Event>, records: seq<Record>): Option<string> {
    if records == [] then None
    else if records[0].event.None? then Some("OUTBOX_EVENT_REQUIRED")
    else if !HasEvent(log, records[0].event.value) then Some("FOREIGN KEY constraint failed")
    else OutboxFault(log, records[1..])
  }

  function RowOf(record: Record): OutboxRow {
    OutboxRow(if record.event.Some? then record.event.value else 0, record.topic, record.payload)
  }

  function RowsOf(records: seq<Record>): (rows: seq<OutboxRow>)
    ensures |rows| == |records|
  {
    seq(|records|, i requires 0 <= i < |records| => RowOf(records[i]))
  }

  /** The command and everything it publishes, with no idempotency key. */
  function Perform<A, J>(call: Call<A, J>, s: Store<A>): Exec<Store<A>, Response<J>> {
    match call.command(s.app)
    case Threw(error) => Threw(error)
    case Done(app, result) =>
      if !Appendable(s.events, result.events) then Threw("constraint failed: domain_events")
      else
        var log := s.events + result.events;
        match OutboxFault(log, result.outbox)
        case Some(fault) => Threw(fault)
        case None => Done(s.(app := app, events := log, outbox := s.outbox + RowsOf(result.outbox)), result.response)
  }

  function Encoded<J>(c: Codec<J>, r: Response<J>): string {
    match r case Text(s) => s case Tree(t) => c.dumps(t)
  }

  function CompletedRow<J>(c: Codec<J>, hash: string, r: Response<J>): KeyRow {
    KeyRow(hash, Completed, Some(Encoded(c, r)), "")
  }

  function Execute<A, J>(c: Codec<J>, call: Call<A, J>, s: Store<A>): Exec<Store<A>, Response<J>> {
    if !Keyed(call) then Perform(call, s)
    else
      var key := call.key.value;
      match Lookup(s.keys, key, call.hash)
      case Conflict => Threw("IDEMPOTENCY_CONFLICT")
      case Error(error) => Threw(error)
      case Hit(text) =>
        (match c.loads(text)
         case None => Threw("JSONDecodeError")
         case Some(response) => Done(s, response))
      case Miss =>
        if |call.hash| != 64 then Threw("CHECK constraint failed")
        else if key in s.keys then Threw("IDEMPOTENCY_CLAIM_FAILED")
        else match Perform(call, s)
             case Threw(error) => Threw(error)
             case Done(s', response) => Done(s'.(keys := s.keys[key := CompletedRow(c, call.hash, response)]), response)
  }

  // ---- One call ---------------------------------------------------------------------------

  ghost predicate TablesOk(events: seq<Event>, outbox: seq<OutboxRow>) {
    && DistinctIds(events)
    && forall i :: 0 <= i < |outbox| ==> HasEvent(events, outbox[i].event)
  }

  /** What every committed database keeps: no half-done key, and events that the outbox can rely on. */
  ghost predicate Clean<A>(s: Store<A>) {
    && (forall k :: k in s.keys ==> s.keys[k].status.Completed? && s.keys[k].response.Some? && |s.keys[k].hash| == 64)
    && TablesOk(s.events, s.outbox)
  }

  lemma {:induction false} NoFaultMeansPublished(log: seq<Event>, records: seq<Record>)
    ensures OutboxFault(log, records).None?
            <==> forall i :: 0 <= i < |records| ==> records[i].event.Some? && HasEvent(log, records[i].event.value)
  {
    if records != [] {
      NoFaultMeansPublished(log, records[1..]);
      assert forall i :: 0 <= i < |records| - 1 ==> records[i + 1] == records[1..][i];
      if OutboxFault(log, records).None? {
        forall i | 0 <= i < |records|
          ensures records[i].event.Some? && HasEvent(log, records[i].event.value)
        {
          if i > 0 {
            assert records[1..][i - 1] == records[i];
          }
        }
      }
    }
  }

  lemma {:induction false} PublishingKeeps(events: seq<Event>, outbox: seq<OutboxRow>, added: seq<Event>,
                                           records: seq<Record>)
    requires TablesOk(events, outbox) && Appendable(events, added) && OutboxFault(events + added, records).None?
    ensures TablesOk(events + added, outbox + RowsOf(records))
  {
    var log, rows := events + added, outbox + RowsOf(records);
    NoFaultMeansPublished(log, records);
    forall i, j | 0 <= i < j < |log|
      ensures log[i].id != log[j].id
    {
      if i < |events| <= j {
        assert !HasEvent(events, added[j - |events|].id);
      }
    }
    forall i | 0 <= i < |rows|
      ensures HasEvent(log, rows[i].event)
    {
      if i < |outbox| {
        var w :| 0 <= w < |events| && events[w].id == outbox[i].event;
        assert log[w] == events[w];
      } else {
        assert records[i - |outbox|].event.Some?;
      }
    }
  }

  /** No call commits a `processing` row or breaks the event tables. */
  lemma {:induction false} ExecuteKeepsClean<A, J>(c: Codec<J>, call: Call<A, J>, s: Store<A>)
    requires Clean(s) && Execute(c, call, s).Done?
    ensures Clean(Execute(c, call, s).state)
  {
    if Perform(call, s).Done? {
      var result := call.command(s.app).result;
      PublishingKeeps(s.events, s.outbox, result.events, result.outbox);
    }
  }

  /** The call ran its command: it had no key, or the first one to bring this key. */
  predicate TakesEffect<A, J>(c: Codec<J>, call: Call<A, J>, s: Store<A>) {
    Execute(c, call, s).Done? && (Keyed(call) ==> call.key.value !in s.keys)
  }

  /** On a fresh key a call does what the unkeyed call does, and records its outcome; nothing else changes the store. */
  lemma {:induction false} CallMeaning<A, J>(c: Codec<J>, call: Call<A, J>, s: Store<A>)
    ensures Keyed(call) && call.key.value !in s.keys && |call.hash| == 64 ==>
              match Perform(call, s)
              case Threw(error) => Execute(c, call, s) == Threw(error)
              case Done(s', r) => Execute(c, call, s)
                                  == Done(s'.(keys := s'.keys[call.key.value := CompletedRow(c, call.hash, r)]), r)
    ensures Execute(c, call, s).Done? && !TakesEffect(c, call, s) ==> Execute(c, call, s).state == s
  {
  }

  /**
   A key that a call completed answers every later call: another hash conflicts; the same
   hash gets the original response back exactly when that is not a bare string; the store
   never changes.
   */
  lemma {:induction false} ReplayMeaning<A, J(!new)>(c: Codec<J>, call: Call<A, J>, s: Store<A>, hash: string,
                                                     original: Response<J>)
    requires Faithful(c) && Keyed(call) && call.key.value in s.keys
    requires s.keys[call.key.value] == CompletedRow(c, hash, original)
    ensures !TakesEffect(c, call, s)
    ensures Execute(c, call, s).Done? ==> Execute(c, call, s).state == s
    ensures call.hash != hash ==> Execute(c, call, s) == Threw("IDEMPOTENCY_CONFLICT")
    ensures call.hash == hash ==> (Execute(c, call, s) == Done(s, original) <==> original.Tree?)
  {
    var text := Encoded(c, original);
    if call.hash == hash && text != "" {
      assert Lookup(s.keys, call.key.value, hash) == Hit(text);
    }
  }

  // ---- Calls through the queue ------------------------------------------------------------

  /** What the callers and the worker do; `Other` is any step that submits nothing. */
  datatype Client<!A, !J> =
    | Request(deadline: int, call: Call<A, J>)
    | Other(action: Action<Store<A>, Response<J>>)

  predicate SubmitsNothing<A, J>(a: Client<A, J>) {
    a.Other? ==> !a.action.Submit?
  }

  function ActionOf<A, J>(c: Codec<J>, a: Client<A, J>): Action<Store<A>, Response<J>> {
    match a
    case Request(deadline, call) => Submit(Envelope(Some(deadline), s => Execute(c, call, s)))
    case Other(action) => action
  }

  ghost function Serve<A, J>(c: Codec<J>, capacity: nat, db: Store<A>,
                             clients: seq<Client<A, J>>): State<Store<A>, Response<J>> {
    if clients == [] then New(capacity, db)
    else Step(Serve(c, capacity, db, clients[..|clients| - 1]), ActionOf(c, clients[|clients| - 1]))
  }

  /** The calls behind the accepted envelopes; a barrier has none. */
  ghost function Accepted<A, J>(c: Codec<J>, capacity: nat, db: Store<A>,
                                clients: seq<Client<A, J>>): seq<Option<Call<A, J>>> {
    if clients == [] then []
    else
      var before, last := clients[..|clients| - 1], clients[|clients| - 1];
      Accepted(c, capacity, db, before) + Adds(Serve(c, capacity, db, before), last)
  }

  /** An envelope runs its call; a barrier runs nothing. */
  ghost predicate Carries<A(!new), J>(c: Codec<J>, e: Envelope<Store<A>, Response<J>>, call: Option<Call<A, J>>) {
    match call
    case None => IsBarrier(e)
    case Some(u) => forall s :: e.run(s) == Execute(c, u, s)
  }

  ghost predicate CarriesAll<A(!new), J>(c: Codec<J>, envelopes: seq<Envelope<Store<A>, Response<J>>>,
                                         calls: seq<Option<Call<A, J>>>) {
    |calls| == |envelopes| && forall i :: 0 <= i < |calls| ==> Carries(c, envelopes[i], calls[i])
  }

  /** What one client adds to the calls behind the envelopes. */
  ghost function Adds<A, J>(q: State<Store<A>, Response<J>>, a: Client<A, J>): seq<Option<Call<A, J>>> {
    if Full(q) then []
    else match a
         case Request(_, call) => if q.running then [Some(call)] else []
         case Other(action) => if action.Barrier? then [None] else []
  }

  lemma {:induction false} ClientAdds<A(!new), J>(c: Codec<J>, q: State<Store<A>, Response<J>>, a: Client<A, J>,
                                                  calls: seq<Option<Call<A, J>>>)
    requires CarriesAll(c, q.envelopes, calls) && SubmitsNothing(a)
    ensures CarriesAll(c, Step(q, ActionOf(c, a)).envelopes, calls + Adds(q, a))
  {
  }

  /** Every run of the queue on which all writes are units of work is one the theorems below speak about. */
  lemma {:induction false} EnvelopesCarryCalls<A(!new), J>(c: Codec<J>, capacity: nat, db: Store<A>,
                                                           clients: seq<Client<A, J>>)
    requires forall i :: 0 <= i < |clients| ==> SubmitsNothing(clients[i])
    ensures Sound(c, db, Serve(c, capacity, db, clients), Accepted(c, capacity, db, clients))
  {
    if clients != [] {
      var before, last := clients[..|clients| - 1], clients[|clients| - 1];
      EnvelopesCarryCalls(c, capacity, db, before);
      StepKeeps(db, Serve(c, capacity, db, before), ActionOf(c, last));
      assert SubmitsNothing(last);
      ClientAdds(c, Serve(c, capacity, db, before), last, Accepted(c, capacity, db, before));
    }
  }

  /** The database in which envelope `i` is executed. */
  ghost function Before<A, J>(db: Store<A>, q: State<Store<A>, Response<J>>, i: nat): Store<A>
    requires i <= |q.endings| <= |q.envelopes|
  {
    Fold(db, q.envelopes, q.endings, i)
  }

  ghost predicate Sound<A(!new), J>(c: Codec<J>, db: Store<A>, q: State<Store<A>, Response<J>>,
                                    calls: seq<Option<Call<A, J>>>) {
    Serial(db, q) && CarriesAll(c, q.envelopes, calls)
  }

  /** Envelope `i` committed and its call ran its command. */
  ghost predicate Effective<A(!new), J>(c: Codec<J>, db: Store<A>, q: State<Store<A>, Response<J>>,
                                        calls: seq<Option<Call<A, J>>>, i: nat)
    requires Sound(c, db, q, calls) && i < |q.endings|
  {
    calls[i].Some? && q.endings[i].Committed? && TakesEffect(c, calls[i].value, Before(db, q, i))
  }

  /** The database after envelope `i` in terms of its call: only an effective call changes it. */
  lemma {:induction false} OneEnvelope<A(!new), J>(c: Codec<J>, db: Store<A>, q: State<Store<A>, Response<J>>,
                                                   calls: seq<Option<Call<A, J>>>, i: nat)
    requires Sound(c, db, q, calls) && i < |q.endings|
    ensures !Effective(c, db, q, calls, i) ==> Before(db, q, i + 1) == Before(db, q, i)
    ensures Effective(c, db, q, calls, i) ==> Before(db, q, i + 1) == Execute(c, calls[i].value, Before(db, q, i)).state
    ensures q.endings[i].Committed? && calls[i].Some? ==>
              && Execute(c, calls[i].value, Before(db, q, i)).Done?
              && (q.futures[i].Cancelled?
                  || q.futures[i] == Resolved(Execute(c, calls[i].value, Before(db, q, i)).result))
  {
    var s, e := Before(db, q, i), q.envelopes[i];
    assert Told(db, q, i) && Carries(c, e, calls[i]);
    if calls[i].Some? {
      assert e.run(s) == Execute(c, calls[i].value, s);
      CallMeaning(c, calls[i].value, s);
    } else {
      assert IsBarrier(e) && e.run(s).Done?;
    }
  }

  /** In every committed database no key is `processing`, event ids are unique and outbox rows have their events. */
  lemma {:induction false} NothingStaysProcessing<A(!new), J>(c: Codec<J>, db: Store<A>,
                                                              q: State<Store<A>, Response<J>>,
                                                              calls: seq<Option<Call<A, J>>>, n: nat)
    requires Sound(c, db, q, calls) && n <= |q.endings| && Clean(db)
    ensures Clean(Before(db, q, n))
  {
    if n > 0 {
      NothingStaysProcessing(c, db, q, calls, n - 1);
      OneEnvelope(c, db, q, calls, n - 1);
      if Effective(c, db, q, calls, n - 1) {
        ExecuteKeepsClean(c, calls[n - 1].value, Before(db, q, n - 1));
      }
    }
  }

  /** Rows of the key table are never changed or removed. */
  lemma {:induction false} KeysStay<A(!new), J>(c: Codec<J>, db: Store<A>, q: State<Store<A>, Response<J>>,
                                                calls: seq<Option<Call<A, J>>>, i: nat, j: nat, key: string)
    requires Sound(c, db, q, calls) && i <= j <= |q.endings| && key in Before(db, q, i).keys
    ensures key in Before(db, q, j).keys && Before(db, q, j).keys[key] == Before(db, q, i).keys[key]
  {
    if i < j {
      KeysStay(c, db, q, calls, i, j - 1, key);
      OneEnvelope(c, db, q, calls, j - 1);
    }
  }

  /** The key that envelope `i` brings is `key`. */
  ghost predicate Brings<A, J>(calls: seq<Option<Call<A, J>>>, i: nat, key: string) {
    i < |calls| && calls[i].Some? && Keyed(calls[i].value) && calls[i].value.key == Some(key)
  }

  /** Only the effective call that brings a key puts it into the table, and always does. */
  lemma {:induction false} KeyAppears<A(!new), J>(c: Codec<J>, db: Store<A>, q: State<Store<A>, Response<J>>,
                                                  calls: seq<Option<Call<A, J>>>, i: nat, key: string)
    requires Sound(c, db, q, calls) && i < |q.endings| && key !in Before(db, q, i).keys
    ensures key in Before(db, q, i + 1).keys <==> Brings(calls, i, key) && Effective(c, db, q, calls, i)
    ensures key in Before(db, q, i + 1).keys ==>
              Before(db, q, i + 1).keys[key]
                == CompletedRow(c, calls[i].value.hash, Execute(c, calls[i].value, Before(db, q, i)).result)
  {
    OneEnvelope(c, db, q, calls, i);
  }

  /**
   A key is in the table exactly when it was there at the start or a call that brings it
   took effect; that call's hash and response are what the row holds.
   */
  lemma {:induction false} KeyTableTellsHistory<A(!new), J>(c: Codec<J>, db: Store<A>, q: State<Store<A>, Response<J>>,
                                                            calls: seq<Option<Call<A, J>>>, n: nat, key: string)
    returns (i: nat)
    requires Sound(c, db, q, calls) && n <= |q.endings|
    ensures key in Before(db, q, n).keys && key !in db.keys ==>
              && i < n && Brings(calls, i, key) && Effective(c, db, q, calls, i)
              && Before(db, q, n).keys[key]
                 == CompletedRow(c, calls[i].value.hash, Execute(c, calls[i].value, Before(db, q, i)).result)
    ensures key !in Before(db, q, n).keys ==>
              forall k: nat :: k < n && Brings(calls, k, key) ==> !Effective(c, db, q, calls, k)
  {
    i := 0;
    if n > 0 {
      var last := n - 1;
      i := KeyTableTellsHistory(c, db, q, calls, last, key);
      if key in Before(db, q, last).keys {
        KeysStay(c, db, q, calls, last, n, key);
      } else {
        KeyAppears(c, db, q, calls, last, key);
        i := last;
      }
    }
  }

  /**
   Exactly once: after a call with some key took effect, no envelope with that key changes
   the database.  One with another hash does not commit; one with the same hash that commits
   reports the original response whenever that is not a bare string.
   */
  lemma {:induction false} EffectsCommitOnce<A(!new), J(!new)>(c: Codec<J>, db: Store<A>,
                                                               q: State<Store<A>, Response<J>>,
                                                               calls: seq<Option<Call<A, J>>>, i: nat, j: nat,
                                                               key: string)
    requires Faithful(c) && Sound(c, db, q, calls) && i < j < |q.endings|
    requires Brings(calls, i, key) && Brings(calls, j, key) && Effective(c, db, q, calls, i)
    ensures !Effective(c, db, q, calls, j) && Before(db, q, j + 1) == Before(db, q, j)
    ensures calls[j].value.hash != calls[i].value.hash ==> !q.endings[j].Committed?
    ensures var original := Execute(c, calls[i].value, Before(db, q, i)).result;
            calls[j].value.hash == calls[i].value.hash && original.Tree? && q.endings[j].Committed? ==>
              q.futures[j].Cancelled? || q.futures[j] == Resolved(original)
  {
    var first, again := calls[i].value, calls[j].value;
    var original := Execute(c, first, Before(db, q, i)).result;
    OneEnvelope(c, db, q, calls, i);
    OneEnvelope(c, db, q, calls, j);
    CallMeaning(c, first, Before(db, q, i));
    assert Before(db, q, i + 1).keys[key] == CompletedRow(c, first.hash, original);
    KeysStay(c, db, q, calls, i + 1, j, key);
    ReplayMeaning(c, again, Before(db, q, j), first.hash, original);
  }

  /** As long as every call with a key failed, the next one runs as if it were the first. */
  lemma {:induction false} FailedKeysStayReusable<A(!new), J>(c: Codec<J>, db: Store<A>,
                                                              q: State<Store<A>, Response<J>>,
                                                              calls: seq<Option<Call<A, J>>>, n: nat, key: string)
    requires Sound(c, db, q, calls) && n <= |q.endings| && key !in db.keys
    requires forall k: nat :: k < n && Brings(calls, k, key) ==> !q.endings[k].Committed?
    ensures key !in Before(db, q, n).keys
  {
    var i := KeyTableTellsHistory(c, db, q, calls, n, key);
  }

  // ---- Conservation -----------------------------------------------------------------------

  /** The events and outbox records of the effective calls among the first `n`, in order. */
  ghost function Published<A(!new), J>(c: Codec<J>, db: Store<A>, q: State<Store<A>, Response<J>>,
                                       calls: seq<Option<Call<A, J>>>, n: nat): (seq<Event>, seq<OutboxRow>)
    requires Sound(c, db, q, calls) && n <= |q.endings|
  {
    if n == 0 then ([], [])
    else
      var before := Published(c, db, q, calls, n - 1);
      if !Effective(c, db, q, calls, n - 1) then before
      else
        var e := calls[n - 1].value.command(Before(db, q, n - 1).app);
        if e.Threw? then before else (before.0 + e.result.events, before.1 + RowsOf(e.result.outbox))
  }

  /** What a call that takes effect adds to the event log and the outbox. */
  lemma {:induction false} CallPublishes<A, J>(c: Codec<J>, call: Call<A, J>, s: Store<A>)
    requires TakesEffect(c, call, s)
    ensures call.command(s.app).Done?
    ensures Execute(c, call, s).state.events == s.events + call.command(s.app).result.events
    ensures Execute(c, call, s).state.outbox == s.outbox + RowsOf(call.command(s.app).result.outbox)
  {
  }

  /** The event log and the outbox hold what the effective calls published, each once, and nothing else. */
  lemma {:induction false} OnlyEffectiveCallsPublish<A(!new), J>(c: Codec<J>, db: Store<A>,
                                                                 q: State<Store<A>, Response<J>>,
                                                                 calls: seq<Option<Call<A, J>>>, n: nat)
    requires Sound(c, db, q, calls) && n <= |q.endings|
    ensures var p := Published(c, db, q, calls, n);
            Before(db, q, n).events == db.events + p.0 && Before(db, q, n).outbox == db.outbox + p.1
  {
    if n > 0 {
      OnlyEffectiveCallsPublish(c, db, q, calls, n - 1);
      OneEnvelope(c, db, q, calls, n - 1);
      if Effective(c, db, q, calls, n - 1) {
        var before := Published(c, db, q, calls, n - 1);
        CallPublishes(c, calls[n - 1].value, Before(db, q, n - 1));
        var result := calls[n - 1].value.command(Before(db, q, n - 1).app).result;
        AppendAssoc(db.events, before.0, result.events);
        AppendAssoc(db.outbox, before.1, RowsOf(result.outbox));
      }
    }
  }

  // ---- The objects ------------------------------------------------------------------------

  /** `UnitOfWork` with its idempotency store, event store and outbox writer, on one connection. */
  class UnitOfWork<!A, !J> {
    const codec: Codec<J>
    var inTransaction: bool
    var app: A
    var keys: map<string, KeyRow>
    var events: seq<Event>
    var outbox: seq<OutboxRow>

    constructor (codec: Codec<J>, s: Store<A>)
      ensures View() == s && this.codec == codec && !inTransaction
    {
      this.codec, inTransaction := codec, false;
      app, keys, events, outbox := s.app, s.keys, s.events, s.outbox;
    }

    ghost function View(): Store<A>
      reads this
    {
      Store(app, keys, events, outbox)
    }

    /** `IdempotencyStore.claim`: `Ok(false)` when the key is taken, an error when another constraint fails. */
    method Claim(key: string, hash: string) returns (r: Result<bool, string>)
      modifies this`keys
      ensures r.Err? <==> |hash| != 64
      ensures r == Ok(true) <==> |hash| == 64 && key !in old(keys)
      ensures keys == if r == Ok(true) then old(keys)[key := KeyRow(hash, Processing, None, "")] else old(keys)
      ensures r.Err? ==> r.error == "CHECK constraint failed"
    {
      if |hash| != 64 {
        return Err("CHECK constraint failed");
      }
      if key in keys {
        return Ok(false);
      }
      keys := keys[key := KeyRow(hash, Processing, None, "")];
      return Ok(true);
    }

    /** `DomainEventStore.append_all` */
    method AppendAll(added: seq<Event>) returns (ok: bool)
      modifies this`events
      ensures ok == Appendable(old(events), added)
      ensures ok ==> events == old(events) + added
    {
      for i := 0 to |added|
        invariant events == old(events) + added[..i]
        invariant Appendable(old(events), added[..i])
      {
        var clash := HasEvent(events, added[i].id);
        if added[i].company.None? || clash {
          FailsAt(old(events), added, i);
          return false;
        }
        OneMoreEvent(old(events), added, i);
        assert added[..i + 1] == added[..i] + [added[i]];
        events := events + [added[i]];
      }
      assert added[..|added|] == added;
      return true;
    }

    /** `OutboxWriter.enqueue_all` */
    method EnqueueAll(records: seq<Record>) returns (fault: Option<string>)
      modifies this`outbox
      ensures fault == OutboxFault(events, records)
      ensures fault.None? ==> outbox == old(outbox) + RowsOf(records)
    {
      for i := 0 to |records|
        invariant OutboxFault(events, records) == OutboxFault(events, records[i..])
        invariant outbox == old(outbox) + RowsOf(records[..i])
      {
        assert records[i..][1..] == records[i + 1..] && records[i..][0] == records[i];
        if records[i].event.None? {
          return Some("OUTBOX_EVENT_REQUIRED");
        }
        if !HasEvent(events, records[i].event.value) {
          return Some("FOREIGN KEY constraint failed");
        }
        assert RowsOf(records[..i + 1]) == RowsOf(records[..i]) + [RowOf(records[i])];
        outbox := outbox + [OutboxRow(records[i].event.value, records[i].topic, records[i].payload)];
      }
      assert records[..|records|] == records;
      return None;
    }

    /** `IdempotencyStore.complete` with a response: updates the row if there is one. */
    method Complete(key: string, response: string)
      modifies this`keys
      ensures keys == if key in old(keys)
              then old(keys)[key := old(keys)[key].(status := Completed, response := Some(response))] else old(keys)
    {
      if key in keys {
        keys := keys[key := keys[key].(status := Completed, response := Some(response))];
      }
    }

    /** `UnitOfWork.execute`: when it raises, the queue throws away whatever it wrote. */
    method Run(call: Call<A, J>) returns (r: Result<Response<J>, string>)
      modifies this
      ensures inTransaction == old(inTransaction)
      ensures !old(inTransaction) ==> r == Err("WRITE_QUEUE_REQUIRED") && View() == old(View())
      ensures old(inTransaction) ==>
                match Execute(codec, call, old(View()))
                case Done(s, response) => r == Ok(response) && View() == s
                case Threw(error) => r == Err(error)
    {
      if !inTransaction {
        return Err("WRITE_QUEUE_REQUIRED");
      }
      if Keyed(call) {
        var cached := Lookup(keys, call.key.value, call.hash);
        match cached
        case Conflict => return Err("IDEMPOTENCY_CONFLICT");
        case Error(error) => return Err(error);
        case Hit(text) =>
          var loaded := codec.loads(text);
          return if loaded.Some? then Ok(loaded.value) else Err("JSONDecodeError");
        case Miss =>
          var claimed := Claim(call.key.value, call.hash);
          if claimed.Err? {
            return Err(claimed.error);
          }
          if !claimed.value {
            return Err("IDEMPOTENCY_CLAIM_FAILED");
          }
      }
      var e := call.command(app);
      if e.Threw? {
        return Err(e.error);
      }
      app := e.state;
      var ok := AppendAll(e.result.events);
      if !ok {
        return Err("constraint failed: domain_events");
      }
      var fault := EnqueueAll(e.result.outbox);
      if fault.Some? {
        return Err(fault.value);
      }
      if Keyed(call) {
        Complete(call.key.value, Encoded(codec, e.result.response));
        assert keys == old(keys)[call.key.value := CompletedRow(codec, call.hash, e.result.response)];
      }
      return Ok(e.result.response);
    }
  }

  lemma {:induction false} OneMoreEvent(log: seq<Event>, added: seq<Event>, i: nat)
    requires i < |added| && Appendable(log, added[..i])
    requires added[i].company.Some? && !HasEvent(log + added[..i], added[i].id)
    ensures Appendable(log, added[..i + 1])
  {
    var all := log + added[..i];
    assert forall k :: 0 <= k < |all| ==> all[k].id != added[i].id;
    forall k | 0 <= k < i
      ensures added[k].id != added[i].id
    {
      assert all[|log| + k] == added[k];
    }
    forall k | 0 <= k < |log|
      ensures log[k].id != added[i].id
    {
      assert all[k] == log[k];
    }
    forall k | 0 <= k < i
      ensures added[k].company.Some? && !HasEvent(log, added[k].id)
    {
      assert added[..i][k] == added[k];
    }
    forall k, m | 0 <= k < m < i
      ensures added[k].id != added[m].id
    {
      assert added[..i][k] == added[k] && added[..i][m] == added[m];
    }
  }

  lemma {:induction false} FailsAt(log: seq<Event>, added: seq<Event>, i: nat)
    requires i < |added|
    requires added[i].company.None? || HasEvent(log + added[..i], added[i].id)
    ensures !Appendable(log, added)
  {
    if added[i].company.Some? {
      var all := log + added[..i];
      var k :| 0 <= k < |all| && all[k].id == added[i].id;
      if k < |log| {
        assert HasEvent(log, added[i].id);
      } else {
        assert all[k] == added[k - |log|];
      }
    }
  }
}
