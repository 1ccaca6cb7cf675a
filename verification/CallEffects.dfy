/**
 What a unit of work does to the store, table by table, and what the committed calls of a
 whole history come to.
 */
module CallEffects {
  import opened Basics
  import opened WriteQueue
  import opened UnitOfWork

  // ---- One call ---------------------------------------------------------------------------

  /** The event store takes the events: each names a company, and no id is taken or repeated. */
  ghost predicate EventsFit(log: seq<Event>, added: seq<Event>) {
    && (forall i :: 0 <= i < |added| ==> added[i].company.Some?)
    && (forall i, j :: 0 <= i < |log| && 0 <= j < |added| ==> log[i].id != added[j].id)
    && (forall i, j :: 0 <= i < j < |added| ==> added[i].id != added[j].id)
  }

  /** The outbox takes the records: each names an event of the log. */
  ghost predicate RecordsFit(log: seq<Event>, records: seq<Record>) {
    forall i :: 0 <= i < |records| ==>
      records[i].event.Some? && exists k :: 0 <= k < |log| && log[k].id == records[i].event.value
  }

  /** The command runs through, and the tables take what it publishes. */
  ghost predicate RunsThrough<A, J>(call: Call<A, J>, s: Store<A>) {
    var e := call.command(s.app);
    && e.Done? && EventsFit(s.events, e.result.events) && RecordsFit(s.events + e.result.events, e.result.outbox)
  }

  /** `more` are the outbox rows of `records`. */
  ghost predicate RowsFor(records: seq<Record>, more: seq<OutboxRow>) {
    |more| == |records| && forall i :: 0 <= i < |records| ==>
      && Some(more[i].event) == records[i].event
      && more[i].topic == records[i].topic && more[i].payload == records[i].payload
  }

  /** `s'` is `s` with the command's own writes and what it published; `keys` is left to the caller. */
  ghost predicate Applied<A, J>(call: Call<A, J>, s: Store<A>, s': Store<A>) {
    var e := call.command(s.app);
    && e.Done? && s'.app == e.state && s'.events == s.events + e.result.events
    && s.outbox <= s'.outbox && RowsFor(e.result.outbox, s'.outbox[|s.outbox|..])
  }

  /** What the key table keeps of a response: a string as it is, any other tree serialised. */
  ghost function Kept<J>(c: Codec<J>, r: Response<J>): string {
    if r.Text? then r.text else c.dumps(r.tree)
  }

  lemma {:induction false} PerformMeaning<A, J>(call: Call<A, J>, s: Store<A>)
    ensures Perform(call, s).Done? <==> RunsThrough(call, s)
    ensures RunsThrough(call, s) ==>
              && Applied(call, s, Perform(call, s).state) && Perform(call, s).state.keys == s.keys
              && Perform(call, s).result == call.command(s.app).result.response
  {
    var e := call.command(s.app);
    if e.Done? {
      var log, records := s.events + e.result.events, e.result.outbox;
      NoFaultMeansPublished(log, records);
      assert Appendable(s.events, e.result.events) <==> EventsFit(s.events, e.result.events);
      if RunsThrough(call, s) {
        assert OutboxFault(log, records).None?;
        assert (s.outbox + RowsOf(records))[|s.outbox|..] == RowsOf(records);
      }
    }
  }

  /** Without a key a call is its command. */
  lemma {:induction false} UnkeyedCall<A, J>(c: Codec<J>, call: Call<A, J>, s: Store<A>)
    requires call.key == None || call.key == Some("")
    ensures Execute(c, call, s).Done? <==> RunsThrough(call, s)
    ensures Execute(c, call, s).Done? ==>
              && Applied(call, s, Execute(c, call, s).state) && Execute(c, call, s).state.keys == s.keys
              && Execute(c, call, s).result == call.command(s.app).result.response
  {
    PerformMeaning(call, s);
  }

  /** On a free key it is its command and one completed row that holds hash and response. */
  lemma {:induction false} FreshCall<A, J>(c: Codec<J>, call: Call<A, J>, s: Store<A>)
    requires call.key.Some? && call.key.value != "" && call.key.value !in s.keys
    ensures Execute(c, call, s).Done? <==> |call.hash| == 64 && RunsThrough(call, s)
    ensures Execute(c, call, s).Done? ==>
              var r := call.command(s.app).result.response;
              && Applied(call, s, Execute(c, call, s).state) && Execute(c, call, s).result == r
              && Execute(c, call, s).state.keys == s.keys[call.key.value := KeyRow(call.hash, Completed,
                                                                                   Some(Kept(c, r)), "")]
  {
    PerformMeaning(call, s);
  }

  /** The first record that names no event of the log is what the outbox reports. */
  lemma {:induction false} FaultMeaning(log: seq<Event>, records: seq<Record>) returns (i: nat)
    ensures OutboxFault(log, records).Some? ==>
              && i < |records| && RecordsFit(log, records[..i]) && !RecordsFit(log, records[..i + 1])
              && OutboxFault(log, records).value == if records[i].event.None? then "OUTBOX_EVENT_REQUIRED"
                                                    else "FOREIGN KEY constraint failed"
  {
    i := 0;
    if OutboxFault(log, records).Some? {
      if records[0].event.Some? && HasEvent(log, records[0].event.value) {
        i := FaultMeaning(log, records[1..]);
        assert records[1..][..i] == records[1..i + 1] && records[1..][..i + 1] == records[1..i + 2];
        i := i + 1;
        assert records[..i] == [records[0]] + records[1..i] && records[..i + 1] == [records[0]] + records[1..i + 1];
        TailFits(log, records[0], records[1..i]);
        TailFits(log, records[0], records[1..i + 1]);
      } else {
        assert records[..1][0] == records[0];
      }
    }
  }

  lemma {:induction false} TailFits(log: seq<Event>, first: Record, rest: seq<Record>)
    requires first.event.Some? && HasEvent(log, first.event.value)
    ensures RecordsFit(log, [first] + rest) <==> RecordsFit(log, rest)
  {
    var all := [first] + rest;
    if RecordsFit(log, all) {
      forall i | 0 <= i < |rest|
        ensures rest[i].event.Some? && exists k :: 0 <= k < |log| && log[k].id == rest[i].event.value
      {
        assert all[i + 1] == rest[i];
      }
    }
  }

  /** A call that may run its command reports the command's own error, or what the tables refused. */
  lemma {:induction false} FailedCall<A, J>(c: Codec<J>, call: Call<A, J>, s: Store<A>)
    requires call.key == None || call.key == Some("") || call.key.value !in s.keys
    ensures
      var e, keyed := call.command(s.app), call.key.Some? && call.key.value != "";
      && (keyed && |call.hash| != 64 ==> Execute(c, call, s) == Threw("CHECK constraint failed"))
      && (!keyed || |call.hash| == 64 ==>
            && (e.Threw? ==> Execute(c, call, s) == Threw(e.error))
            && (e.Done? && !EventsFit(s.events, e.result.events) ==>
                  Execute(c, call, s) == Threw("constraint failed: domain_events"))
            && (e.Done? && EventsFit(s.events, e.result.events)
                && OutboxFault(s.events + e.result.events, e.result.outbox).Some? ==>
                  Execute(c, call, s) == Threw(OutboxFault(s.events + e.result.events, e.result.outbox).value)))
  {
    var e := call.command(s.app);
    if e.Done? {
      assert Appendable(s.events, e.result.events) <==> EventsFit(s.events, e.result.events);
    }
  }

  /** On a taken key nothing is written, and the row alone decides the answer. */
  lemma {:induction false} TakenKey<A, J>(c: Codec<J>, call: Call<A, J>, s: Store<A>)
    requires call.key.Some? && call.key.value != "" && call.key.value in s.keys
    ensures
      var row, e := s.keys[call.key.value], Execute(c, call, s);
      && (e.Done? ==> e.state == s)
      && (row.hash != call.hash || row.status.Processing? ==> e == Threw("IDEMPOTENCY_CONFLICT"))
      && (row.hash == call.hash && row.status.Failed? ==> e == Threw(row.error))
      && (row.hash == call.hash && row.status.Completed? && row.response.Some? && row.response.value != "" ==>
            match c.loads(row.response.value)
            case None => e == Threw("JSONDecodeError")
            case Some(r) => e == Done(s, r))
      && (row.hash == call.hash && row.status.Completed? && (row.response == None || row.response == Some("")) ==>
            e.Threw?)
  {
  }

  // ---- Whole histories --------------------------------------------------------------------

  /** Envelope `i` committed and brought a key that was free, or none. */
  ghost predicate First<A(!new), J>(c: Codec<J>, db: Store<A>, q: State<Store<A>, Response<J>>,
                                    calls: seq<Option<Call<A, J>>>, i: nat)
    requires Sound(c, db, q, calls) && i < |q.endings|
  {
    && calls[i].Some? && q.endings[i].Committed?
    && var key := calls[i].value.key; key == None || key == Some("") || key.value !in Before(db, q, i).keys
  }

  /** Exactly such an envelope runs its command; its caller, unless gone, is told the command's own response. */
  lemma {:induction false} FirstCallApplies<A(!new), J>(c: Codec<J>, db: Store<A>, q: State<Store<A>, Response<J>>,
                                                        calls: seq<Option<Call<A, J>>>, i: nat)
    requires Sound(c, db, q, calls) && i < |q.endings|
    ensures First(c, db, q, calls, i) <==> Effective(c, db, q, calls, i)
    ensures !First(c, db, q, calls, i) ==> Before(db, q, i + 1) == Before(db, q, i)
    ensures First(c, db, q, calls, i) ==>
              && Applied(calls[i].value, Before(db, q, i), Before(db, q, i + 1))
              && (q.futures[i].Cancelled?
                  || q.futures[i] == Resolved(calls[i].value.command(Before(db, q, i).app).result.response))
  {
    OneEnvelope(c, db, q, calls, i);
    if First(c, db, q, calls, i) {
      var call, s := calls[i].value, Before(db, q, i);
      if call.key == None || call.key == Some("") {
        UnkeyedCall(c, call, s);
      } else {
        FreshCall(c, call, s);
      }
    }
  }

  /** The application tables after the first `n` envelopes: each first call's command, once, in order. */
  ghost function Replayed<A(!new), J>(c: Codec<J>, db: Store<A>, q: State<Store<A>, Response<J>>,
                                      calls: seq<Option<Call<A, J>>>, n: nat): A
    requires Sound(c, db, q, calls) && n <= |q.endings|
  {
    if n == 0 then db.app
    else
      var app := Replayed(c, db, q, calls, n - 1);
      if !First(c, db, q, calls, n - 1) then app
      else match calls[n - 1].value.command(app) case Done(app', _) => app' case Threw(_) => app
  }

  /** The committed application tables are the fold of exactly the first calls' commands. */
  lemma {:induction false} OnlyFirstCallsWrite<A(!new), J>(c: Codec<J>, db: Store<A>, q: State<Store<A>, Response<J>>,
                                                           calls: seq<Option<Call<A, J>>>, n: nat)
    requires Sound(c, db, q, calls) && n <= |q.endings|
    ensures Before(db, q, n).app == Replayed(c, db, q, calls, n)
  {
    if n > 0 {
      OnlyFirstCallsWrite(c, db, q, calls, n - 1);
      FirstCallApplies(c, db, q, calls, n - 1);
    }
  }

  /** In particular the database of the queue itself, once the current envelope has ended. */
  lemma {:induction false} CommittedTables<A(!new), J>(c: Codec<J>, capacity: nat, db: Store<A>,
                                                       clients: seq<Client<A, J>>)
    requires forall i :: 0 <= i < |clients| ==> SubmitsNothing(clients[i])
    ensures
      var q, calls := Serve(c, capacity, db, clients), Accepted(c, capacity, db, clients);
      Sound(c, db, q, calls) && q.db.app == Replayed(c, db, q, calls, |q.endings|)
  {
    var q, calls := Serve(c, capacity, db, clients), Accepted(c, capacity, db, clients);
    EnvelopesCarryCalls(c, capacity, db, clients);
    OnlyFirstCallsWrite(c, db, q, calls, |q.endings|);
  }
}
