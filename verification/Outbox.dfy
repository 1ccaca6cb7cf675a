/**
 Delivering outbox rows: which command a topic triggers, what it does inside the
 delivering transaction, and why draining the outbox ends.
 */
module Outbox {
  import opened Basics
  import opened Records
  import opened DispatchStrategies
  import opened CompletionHandlers

  /** What the database model leaves open about one delivery. */
  datatype Env = Env(
    task: Option<nat>,          // the employee task a review event resolves to
    open: bool,                 // the artifact, review and report queries of the gate
    unresolvable: set<nat>)     // tasks whose routing candidates cannot be resolved

  /** `EVENT_TO_STATE_TRIGGER` */
  predicate Triggered(row: OutboxRow) {
    match row.topic
    case RunCompleted => row.change == RunChange(Succeeded)
    case ReviewSubmitted => true
    case ReviewIssueChanged => row.change == IssueChange(true)
    case EmployeeStatusChanged => row.change == EmployeeChange(Accepted)
    case GraphAdvance => row.change == EmployeeChange(Accepted)
    case DepartmentStatusChanged => row.change == DepartmentChange(DepartmentStatus.Completed)
    case CompanyStatusChanged => false
  }

  function FrameOf(db: Db, unresolvable: set<nat>): Frame {
    Frame(db.employeeEdges, db.specs, db.departmentTasks, db.resources, unresolvable)
  }

  function AdvanceDb(db: Db, upstream: nat, unresolvable: set<nat>): Option<Db> {
    match AdvanceUpTo(FrameOf(db, unresolvable), Segments(db.employeeTasks, db.runs), upstream, |db.employeeTasks|)
    case None => None
    case Some(s) => Some(db.(employeeTasks := s.tasks, runs := s.runs))
  }

  /** A blocked gate leaves the database as it was; any other refusal raises. */
  function Evaluated(db: Db, r: Result<Db, HandlerError>): Option<Db> {
    match r
    case Ok(d) => Some(d)
    case Err(e) => if e.GateBlocked? then Some(db) else None
  }

  /** `_evaluate_internal_command` for the command of the row's topic; `None` when it raises. */
  function Handle(db: Db, row: OutboxRow, env: Env): Option<Db> {
    match row.topic
    case RunCompleted =>
      if row.aggregate >= |db.runs| || !db.runs[row.aggregate].status.Succeeded?
         || db.runs[row.aggregate].task >= |db.employeeTasks| then Some(db)
      else
        var t := db.runs[row.aggregate].task;
        (match Submit(db, t, db.employeeTasks[t].version)
         case Ok(d) => Some(d)
         case Err(e) => if e.LockConflict? || e.NotFound? then Some(db) else None)
    case ReviewSubmitted | ReviewIssueChanged =>
      if env.task.None? || env.task.value >= |db.employeeTasks| then Some(db)
      else Evaluated(db, Accept(db, env.task.value, env.open))
    case EmployeeStatusChanged =>
      if row.aggregate >= |db.employeeTasks| || db.employeeTasks[row.aggregate].department >= |db.departmentTasks|
      then Some(db)
      else Evaluated(db, CompleteDepartment(db, db.employeeTasks[row.aggregate].department, env.open))
    case GraphAdvance => AdvanceDb(db, row.aggregate, env.unresolvable)
    case DepartmentStatusChanged =>
      if row.aggregate >= |db.departmentTasks| || db.departmentTasks[row.aggregate].companyTask >= |db.companyTasks|
      then Some(db)
      else Evaluated(db, CompleteCompany(db, db.departmentTasks[row.aggregate].companyTask, env.open))
    case CompanyStatusChanged => Some(db)
  }

  function Marked(db: Db, i: nat): Db
    requires i < |db.outbox|
  {
    db.(outbox := db.outbox[i := db.outbox[i].(pending := false)])
  }

  lemma {:induction false} HandleExtendsOutbox(db: Db, row: OutboxRow, env: Env)
    requires Handle(db, row, env).Some?
    ensures db.outbox <= Handle(db, row, env).value.outbox
    ensures Weight(Handle(db, row, env).value.outbox[|db.outbox|..]) < Rank(row.topic)
  {
    var d := Handle(db, row, env).value;
    if d.outbox == db.outbox {
      assert d.outbox[|db.outbox|..] == [];
    } else {
      var more := d.outbox[|db.outbox|..];
      assert d.outbox == db.outbox + more;
      WeightOfTwo(more);
    }
  }

  /** One row of the delivery loop. */
  function DeliverOne(db: Db, i: nat, env: Env): Option<Db>
    requires i < |db.outbox|
  {
    var row := db.outbox[i];
    if !Triggered(row) then Some(Marked(db, i))
    else
      match Handle(db, row, env)
      case None => None
      case Some(d) =>
        HandleExtendsOutbox(db, row, env);
        Some(Marked(d, i))
  }

  /** A row that is no longer there to deliver is passed over. */
  function DeliverPending(db: Db, i: nat, env: Env): Option<Db> {
    if i < |db.outbox| && db.outbox[i].pending then DeliverOne(db, i, env) else Some(db)
  }

  /** The first `n` rows of a batch; the first exception undoes them all. */
  function DeliverUpTo(db: Db, batch: seq<(nat, Env)>, n: nat): Option<Db>
    requires n <= |batch|
  {
    if n == 0 then Some(db)
    else
      match DeliverUpTo(db, batch, n - 1)
      case None => None
      case Some(d) => DeliverPending(d, batch[n - 1].0, batch[n - 1].1)
  }

  /** `OutboxWorker`: one batch is one transaction. */
  class OutboxWorker {
    var db: Db

    method Deliver(batch: seq<(nat, Env)>) returns (ok: bool)
      modifies this
      ensures ok <==> DeliverUpTo(old(db), batch, |batch|).Some?
      ensures db == if ok then DeliverUpTo(old(db), batch, |batch|).value else old(db)
    {
      var saved := db;
      for n := 0 to |batch|
        invariant DeliverUpTo(saved, batch, n) == Some(db) && saved == old(db)
      {
        var next := DeliverPending(db, batch[n].0, batch[n].1);
        if next.None? {
          BatchAborts(saved, batch, n + 1, |batch|);
          db := saved;
          return false;
        }
        db := next.value;
      }
      return true;
    }
  }

  lemma {:induction false} BatchAborts(db: Db, batch: seq<(nat, Env)>, m: nat, n: nat)
    requires m <= n <= |batch| && DeliverUpTo(db, batch, m).None?
    ensures DeliverUpTo(db, batch, n).None?
  {
    if m < n {
      BatchAborts(db, batch, m, n - 1);
    }
  }

  // ---- Draining ends ----------------------------------------------------------------------

  /** More than the rank of everything a delivery of the topic can emit. */
  function Rank(t: Topic): nat {
    match t
    case CompanyStatusChanged => 1
    case GraphAdvance => 1
    case DepartmentStatusChanged => 2
    case EmployeeStatusChanged => 3
    case RunCompleted => 4
    case ReviewSubmitted | ReviewIssueChanged => 5
  }

  function RowWeight(row: OutboxRow): nat {
    if row.pending then Rank(row.topic) else 0
  }

  function Weight(outbox: seq<OutboxRow>): nat {
    if outbox == [] then 0 else RowWeight(outbox[0]) + Weight(outbox[1..])
  }

  lemma {:induction false} WeightOfTwo(outbox: seq<OutboxRow>)
    ensures |outbox| == 1 ==> Weight(outbox) == RowWeight(outbox[0])
    ensures |outbox| == 2 ==> Weight(outbox) == RowWeight(outbox[0]) + RowWeight(outbox[1])
  {
    if |outbox| == 1 {
      assert outbox[1..] == [];
    } else if |outbox| == 2 {
      WeightOfTwo(outbox[1..]);
    }
  }

  lemma {:induction false} WeightAppend(a: seq<OutboxRow>, b: seq<OutboxRow>)
    ensures Weight(a + b) == Weight(a) + Weight(b)
  {
    if a == [] {
      assert a + b == b;
    } else {
      assert (a + b)[1..] == a[1..] + b;
      WeightAppend(a[1..], b);
    }
  }

  lemma {:induction false} WeightMarked(outbox: seq<OutboxRow>, i: nat)
    requires i < |outbox|
    ensures Weight(outbox[i := outbox[i].(pending := false)]) == Weight(outbox) - RowWeight(outbox[i])
  {
    var row := outbox[i].(pending := false);
    assert outbox == outbox[..i] + ([outbox[i]] + outbox[i + 1..]);
    assert outbox[i := row] == outbox[..i] + ([row] + outbox[i + 1..]);
    WeightAppend(outbox[..i], [outbox[i]] + outbox[i + 1..]);
    WeightAppend(outbox[..i], [row] + outbox[i + 1..]);
    assert ([outbox[i]] + outbox[i + 1..])[1..] == outbox[i + 1..] && ([row] + outbox[i + 1..])[1..] == outbox[i + 1..];
  }

  /** A committed delivery of a pending row strictly lowers the weight of the outbox. */
  lemma {:induction false} DeliveryLowersWeight(db: Db, i: nat, env: Env)
    requires i < |db.outbox| && db.outbox[i].pending && DeliverOne(db, i, env).Some?
    ensures Weight(DeliverOne(db, i, env).value.outbox) < Weight(db.outbox)
  {
    var row := db.outbox[i];
    if !Triggered(row) {
      WeightMarked(db.outbox, i);
    } else {
      HandleExtendsOutbox(db, row, env);
      var d := Handle(db, row, env).value;
      var more := d.outbox[|db.outbox|..];
      assert d.outbox == db.outbox + more;
      WeightAppend(db.outbox, more);
      WeightMarked(d.outbox, i);
      assert d.outbox[i] == row;
    }
  }

  /** Every delivery in `steps` finds a pending row and commits. */
  ghost predicate Drains(db: Db, steps: seq<(nat, Env)>)
    decreases |steps|
  {
    steps == []
    || (&& steps[0].0 < |db.outbox| && db.outbox[steps[0].0].pending && DeliverOne(db, steps[0].0, steps[0].1).Some?
        && Drains(DeliverOne(db, steps[0].0, steps[0].1).value, steps[1..]))
  }

  /** However rows are picked, no more deliveries commit than the outbox weighs. */
  lemma {:induction false} DrainingEnds(db: Db, steps: seq<(nat, Env)>)
    requires Drains(db, steps)
    ensures |steps| <= Weight(db.outbox)
    decreases |steps|
  {
    if steps != [] {
      DeliveryLowersWeight(db, steps[0].0, steps[0].1);
      DrainingEnds(DeliverOne(db, steps[0].0, steps[0].1).value, steps[1..]);
    }
  }
}
