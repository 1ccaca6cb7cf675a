/**
 What the invariant says about every reachable state of the task protocol.
 */
module TaskTheorems {
  import opened Preflight
  import opened Records
  import opened ConfirmPlan
  import opened ConfirmedGraph
  import opened DispatchStrategies
  import opened TaskGraph
  import opened CompletionHandlers
  import opened Outbox
  import opened ProtocolSteps
  import opened TaskProtocol
  import CompanyTasks

  // ---- What steps never undo --------------------------------------------------------------

  /** Tasks and edges stay, and an accepted task stays accepted. */
  ghost predicate Later(db: Db, db': Db) {
    && |db.employeeTasks| <= |db'.employeeTasks|
    && db.employeeEdges <= db'.employeeEdges
    && forall u: nat :: u < |db.employeeTasks| && db.employeeTasks[u].status.Accepted? ==>
         db'.employeeTasks[u].status.Accepted?
  }

  lemma {:induction false} WriteEmployeeLater(db: Db, t: nat, res: RowResult)
    requires t < |db.employeeTasks|
    requires res.Changed? && db.employeeTasks[t].status.Accepted? ==> res.row.status.Accepted?
    ensures Later(db, Keep(db, WriteEmployee(db, t, res)))
  {
  }

  lemma {:induction false} HandlersLater(db: Db, t: nat, expected: nat, open: bool)
    ensures Later(db, Keep(db, Start(db, t, expected)))
    ensures Later(db, Keep(db, Submit(db, t, expected)))
    ensures Later(db, Keep(db, Accept(db, t, open)))
  {
    if t < |db.employeeTasks| {
      WriteEmployeeLater(db, t, StartRow(db.employeeTasks[t], expected));
      WriteEmployeeLater(db, t, SubmitRow(db.employeeTasks[t], expected));
      WriteEmployeeLater(db, t, AcceptRow(db.employeeTasks[t], open));
    }
  }

  lemma {:induction false} AdvanceLater(db: Db, upstream: nat, unresolvable: set<nat>)
    requires Inv(db) && AdvanceDb(db, upstream, unresolvable).Some?
    ensures Later(db, AdvanceDb(db, upstream, unresolvable).value)
  {
    var f, start, tb := FrameOf(db, unresolvable), Segments(db.employeeTasks, db.runs), Tables(db);
    assert WithSegments(tb, start) == tb;
    AdvanceKeepsGraph(f, tb, |db.departmentTasks|, start, upstream, |start.tasks|);
    var s := AdvanceUpTo(f, start, upstream, |start.tasks|).value;
    forall u: nat | u < |s.tasks| && start.tasks[u].status.Accepted?
      ensures s.tasks[u].status.Accepted?
    {
      assert AdvancedAt(tb.edges, start, s, upstream, |start.tasks|, u);
    }
  }

  lemma {:induction false} HandleLater(db: Db, row: OutboxRow, env: Env)
    requires Inv(db) && Handle(db, row, env).Some?
    ensures Later(db, Handle(db, row, env).value)
  {
    if row.topic.RunCompleted? && row.aggregate < |db.runs| && db.runs[row.aggregate].task < |db.employeeTasks| {
      var t := db.runs[row.aggregate].task;
      HandlersLater(db, t, db.employeeTasks[t].version, env.open);
    } else if env.task.Some? && (row.topic.ReviewSubmitted? || row.topic.ReviewIssueChanged?) {
      HandlersLater(db, env.task.value, 0, env.open);
    } else if row.topic.GraphAdvance? {
      AdvanceLater(db, row.aggregate, env.unresolvable);
    }
  }

  lemma {:induction false} DeliveryLater(db: Db, i: nat, env: Env)
    requires Inv(db) && i < |db.outbox| && DeliverOne(db, i, env).Some?
    ensures Later(db, DeliverOne(db, i, env).value)
  {
    if Triggered(db.outbox[i]) {
      HandleLater(db, db.outbox[i], env);
    }
  }

  lemma {:induction false} ConfirmLater(schema: Schema, db: Db, cmd: Command)
    requires Confirmable(schema, db, cmd)
    ensures Later(db, AfterConfirm(schema, db, cmd))
  {
    ConfirmExtends(schema, db, cmd);
    assert AfterConfirm(schema, db, cmd).employeeTasks == Tables(AfterConfirm(schema, db, cmd)).tasks;
  }

  lemma {:induction false} HandlerStepLater(db: Db, step: Step)
    requires HandlerStep(step)
    ensures Later(db, Apply(db, step))
  {
    match step
    case StartTask(t, expected) => HandlersLater(db, t, expected, false);
    case SubmitTask(t, expected) => HandlersLater(db, t, expected, false);
    case AcceptTask(t, open) => HandlersLater(db, t, 0, open);
    case FinishDepartment(_, _) | FinishCompany(_, _) =>
  }

  lemma {:induction false} StepLater(db: Db, step: Step)
    requires Inv(db)
    ensures Later(db, Apply(db, step))
  {
    match step
    case Confirm(schema, cmd) => if Confirmable(schema, db, cmd) { ConfirmLater(schema, db, cmd); }
    case StartTask(_, _) | SubmitTask(_, _) | AcceptTask(_, _) | FinishDepartment(_, _) | FinishCompany(_, _) =>
      HandlerStepLater(db, step);
    case AdvanceAgain(upstream, unresolvable) =>
      if AdvanceDb(db, upstream, unresolvable).Some? { AdvanceLater(db, upstream, unresolvable); }
    case DeliverRow(i, env) =>
      if i < |db.outbox| && DeliverOne(db, i, env).Some? {
        DeliveryLater(db, i, env);
      }
    case _ =>
  }

  lemma {:induction false} RunLater(db: Db, more: seq<Step>)
    requires Inv(db)
    ensures Inv(RunAll(db, more)) && Later(db, RunAll(db, more))
  {
    if more != [] {
      RunLater(db, more[..|more| - 1]);
      StepKeeps(RunAll(db, more[..|more| - 1]), more[|more| - 1]);
      StepLater(RunAll(db, more[..|more| - 1]), more[|more| - 1]);
    }
  }

  // ---- The theorems -----------------------------------------------------------------------

  /**
   Exactly-once dispatch: whatever was confirmed, started, submitted, accepted, advanced
   again or delivered again, a task has at most one run, and once a task with an upstream
   edge has one, its upstream task is accepted then and in every later state.
   */
  lemma {:induction false} ExactlyOnceDispatch(resources: Resources, steps: seq<Step>, t: nat, u: nat, more: seq<Step>)
    requires t < |RunAll(Empty(resources), steps).employeeTasks|
    ensures
      var db := RunAll(Empty(resources), steps);
      && RunCount(db.runs, t) <= 1
      && ((t, u) in db.employeeEdges && RunCount(db.runs, t) == 1 ==>
            u < |RunAll(db, more).employeeTasks| && RunAll(db, more).employeeTasks[u].status.Accepted?)
  {
    var db := RunAll(Empty(resources), steps);
    Reachable(resources, steps);
    assert TaskSound(Tables(db), |db.departmentTasks|, t);
    if (t, u) in db.employeeEdges {
      assert EdgeSound(Tables(db), (t, u));
    }
    RunLater(db, more);
  }

  /** Segments of a chain are accepted in chain order. */
  lemma {:induction false} AcceptanceFollowsTheChain(resources: Resources, steps: seq<Step>, t: nat, u: nat)
    requires (t, u) in RunAll(Empty(resources), steps).employeeEdges
    ensures
      var tasks := RunAll(Empty(resources), steps).employeeTasks;
      u < t < |tasks| && (tasks[t].status.Accepted? ==> tasks[u].status.Accepted?)
  {
    Reachable(resources, steps);
    assert EdgeSound(Tables(RunAll(Empty(resources), steps)), (t, u));
  }

  /**
   No lost wake-up: a waiting task whose upstream tasks are all accepted has a pending
   `graph_advance` row, and a committed delivery of that row settles it by the verdict on
   its frozen spec: assigned with its one run, or failed with none.
   */
  lemma {:induction false} NoLostWakeup(resources: Resources, steps: seq<Step>, t: nat) returns (i: nat)
    requires Due(Tables(RunAll(Empty(resources), steps)), t)
    ensures
      var db := RunAll(Empty(resources), steps);
      && i < |db.outbox| && Wakes(db.employeeEdges, db.outbox[i], t)
      && forall env: Env :: DeliverOne(db, i, env).Some? ==> Resolved(db, DeliverOne(db, i, env).value, t)
  {
    var db := RunAll(Empty(resources), steps);
    Reachable(resources, steps);
    i :| 0 <= i < |db.outbox| && Wakes(db.employeeEdges, db.outbox[i], t);
    forall env: Env | DeliverOne(db, i, env).Some?
      ensures Resolved(db, DeliverOne(db, i, env).value, t)
    {
      WakingDeliveryResolves(db, i, env, t);
    }
  }

  /** Once no `graph_advance` row is pending, no task that follows others waits while all of them are accepted. */
  lemma {:induction false} NobodyDueWhenDrained(resources: Resources, steps: seq<Step>, t: nat)
    requires
      var db := RunAll(Empty(resources), steps);
      forall i :: 0 <= i < |db.outbox| ==> !(db.outbox[i].pending && db.outbox[i].topic.GraphAdvance?)
    ensures !Due(Tables(RunAll(Empty(resources), steps)), t)
  {
    Reachable(resources, steps);
  }

  /** What `after` made of the waiting task `t` of `db`: assigned exactly on `Dispatch`, failed exactly on `Fail`. */
  ghost predicate Resolved(db: Db, after: Db, t: nat) {
    && t < |after.employeeTasks| && t in db.specs && db.specs[t].department < |db.departmentTasks|
    && match SegmentVerdict(db.resources, db.specs[t], db.departmentTasks[db.specs[t].department].departmentId)
       case Dispatch(tags) =>
         && after.employeeTasks[t].status.Assigned?
         && RunCount(after.runs, t) == 1 && SegmentRun(db.specs[t], t, tags) in after.runs
       case Fail => after.employeeTasks[t].status.Failed? && RunCount(after.runs, t) == 0
       case Abort => false
  }

  /** A due task has a spec, a department and no run. */
  lemma {:induction false} DueHasSpec(db: Db, t: nat)
    requires Inv(db) && Due(Tables(db), t)
    ensures t in db.specs && db.specs[t].department < |db.departmentTasks| && RunCount(db.runs, t) == 0
  {
    var x :| x in db.employeeEdges && x.0 == t;
    assert EdgeSound(Tables(db), x);
    assert TaskSound(Tables(db), |db.departmentTasks|, t);
  }

  lemma {:induction false} WakingDeliveryResolves(db: Db, i: nat, env: Env, t: nat)
    requires Inv(db) && i < |db.outbox| && Due(Tables(db), t) && Wakes(db.employeeEdges, db.outbox[i], t)
    requires DeliverOne(db, i, env).Some?
    ensures Resolved(db, DeliverOne(db, i, env).value, t)
  {
    var f, start := FrameOf(db, env.unresolvable), Segments(db.employeeTasks, db.runs);
    DueHasSpec(db, t);
    AdvanceOutcome(f, start, db.outbox[i].aggregate, |start.tasks|, t);
  }

  /** Dependent `k` is to be dispatched and its routing candidates cannot be resolved. */
  ghost predicate Unroutable(db: Db, env: Env, upstream: nat, k: nat) {
    var f, start := FrameOf(db, env.unresolvable), Segments(db.employeeTasks, db.runs);
    DueIn(f, start, upstream, k) && VerdictIn(f, k).Dispatch? && k in env.unresolvable
  }

  /** In a sound database no employee row is missing, so that is the only way an advance raises. */
  lemma {:induction false} OnlyRoutingRaises(db: Db, env: Env, upstream: nat, k: nat)
    requires Inv(db)
    ensures RaisesAt(FrameOf(db, env.unresolvable), Segments(db.employeeTasks, db.runs), upstream, k)
            <==> Unroutable(db, env, upstream, k)
  {
  }

  /** An advance raises exactly when some due dependent that is to be dispatched cannot be routed. */
  lemma {:induction false} AdvanceRaisesOnRouting(db: Db, env: Env, upstream: nat)
    requires Inv(db)
    ensures AdvanceDb(db, upstream, env.unresolvable).None? <==>
            exists k: nat :: k < |db.employeeTasks| && Unroutable(db, env, upstream, k)
  {
    var f, start := FrameOf(db, env.unresolvable), Segments(db.employeeTasks, db.runs);
    AdvanceRaisesExactly(f, start, upstream, |db.employeeTasks|);
    forall k: nat
      ensures RaisesAt(f, start, upstream, k) <==> Unroutable(db, env, upstream, k)
    {
      OnlyRoutingRaises(db, env, upstream, k);
    }
  }

  /** The waking delivery commits exactly when every due dependent that is to be dispatched can be routed. */
  lemma {:induction false} WakingDeliveryCommits(resources: Resources, steps: seq<Step>, i: nat, env: Env, t: nat)
    requires
      var db := RunAll(Empty(resources), steps);
      i < |db.outbox| && Wakes(db.employeeEdges, db.outbox[i], t)
    ensures
      var db := RunAll(Empty(resources), steps);
      DeliverOne(db, i, env).Some? <==>
      forall k: nat :: k < |db.employeeTasks| ==> !Unroutable(db, env, db.outbox[i].aggregate, k)
  {
    Reachable(resources, steps);
    var db := RunAll(Empty(resources), steps);
    AdvanceRaisesOnRouting(db, env, db.outbox[i].aggregate);
  }

  // ---- What raises ------------------------------------------------------------------------

  /** The review's employee task is suspended, and its gate is open. */
  ghost predicate SuspendedTask(db: Db, env: Env) {
    env.task.Some? && env.task.value < |db.employeeTasks| && db.employeeTasks[env.task.value].resume.Some? && env.open
  }

  ghost predicate SuspendedDepartment(db: Db, d: nat, open: bool) {
    d < |db.departmentTasks| && db.departmentTasks[d].resume.Some? && open && DepartmentGate(db.employeeTasks, d)
  }

  ghost predicate SuspendedCompany(db: Db, c: nat, open: bool) {
    c < |db.companyTasks| && db.companyTasks[c].row.resume.Some? && open && CompanyGate(db.departmentTasks, c)
  }

  /** What makes the command of a row raise. */
  ghost predicate Raises(db: Db, row: OutboxRow, env: Env) {
    match row.topic
    case RunCompleted | CompanyStatusChanged => false
    case ReviewSubmitted | ReviewIssueChanged => SuspendedTask(db, env)
    case EmployeeStatusChanged =>
      && row.aggregate < |db.employeeTasks|
      && SuspendedDepartment(db, db.employeeTasks[row.aggregate].department, env.open)
    case DepartmentStatusChanged =>
      && row.aggregate < |db.departmentTasks|
      && SuspendedCompany(db, db.departmentTasks[row.aggregate].companyTask, env.open)
    case GraphAdvance => exists k: nat :: k < |db.employeeTasks| && Unroutable(db, env, row.aggregate, k)
  }

  /** A command raises, and undoes its batch, exactly on a suspended row behind an open gate or a routing failure. */
  lemma {:induction false} HandleRaisesExactly(db: Db, row: OutboxRow, env: Env)
    requires Inv(db)
    ensures Handle(db, row, env).None? <==> Raises(db, row, env)
  {
    match row.topic
    case GraphAdvance => AdvanceRaisesOnRouting(db, env, row.aggregate);
    case ReviewSubmitted | ReviewIssueChanged =>
      if env.task.Some? && env.task.value < |db.employeeTasks| {
        assert TaskSound(Tables(db), |db.departmentTasks|, env.task.value);
      }
    case RunCompleted =>
      if row.aggregate < |db.runs| && db.runs[row.aggregate].task < |db.employeeTasks| {
        assert TaskSound(Tables(db), |db.departmentTasks|, db.runs[row.aggregate].task);
      }
    case _ =>
  }

  // ---- Completion -------------------------------------------------------------------------

  /** The tasks of a completed department are accepted, or cancelled and not a merge. */
  lemma {:induction false} CompletedDepartmentsAreClosed(resources: Resources, steps: seq<Step>, t: nat)
    requires t < |RunAll(Empty(resources), steps).employeeTasks|
    ensures
      var db := RunAll(Empty(resources), steps);
      var d := db.employeeTasks[t].department;
      d < |db.departmentTasks| && (db.departmentTasks[d].status.Completed? ==> Closed(db.employeeTasks[t]))
  {
    var db := RunAll(Empty(resources), steps);
    Reachable(resources, steps);
    assert TaskSound(Tables(db), |db.departmentTasks|, t);
    assert DepartmentSound(db.companyTasks, db.departmentTasks, db.employeeTasks, db.employeeTasks[t].department);
  }

  /** Every department of a completed company task is completed or cancelled. */
  lemma {:induction false} CompletedCompaniesAreOver(resources: Resources, steps: seq<Step>, d: nat)
    requires d < |RunAll(Empty(resources), steps).departmentTasks|
    ensures
      var db := RunAll(Empty(resources), steps);
      var c := db.departmentTasks[d].companyTask;
      c < |db.companyTasks| && (db.companyTasks[c].row.state.Completed? ==> Over(db.departmentTasks[d]))
  {
    var db := RunAll(Empty(resources), steps);
    Reachable(resources, steps);
    assert DepartmentSound(db.companyTasks, db.departmentTasks, db.employeeTasks, d);
    assert CompanySound(db.companyTasks, db.departmentTasks, db.departmentTasks[d].companyTask);
  }

  // ---- At most one confirmation per company task ------------------------------------------

  ghost predicate PastApprovalAt(db: Db, ct: nat) {
    ct < |db.companyTasks| && CompanyTasks.PastApproval(db.companyTasks[ct].row)
  }

  lemma {:induction false} HandleKeepsApproval(db: Db, row: OutboxRow, env: Env, ct: nat)
    requires PastApprovalAt(db, ct) && Handle(db, row, env).Some?
    ensures PastApprovalAt(Handle(db, row, env).value, ct)
  {
  }

  lemma {:induction false} DeliveryKeepsApproval(db: Db, i: nat, env: Env, ct: nat)
    requires PastApprovalAt(db, ct) && i < |db.outbox| && DeliverOne(db, i, env).Some?
    ensures PastApprovalAt(DeliverOne(db, i, env).value, ct)
  {
    if Triggered(db.outbox[i]) {
      HandleKeepsApproval(db, db.outbox[i], env, ct);
    }
  }

  lemma {:induction false} ConfirmKeepsApproval(schema: Schema, db: Db, cmd: Command, ct: nat)
    requires PastApprovalAt(db, ct) && Confirmable(schema, db, cmd)
    ensures PastApprovalAt(AfterConfirm(schema, db, cmd), ct)
  {
  }

  lemma {:induction false} MoveKeepsApproval(db: Db, c: nat, target: CompanyTasks.State, ct: nat)
    requires PastApprovalAt(db, ct)
    ensures PastApprovalAt(Apply(db, MoveCompany(c, target)), ct)
  {
    if c == ct && CompanyTasks.Move(db.companyTasks[c].row, target).Some? {
      CompanyTasks.PastApprovalIsFinal(db.companyTasks[c].row, target);
    }
  }

  lemma {:induction false} StepKeepsApproval(db: Db, step: Step, ct: nat)
    requires PastApprovalAt(db, ct)
    ensures PastApprovalAt(Apply(db, step), ct)
  {
    match step
    case DeliverRow(i, env) =>
      if i < |db.outbox| && DeliverOne(db, i, env).Some? {
        DeliveryKeepsApproval(db, i, env, ct);
      }
    case Confirm(schema, cmd) => if Confirmable(schema, db, cmd) { ConfirmKeepsApproval(schema, db, cmd, ct); }
    case MoveCompany(c, target) => MoveKeepsApproval(db, c, target, ct);
    case _ =>
  }

  lemma {:induction false} RunKeepsApproval(db: Db, more: seq<Step>, ct: nat)
    requires PastApprovalAt(db, ct)
    ensures PastApprovalAt(RunAll(db, more), ct)
  {
    if more != [] {
      RunKeepsApproval(db, more[..|more| - 1], ct);
      StepKeepsApproval(RunAll(db, more[..|more| - 1]), more[|more| - 1], ct);
    }
  }

  /** Once a command confirms a company task, no command ever confirms it again. */
  lemma {:induction false} AtMostOneConfirmation(db: Db, schema: Schema, cmd: Command, more: seq<Step>,
                                                 schema': Schema, cmd': Command)
    requires Confirmable(schema, db, cmd) && cmd'.companyTask == cmd.companyTask
    ensures !Confirmable(schema', RunAll(AfterConfirm(schema, db, cmd), more), cmd')
  {
    RunKeepsApproval(AfterConfirm(schema, db, cmd), more, cmd.companyTask);
  }

  // ---- Batches are runs -------------------------------------------------------------------

  ghost function DeliverySteps(batch: seq<(nat, Env)>, n: nat): seq<Step>
    requires n <= |batch|
  {
    if n == 0 then [] else DeliverySteps(batch, n - 1) + [DeliverRow(batch[n - 1].0, batch[n - 1].1)]
  }

  lemma {:induction false} OneMoreStep(db: Db, steps: seq<Step>, step: Step)
    ensures RunAll(db, steps + [step]) == Apply(RunAll(db, steps), step)
  {
    assert (steps + [step])[..|steps|] == steps;
  }

  lemma {:induction false} DeliveryIsAStep(db: Db, i: nat, env: Env)
    requires DeliverPending(db, i, env).Some?
    ensures DeliverPending(db, i, env).value == Apply(db, DeliverRow(i, env))
  {
  }

  lemma {:induction false} OneMoreDelivery(db: Db, batch: seq<(nat, Env)>, n: nat)
    requires 0 < n <= |batch| && DeliverUpTo(db, batch, n).Some?
    ensures DeliverUpTo(db, batch, n - 1).Some?
    ensures DeliverUpTo(db, batch, n).value ==
            Apply(DeliverUpTo(db, batch, n - 1).value, DeliverRow(batch[n - 1].0, batch[n - 1].1))
  {
    var before := DeliverUpTo(db, batch, n - 1);
    if before.Some? {
      DeliveryIsAStep(before.value, batch[n - 1].0, batch[n - 1].1);
    }
  }

  /** A committed batch of the outbox worker is a run of single deliveries, so all of the above holds of it. */
  lemma {:induction false} BatchIsARun(db: Db, batch: seq<(nat, Env)>, n: nat)
    requires n <= |batch| && DeliverUpTo(db, batch, n).Some?
    ensures DeliverUpTo(db, batch, n).value == RunAll(db, DeliverySteps(batch, n))
  {
    if n > 0 {
      OneMoreDelivery(db, batch, n);
      BatchIsARun(db, batch, n - 1);
      OneMoreStep(db, DeliverySteps(batch, n - 1), DeliverRow(batch[n - 1].0, batch[n - 1].1));
    }
  }
}
