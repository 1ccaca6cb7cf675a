/**
 The tasks nothing will ever wake: those at the head of a chain in a department that
 waits for another one, and all that follow them.
 */
module StalledTasks {
  import opened Basics
  import opened Plans
  import opened Preflight
  import opened Records
  import opened ConfirmPlan
  import opened ConfirmedGraph
  import opened DispatchStrategies
  import opened CompletionHandlers
  import opened TaskGraph
  import opened Outbox
  import opened ProtocolSteps
  import opened TaskProtocol
  import opened TaskTheorems
  import opened ConfirmationTheorems

  /** Task `t` waits, and so does everybody before it in its chain. */
  ghost predicate Stuck(tasks: seq<EmployeeTask>, edges: set<(nat, nat)>, t: nat) {
    && t < |tasks| && tasks[t].status.WaitingResource?
    && (t == 0 || (t, (t - 1) as nat) !in edges || Stuck(tasks, edges, t - 1))
  }

  // ---- What steps do to suspended rows ----------------------------------------------------

  /** The task before `t` in its chain is accepted. */
  ghost predicate Freed(db: Db, t: nat) {
    0 < t <= |db.employeeTasks| && (t, (t - 1) as nat) in db.employeeEdges && db.employeeTasks[t - 1].status.Accepted?
  }

  /** A suspended task changes only once it is freed, nobody is paused, and new edges are those of new tasks. */
  ghost predicate TasksWait(db: Db, db': Db) {
    && |db.employeeTasks| <= |db'.employeeTasks|
    && (forall x :: x in db'.employeeEdges && x.0 < |db.employeeTasks| ==> x in db.employeeEdges)
    && (forall t: nat :: t < |db.employeeTasks| && db.employeeTasks[t].resume.Some? ==>
          db'.employeeTasks[t] == db.employeeTasks[t] || Freed(db, t))
    && (forall t: nat :: t < |db'.employeeTasks| && db'.employeeTasks[t].status.Paused? ==>
          t < |db.employeeTasks| && db.employeeTasks[t].status.Paused?)
  }

  /** A suspended department never changes. */
  ghost predicate DepartmentsWait(db: Db, db': Db) {
    && |db.departmentTasks| <= |db'.departmentTasks|
    && (forall d: nat :: d < |db.departmentTasks| && db.departmentTasks[d].resume.Some? ==>
          db'.departmentTasks[d] == db.departmentTasks[d])
  }

  ghost predicate Waits(db: Db, db': Db) {
    TasksWait(db, db') && DepartmentsWait(db, db')
  }

  lemma {:induction false} WriteWaits(db: Db, t: nat, res: RowResult)
    requires t < |db.employeeTasks|
    requires res.Changed? ==> db.employeeTasks[t].resume.None? && !res.row.status.Paused?
    ensures Waits(db, Keep(db, WriteEmployee(db, t, res)))
  {
  }

  lemma {:induction false} EmployeesWait(db: Db, t: nat, expected: nat, open: bool)
    requires Inv(db)
    ensures Waits(db, Keep(db, Start(db, t, expected)))
    ensures Waits(db, Keep(db, Submit(db, t, expected)))
    ensures Waits(db, Keep(db, Accept(db, t, open)))
  {
    if t < |db.employeeTasks| {
      assert TaskSound(Tables(db), |db.departmentTasks|, t);
      WriteWaits(db, t, StartRow(db.employeeTasks[t], expected));
      WriteWaits(db, t, SubmitRow(db.employeeTasks[t], expected));
      WriteWaits(db, t, AcceptRow(db.employeeTasks[t], open));
    }
  }

  lemma {:induction false} DepartmentWaits(db: Db, d: nat, open: bool)
    ensures Waits(db, Keep(db, CompleteDepartment(db, d, open)))
  {
  }

  lemma {:induction false} AdvanceWaits(db: Db, upstream: nat, unresolvable: set<nat>)
    requires Inv(db) && AdvanceDb(db, upstream, unresolvable).Some?
    ensures Waits(db, AdvanceDb(db, upstream, unresolvable).value)
  {
    var f, start := FrameOf(db, unresolvable), Segments(db.employeeTasks, db.runs);
    var db' := AdvanceDb(db, upstream, unresolvable).value;
    forall t: nat | t < |db.employeeTasks|
      ensures db'.employeeTasks[t] == db.employeeTasks[t] || (Freed(db, t) && !db'.employeeTasks[t].status.Paused?)
    {
      AdvanceOutcome(f, start, upstream, |start.tasks|, t);
      if DueIn(f, start, upstream, t) {
        assert (t, upstream) in db.employeeEdges && (t, upstream).0 == upstream + 1;
      }
    }
  }

  lemma {:induction false} RunCompletedWaits(db: Db, row: OutboxRow, env: Env)
    requires Inv(db) && row.topic.RunCompleted? && Handle(db, row, env).Some?
    ensures Waits(db, Handle(db, row, env).value)
  {
    if row.aggregate < |db.runs| && db.runs[row.aggregate].task < |db.employeeTasks| {
      var t := db.runs[row.aggregate].task;
      EmployeesWait(db, t, db.employeeTasks[t].version, env.open);
    }
  }

  lemma {:induction false} ReviewWaits(db: Db, row: OutboxRow, env: Env)
    requires Inv(db) && (row.topic.ReviewSubmitted? || row.topic.ReviewIssueChanged?) && Handle(db, row, env).Some?
    ensures Waits(db, Handle(db, row, env).value)
  {
    if env.task.Some? {
      EmployeesWait(db, env.task.value, 0, env.open);
    }
  }

  lemma {:induction false} HandleWaits(db: Db, row: OutboxRow, env: Env)
    requires Inv(db) && Handle(db, row, env).Some?
    ensures Waits(db, Handle(db, row, env).value)
  {
    match row.topic
    case GraphAdvance => AdvanceWaits(db, row.aggregate, env.unresolvable);
    case RunCompleted => RunCompletedWaits(db, row, env);
    case ReviewSubmitted | ReviewIssueChanged => ReviewWaits(db, row, env);
    case EmployeeStatusChanged =>
      if row.aggregate < |db.employeeTasks| {
        DepartmentWaits(db, db.employeeTasks[row.aggregate].department, env.open);
      }
    case _ =>
  }

  lemma {:induction false} DeliveryWaits(db: Db, i: nat, env: Env)
    requires Inv(db) && i < |db.outbox| && DeliverOne(db, i, env).Some?
    ensures Waits(db, DeliverOne(db, i, env).value)
  {
    if Triggered(db.outbox[i]) {
      HandleWaits(db, db.outbox[i], env);
    }
  }

  lemma {:induction false} NewRowsWait(before: EmployeeTables, g: Target, slots: seq<Slot>)
    requires g.firstTask == |before.tasks|
    ensures before.tasks <= With(before, g, slots).tasks
    ensures forall t: nat :: |before.tasks| <= t < |With(before, g, slots).tasks| ==>
              !With(before, g, slots).tasks[t].status.Paused?
    ensures forall x :: x in With(before, g, slots).edges && x.0 < |before.tasks| ==> x in before.edges
  {
    forall x | x in ChainEdges(g.firstTask, slots)
      ensures x.0 >= g.firstTask
    {
      ChainEdgesMeaning(g.firstTask, slots, x.0, x.1);
    }
  }

  lemma {:induction false} ConfirmWaits(schema: Schema, db: Db, cmd: Command)
    requires Confirmable(schema, db, cmd)
    ensures Waits(db, AfterConfirm(schema, db, cmd))
  {
    var after, plan := AfterConfirm(schema, db, cmd), db.plans[cmd.companyTask].tasks;
    ConfirmExtends(schema, db, cmd);
    assert after.employeeTasks == Tables(after).tasks && after.employeeEdges == Tables(after).edges;
    NewRowsWait(Tables(db), TargetOf(db, cmd), PlanSlots(plan, |plan|));
  }

  lemma {:induction false} HandlerWaits(db: Db, step: Step)
    requires Inv(db) && HandlerStep(step)
    ensures Waits(db, Apply(db, step))
  {
    match step
    case StartTask(t, expected) => EmployeesWait(db, t, expected, false);
    case SubmitTask(t, expected) => EmployeesWait(db, t, expected, false);
    case AcceptTask(t, open) => EmployeesWait(db, t, 0, open);
    case FinishDepartment(d, open) => DepartmentWaits(db, d, open);
    case FinishCompany(_, _) =>
  }

  ghost predicate FromOutside(step: Step) {
    || step.NewCompany? || step.MoveCompany? || step.ProposePlan? || step.ChangeResources?
    || step.MoveRun? || step.Post?
  }

  lemma {:induction false} OutsideWaits(db: Db, step: Step)
    requires FromOutside(step)
    ensures Waits(db, Apply(db, step))
  {
  }

  lemma {:induction false} StepWaits(db: Db, step: Step)
    requires Inv(db)
    ensures Waits(db, Apply(db, step))
  {
    match step
    case Confirm(schema, cmd) => if Confirmable(schema, db, cmd) { ConfirmWaits(schema, db, cmd); }
    case StartTask(_, _) | SubmitTask(_, _) | AcceptTask(_, _) | FinishDepartment(_, _) | FinishCompany(_, _) =>
      HandlerWaits(db, step);
    case AdvanceAgain(upstream, unresolvable) =>
      if AdvanceDb(db, upstream, unresolvable).Some? { AdvanceWaits(db, upstream, unresolvable); }
    case DeliverRow(i, env) =>
      if i < |db.outbox| && DeliverOne(db, i, env).Some? { DeliveryWaits(db, i, env); }
    case _ => OutsideWaits(db, step);
  }

  // ---- Stuck for ever ---------------------------------------------------------------------

  lemma {:induction false} StuckStays(db: Db, db': Db, t: nat)
    requires Inv(db) && TasksWait(db, db') && Stuck(db.employeeTasks, db.employeeEdges, t)
    ensures Stuck(db'.employeeTasks, db'.employeeEdges, t)
  {
    assert TaskSound(Tables(db), |db.departmentTasks|, t);
    if t > 0 && (t, (t - 1) as nat) in db.employeeEdges {
      StuckStays(db, db', t - 1);
    }
  }

  /** A stuck task stays stuck, and a suspended department suspended, over every continuation. */
  lemma {:induction false} RunWaits(db: Db, more: seq<Step>, t: nat, d: nat)
    requires Inv(db)
    ensures Inv(RunAll(db, more))
    ensures Stuck(db.employeeTasks, db.employeeEdges, t) ==>
              Stuck(RunAll(db, more).employeeTasks, RunAll(db, more).employeeEdges, t)
    ensures d < |db.departmentTasks| && db.departmentTasks[d].resume.Some? ==>
              d < |RunAll(db, more).departmentTasks| && RunAll(db, more).departmentTasks[d] == db.departmentTasks[d]
  {
    if more != [] {
      var before, step := RunAll(db, more[..|more| - 1]), more[|more| - 1];
      RunWaits(db, more[..|more| - 1], t, d);
      StepKeeps(before, step);
      StepWaits(before, step);
      if Stuck(db.employeeTasks, db.employeeEdges, t) {
        StuckStays(before, Apply(before, step), t);
      }
    }
  }

  ghost predicate NobodyPaused(db: Db) {
    forall t: nat :: t < |db.employeeTasks| ==> !db.employeeTasks[t].status.Paused?
  }

  /** None of the steps pauses a task. */
  lemma {:induction false} RunPausesNobody(db: Db, more: seq<Step>)
    requires Inv(db) && NobodyPaused(db)
    ensures Inv(RunAll(db, more)) && NobodyPaused(RunAll(db, more))
  {
    if more != [] {
      RunPausesNobody(db, more[..|more| - 1]);
      StepKeeps(RunAll(db, more[..|more| - 1]), more[|more| - 1]);
      StepWaits(RunAll(db, more[..|more| - 1]), more[|more| - 1]);
    }
  }

  // ---- All others can be woken ------------------------------------------------------------

  /** Accepting an unsuspended task, gate open, is always possible, and touches no other task. */
  lemma {:induction false} AcceptSucceeds(db: Db, u: nat)
    requires u < |db.employeeTasks| && db.employeeTasks[u].resume.None?
    ensures
      var db' := Apply(db, AcceptTask(u, true));
      && |db'.employeeTasks| == |db.employeeTasks| && db'.employeeTasks[u].status.Accepted?
      && db'.employeeEdges == db.employeeEdges
      && db'.departmentTasks == db.departmentTasks && db'.companyTasks == db.companyTasks
      && db'.resources == db.resources
      && forall t: nat :: t < |db.employeeTasks| && t != u ==> db'.employeeTasks[t] == db.employeeTasks[t]
  {
  }

  /** A due task has a row that wakes it, and delivering that row, with all routes found, settles it. */
  lemma {:induction false} DueIsSettled(db: Db, t: nat) returns (step: Step)
    requires Inv(db) && Due(Tables(db), t)
    ensures t < |Apply(db, step).employeeTasks| && !Apply(db, step).employeeTasks[t].status.WaitingResource?
  {
    var env := Env(None, false, {});
    var i: nat :| i < |db.outbox| && Wakes(db.employeeEdges, db.outbox[i], t);
    AdvanceRaisesOnRouting(db, env, db.outbox[i].aggregate);
    WakingDeliveryResolves(db, i, env, t);
    step := DeliverRow(i, env);
  }

  lemma {:induction false} FollowerIsDue(db: Db, t: nat)
    requires Inv(db) && Freed(db, t) && t < |db.employeeTasks| && db.employeeTasks[t].status.WaitingResource?
    ensures Due(Tables(db), t)
  {
    assert (t, (t - 1) as nat) in Tables(db).edges && (t, (t - 1) as nat).0 == t;
    forall x | x in db.employeeEdges && x.0 == t
      ensures x.1 < |db.employeeTasks| && db.employeeTasks[x.1].status.Accepted?
    {
      assert x.0 == x.1 + 1;
    }
  }

  /** Once the task before it can be accepted, a waiting task can be woken. */
  lemma {:induction false} WakeInTwo(db: Db, t: nat) returns (accept: Step, step: Step)
    requires Inv(db) && NobodyPaused(db) && 0 < t < |db.employeeTasks| && (t, (t - 1) as nat) in db.employeeEdges
    requires db.employeeTasks[t].status.WaitingResource? && !db.employeeTasks[t - 1].status.WaitingResource?
    ensures
      var later := Apply(Apply(db, accept), step);
      t < |later.employeeTasks| && !later.employeeTasks[t].status.WaitingResource?
  {
    accept := AcceptTask(t - 1, true);
    assert TaskSound(Tables(db), |db.departmentTasks|, t - 1);
    AcceptSucceeds(db, t - 1);
    StepKeeps(db, accept);
    FollowerIsDue(Apply(db, accept), t);
    step := DueIsSettled(Apply(db, accept), t);
  }

  lemma {:induction false} WakeNext(db: Db, first: seq<Step>, t: nat) returns (more: seq<Step>)
    requires Inv(RunAll(db, first)) && NobodyPaused(RunAll(db, first)) && 0 < t < |RunAll(db, first).employeeTasks|
    requires (t, (t - 1) as nat) in RunAll(db, first).employeeEdges
    requires RunAll(db, first).employeeTasks[t].status.WaitingResource?
    requires !RunAll(db, first).employeeTasks[t - 1].status.WaitingResource?
    ensures t < |RunAll(db, more).employeeTasks| && !RunAll(db, more).employeeTasks[t].status.WaitingResource?
  {
    var accept, step := WakeInTwo(RunAll(db, first), t);
    more := first + [accept] + [step];
    OneMoreStep(db, first, accept);
    OneMoreStep(db, first + [accept], step);
  }

  /** A waiting task that is not stuck can be woken: accept and deliver along its chain. */
  lemma {:induction false} WakeUp(db: Db, t: nat) returns (more: seq<Step>)
    requires Inv(db) && NobodyPaused(db) && t < |db.employeeTasks|
    requires !Stuck(db.employeeTasks, db.employeeEdges, t)
    ensures t < |RunAll(db, more).employeeTasks| && !RunAll(db, more).employeeTasks[t].status.WaitingResource?
  {
    more := [];
    if db.employeeTasks[t].status.WaitingResource? {
      more := WakeUp(db, t - 1);
      RunPausesNobody(db, more);
      RunLater(db, more);
      if RunAll(db, more).employeeTasks[t].status.WaitingResource? {
        more := WakeNext(db, more, t);
      }
    }
  }

  /** After `more`, task `t` is waiting. */
  ghost predicate WaitsAfter(db: Db, more: seq<Step>, t: nat) {
    t < |RunAll(db, more).employeeTasks| && RunAll(db, more).employeeTasks[t].status.WaitingResource?
  }

  ghost predicate WaitsForEver(db: Db, t: nat) {
    forall more: seq<Step> :: WaitsAfter(db, more, t)
  }

  ghost predicate StuckSoundly(db: Db, t: nat) {
    Inv(db) && Stuck(db.employeeTasks, db.employeeEdges, t)
  }

  lemma {:induction false} StuckWaits(db: Db, t: nat)
    requires StuckSoundly(db, t)
    ensures WaitsForEver(db, t)
  {
    forall more: seq<Step>
      ensures WaitsAfter(db, more, t)
    {
      RunWaits(db, more, t, 0);
    }
  }

  /**
   Which waiting tasks nothing can wake: in every reachable state, a task waits in all
   continuations exactly when its whole chain waits, back to a task that follows nobody.
   */
  lemma {:induction false} WaitsForEverExactlyWhenStuck(resources: Resources, steps: seq<Step>, t: nat)
    requires t < |RunAll(Empty(resources), steps).employeeTasks|
    ensures
      var db := RunAll(Empty(resources), steps);
      Stuck(db.employeeTasks, db.employeeEdges, t) <==> WaitsForEver(db, t)
  {
    var db := RunAll(Empty(resources), steps);
    Reachable(resources, []);
    Reachable(resources, steps);
    RunPausesNobody(Empty(resources), steps);
    if Stuck(db.employeeTasks, db.employeeEdges, t) {
      StuckWaits(db, t);
    } else {
      var more := WakeUp(db, t);
      assert !WaitsAfter(db, more, t);
    }
  }

  // ---- Plans with dependencies ------------------------------------------------------------

  /** A chained slot stands in the same department as the one before it. */
  ghost predicate ChainsKeepStage(slots: seq<Slot>) {
    forall k :: 0 <= k < |slots| && slots[k].chained ==> k > 0 && slots[k - 1].stage == slots[k].stage
  }

  lemma {:induction false} PlanChainsKeepStage(plan: seq<DepartmentPlan>)
    ensures ChainsKeepStage(PlanSlots(plan, |plan|))
  {
    var slots := PlanSlots(plan, |plan|);
    forall k | 0 <= k < |slots| && slots[k].chained
      ensures k > 0 && slots[k - 1].stage == slots[k].stage
    {
      ChainedFollows(plan, k);
    }
  }

  /** The task of a new slot is stuck exactly when its department waits. */
  lemma {:induction false} StuckSlot(tasks: seq<EmployeeTask>, tasks': seq<EmployeeTask>, edges: set<(nat, nat)>,
                                     edges': set<(nat, nat)>, g: Target, slots: seq<Slot>, k: nat, t: nat)
    requires ChainsKeepStage(slots) && k < |slots| && t == |tasks| + k
    requires g.firstTask == |tasks| && tasks' == tasks + SlotRows(g, slots)
    requires (forall x :: x in edges ==> x.1 < x.0 < |tasks|) && edges' == edges + ChainEdges(|tasks|, slots)
    ensures Stuck(tasks', edges', t) <==> slots[k].stage.waits
  {
    RowOfSlot(tasks, tasks', g, slots, k, t);
    if t > 0 {
      ChainEdgesMeaning(|tasks|, slots, t, t - 1);
    }
    if slots[k].chained {
      StuckSlot(tasks, tasks', edges, edges', g, slots, k - 1, t - 1);
    }
  }

  lemma {:induction false} ConfirmedSlotStuck(resources: Resources, steps: seq<Step>, schema: Schema, cmd: Command,
                                              db: Db, plan: seq<DepartmentPlan>, after: Db, k: nat, t: nat)
    requires Confirms(resources, steps, schema, cmd, db, plan, after)
    requires k < |PlanSlots(plan, |plan|)| && t == |db.employeeTasks| + k
    ensures Stuck(after.employeeTasks, after.employeeEdges, t) <==> PlanSlots(plan, |plan|)[k].stage.waits
  {
    ConfirmedTables(resources, steps, schema, cmd, db, plan, after);
    OlderRows(resources, steps, schema, cmd, db, plan, after);
    PlanChainsKeepStage(plan);
    StuckSlot(db.employeeTasks, after.employeeTasks, db.employeeEdges, after.employeeEdges, TargetOf(db, cmd),
              PlanSlots(plan, |plan|), k, t);
  }

  /** A confirmation leaves a contributor stuck exactly in the departments that wait for another one. */
  lemma {:induction false} StuckExactlyInDependentDepartments(resources: Resources, steps: seq<Step>, schema: Schema,
                                                              cmd: Command, db: Db, plan: seq<DepartmentPlan>,
                                                              after: Db, d: nat, e: nat, i: nat, t: nat)
    requires Confirms(resources, steps, schema, cmd, db, plan, after) && InPlan(plan, d, e, i)
    requires t == |db.employeeTasks| + SlotIndex(plan, d, e, i)
    ensures Stuck(after.employeeTasks, after.employeeEdges, t) <==> HasUpstream(plan, d)
  {
    SlotAt(plan, d, e, i, |plan|);
    ConfirmedSlotStuck(resources, steps, schema, cmd, db, plan, after, SlotIndex(plan, d, e, i), t);
    assert PlanSlot(plan, d, e, i).stage.waits == HasUpstream(plan, d);
  }

  /** Department `d` waits for another one, and its row can only be resumed. */
  ghost predicate Held(db: Db, d: nat) {
    && d < |db.departmentTasks|
    && db.departmentTasks[d].status.WaitingDependency? && db.departmentTasks[d].resume.Some?
  }

  lemma {:induction false} DependentRow(before: seq<DepartmentTask>, after: Db, schema: Schema, ct: nat,
                                        plan: seq<DepartmentPlan>, d: nat, k: nat)
    requires HasUpstream(plan, d) && schema.ResumeSupplied? && k == |before| + d
    requires after.departmentTasks == before + DepartmentRows(schema, ct, plan, |plan|)
    ensures Held(after, k) && after.departmentTasks[k].companyTask == ct
  {
    DepartmentRowAt(before, schema, ct, plan, d, k);
  }

  lemma {:induction false} ConfirmedInv(resources: Resources, steps: seq<Step>, schema: Schema, cmd: Command,
                                        db: Db, plan: seq<DepartmentPlan>, after: Db)
    requires Confirms(resources, steps, schema, cmd, db, plan, after)
    ensures Inv(after)
  {
    Reachable(resources, steps);
    StepKeeps(db, Confirm(schema, cmd));
  }

  lemma {:induction false} DependentDepartmentIsHeld(resources: Resources, steps: seq<Step>, schema: Schema,
                                                     cmd: Command, db: Db, plan: seq<DepartmentPlan>, after: Db,
                                                     d: nat, k: nat)
    requires Confirms(resources, steps, schema, cmd, db, plan, after) && HasUpstream(plan, d)
    requires k == |db.departmentTasks| + d
    ensures Held(after, k) && after.departmentTasks[k].companyTask == cmd.companyTask
  {
    assert schema.ResumeSupplied?;
    assert after.departmentTasks == db.departmentTasks + DepartmentRows(schema, cmd.companyTask, plan, |plan|) by {
      ConfirmedTables(resources, steps, schema, cmd, db, plan, after);
    }
    DependentRow(db.departmentTasks, after, schema, cmd.companyTask, plan, d, k);
  }

  /** After `more`, department `d` is held and company task `c` not completed. */
  ghost predicate HeldAfter(db: Db, more: seq<Step>, d: nat, c: nat) {
    && Held(RunAll(db, more), d)
    && c < |RunAll(db, more).companyTasks| && !RunAll(db, more).companyTasks[c].row.state.Completed?
  }

  ghost predicate HeldForEver(db: Db, d: nat, c: nat) {
    forall more: seq<Step> :: HeldAfter(db, more, d, c)
  }

  lemma {:induction false} HeldBlocksCompletion(db: Db, d: nat, c: nat)
    requires Inv(db) && Held(db, d) && db.departmentTasks[d].companyTask == c
    ensures HeldForEver(db, d, c)
  {
    forall more: seq<Step>
      ensures HeldAfter(db, more, d, c)
    {
      var later := RunAll(db, more);
      RunWaits(db, more, 0, d);
      assert DepartmentSound(later.companyTasks, later.departmentTasks, later.employeeTasks, d);
      assert CompanySound(later.companyTasks, later.departmentTasks, c);
    }
  }

  /** No task of a department that depends on an earlier one ever starts. */
  lemma {:induction false} DependentTasksNeverStart(resources: Resources, steps: seq<Step>, schema: Schema,
                                                    cmd: Command, db: Db, plan: seq<DepartmentPlan>, after: Db,
                                                    d: nat, e: nat, i: nat, t: nat)
    requires Confirms(resources, steps, schema, cmd, db, plan, after) && InPlan(plan, d, e, i) && HasUpstream(plan, d)
    requires t == |db.employeeTasks| + SlotIndex(plan, d, e, i)
    ensures WaitsForEver(after, t)
  {
    assert StuckSoundly(after, t) by {
      ConfirmedInv(resources, steps, schema, cmd, db, plan, after);
      StuckExactlyInDependentDepartments(resources, steps, schema, cmd, db, plan, after, d, e, i, t);
    }
    StuckWaits(after, t);
  }

  /**
   A department that depends on an earlier one is held for ever, and its company task never
   completed; the shipped tables do not even confirm such a plan.
   */
  lemma {:induction false} DependentPlanNeverCompletes(resources: Resources, steps: seq<Step>, schema: Schema,
                                                       cmd: Command, db: Db, plan: seq<DepartmentPlan>, after: Db,
                                                       d: nat, k: nat)
    requires Confirms(resources, steps, schema, cmd, db, plan, after) && HasUpstream(plan, d)
    requires k == |db.departmentTasks| + d
    ensures HeldForEver(after, k, cmd.companyTask)
  {
    ConfirmedInv(resources, steps, schema, cmd, db, plan, after);
    DependentDepartmentIsHeld(resources, steps, schema, cmd, db, plan, after, d, k);
    HeldBlocksCompletion(after, k, cmd.companyTask);
  }
}
