/** What refers to what, over all steps: department edges, frozen specs and employee rows. */
module ProtocolReferences {
  import opened Plans
  import opened Preflight
  import opened Records
  import opened ConfirmPlan
  import opened ConfirmedGraph
  import opened DispatchStrategies
  import opened CompletionHandlers
  import opened Outbox
  import opened ProtocolSteps

  /** Department edges lead to older departments. */
  ghost predicate Backward(edges: set<(nat, nat)>, departments: nat) {
    forall x :: x in edges ==> x.1 < x.0 < departments
  }

  /** A frozen spec names the employee of its task. */
  ghost predicate SpecsMatch(tasks: seq<EmployeeTask>, specs: map<nat, DispatchSpec>) {
    forall t :: t in specs ==> t < |tasks| && specs[t].employee == tasks[t].employee
  }

  /** A task follows the one created just before it, if any. */
  ghost predicate InChains(edges: set<(nat, nat)>) {
    forall x :: x in edges ==> x.0 == x.1 + 1
  }

  /** Edges lead where they may, and specs and employee rows are there for the tasks that need them. */
  ghost predicate Referenced(db: Db) {
    && Backward(db.departmentEdges, |db.departmentTasks|) && InChains(db.employeeEdges)
    && SpecsMatch(db.employeeTasks, db.specs)
    && Employs(db.employeeTasks, db.resources)
  }

  /** Nothing that references depend on differs. */
  ghost predicate SameReferences(db: Db, db': Db) {
    && db'.departmentEdges == db.departmentEdges && |db'.departmentTasks| == |db.departmentTasks|
    && db'.employeeEdges == db.employeeEdges && db'.specs == db.specs && db'.resources == db.resources
    && |db'.employeeTasks| == |db.employeeTasks|
    && (forall t: nat :: t < |db.employeeTasks| ==> db'.employeeTasks[t].employee == db.employeeTasks[t].employee)
    && (forall d: nat :: d < |db.departmentTasks| ==>
          db'.departmentTasks[d].departmentId == db.departmentTasks[d].departmentId)
  }

  lemma {:induction false} AdvanceReferences(db: Db, upstream: nat, unresolvable: set<nat>)
    requires AdvanceDb(db, upstream, unresolvable).Some?
    ensures SameReferences(db, AdvanceDb(db, upstream, unresolvable).value)
  {
    AdvanceFrame(FrameOf(db, unresolvable), Segments(db.employeeTasks, db.runs), upstream, |db.employeeTasks|);
  }

  lemma {:induction false} WriteReferences(db: Db, t: nat, res: RowResult)
    requires t < |db.employeeTasks| && (res.Changed? ==> res.row.employee == db.employeeTasks[t].employee)
    ensures SameReferences(db, Keep(db, WriteEmployee(db, t, res)))
  {
  }

  lemma {:induction false} EmployeeReferences(db: Db, t: nat, expected: nat, open: bool)
    ensures SameReferences(db, Keep(db, Start(db, t, expected)))
    ensures SameReferences(db, Keep(db, Submit(db, t, expected)))
    ensures SameReferences(db, Keep(db, Accept(db, t, open)))
  {
    if t < |db.employeeTasks| {
      WriteReferences(db, t, StartRow(db.employeeTasks[t], expected));
      WriteReferences(db, t, SubmitRow(db.employeeTasks[t], expected));
      WriteReferences(db, t, AcceptRow(db.employeeTasks[t], open));
    }
  }

  lemma {:induction false} DepartmentReferences(db: Db, d: nat, open: bool)
    ensures SameReferences(db, Keep(db, CompleteDepartment(db, d, open)))
  {
  }

  lemma {:induction false} CompanyReferences(db: Db, c: nat, open: bool)
    ensures SameReferences(db, Keep(db, CompleteCompany(db, c, open)))
  {
  }

  lemma {:induction false} HandleReferences(db: Db, row: OutboxRow, env: Env)
    requires Handle(db, row, env).Some?
    ensures SameReferences(db, Handle(db, row, env).value)
  {
    if row.topic.GraphAdvance? {
      AdvanceReferences(db, row.aggregate, env.unresolvable);
    } else if row.topic.RunCompleted? && row.aggregate < |db.runs| && db.runs[row.aggregate].task < |db.employeeTasks| {
      var t := db.runs[row.aggregate].task;
      EmployeeReferences(db, t, db.employeeTasks[t].version, env.open);
    } else if env.task.Some? && (row.topic.ReviewSubmitted? || row.topic.ReviewIssueChanged?) {
      EmployeeReferences(db, env.task.value, 0, env.open);
    } else if row.topic.EmployeeStatusChanged? && row.aggregate < |db.employeeTasks| {
      DepartmentReferences(db, db.employeeTasks[row.aggregate].department, env.open);
    } else if row.topic.DepartmentStatusChanged? && row.aggregate < |db.departmentTasks| {
      CompanyReferences(db, db.departmentTasks[row.aggregate].companyTask, env.open);
    }
  }

  lemma {:induction false} DeliveryReferences(db: Db, i: nat, env: Env)
    requires i < |db.outbox| && DeliverOne(db, i, env).Some?
    ensures SameReferences(db, DeliverOne(db, i, env).value)
  {
    if Triggered(db.outbox[i]) {
      HandleReferences(db, db.outbox[i], env);
    }
  }

  lemma {:induction false} HandlerStepReferences(db: Db, step: Step)
    requires HandlerStep(step)
    ensures SameReferences(db, Apply(db, step))
  {
    match step
    case StartTask(t, expected) => EmployeeReferences(db, t, expected, false);
    case SubmitTask(t, expected) => EmployeeReferences(db, t, expected, false);
    case AcceptTask(t, open) => EmployeeReferences(db, t, 0, open);
    case FinishDepartment(d, open) => DepartmentReferences(db, d, open);
    case FinishCompany(c, open) => CompanyReferences(db, c, open);
  }

  lemma {:induction false} StepReferences(db: Db, step: Step)
    requires !step.Confirm? && !step.ChangeResources?
    ensures SameReferences(db, Apply(db, step))
  {
    match step
    case StartTask(_, _) | SubmitTask(_, _) | AcceptTask(_, _) | FinishDepartment(_, _) | FinishCompany(_, _) =>
      HandlerStepReferences(db, step);
    case AdvanceAgain(upstream, unresolvable) =>
      if AdvanceDb(db, upstream, unresolvable).Some? { AdvanceReferences(db, upstream, unresolvable); }
    case DeliverRow(i, env) =>
      if i < |db.outbox| && DeliverOne(db, i, env).Some? { DeliveryReferences(db, i, env); }
    case _ =>
  }

  /** The employees of a confirmable plan have their rows. */
  lemma {:induction false} PlanEmploys(schema: Schema, db: Db, cmd: Command, k: nat)
    requires Confirmable(schema, db, cmd)
    requires k < |PlanSlots(db.plans[cmd.companyTask].tasks, |db.plans[cmd.companyTask].tasks|)|
    ensures
      var plan := db.plans[cmd.companyTask].tasks;
      PlanSlots(plan, |plan|)[k].employee in db.resources.employees
  {
    var plan := db.plans[cmd.companyTask].tasks;
    var d, e, i := SlotFrom(plan, |plan|, k);
    KeptIsListed(plan[d].deliverables[e], i);
    assert plan[d].deliverables[e] in plan[d].deliverables;
  }

  lemma {:induction false} KeptIsListed(d: Deliverable, i: nat)
    requires i < |Kept(d)|
    ensures Kept(d)[i] in d.contributors && Kept(d)[i] in d.contributors + d.reviewers
  {
    assert Kept(d)[i] == d.contributors[i];
    assert (d.contributors + d.reviewers)[i] == d.contributors[i];
  }

  /** New rows and specs name the same employee. */
  lemma {:induction false} NewSpecsMatch(before: EmployeeTables, g: Target, slots: seq<Slot>)
    requires SpecsMatch(before.tasks, before.specs) && g.firstTask == |before.tasks|
    ensures SpecsMatch(With(before, g, slots).tasks, With(before, g, slots).specs)
  {
    var after := With(before, g, slots);
    forall t | t in after.specs
      ensures t < |after.tasks| && after.specs[t].employee == after.tasks[t].employee
    {
      DeferredSpecsMeaning(g, slots, t);
      if t in DeferredSpecs(g, slots) {
        RowOfSlot(before.tasks, after.tasks, g, slots, t - g.firstTask, t);
      }
    }
  }

  lemma {:induction false} NewTasksEmployed(before: EmployeeTables, g: Target, slots: seq<Slot>, res: Resources)
    requires Employs(before.tasks, res) && g.firstTask == |before.tasks|
    requires forall k :: 0 <= k < |slots| ==> slots[k].employee in res.employees
    ensures Employs(With(before, g, slots).tasks, res)
  {
    var after := With(before, g, slots);
    forall t: nat | t < |after.tasks|
      ensures after.tasks[t].employee in res.employees
    {
      if t >= |before.tasks| {
        RowOfSlot(before.tasks, after.tasks, g, slots, t - |before.tasks|, t);
      }
    }
  }

  lemma {:induction false} NewEdgesInChains(edges: set<(nat, nat)>, first: nat, slots: seq<Slot>)
    requires InChains(edges)
    ensures InChains(edges + ChainEdges(first, slots))
  {
    forall x | x in ChainEdges(first, slots)
      ensures x.0 == x.1 + 1
    {
      ChainEdgesMeaning(first, slots, x.0, x.1);
    }
  }

  lemma {:induction false} NewEdgesBackward(edges: set<(nat, nat)>, plan: seq<DepartmentPlan>, base: nat)
    requires Backward(edges, base)
    ensures Backward(edges + DepartmentEdges(plan, base, |plan|), base + |plan|)
  {
    DepartmentEdgesMeaning(plan, base, |plan|, 0, 0);
  }

  lemma {:induction false} ConfirmKeepsReferences(schema: Schema, db: Db, cmd: Command)
    requires Referenced(db) && Confirmable(schema, db, cmd)
    ensures Referenced(AfterConfirm(schema, db, cmd))
  {
    var after, g, plan := AfterConfirm(schema, db, cmd), TargetOf(db, cmd), db.plans[cmd.companyTask].tasks;
    var slots := PlanSlots(plan, |plan|);
    ConfirmExtends(schema, db, cmd);
    assert after.employeeTasks == Tables(after).tasks && after.specs == Tables(after).specs;
    assert after.employeeEdges == Tables(after).edges;
    forall k | 0 <= k < |slots|
      ensures slots[k].employee in db.resources.employees
    {
      PlanEmploys(schema, db, cmd, k);
    }
    NewSpecsMatch(Tables(db), g, slots);
    NewTasksEmployed(Tables(db), g, slots, db.resources);
    NewEdgesBackward(db.departmentEdges, plan, g.firstDepartment);
    NewEdgesInChains(db.employeeEdges, g.firstTask, slots);
  }

  lemma {:induction false} StepKeepsReferences(db: Db, step: Step)
    requires Referenced(db)
    ensures Referenced(Apply(db, step))
  {
    match step
    case Confirm(schema, cmd) => if Confirmable(schema, db, cmd) { ConfirmKeepsReferences(schema, db, cmd); }
    case ChangeResources(_) =>
    case _ => StepReferences(db, step);
  }
}
