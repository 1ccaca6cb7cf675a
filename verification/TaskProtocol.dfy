/** The invariant of the task protocol, and that every step keeps it. */
module TaskProtocol {
  import opened Preflight
  import opened Records
  import opened ConfirmPlan
  import opened ConfirmedGraph
  import opened DispatchStrategies
  import opened TaskGraph
  import opened CompletionHandlers
  import opened Outbox
  import opened ProtocolSteps
  import opened ProtocolReferences
  import CompanyTasks

  // ---- The completion hierarchy -----------------------------------------------------------

  ghost predicate DepartmentSound(companies: seq<CompanyTask>, departments: seq<DepartmentTask>,
                                  tasks: seq<EmployeeTask>, d: nat)
    requires d < |departments|
  {
    && departments[d].companyTask < |companies|
    && CompanyTasks.PastApproval(companies[departments[d].companyTask].row)
    && (departments[d].status.Completed? ==> DepartmentGate(tasks, d))
  }

  ghost predicate CompanySound(companies: seq<CompanyTask>, departments: seq<DepartmentTask>, c: nat)
    requires c < |companies|
  {
    CompanyRowOk(companies[c]) && (companies[c].row.state.Completed? ==> CompanyGate(departments, c))
  }

  ghost predicate HierarchySound(companies: seq<CompanyTask>, departments: seq<DepartmentTask>,
                                 tasks: seq<EmployeeTask>) {
    && (forall d: nat :: d < |departments| ==> DepartmentSound(companies, departments, tasks, d))
    && (forall c: nat :: c < |companies| ==> CompanySound(companies, departments, c))
  }

  /** Rows may change and tasks may be added, as long as closed tasks stay closed and additions are elsewhere. */
  ghost predicate TasksMove(tasks: seq<EmployeeTask>, tasks': seq<EmployeeTask>, departments: nat) {
    && |tasks| <= |tasks'|
    && (forall t: nat :: t < |tasks| ==>
          tasks'[t].department == tasks[t].department && (Closed(tasks[t]) ==> Closed(tasks'[t])))
    && (forall t: nat :: |tasks| <= t < |tasks'| ==> tasks'[t].department >= departments)
  }

  lemma {:induction false} TasksMoveKeepsHierarchy(companies: seq<CompanyTask>, departments: seq<DepartmentTask>,
                                                   tasks: seq<EmployeeTask>, tasks': seq<EmployeeTask>)
    requires HierarchySound(companies, departments, tasks) && TasksMove(tasks, tasks', |departments|)
    ensures HierarchySound(companies, departments, tasks')
  {
    forall d: nat | d < |departments|
      ensures DepartmentSound(companies, departments, tasks', d)
    {
      assert DepartmentSound(companies, departments, tasks, d);
    }
  }

  /** Completing a department whose tasks are all closed. */
  lemma {:induction false} DepartmentStepKeepsHierarchy(companies: seq<CompanyTask>, departments: seq<DepartmentTask>,
                                                        tasks: seq<EmployeeTask>, d: nat, row: DepartmentTask)
    requires HierarchySound(companies, departments, tasks) && d < |departments| && DepartmentGate(tasks, d)
    requires row.companyTask == departments[d].companyTask && row.status.Completed?
    ensures HierarchySound(companies, departments[d := row], tasks)
  {
    var departments' := departments[d := row];
    forall e: nat | e < |departments'|
      ensures DepartmentSound(companies, departments', tasks, e)
    {
      assert DepartmentSound(companies, departments, tasks, e);
    }
    forall c: nat | c < |companies|
      ensures CompanySound(companies, departments', c)
    {
      assert CompanySound(companies, departments, c);
    }
  }

  /** A company row moves: not back before approval, and into `completed` only through the gate. */
  lemma {:induction false} CompanyStepKeepsHierarchy(companies: seq<CompanyTask>, departments: seq<DepartmentTask>,
                                                     tasks: seq<EmployeeTask>, c: nat, row: CompanyTask)
    requires HierarchySound(companies, departments, tasks) && c < |companies| && CompanyRowOk(row)
    requires CompanyTasks.PastApproval(companies[c].row) ==> CompanyTasks.PastApproval(row.row)
    requires row.row.state.Completed? ==> CompanyGate(departments, c)
    ensures HierarchySound(companies[c := row], departments, tasks)
  {
    var companies' := companies[c := row];
    forall d: nat | d < |departments|
      ensures DepartmentSound(companies', departments, tasks, d)
    {
      assert DepartmentSound(companies, departments, tasks, d);
    }
    forall b: nat | b < |companies'|
      ensures CompanySound(companies', departments, b)
    {
      assert CompanySound(companies, departments, b);
    }
  }

  /** New departments of a company that is past approval and not completed, none of them completed. */
  lemma {:induction false} NewDepartmentsKeepHierarchy(companies: seq<CompanyTask>, departments: seq<DepartmentTask>,
                                                       tasks: seq<EmployeeTask>, ct: nat, more: seq<DepartmentTask>)
    requires HierarchySound(companies, departments, tasks) && ct < |companies|
    requires CompanyTasks.PastApproval(companies[ct].row) && !companies[ct].row.state.Completed?
    requires forall i :: 0 <= i < |more| ==> more[i].companyTask == ct && !more[i].status.Completed?
    ensures HierarchySound(companies, departments + more, tasks)
  {
    var departments' := departments + more;
    forall d: nat | d < |departments'|
      ensures DepartmentSound(companies, departments', tasks, d)
    {
      if d < |departments| {
        assert DepartmentSound(companies, departments, tasks, d);
      }
    }
    forall c: nat | c < |companies|
      ensures CompanySound(companies, departments', c)
    {
      assert CompanySound(companies, departments, c);
    }
  }

  // ---- The invariant over all steps -------------------------------------------------------

  /** The task graph, its wake-ups and the completion hierarchy. */
  ghost predicate Sound(db: Db) {
    && GraphSound(Tables(db), |db.departmentTasks|)
    && Woken(Tables(db), db.outbox)
    && HierarchySound(db.companyTasks, db.departmentTasks, db.employeeTasks)
  }

  lemma {:induction false} EmptySound(resources: Resources)
    ensures Sound(Empty(resources))
  {
  }

  /** The three employee handlers. */
  lemma {:induction false} EmployeeHandlerKeeps(db: Db, t: nat, res: RowResult)
    requires Sound(db) && t < |db.employeeTasks|
    requires res.Changed?
             ==> HandlerChange(db.employeeTasks[t], res.row) && (Closed(db.employeeTasks[t]) ==> Closed(res.row))
    ensures Sound(Keep(db, WriteEmployee(db, t, res)))
  {
    if res.Changed? {
      var tb, rows := Tables(db), EmployeeRowsOut(t, res.row.status);
      var db' := WriteEmployee(db, t, res).value;
      RowChangeKeepsGraph(tb, |db.departmentTasks|, t, res.row);
      if res.row.status.Accepted? {
        assert rows[1] == OutboxRow(GraphAdvance, t, EmployeeChange(Accepted), true);
      }
      RowChangeKeepsWoken(tb, db.outbox, t, res.row, rows);
      assert Tables(db') == WithRow(tb, t, res.row);
      TasksMoveKeepsHierarchy(db.companyTasks, db.departmentTasks, db.employeeTasks, db'.employeeTasks);
    }
  }

  /** Start, submit and accept rewrite a row the way the graph allows. */
  lemma {:induction false} HandlersChangeRowsSoundly(r: EmployeeTask, expected: nat, open: bool)
    requires EmployeeRowOk(r)
    ensures StartRow(r, expected).Changed? ==> HandlerChange(r, StartRow(r, expected).row) && !Closed(r)
    ensures SubmitRow(r, expected).Changed? ==> HandlerChange(r, SubmitRow(r, expected).row) && !Closed(r)
    ensures AcceptRow(r, open).Changed? ==> HandlerChange(r, AcceptRow(r, open).row) && Closed(AcceptRow(r, open).row)
  {
  }

  lemma {:induction false} EmployeeStepsKeep(db: Db, t: nat, expected: nat, open: bool)
    requires Sound(db)
    ensures Sound(Keep(db, Start(db, t, expected))) && Sound(Keep(db, Submit(db, t, expected)))
    ensures Sound(Keep(db, Accept(db, t, open)))
  {
    if t < |db.employeeTasks| {
      assert TaskSound(Tables(db), |db.departmentTasks|, t);
      HandlersChangeRowsSoundly(db.employeeTasks[t], expected, open);
      EmployeeHandlerKeeps(db, t, StartRow(db.employeeTasks[t], expected));
      EmployeeHandlerKeeps(db, t, SubmitRow(db.employeeTasks[t], expected));
      EmployeeHandlerKeeps(db, t, AcceptRow(db.employeeTasks[t], open));
    }
  }

  lemma {:induction false} DepartmentStepKeeps(db: Db, d: nat, open: bool)
    requires Sound(db)
    ensures Sound(Keep(db, CompleteDepartment(db, d, open)))
  {
    if CompleteDepartment(db, d, open).Ok? {
      var db' := CompleteDepartment(db, d, open).value;
      DepartmentStepKeepsHierarchy(db.companyTasks, db.departmentTasks, db.employeeTasks, d, db'.departmentTasks[d]);
      WokenMonotone(Tables(db), db.outbox, db'.outbox[|db.outbox|..]);
      assert Tables(db') == Tables(db) && db'.outbox == db.outbox + db'.outbox[|db.outbox|..];
    }
  }

  lemma {:induction false} CompanyStepKeeps(db: Db, c: nat, open: bool)
    requires Sound(db)
    ensures Sound(Keep(db, CompleteCompany(db, c, open)))
  {
    if CompleteCompany(db, c, open).Ok? {
      var db' := CompleteCompany(db, c, open).value;
      CompanyStepKeepsHierarchy(db.companyTasks, db.departmentTasks, db.employeeTasks, c, db'.companyTasks[c]);
      WokenMonotone(Tables(db), db.outbox, db'.outbox[|db.outbox|..]);
      assert Tables(db') == Tables(db) && db'.outbox == db.outbox + db'.outbox[|db.outbox|..];
    }
  }

  /** An advance for `upstream`, together with rows of `upstream` being marked delivered. */
  lemma {:induction false} AdvanceKeeps(db: Db, upstream: nat, unresolvable: set<nat>, outbox': seq<OutboxRow>)
    requires Sound(db) && AdvanceDb(db, upstream, unresolvable).Some? && |outbox'| == |db.outbox|
    requires forall i :: 0 <= i < |outbox'| ==> outbox'[i] == db.outbox[i] || db.outbox[i].aggregate == upstream
    ensures Sound(AdvanceDb(db, upstream, unresolvable).value.(outbox := outbox'))
  {
    var f, start, tb := FrameOf(db, unresolvable), Segments(db.employeeTasks, db.runs), Tables(db);
    assert WithSegments(tb, start) == tb;
    AdvanceKeepsGraph(f, tb, |db.departmentTasks|, start, upstream, |start.tasks|);
    var s := AdvanceUpTo(f, start, upstream, |start.tasks|).value;
    AdvanceKeepsWoken(tb, start, s, upstream, db.outbox, outbox');
    var db' := AdvanceDb(db, upstream, unresolvable).value.(outbox := outbox');
    assert Tables(db') == WithSegments(tb, s);
    assert TasksMove(db.employeeTasks, s.tasks, |db.departmentTasks|) by {
      forall t: nat | t < |s.tasks|
        ensures s.tasks[t].department == start.tasks[t].department && (Closed(start.tasks[t]) ==> Closed(s.tasks[t]))
      {
        assert AdvancedAt(tb.edges, start, s, upstream, |start.tasks|, t);
      }
    }
    TasksMoveKeepsHierarchy(db.companyTasks, db.departmentTasks, db.employeeTasks, s.tasks);
  }

  /** Marking a row that wakes nobody. */
  lemma {:induction false} MarkKeeps(db: Db, i: nat)
    requires Sound(db) && i < |db.outbox| && (!db.outbox[i].topic.GraphAdvance? || !Triggered(db.outbox[i]))
    ensures Sound(Marked(db, i))
  {
    WokenOtherTopic(Tables(db), db.outbox, i);
    assert Tables(Marked(db, i)) == Tables(db);
  }

  lemma {:induction false} HandleKeeps(db: Db, row: OutboxRow, env: Env)
    requires Sound(db) && !row.topic.GraphAdvance? && Handle(db, row, env).Some?
    ensures Sound(Handle(db, row, env).value)
  {
    if row.topic.RunCompleted? && row.aggregate < |db.runs| && db.runs[row.aggregate].task < |db.employeeTasks| {
      var t := db.runs[row.aggregate].task;
      EmployeeStepsKeep(db, t, db.employeeTasks[t].version, env.open);
    } else if env.task.Some? && (row.topic.ReviewSubmitted? || row.topic.ReviewIssueChanged?) {
      EmployeeStepsKeep(db, env.task.value, 0, env.open);
    } else if row.topic.EmployeeStatusChanged? && row.aggregate < |db.employeeTasks| {
      DepartmentStepKeeps(db, db.employeeTasks[row.aggregate].department, env.open);
    } else if row.topic.DepartmentStatusChanged? && row.aggregate < |db.departmentTasks| {
      CompanyStepKeeps(db, db.departmentTasks[row.aggregate].companyTask, env.open);
    }
  }

  lemma {:induction false} DeliveryKeeps(db: Db, i: nat, env: Env)
    requires Sound(db) && i < |db.outbox| && DeliverOne(db, i, env).Some?
    ensures Sound(DeliverOne(db, i, env).value)
  {
    var row := db.outbox[i];
    if !Triggered(row) {
      MarkKeeps(db, i);
    } else if row.topic.GraphAdvance? {
      AdvanceKeeps(db, row.aggregate, env.unresolvable, db.outbox[i := row.(pending := false)]);
    } else {
      HandleKeeps(db, row, env);
      HandleExtendsOutbox(db, row, env);
      MarkKeeps(Handle(db, row, env).value, i);
    }
  }

  lemma {:induction false} ConfirmKeeps(schema: Schema, db: Db, cmd: Command)
    requires Sound(db) && Confirmable(schema, db, cmd)
    ensures Sound(AfterConfirm(schema, db, cmd))
  {
    var after, g := AfterConfirm(schema, db, cmd), TargetOf(db, cmd);
    var plan, ct := db.plans[cmd.companyTask].tasks, cmd.companyTask;
    var slots, before := PlanSlots(plan, |plan|), Tables(db);
    PlanSlotsFit(plan);
    ConfirmExtends(schema, db, cmd);
    ConfirmKeepsGraph(before, |db.departmentTasks|, g, slots, |plan|);
    ConfirmKeepsWoken(before, |db.departmentTasks|, g, slots, |plan|, db.outbox);
    WokenMonotone(With(before, g, slots), db.outbox, PathRows(ct, 4));
    ConfirmKeepsHierarchy(schema, db, cmd);
  }

  lemma {:induction false} ConfirmKeepsHierarchy(schema: Schema, db: Db, cmd: Command)
    requires Sound(db) && Confirmable(schema, db, cmd)
    ensures
      var after := AfterConfirm(schema, db, cmd);
      HierarchySound(after.companyTasks, after.departmentTasks, after.employeeTasks)
  {
    var after, g, ct := AfterConfirm(schema, db, cmd), TargetOf(db, cmd), cmd.companyTask;
    var plan := db.plans[ct].tasks;
    var row := after.companyTasks[ct];
    CompanyStepKeepsHierarchy(db.companyTasks, db.departmentTasks, db.employeeTasks, ct, row);
    assert after.companyTasks == db.companyTasks[ct := row];
    var more := DepartmentRows(schema, ct, plan, |plan|);
    NewDepartmentsKeepHierarchy(after.companyTasks, db.departmentTasks, db.employeeTasks, ct, more);
    TasksMoveKeepsHierarchyNew(after.companyTasks, db.departmentTasks, more, db.employeeTasks,
                               SlotRows(g, PlanSlots(plan, |plan|)));
  }

  /** Tasks of new departments, added after the departments. */
  lemma {:induction false} TasksMoveKeepsHierarchyNew(companies: seq<CompanyTask>, departments: seq<DepartmentTask>,
                                                      more: seq<DepartmentTask>,
                                                      tasks: seq<EmployeeTask>, rows: seq<EmployeeTask>)
    requires HierarchySound(companies, departments + more, tasks)
    requires forall i :: 0 <= i < |more| ==> !more[i].status.Completed?
    requires forall k :: 0 <= k < |rows| ==> rows[k].department >= |departments|
    ensures HierarchySound(companies, departments + more, tasks + rows)
  {
    forall d: nat | d < |departments + more|
      ensures DepartmentSound(companies, departments + more, tasks + rows, d)
    {
      assert DepartmentSound(companies, departments + more, tasks, d);
    }
  }

  lemma {:induction false} CompanyAddedKeeps(db: Db)
    requires Sound(db)
    ensures Sound(Apply(db, NewCompany))
  {
    var after := Apply(db, NewCompany);
    assert Tables(after) == Tables(db);
    NewCompanyKeeps(db.companyTasks, db.departmentTasks, db.employeeTasks, after.companyTasks[|db.companyTasks|]);
  }

  /** A move of the state machine on a sound row. */
  lemma {:induction false} MovedRowSound(r: CompanyTask, target: CompanyTasks.State)
    requires CompanyRowOk(r) && CompanyTasks.Move(r.row, target).Some?
    ensures CompanyRowOk(CompanyTask(CompanyTasks.Move(r.row, target).value, r.version + 1))
    ensures CompanyTasks.Move(r.row, target).value.state == target
    ensures CompanyTasks.PastApproval(r.row) ==> CompanyTasks.PastApproval(CompanyTasks.Move(r.row, target).value)
  {
  }

  lemma {:induction false} CompanyMovedKeeps(db: Db, c: nat, target: CompanyTasks.State)
    requires Sound(db)
    ensures Sound(Apply(db, MoveCompany(c, target)))
  {
    var moved := Apply(db, MoveCompany(c, target));
    assert Tables(moved) == Tables(db);
    if moved != db {
      assert CompanySound(db.companyTasks, db.departmentTasks, c);
      MovedRowSound(db.companyTasks[c], target);
      CompanyStepKeepsHierarchy(db.companyTasks, db.departmentTasks, db.employeeTasks, c, moved.companyTasks[c]);
    }
  }

  lemma {:induction false} PostKeeps(db: Db, row: OutboxRow)
    requires Sound(db)
    ensures Sound(Apply(db, Post(row)))
  {
    assert Tables(Apply(db, Post(row))) == Tables(db);
    WokenMonotone(Tables(db), db.outbox, [row]);
  }

  lemma {:induction false} InputsKeep(db: Db, c: nat, plan: PlanVersion, resources: Resources)
    requires Sound(db)
    ensures Sound(Apply(db, ProposePlan(c, plan))) && Sound(Apply(db, ChangeResources(resources)))
  {
    assert Tables(Apply(db, ProposePlan(c, plan))) == Tables(db);
    assert Tables(Apply(db, ChangeResources(resources))) == Tables(db);
  }

  lemma {:induction false} RunOutsideKeeps(db: Db, run: nat, status: RunStatus)
    requires Sound(db)
    ensures Sound(Apply(db, MoveRun(run, status)))
  {
    if run < |db.runs| {
      RunMoveKeeps(Tables(db), |db.departmentTasks|, db.outbox, run, status);
      assert Tables(Apply(db, MoveRun(run, status))) ==
             Tables(db).(runs := db.runs[run := db.runs[run].(status := status)]);
    }
  }

  lemma {:induction false} NewCompanyKeeps(companies: seq<CompanyTask>, departments: seq<DepartmentTask>,
                                           tasks: seq<EmployeeTask>, row: CompanyTask)
    requires HierarchySound(companies, departments, tasks) && CompanyRowOk(row) && !row.row.state.Completed?
    ensures HierarchySound(companies + [row], departments, tasks)
  {
    var companies' := companies + [row];
    forall d: nat | d < |departments|
      ensures DepartmentSound(companies', departments, tasks, d)
    {
      assert DepartmentSound(companies, departments, tasks, d);
    }
    forall c: nat | c < |companies'|
      ensures CompanySound(companies', departments, c)
    {
      if c < |companies| {
        assert CompanySound(companies, departments, c);
      }
    }
  }

  /** A run changes status, not task. */
  lemma {:induction false} RunMoveKeeps(tb: EmployeeTables, departments: nat, outbox: seq<OutboxRow>, run: nat,
                                        status: RunStatus)
    requires GraphSound(tb, departments) && Woken(tb, outbox) && run < |tb.runs|
    ensures
      var tb' := tb.(runs := tb.runs[run := tb.runs[run].(status := status)]);
      GraphSound(tb', departments) && Woken(tb', outbox)
  {
    var tb' := tb.(runs := tb.runs[run := tb.runs[run].(status := status)]);
    forall t: nat
      ensures RunCount(tb'.runs, t) == RunCount(tb.runs, t)
    {
      SameTasksSameCount(tb.runs, tb'.runs, t);
    }
    forall x | x in tb'.edges
      ensures EdgeSound(tb', x)
    {
      assert EdgeSound(tb, x);
    }
    forall t: nat | t < |tb'.tasks|
      ensures TaskSound(tb', departments, t)
    {
      assert TaskSound(tb, departments, t);
    }
    forall t: nat | Due(tb', t)
      ensures exists i :: 0 <= i < |outbox| && Wakes(tb'.edges, outbox[i], t)
    {
      assert Due(tb, t);
    }
  }

  lemma {:induction false} SameTasksSameCount(a: seq<Run>, b: seq<Run>, t: nat)
    requires |a| == |b| && forall i :: 0 <= i < |a| ==> a[i].task == b[i].task
    ensures RunCount(a, t) == RunCount(b, t)
  {
    if a != [] {
      SameTasksSameCount(a[..|a| - 1], b[..|b| - 1], t);
    }
  }

  // ---- All of it --------------------------------------------------------------------------

  ghost predicate Inv(db: Db) {
    Sound(db) && Referenced(db)
  }

  lemma {:induction false} StepKeepsSound(db: Db, step: Step)
    requires Sound(db)
    ensures Sound(Apply(db, step))
  {
    match step
    case Confirm(schema, cmd) => if Confirmable(schema, db, cmd) { ConfirmKeeps(schema, db, cmd); }
    case StartTask(t, expected) => EmployeeStepsKeep(db, t, expected, false);
    case SubmitTask(t, expected) => EmployeeStepsKeep(db, t, expected, false);
    case AcceptTask(t, open) => EmployeeStepsKeep(db, t, 0, open);
    case FinishDepartment(d, open) => DepartmentStepKeeps(db, d, open);
    case FinishCompany(c, open) => CompanyStepKeeps(db, c, open);
    case AdvanceAgain(upstream, unresolvable) =>
      if AdvanceDb(db, upstream, unresolvable).Some? {
        AdvanceKeeps(db, upstream, unresolvable, db.outbox);
        assert AdvanceDb(db, upstream, unresolvable).value.(outbox := db.outbox)
               == AdvanceDb(db, upstream, unresolvable).value;
      }
    case DeliverRow(i, env) =>
      if i < |db.outbox| && db.outbox[i].pending && DeliverOne(db, i, env).Some? {
        DeliveryKeeps(db, i, env);
      }
    case NewCompany => CompanyAddedKeeps(db);
    case MoveCompany(c, target) => CompanyMovedKeeps(db, c, target);
    case ProposePlan(c, plan) => InputsKeep(db, c, plan, db.resources);
    case ChangeResources(resources) => InputsKeep(db, 0, PlanVersion("", [], false), resources);
    case MoveRun(run, status) => RunOutsideKeeps(db, run, status);
    case Post(row) => PostKeeps(db, row);
  }

  /** Every step keeps the invariant. */
  lemma {:induction false} StepKeeps(db: Db, step: Step)
    requires Inv(db)
    ensures Inv(Apply(db, step))
  {
    StepKeepsSound(db, step);
    StepKeepsReferences(db, step);
  }

  lemma {:induction false} Reachable(resources: Resources, steps: seq<Step>)
    ensures Inv(RunAll(Empty(resources), steps))
  {
    if steps == [] {
      EmptySound(resources);
    } else {
      Reachable(resources, steps[..|steps| - 1]);
      StepKeeps(RunAll(Empty(resources), steps[..|steps| - 1]), steps[|steps| - 1]);
    }
  }
}
