/** Reachable states in which the code does not do what one would expect. */
module Examples {
  import opened Basics
  import opened Plans
  import opened Preflight
  import opened Records
  import opened ConfirmPlan
  import opened ConfirmedGraph
  import opened LazyDispatch
  import opened CompletionHandlers
  import opened TaskGraph
  import opened Outbox
  import opened ProtocolSteps
  import opened TaskProtocol
  import opened TaskTheorems
  import opened ConfirmationTheorems
  import opened StalledTasks
  import CompanyTasks

  // ---- A company with one employee --------------------------------------------------------

  function OneEmployee(): Resources {
    Resources(Some("revision"), Some("catalog"),
              map["office" := Department(true, Some("revision"))],
              map["ann" := Employee(true, "office", Some("profile"))],
              map["profile" := ProfileVersion(true, true, "catalog", {}, true)],
              map[0 := Workspace(true, "grant", true)])
  }

  function Work(ref: string, dependencies: seq<string>, artifact: string): DepartmentPlan {
    DepartmentPlan(ref, "office", false, "objective", dependencies,
                   [Deliverable(artifact, IndependentDrafts, 1, ["ann"], [])], ["criterion"], [], [])
  }

  function Analysing(): seq<Step> {
    [NewCompany] + [MoveCompany(0, CompanyTasks.Analyzing)] + [MoveCompany(0, CompanyTasks.AwaitingUserConfirmation)]
  }

  /** A company task has been analysed and its plan awaits the user. */
  function Proposing(plan: seq<DepartmentPlan>): seq<Step> {
    Analysing() + [ProposePlan(0, PlanVersion("sha", plan, true))]
  }

  function WithCompany(state: CompanyTasks.State, version: nat): Db {
    Empty(OneEmployee()).(companyTasks := [CompanyTask(CompanyTasks.Row(state, None), version)])
  }

  function Proposed(plan: seq<DepartmentPlan>): Db {
    WithCompany(CompanyTasks.AwaitingUserConfirmation, 3).(plans := map[0 := PlanVersion("sha", plan, true)])
  }

  function Confirmation(): Command {
    Command(0, "artifact", "sha", 3, {}, true)
  }

  lemma {:induction false} CompanyMoves(state: CompanyTasks.State, target: CompanyTasks.State, version: nat)
    requires CompanyTasks.Move(CompanyTasks.Row(state, None), target) == Some(CompanyTasks.Row(target, None))
    requires !target.Completed?
    ensures Apply(WithCompany(state, version), MoveCompany(0, target)) == WithCompany(target, version + 1)
  {
  }

  lemma {:induction false} CompanyAndPlanArrive(plan: seq<DepartmentPlan>)
    ensures Apply(Empty(OneEmployee()), NewCompany) == WithCompany(CompanyTasks.Draft, 1)
    ensures Apply(WithCompany(CompanyTasks.AwaitingUserConfirmation, 3), ProposePlan(0, PlanVersion("sha", plan, true)))
            == Proposed(plan)
  {
  }

  lemma {:induction false} AnalysisMoves()
    ensures CompanyTasks.Move(CompanyTasks.Row(CompanyTasks.Draft, None), CompanyTasks.Analyzing)
            == Some(CompanyTasks.Row(CompanyTasks.Analyzing, None))
    ensures CompanyTasks.Move(CompanyTasks.Row(CompanyTasks.Analyzing, None), CompanyTasks.AwaitingUserConfirmation)
            == Some(CompanyTasks.Row(CompanyTasks.AwaitingUserConfirmation, None))
  {
  }

  /** Running on by one step. */
  lemma {:induction false} RunsOn(start: Db, steps: seq<Step>, step: Step, db: Db, db': Db)
    requires RunAll(start, steps) == db && Apply(db, step) == db'
    ensures RunAll(start, steps + [step]) == db'
  {
    OneMoreStep(start, steps, step);
  }

  lemma {:induction false} AnalysedIsReachable()
    ensures RunAll(Empty(OneEmployee()), Analysing()) == WithCompany(CompanyTasks.AwaitingUserConfirmation, 3)
  {
    var start, analyze := Empty(OneEmployee()), MoveCompany(0, CompanyTasks.Analyzing);
    var draft, analyzing := WithCompany(CompanyTasks.Draft, 1), WithCompany(CompanyTasks.Analyzing, 2);
    CompanyAndPlanArrive([]);
    AnalysisMoves();
    CompanyMoves(CompanyTasks.Draft, CompanyTasks.Analyzing, 1);
    CompanyMoves(CompanyTasks.Analyzing, CompanyTasks.AwaitingUserConfirmation, 2);
    RunsOn(start, [], NewCompany, start, draft);
    assert [] + [NewCompany] == [NewCompany];
    RunsOn(start, [NewCompany], analyze, draft, analyzing);
    RunsOn(start, [NewCompany] + [analyze], MoveCompany(0, CompanyTasks.AwaitingUserConfirmation), analyzing,
           WithCompany(CompanyTasks.AwaitingUserConfirmation, 3));
  }

  lemma {:induction false} ProposedIsReachable(plan: seq<DepartmentPlan>)
    ensures RunAll(Empty(OneEmployee()), Proposing(plan)) == Proposed(plan)
  {
    AnalysedIsReachable();
    CompanyAndPlanArrive(plan);
    RunsOn(Empty(OneEmployee()), Analysing(), ProposePlan(0, PlanVersion("sha", plan, true)),
           WithCompany(CompanyTasks.AwaitingUserConfirmation, 3), Proposed(plan));
  }

  lemma {:induction false} WorkIsStaffed(ref: string, dependencies: seq<string>, artifact: string)
    ensures TaskOk(OneEmployee(), Work(ref, dependencies, artifact), "catalog", "grant")
  {
    var t := Work(ref, dependencies, artifact);
    forall d | d in t.deliverables
      ensures DeliverableOk(OneEmployee(), d, t, "catalog", "grant")
    {
      assert d.contributors + d.reviewers == ["ann"];
      assert EmployeeOk(OneEmployee(), "ann", t, "catalog", "grant");
    }
  }

  // ---- A plan the shipped tables refuse ---------------------------------------------------

  function Dependent(): seq<DepartmentPlan> {
    [Work("first", [], "one"), Work("second", ["first"], "two")]
  }

  /** Two departments, the second after the first: confirmable but for the CHECK on its waiting row. */
  lemma {:induction false} DependentPlanIsRefused()
    ensures
      var db := RunAll(Empty(OneEmployee()), Proposing(Dependent()));
      Confirmable(ResumeSupplied, db, Confirmation()) && !Confirmable(Shipped, db, Confirmation())
  {
    var plan := Dependent();
    ProposedIsReachable(plan);
    WorkIsStaffed("first", [], "one");
    WorkIsStaffed("second", ["first"], "two");
    assert ArtifactTypes(plan, 1) == ArtifactTypes(plan, 0) + ["one"];
    assert ArtifactTypes(plan, 2) == ArtifactTypes(plan, 1) + ["two"];
    assert ArtifactTypes(plan, 2) == ["one", "two"];
    assert "one"[0] != "two"[0] && "first"[0] != "second"[0];
    assert HasUpstream(plan, 1) by {
      assert plan[0].localRef in plan[1].dependencyRefs;
    }
  }

  // ---- A dependency that is lost ----------------------------------------------------------

  function Forward(): seq<DepartmentPlan> {
    [Work("second", ["first"], "two"), Work("first", [], "one")]
  }

  lemma {:induction false} ForwardIsConfirmable()
    ensures Confirmable(Shipped, Proposed(Forward()), Confirmation())
  {
    var plan := Forward();
    WorkIsStaffed("first", [], "one");
    WorkIsStaffed("second", ["first"], "two");
    assert ArtifactTypes(plan, 1) == ArtifactTypes(plan, 0) + ["two"];
    assert ArtifactTypes(plan, 2) == ArtifactTypes(plan, 1) + ["one"];
    assert ArtifactTypes(plan, 2) == ["two", "one"];
    assert "one"[0] != "two"[0] && "first"[0] != "second"[0];
  }

  /** Listed the other way round, the same two departments are confirmed and the dependency is gone. */
  lemma {:induction false} ForwardReferenceIsLost()
    ensures
      var db := RunAll(Empty(OneEmployee()), Proposing(Forward()));
      && Confirmable(Shipped, db, Confirmation()) && PlanEdge(Forward(), 0, 1)
      && !Recorded(AfterConfirm(Shipped, db, Confirmation()).departmentEdges, |db.departmentTasks|, 0, 1)
  {
    var steps, plan := Proposing(Forward()), Forward();
    ProposedIsReachable(plan);
    ForwardIsConfirmable();
    var db := RunAll(Empty(OneEmployee()), steps);
    RecordedEdgesAreBackwardEdges(OneEmployee(), steps, Shipped, Confirmation(), db, plan,
                                  AfterConfirm(Shipped, db, Confirmation()), 0, 1);
  }

  // ---- Two drafts, one after the other ----------------------------------------------------

  function Chain(tags: seq<string>): seq<DepartmentPlan> {
    [DepartmentPlan("only", "office", false, "objective", [],
                    [Deliverable("one", SequentialRefinement, 1, ["ann", "ann"], [])], ["criterion"], tags, [])]
  }

  lemma {:induction false} ChainIsConfirmable(tags: seq<string>)
    requires forall t :: t in tags ==> Blank(t)
    ensures Confirmable(Shipped, Proposed(Chain(tags)), Confirmation())
  {
    var plan := Chain(tags);
    forall d | d in plan[0].deliverables
      ensures DeliverableOk(OneEmployee(), d, plan[0], "catalog", "grant")
    {
      assert d.contributors + d.reviewers == ["ann", "ann"];
      assert Required(tags) == {};
      assert EmployeeOk(OneEmployee(), "ann", plan[0], "catalog", "grant");
    }
    assert ArtifactTypes(plan, 1) == ArtifactTypes(plan, 0) + ["one"];
  }

  ghost function ChainConfirmed(tags: seq<string>): Db
    requires forall t :: t in tags ==> Blank(t)
  {
    ChainIsConfirmable(tags);
    AfterConfirm(Shipped, Proposed(Chain(tags)), Confirmation())
  }

  /** The second draft is deferred, and its task is number 1. */
  lemma {:induction false} ChainPlaces(tags: seq<string>)
    ensures InPlan(Chain(tags), 0, 0, 0) && InPlan(Chain(tags), 0, 0, 1)
    ensures SlotIndex(Chain(tags), 0, 0, 0) == 0 && SlotIndex(Chain(tags), 0, 0, 1) == 1
    ensures Deferred(Chain(tags), 0, 0, 1) && !Deferred(Chain(tags), 0, 0, 0) && !HasUpstream(Chain(tags), 0)
  {
  }

  lemma {:induction false} ChainConfirms(tags: seq<string>)
    requires forall t :: t in tags ==> Blank(t)
    ensures Confirms(OneEmployee(), Proposing(Chain(tags)), Shipped, Confirmation(), Proposed(Chain(tags)), Chain(tags),
                     ChainConfirmed(tags))
  {
    ProposedIsReachable(Chain(tags));
    ChainIsConfirmable(tags);
  }

  /** The first draft can be accepted, and the second waits for it. */
  ghost predicate SecondWaits(db: Db) {
    && Inv(db) && |db.employeeTasks| >= 2 && db.employeeTasks[0].resume.None?
    && db.employeeTasks[1].status.WaitingResource? && (1, 0) in db.employeeEdges
  }

  ghost predicate FirstAssigned(db: Db) {
    && |db.employeeTasks| >= 2 && db.employeeTasks[0].status.Assigned?
    && db.employeeTasks[1].status.WaitingResource? && (1, 0) in db.employeeEdges
  }

  lemma {:induction false} FirstIsUnsuspended(db: Db)
    requires Inv(db) && FirstAssigned(db)
    ensures SecondWaits(db)
  {
    assert TaskSound(Tables(db), |db.departmentTasks|, 0);
  }

  lemma {:induction false} ChainRows(tags: seq<string>)
    requires forall t :: t in tags ==> Blank(t)
    ensures FirstAssigned(ChainConfirmed(tags))
  {
    var plan, after := Chain(tags), ChainConfirmed(tags);
    var steps, db := Proposing(plan), Proposed(plan);
    ChainPlaces(tags);
    ChainConfirms(tags);
    ConfirmedTask(OneEmployee(), steps, Shipped, Confirmation(), db, plan, after, 0, 0, 0);
    ConfirmedTask(OneEmployee(), steps, Shipped, Confirmation(), db, plan, after, 0, 0, 1);
    ConfirmedChain(OneEmployee(), steps, Shipped, Confirmation(), db, plan, after, 0, 0, 1, 0);
  }

  lemma {:induction false} ChainWaits(tags: seq<string>)
    requires forall t :: t in tags ==> Blank(t)
    ensures SecondWaits(ChainConfirmed(tags))
  {
    var plan, after := Chain(tags), ChainConfirmed(tags);
    ChainConfirms(tags);
    ConfirmedInv(OneEmployee(), Proposing(plan), Shipped, Confirmation(), Proposed(plan), plan, after);
    ChainRows(tags);
    FirstIsUnsuspended(after);
  }

  /** The first draft is accepted, and the second has not been woken yet. */
  ghost function Accepted(tags: seq<string>): Db
    requires forall t :: t in tags ==> Blank(t)
  {
    Apply(ChainConfirmed(tags), AcceptTask(0, true))
  }

  lemma {:induction false} AcceptedIsReachable(tags: seq<string>)
    requires forall t :: t in tags ==> Blank(t)
    ensures Accepted(tags) == RunAll(Empty(OneEmployee()), Accepting(tags))
    ensures Accepted(tags) == RunAll(ChainConfirmed(tags), [AcceptTask(0, true)])
  {
    var start, s, confirm := Empty(OneEmployee()), Proposing(Chain(tags)), Confirm(Shipped, Confirmation());
    ProposedIsReachable(Chain(tags));
    ChainIsConfirmable(tags);
    RunsOn(start, s, confirm, Proposed(Chain(tags)), ChainConfirmed(tags));
    RunsOn(start, s + [confirm], AcceptTask(0, true), ChainConfirmed(tags), Accepted(tags));
    RunsOn(ChainConfirmed(tags), [], AcceptTask(0, true), ChainConfirmed(tags), Accepted(tags));
    assert [] + [AcceptTask(0, true)] == [AcceptTask(0, true)];
  }

  /** After the acceptance the second draft is due, and a pending row wakes it. */
  lemma {:induction false} SecondIsDue(db: Db) returns (row: nat)
    requires SecondWaits(db)
    ensures
      var later := Apply(db, AcceptTask(0, true));
      && Inv(later) && Due(Tables(later), 1) && later.resources == db.resources
      && row < |later.outbox| && Wakes(later.employeeEdges, later.outbox[row], 1)
  {
    var later := Apply(db, AcceptTask(0, true));
    AcceptSucceeds(db, 0);
    StepKeeps(db, AcceptTask(0, true));
    FollowerIsDue(later, 1);
    row :| row < |later.outbox| && Wakes(later.employeeEdges, later.outbox[row], 1);
  }

  /** With all routes found the delivery of that row commits. */
  lemma {:induction false} DeliveryCommits(db: Db, row: nat, t: nat)
    requires Inv(db) && row < |db.outbox| && Wakes(db.employeeEdges, db.outbox[row], t)
    ensures DeliverOne(db, row, Env(None, false, {})).Some?
  {
    AdvanceRaisesOnRouting(db, Env(None, false, {}), db.outbox[row].aggregate);
  }

  /** Row `row` wakes task 1, and with all routes found that assigns or fails it. */
  ghost predicate Settles(db: Db, row: nat, assigns: bool) {
    && Inv(db) && Due(Tables(db), 1) && row < |db.outbox| && Wakes(db.employeeEdges, db.outbox[row], 1)
    && DeliverOne(db, row, Env(None, false, {})).Some?
    && 1 < |DeliverOne(db, row, Env(None, false, {})).value.employeeTasks|
    && var status := DeliverOne(db, row, Env(None, false, {})).value.employeeTasks[1].status;
       if assigns then status.Assigned? else status.Failed?
  }

  /** Row `row` wakes task 1, and its delivery commits or raises with the routing of that task. */
  ghost predicate RaisesWithRouting(db: Db, row: nat) {
    && row < |db.outbox| && Wakes(db.employeeEdges, db.outbox[row], 1)
    && DeliverOne(db, row, Env(None, false, {})).Some? && DeliverOne(db, row, Env(None, false, {1})).None?
  }

  lemma {:induction false} DeliveryRaises(db: Db, row: nat)
    requires Settles(db, row, true)
    ensures RaisesWithRouting(db, row)
  {
    WakingDeliveryResolves(db, row, Env(None, false, {}), 1);
    assert Unroutable(db, Env(None, false, {1}), db.outbox[row].aggregate, 1);
    AdvanceRaisesOnRouting(db, Env(None, false, {1}), db.outbox[row].aggregate);
  }

  /** The second draft is settled by its tags. */
  lemma {:induction false} SecondIsSettled(tags: seq<string>) returns (row: nat)
    requires forall t :: t in tags ==> Blank(t)
    ensures Settles(Accepted(tags), row, UsableTags(tags))
  {
    var plan, after := Chain(tags), ChainConfirmed(tags);
    ChainPlaces(tags);
    ChainConfirms(tags);
    ChainWaits(tags);
    row := SecondIsDue(after);
    DeliveryCommits(Accepted(tags), row, 1);
    AcceptedIsReachable(tags);
    DeferredSegmentIsSettledByItsTags(OneEmployee(), Proposing(plan), Shipped, Confirmation(), Proposed(plan), plan,
                                      after, 0, 0, 1, 1, [AcceptTask(0, true)], row, Env(None, false, {}));
  }

  /** The run up to the acceptance of the first draft. */
  ghost function Accepting(tags: seq<string>): seq<Step> {
    Proposing(Chain(tags)) + [Confirm(Shipped, Confirmation())] + [AcceptTask(0, true)]
  }

  /** A plan with a blank tag is confirmed, and its deferred draft fails when it is woken. */
  lemma {:induction false} BlankTagFailsTheSegment() returns (row: nat)
    ensures Settles(RunAll(Empty(OneEmployee()), Accepting([" "])), row, false)
  {
    var tags := [" "];
    assert Blank(tags[0]);
    AcceptedIsReachable(tags);
    row := SecondIsSettled(tags);
    assert !UsableTags(tags);
  }

  /** Without tags the delivery assigns it, unless its candidates cannot be resolved: then it raises. */
  lemma {:induction false} RoutingFailureRaises() returns (row: nat)
    ensures RaisesWithRouting(RunAll(Empty(OneEmployee()), Accepting([])), row)
  {
    AcceptedIsReachable([]);
    row := SecondIsSettled([]);
    assert UsableTags([]);
    DeliveryRaises(Accepted([]), row);
  }

  // ---- A completion the state machine does not have ---------------------------------------

  function Single(): seq<DepartmentPlan> {
    [Work("only", [], "one")]
  }

  lemma {:induction false} SingleIsConfirmable()
    ensures Confirmable(Shipped, Proposed(Single()), Confirmation())
  {
    var plan := Single();
    WorkIsStaffed("only", [], "one");
    assert ArtifactTypes(plan, 1) == ArtifactTypes(plan, 0) + ["one"];
  }

  /** One assigned task, in one department of a company task that is being executed. */
  ghost predicate Fresh(db: Db) {
    && |db.employeeTasks| == 1 && db.employeeTasks[0].status.Assigned? && db.employeeTasks[0].resume.None?
    && |db.departmentTasks| == 1 && db.departmentTasks[0].companyTask == 0 && db.departmentTasks[0].resume.None?
    && |db.companyTasks| == 1 && db.companyTasks[0].row == CompanyTasks.Row(CompanyTasks.Executing, None)
  }

  lemma {:induction false} SingleTask(g: Target)
    ensures
      var rows := SlotRows(g, PlanSlots(Single(), 1));
      |rows| == 1 && rows[0].status.Assigned? && rows[0].resume.None?
  {
    var plan := Single();
    SlotAt(plan, 0, 0, 0, 1);
    assert |PlanSlots(plan, 0)| == 0 && |DeliverableSlots(StageOf(plan, 0), plan[0].deliverables, 0)| == 0;
    assert DeliverableSlots(StageOf(plan, 0), plan[0].deliverables, 1)
        == DeliverableSlots(StageOf(plan, 0), plan[0].deliverables, 0)
           + ContributorSlots(StageOf(plan, 0), 0, plan[0].deliverables[0], 1);
  }

  lemma {:induction false} AfterSingle()
    requires Confirmable(Shipped, Proposed(Single()), Confirmation())
    ensures Fresh(AfterConfirm(Shipped, Proposed(Single()), Confirmation()))
  {
    var db, g := Proposed(Single()), TargetOf(Proposed(Single()), Confirmation());
    var after := AfterConfirm(Shipped, db, Confirmation());
    assert |after.companyTasks| == 1 && after.companyTasks[0].row == CompanyTasks.Row(CompanyTasks.Executing, None) by {
      ConfirmedIsExecuting(Shipped, db, Confirmation());
    }
    ConfirmExtends(Shipped, db, Confirmation());
    assert after.employeeTasks == SlotRows(g, PlanSlots(Single(), 1)) by {
      assert after.employeeTasks == Tables(after).tasks;
    }
    SingleTask(g);
    assert after.departmentTasks == DepartmentRows(Shipped, 0, Single(), 1);
  }

  /** Confirm, accept the task unseen, complete its department. */
  ghost function Completing(): seq<Step> {
    Proposing(Single()) + [Confirm(Shipped, Confirmation())] + [AcceptTask(0, true)] + [FinishDepartment(0, true)]
  }

  lemma {:induction false} CompletesIllegally(db: Db)
    requires Fresh(db)
    ensures
      var later := Apply(Apply(db, AcceptTask(0, true)), FinishDepartment(0, true));
      && later.companyTasks == db.companyTasks && CompleteCompany(later, 0, true).Ok?
      && CompanyTasks.Move(db.companyTasks[0].row, CompanyTasks.Completed).None?
  {
    AcceptSucceeds(db, 0);
    GateOpens(Apply(db, AcceptTask(0, true)));
  }

  lemma {:induction false} GateOpens(db: Db)
    requires |db.employeeTasks| == 1 && db.employeeTasks[0].status.Accepted?
    requires |db.departmentTasks| == 1 && db.departmentTasks[0].companyTask == 0 && db.departmentTasks[0].resume.None?
    requires |db.companyTasks| == 1 && db.companyTasks[0].row.resume.None?
    ensures
      var later := Apply(db, FinishDepartment(0, true));
      later.companyTasks == db.companyTasks && CompleteCompany(later, 0, true).Ok?
  {
    assert DepartmentGate(db.employeeTasks, 0);
    var later := Apply(db, FinishDepartment(0, true));
    assert later.departmentTasks[0].status.Completed? && CompanyGate(later.departmentTasks, 0);
  }

  ghost function SingleConfirmed(): Db {
    Apply(Proposed(Single()), Confirm(Shipped, Confirmation()))
  }

  lemma {:induction false} CompletingRuns()
    ensures RunAll(Empty(OneEmployee()), Completing())
            == Apply(Apply(SingleConfirmed(), AcceptTask(0, true)), FinishDepartment(0, true))
  {
    var start, p, confirm := Empty(OneEmployee()), Proposing(Single()), Confirm(Shipped, Confirmation());
    ProposedIsReachable(Single());
    OneMoreStep(start, p, confirm);
    OneMoreStep(start, p + [confirm], AcceptTask(0, true));
    OneMoreStep(start, p + [confirm] + [AcceptTask(0, true)], FinishDepartment(0, true));
  }

  lemma {:induction false} SingleConfirms()
    ensures Fresh(SingleConfirmed())
  {
    SingleIsConfirmable();
    AfterSingle();
  }

  /** From a reachable state the handler takes an executing company task to `completed`, which is no edge. */
  lemma {:induction false} IllegalCompletionIsReachable()
    ensures
      var db := RunAll(Empty(OneEmployee()), Completing());
      && |db.companyTasks| == 1 && db.companyTasks[0].row.state.Executing? && CompleteCompany(db, 0, true).Ok?
      && CompanyTasks.Move(db.companyTasks[0].row, CompanyTasks.Completed).None?
  {
    CompletingRuns();
    SingleConfirms();
    CompletesIllegally(SingleConfirmed());
  }
}
