/**
 The rows a confirmation writes, read off the plan alone: who gets a task, which number it
 has, and every field of every row.
 */
module ConfirmedRows {
  import opened Basics
  import opened Plans
  import opened Preflight
  import opened Records
  import opened ConfirmPlan
  import opened ConfirmedGraph
  import opened ProtocolSteps
  import opened TaskProtocol
  import opened ConfirmationTheorems
  import CompanyTasks

  // ---- Who gets a task --------------------------------------------------------------------

  /** Contributor `p` of deliverable `e` of department `d` works, unless the first one does it alone. */
  predicate Works(plan: seq<DepartmentPlan>, d: nat, e: nat, p: nat) {
    && d < |plan| && e < |plan[d].deliverables| && p < |plan[d].deliverables[e].contributors|
    && (p == 0 || !plan[d].deliverables[e].strategy.PrimaryWithPeerReview?)
  }

  /** How many tasks a deliverable comes to. */
  function Headcount(x: Deliverable): nat {
    if x.strategy.PrimaryWithPeerReview? && |x.contributors| > 1 then 1 else |x.contributors|
  }

  function StageHeadcount(ds: seq<Deliverable>, n: nat): nat
    requires n <= |ds|
  {
    if n == 0 then 0 else StageHeadcount(ds, n - 1) + Headcount(ds[n - 1])
  }

  function PlanHeadcount(plan: seq<DepartmentPlan>, n: nat): nat
    requires n <= |plan|
  {
    if n == 0 then 0
    else PlanHeadcount(plan, n - 1) + StageHeadcount(plan[n - 1].deliverables, |plan[n - 1].deliverables|)
  }

  /** The number of a contributor's task: tasks are numbered in plan order from `first`. */
  function TaskNumber(first: nat, plan: seq<DepartmentPlan>, d: nat, e: nat, p: nat): nat
    requires Works(plan, d, e, p)
  {
    first + PlanHeadcount(plan, d) + StageHeadcount(plan[d].deliverables, e) + p
  }

  lemma {:induction false} KeptWork(plan: seq<DepartmentPlan>, d: nat, e: nat, p: nat)
    ensures InPlan(plan, d, e, p) <==> Works(plan, d, e, p)
    ensures Works(plan, d, e, p) ==> Kept(plan[d].deliverables[e])[p] == plan[d].deliverables[e].contributors[p]
  {
  }

  lemma {:induction false} StageSlotsCounted(stage: Stage, ds: seq<Deliverable>, n: nat)
    requires n <= |ds|
    ensures |DeliverableSlots(stage, ds, n)| == StageHeadcount(ds, n)
  {
    if n > 0 {
      StageSlotsCounted(stage, ds, n - 1);
    }
  }

  lemma {:induction false} PlanSlotsCounted(plan: seq<DepartmentPlan>, n: nat)
    requires n <= |plan|
    ensures |PlanSlots(plan, n)| == PlanHeadcount(plan, n)
  {
    if n > 0 {
      PlanSlotsCounted(plan, n - 1);
      StageSlotsCounted(StageOf(plan, n - 1), plan[n - 1].deliverables, |plan[n - 1].deliverables|);
    }
  }

  lemma {:induction false} NumberIsPlace(first: nat, plan: seq<DepartmentPlan>, d: nat, e: nat, p: nat)
    requires Works(plan, d, e, p)
    ensures InPlan(plan, d, e, p) && TaskNumber(first, plan, d, e, p) == first + SlotIndex(plan, d, e, p)
  {
    KeptWork(plan, d, e, p);
    PlanSlotsCounted(plan, d);
    StageSlotsCounted(StageOf(plan, d), plan[d].deliverables, e);
  }

  // ---- The rows ---------------------------------------------------------------------------

  /** Department `d` depends on one the plan lists before it. */
  predicate Waits(plan: seq<DepartmentPlan>, d: nat)
    requires d < |plan|
  {
    exists j :: 0 <= j < d && plan[j].localRef in plan[d].dependencyRefs
  }

  /** The contributor refines what the one before it did. */
  predicate Refines(plan: seq<DepartmentPlan>, d: nat, e: nat, p: nat)
    requires Works(plan, d, e, p)
  {
    p > 0 && plan[d].deliverables[e].strategy.SequentialRefinement?
  }

  /** The task row of contributor `p`, field by field. */
  ghost predicate HasRow(tasks: seq<EmployeeTask>, t: nat, department: nat, plan: seq<DepartmentPlan>,
                         d: nat, e: nat, p: nat)
    requires Works(plan, d, e, p)
  {
    && t < |tasks|
    && tasks[t] == if Refines(plan, d, e, p) || Waits(plan, d)
                   then EmployeeTask(department, plan[d].deliverables[e].contributors[p], Standard,
                                     EmployeeStatus.WaitingResource, Some(Assigned), 1)
                   else EmployeeTask(department, plan[d].deliverables[e].contributors[p], Standard, Assigned, None, 1)
  }

  lemma {:induction false} RowRead(g: Target, plan: seq<DepartmentPlan>, d: nat, e: nat, p: nat,
                                   tasks: seq<EmployeeTask>, t: nat)
    requires Works(plan, d, e, p) && InPlan(plan, d, e, p)
    requires t < |tasks| && tasks[t] == SlotRow(g, PlanSlot(plan, d, e, p))
    ensures HasRow(tasks, t, g.firstDepartment + d, plan, d, e, p)
  {
    KeptWork(plan, d, e, p);
  }

  /** Every contributor that works has its task, at its number, in its department. */
  lemma {:induction false} ContributorHasTask(resources: Resources, steps: seq<Step>, schema: Schema, cmd: Command,
                                              db: Db, plan: seq<DepartmentPlan>, after: Db, d: nat, e: nat, p: nat)
    requires Confirms(resources, steps, schema, cmd, db, plan, after) && Works(plan, d, e, p)
    ensures HasRow(after.employeeTasks, TaskNumber(|db.employeeTasks|, plan, d, e, p), |db.departmentTasks| + d,
                   plan, d, e, p)
  {
    var t, g := TaskNumber(|db.employeeTasks|, plan, d, e, p), TargetOf(db, cmd);
    NumberIsPlace(|db.employeeTasks|, plan, d, e, p);
    ConfirmedTables(resources, steps, schema, cmd, db, plan, after);
    SlotAt(plan, d, e, p, |plan|);
    RowOfSlot(db.employeeTasks, after.employeeTasks, g, PlanSlots(plan, |plan|), SlotIndex(plan, d, e, p), t);
    RowRead(g, plan, d, e, p, after.employeeTasks, t);
  }

  /** Task `t` is contributor `p`'s. */
  ghost predicate IsTaskOf(first: nat, plan: seq<DepartmentPlan>, d: nat, e: nat, p: nat, t: nat) {
    Works(plan, d, e, p) && t == TaskNumber(first, plan, d, e, p)
  }

  /**
   Nobody else has one: older tasks stay, there are as many new tasks as contributors that
   work, and each new task is exactly one contributor's.
   */
  lemma {:induction false} NobodyElseHasTask(resources: Resources, steps: seq<Step>, schema: Schema, cmd: Command,
                                             db: Db, plan: seq<DepartmentPlan>, after: Db, t: nat)
    returns (d: nat, e: nat, p: nat)
    requires Confirms(resources, steps, schema, cmd, db, plan, after)
    ensures |after.employeeTasks| == |db.employeeTasks| + PlanHeadcount(plan, |plan|)
    ensures db.employeeTasks <= after.employeeTasks
    ensures |db.employeeTasks| <= t < |after.employeeTasks| ==>
              && IsTaskOf(|db.employeeTasks|, plan, d, e, p, t)
              && forall d': nat, e': nat, p': nat ::
                   IsTaskOf(|db.employeeTasks|, plan, d', e', p', t) ==> d' == d && e' == e && p' == p
  {
    ConfirmedTables(resources, steps, schema, cmd, db, plan, after);
    PlanSlotsCounted(plan, |plan|);
    d, e, p := 0, 0, 0;
    if |db.employeeTasks| <= t < |after.employeeTasks| {
      d, e, p := OneTaskPerContributor(resources, steps, schema, cmd, db, plan, after, t);
      KeptWork(plan, d, e, p);
      NumberIsPlace(|db.employeeTasks|, plan, d, e, p);
      forall d': nat, e': nat, p': nat | IsTaskOf(|db.employeeTasks|, plan, d', e', p', t)
        ensures d' == d && e' == e && p' == p
      {
        NumberIsPlace(|db.employeeTasks|, plan, d', e', p');
        assert Holds(db, plan, d', e', p', t);
      }
    }
  }

  // ---- How it is dispatched ---------------------------------------------------------------

  /** The frozen spec of a contributor: the plan's tags as they stand, and what the checks resolved. */
  ghost predicate HasSpec(specs: map<nat, DispatchSpec>, t: nat, ct: nat, department: nat, res: Resources,
                          plan: seq<DepartmentPlan>, d: nat, e: nat, p: nat)
    requires Works(plan, d, e, p)
  {
    var who, tags := plan[d].deliverables[e].contributors[p], plan[d].requiredTags;
    && t in specs && who in res.employees && ct in res.workspaces && res.catalogRelease.Some?
    && specs[t].companyTask == ct && specs[t].department == department && specs[t].employee == who
    && specs[t].profileVersion == res.employees[who].profileVersion
    && specs[t].catalogRelease == res.catalogRelease.value && specs[t].grant == res.workspaces[ct].grant
    && specs[t].tags.Items? && |specs[t].tags.items| == |tags|
    && forall k :: 0 <= k < |tags| ==> specs[t].tags.items[k] == Text(tags[k])
  }

  /** The queued run of a contributor. */
  ghost predicate HasRun(runs: seq<Run>, t: nat, ct: nat, department: nat, res: Resources,
                         plan: seq<DepartmentPlan>, d: nat, e: nat, p: nat)
    requires Works(plan, d, e, p)
  {
    var who := plan[d].deliverables[e].contributors[p];
    && who in res.employees && ct in res.workspaces && res.catalogRelease.Some?
    && Run(t, ct, department, who, res.employees[who].profileVersion, res.catalogRelease.value,
           res.workspaces[ct].grant, plan[d].requiredTags, Queued) in runs
  }

  lemma {:induction false} EagerRunsHold(g: Target, slots: seq<Slot>, k: nat)
    requires k < |slots| && !slots[k].chained
    ensures SlotRun(g, slots[k], g.firstTask + k) in EagerRuns(g, slots)
  {
    if k < |slots| - 1 {
      EagerRunsHold(g, slots[..|slots| - 1], k);
    }
  }

  /** The target carries the employee's profile version, the catalog release and the workspace's grant. */
  ghost predicate ResolvedIn(g: Target, res: Resources, who: string) {
    && who in res.employees && ProfileIn(g.profiles, who) == res.employees[who].profileVersion
    && res.catalogRelease == Some(g.catalog)
    && g.companyTask in res.workspaces && res.workspaces[g.companyTask].grant == g.grant
  }

  lemma {:induction false} ResolvedFor(schema: Schema, db: Db, cmd: Command, d: nat, e: nat, p: nat)
    requires Confirmable(schema, db, cmd) && Works(db.plans[cmd.companyTask].tasks, d, e, p)
    ensures
      var g, who := TargetOf(db, cmd), db.plans[cmd.companyTask].tasks[d].deliverables[e].contributors[p];
      ResolvedIn(g, db.resources, who) && g.companyTask == cmd.companyTask && g.firstDepartment == |db.departmentTasks|
  {
    var x := db.plans[cmd.companyTask].tasks[d].deliverables[e];
    assert x in db.plans[cmd.companyTask].tasks[d].deliverables;
    assert (x.contributors + x.reviewers)[p] == x.contributors[p];
    assert x.contributors[p] in x.contributors + x.reviewers;
    assert DeliverableOk(db.resources, x, db.plans[cmd.companyTask].tasks[d], db.resources.catalogRelease.value,
                         db.resources.workspaces[cmd.companyTask].grant);
  }

  lemma {:induction false} ChainRead(edges: set<(nat, nat)>, edges': set<(nat, nat)>, first: nat,
                                     plan: seq<DepartmentPlan>, d: nat, e: nat, p: nat, t: nat, u: nat)
    requires Works(plan, d, e, p) && t == TaskNumber(first, plan, d, e, p)
    requires forall x :: x in edges ==> x.1 < x.0 < first
    requires edges' == edges + ChainEdges(first, PlanSlots(plan, |plan|))
    ensures (t, u) in edges' <==> Refines(plan, d, e, p) && u + 1 == t
  {
    NumberIsPlace(first, plan, d, e, p);
    ContributorChain(edges, edges', first, plan, d, e, p, u, t);
  }

  /** A contributor that refines another's work gets a frozen spec and no run. */
  lemma {:induction false} RefinerIsDeferred(resources: Resources, steps: seq<Step>, schema: Schema, cmd: Command,
                                             db: Db, plan: seq<DepartmentPlan>, after: Db, d: nat, e: nat, p: nat,
                                             t: nat)
    requires Confirms(resources, steps, schema, cmd, db, plan, after) && Works(plan, d, e, p)
    requires Refines(plan, d, e, p) && t == TaskNumber(|db.employeeTasks|, plan, d, e, p)
    ensures HasSpec(after.specs, t, cmd.companyTask, |db.departmentTasks| + d, db.resources, plan, d, e, p)
    ensures RunCount(after.runs, t) == 0
  {
    NumberIsPlace(|db.employeeTasks|, plan, d, e, p);
    ConfirmedSpec(resources, steps, schema, cmd, db, plan, after, d, e, p, t);
    ConfirmedContributor(resources, steps, schema, cmd, db, plan, after, d, e, p, t);
    ResolvedFor(schema, db, cmd, d, e, p);
    KeptWork(plan, d, e, p);
  }

  /** Who refines follows the task before it and no other; nobody else follows anybody. */
  lemma {:induction false} FollowsExactly(resources: Resources, steps: seq<Step>, schema: Schema, cmd: Command,
                                          db: Db, plan: seq<DepartmentPlan>, after: Db, d: nat, e: nat, p: nat,
                                          t: nat, u: nat)
    requires Confirms(resources, steps, schema, cmd, db, plan, after) && Works(plan, d, e, p)
    requires t == TaskNumber(|db.employeeTasks|, plan, d, e, p)
    ensures (t, u) in after.employeeEdges <==> Refines(plan, d, e, p) && u + 1 == t
  {
    ConfirmedTables(resources, steps, schema, cmd, db, plan, after);
    OlderRows(resources, steps, schema, cmd, db, plan, after);
    ChainRead(db.employeeEdges, after.employeeEdges, |db.employeeTasks|, plan, d, e, p, t, u);
  }

  lemma {:induction false} RunListed(runs: seq<Run>, runs': seq<Run>, g: Target, plan: seq<DepartmentPlan>,
                                     d: nat, e: nat, p: nat, t: nat)
    requires Works(plan, d, e, p) && InPlan(plan, d, e, p) && !Refines(plan, d, e, p)
    requires t == TaskNumber(g.firstTask, plan, d, e, p) && runs' == runs + EagerRuns(g, PlanSlots(plan, |plan|))
    ensures SlotRun(g, PlanSlot(plan, d, e, p), t) in runs'
  {
    NumberIsPlace(g.firstTask, plan, d, e, p);
    SlotAt(plan, d, e, p, |plan|);
    EagerRunsHold(g, PlanSlots(plan, |plan|), SlotIndex(plan, d, e, p));
  }

  lemma {:induction false} RunRead(runs: seq<Run>, runs': seq<Run>, g: Target, ct: nat, department: nat,
                                   res: Resources, plan: seq<DepartmentPlan>, d: nat, e: nat, p: nat, t: nat)
    requires g.companyTask == ct && g.firstDepartment + d == department
    requires Works(plan, d, e, p) && !Refines(plan, d, e, p) && t == TaskNumber(g.firstTask, plan, d, e, p)
    requires runs' == runs + EagerRuns(g, PlanSlots(plan, |plan|))
    requires ResolvedIn(g, res, plan[d].deliverables[e].contributors[p])
    ensures HasRun(runs', t, ct, department, res, plan, d, e, p)
  {
    KeptWork(plan, d, e, p);
    RunListed(runs, runs', g, plan, d, e, p, t);
  }

  lemma {:induction false} RunsAdded(schema: Schema, db: Db, cmd: Command)
    requires Confirmable(schema, db, cmd)
    ensures
      var plan := db.plans[cmd.companyTask].tasks;
      && TargetOf(db, cmd).firstTask == |db.employeeTasks|
      && AfterConfirm(schema, db, cmd).runs == db.runs + EagerRuns(TargetOf(db, cmd), PlanSlots(plan, |plan|))
  {
  }

  /** Anybody else has a queued run. */
  lemma {:induction false} OthersAreQueued(schema: Schema, db: Db, cmd: Command, plan: seq<DepartmentPlan>,
                                           d: nat, e: nat, p: nat, t: nat)
    requires Confirmable(schema, db, cmd) && plan == db.plans[cmd.companyTask].tasks && Works(plan, d, e, p)
    requires !Refines(plan, d, e, p) && t == TaskNumber(|db.employeeTasks|, plan, d, e, p)
    ensures HasRun(AfterConfirm(schema, db, cmd).runs, t, cmd.companyTask, |db.departmentTasks| + d, db.resources,
                   plan, d, e, p)
  {
    RunsAdded(schema, db, cmd);
    ResolvedFor(schema, db, cmd, d, e, p);
    RunRead(db.runs, AfterConfirm(schema, db, cmd).runs, TargetOf(db, cmd), cmd.companyTask,
            |db.departmentTasks| + d, db.resources, plan, d, e, p, t);
  }

  /** That run is its only one, and it has no spec. */
  lemma {:induction false} OthersHaveOneRun(resources: Resources, steps: seq<Step>, schema: Schema, cmd: Command,
                                            db: Db, plan: seq<DepartmentPlan>, after: Db, d: nat, e: nat, p: nat,
                                            t: nat)
    requires Confirms(resources, steps, schema, cmd, db, plan, after) && Works(plan, d, e, p)
    requires !Refines(plan, d, e, p) && t == TaskNumber(|db.employeeTasks|, plan, d, e, p)
    ensures RunCount(after.runs, t) == 1 && t !in after.specs
  {
    NumberIsPlace(|db.employeeTasks|, plan, d, e, p);
    ConfirmedContributor(resources, steps, schema, cmd, db, plan, after, d, e, p, t);
    if HasEdge(after.employeeEdges, t) {
      var u: nat :| (t, u) in after.employeeEdges;
      FollowsExactly(resources, steps, schema, cmd, db, plan, after, d, e, p, t, u);
    }
  }

  // ---- Departments and the rest -----------------------------------------------------------

  /** The row of department `i`, field by field; the shipped tables never let a waiting one through. */
  lemma {:induction false} DepartmentHasRow(resources: Resources, steps: seq<Step>, schema: Schema, cmd: Command,
                                            db: Db, plan: seq<DepartmentPlan>, after: Db, i: nat)
    requires Confirms(resources, steps, schema, cmd, db, plan, after) && i < |plan|
    ensures |after.departmentTasks| == |db.departmentTasks| + |plan| && db.departmentTasks <= after.departmentTasks
    ensures after.departmentTasks[|db.departmentTasks| + i] ==
            if Waits(plan, i)
            then DepartmentTask(cmd.companyTask, plan[i].departmentId, plan[i].localRef,
                                DepartmentStatus.WaitingDependency, Some(DepartmentStatus.Ready), 1)
            else DepartmentTask(cmd.companyTask, plan[i].departmentId, plan[i].localRef,
                                DepartmentStatus.Ready, None, 1)
  {
    ConfirmedTables(resources, steps, schema, cmd, db, plan, after);
    DepartmentRowAt(db.departmentTasks, schema, cmd.companyTask, plan, i, |db.departmentTasks| + i);
    assert Waits(plan, i) <==> HasUpstream(plan, i);
  }

  /** Everything else a confirmation touches: the company task, its plan, the plan's artifact. */
  lemma {:induction false} ConfirmationFrame(schema: Schema, db: Db, cmd: Command, c: nat)
    requires Confirmable(schema, db, cmd)
    ensures
      var after, ct := AfterConfirm(schema, db, cmd), cmd.companyTask;
      && |after.companyTasks| == |db.companyTasks|
      && after.companyTasks[ct] == CompanyTask(CompanyTasks.Row(CompanyTasks.Executing, None), cmd.expectedVersion + 4)
      && (c < |db.companyTasks| && c != ct ==> after.companyTasks[c] == db.companyTasks[c])
      && after.plans == db.plans[ct := PlanVersion(cmd.planSha, db.plans[ct].tasks, false)]
      && after.artifacts == db.artifacts + {cmd.planArtifact} && after.resources == db.resources
      && db.events <= after.events && db.outbox <= after.outbox
  {
  }

  /** The four notifications of a confirmation, in order and each pending. */
  lemma {:induction false} ConfirmationAnnounces(schema: Schema, db: Db, cmd: Command)
    requires Confirmable(schema, db, cmd)
    ensures
      var after, ct, v := AfterConfirm(schema, db, cmd), cmd.companyTask, cmd.expectedVersion;
      var toApproved := CompanyChange(CompanyTasks.AwaitingUserConfirmation, CompanyTasks.Approved);
      var toDispatching := CompanyChange(CompanyTasks.Approved, CompanyTasks.Dispatching);
      var toChecking := CompanyChange(CompanyTasks.Dispatching, CompanyTasks.CheckingResources);
      var toExecuting := CompanyChange(CompanyTasks.CheckingResources, CompanyTasks.Executing);
      && after.outbox == db.outbox + [OutboxRow(CompanyStatusChanged, ct, toApproved, true),
                                      OutboxRow(CompanyStatusChanged, ct, toDispatching, true),
                                      OutboxRow(CompanyStatusChanged, ct, toChecking, true),
                                      OutboxRow(CompanyStatusChanged, ct, toExecuting, true)]
      && after.events == db.events + [DomainEvent(ct, v + 1, toApproved), DomainEvent(ct, v + 2, toDispatching),
                                      DomainEvent(ct, v + 3, toChecking), DomainEvent(ct, v + 4, toExecuting)]
  {
  }

  // ---- When it happens --------------------------------------------------------------------

  /** The employee is active in the department, under a published and usable profile that holds the tags. */
  predicate CanWork(res: Resources, who: string, task: DepartmentPlan, grant: string) {
    && who in res.employees && res.employees[who].active && res.employees[who].department == task.departmentId
    && res.employees[who].profileVersion.Some? && res.employees[who].profileVersion.value in res.profiles
    && (var profile := res.profiles[res.employees[who].profileVersion.value];
        && profile.published && profile.profileActive && profile.bindingUsable
        && res.catalogRelease == Some(profile.catalogRelease)
        && forall tag :: tag in task.requiredTags && !Blank(tag) ==> tag in profile.tags)
    && grant != ""
  }

  /** Every department is active with a revision, has deliverables, and everyone listed can work on them. */
  predicate Staffed(res: Resources, plan: seq<DepartmentPlan>, grant: string) {
    forall d: nat :: d < |plan| ==>
      && plan[d].departmentId in res.departments && res.departments[plan[d].departmentId].active
      && res.departments[plan[d].departmentId].revision.Some?
      && plan[d].deliverables != []
      && forall e: nat :: e < |plan[d].deliverables| ==>
           && plan[d].deliverables[e].contributors != []
           && (forall who :: who in plan[d].deliverables[e].contributors ==> CanWork(res, who, plan[d], grant))
           && (forall who :: who in plan[d].deliverables[e].reviewers ==> CanWork(res, who, plan[d], grant))
  }

  /** The plan has a deliverable of artifact type `x` at this place. */
  ghost predicate TypeAt(plan: seq<DepartmentPlan>, d: nat, e: nat, x: string) {
    d < |plan| && e < |plan[d].deliverables| && plan[d].deliverables[e].artifactType == x
  }

  /** No artifact type occurs at two places of the plan. */
  ghost predicate OneTypeEach(plan: seq<DepartmentPlan>) {
    forall d: nat, e: nat, d': nat, e': nat, x ::
      TypeAt(plan, d, e, x) && TypeAt(plan, d', e', x) ==> d == d' && e == e'
  }

  lemma {:induction false} TypePlace(plan: seq<DepartmentPlan>, d: nat, e: nat, n: nat, k: nat)
    requires d < n <= |plan| && e < |plan[d].deliverables| && k == |ArtifactTypes(plan, d)| + e
    ensures k < |ArtifactTypes(plan, d + 1)| <= |ArtifactTypes(plan, n)|
    ensures ArtifactTypes(plan, n)[k] == plan[d].deliverables[e].artifactType
  {
    var ds := plan[d].deliverables;
    var here := seq(|ds|, i requires 0 <= i < |ds| => ds[i].artifactType);
    TypesPrefix(plan, d + 1, n);
    PlaceIn(ArtifactTypes(plan, d), here, ArtifactTypes(plan, n), e);
  }

  lemma {:induction false} TypeFrom(plan: seq<DepartmentPlan>, n: nat, k: nat) returns (d: nat, e: nat)
    requires n <= |plan| && k < |ArtifactTypes(plan, n)|
    ensures d < n && e < |plan[d].deliverables| && k == |ArtifactTypes(plan, d)| + e
  {
    if k < |ArtifactTypes(plan, n - 1)| {
      d, e := TypeFrom(plan, n - 1, k);
    } else {
      d, e := n - 1, k - |ArtifactTypes(plan, n - 1)|;
    }
  }

  lemma {:induction false} PlacesApart(plan: seq<DepartmentPlan>, d: nat, e: nat, d': nat, e': nat)
    requires d < |plan| && e < |plan[d].deliverables| && d' < |plan| && e' < |plan[d'].deliverables|
    requires |ArtifactTypes(plan, d)| + e == |ArtifactTypes(plan, d')| + e'
    ensures d == d' && e == e'
  {
    if d < d' {
      TypePlace(plan, d, e, d', |ArtifactTypes(plan, d)| + e);
    } else if d' < d {
      TypePlace(plan, d', e', d, |ArtifactTypes(plan, d')| + e');
    }
  }

  lemma {:induction false} DistinctMeansOneEach(plan: seq<DepartmentPlan>)
    ensures DistinctArtifactTypes(plan) <==> OneTypeEach(plan)
  {
    var all := ArtifactTypes(plan, |plan|);
    if DistinctArtifactTypes(plan) {
      forall d: nat, e: nat, d': nat, e': nat, x | TypeAt(plan, d, e, x) && TypeAt(plan, d', e', x)
        ensures d == d' && e == e'
      {
        TypePlace(plan, d, e, |plan|, |ArtifactTypes(plan, d)| + e);
        TypePlace(plan, d', e', |plan|, |ArtifactTypes(plan, d')| + e');
        PlacesApart(plan, d, e, d', e');
      }
    }
    if OneTypeEach(plan) {
      forall i, j | 0 <= i < j < |all|
        ensures all[i] != all[j]
      {
        var d, e := TypeFrom(plan, |plan|, i);
        var d', e' := TypeFrom(plan, |plan|, j);
        TypePlace(plan, d, e, |plan|, i);
        TypePlace(plan, d', e', |plan|, j);
        if all[i] == all[j] {
          assert TypeAt(plan, d, e, all[i]) && TypeAt(plan, d', e', all[i]);
        }
      }
    }
  }

  lemma {:induction false} StaffedMeansResourced(res: Resources, plan: seq<DepartmentPlan>, catalog: string,
                                                 grant: string)
    requires res.catalogRelease == Some(catalog)
    ensures (forall i :: 0 <= i < |plan| ==> TaskOk(res, plan[i], catalog, grant)) <==> Staffed(res, plan, grant)
  {
    forall who: string, task: DepartmentPlan
      ensures EmployeeOk(res, who, task, catalog, grant) <==> CanWork(res, who, task, grant)
    {
    }
    if forall i :: 0 <= i < |plan| ==> TaskOk(res, plan[i], catalog, grant) {
      forall d: nat, e: nat | d < |plan| && e < |plan[d].deliverables|
        ensures DeliverableOk(res, plan[d].deliverables[e], plan[d], catalog, grant)
      {
        assert TaskOk(res, plan[d], catalog, grant) && plan[d].deliverables[e] in plan[d].deliverables;
      }
    }
  }

  /** The command is about a task that awaits confirmation of this very plan, in the version the user saw. */
  ghost predicate Answers(db: Db, cmd: Command) {
    var ct := cmd.companyTask;
    && ct < |db.companyTasks| && db.companyTasks[ct].row.state == CompanyTasks.AwaitingUserConfirmation
    && db.companyTasks[ct].version == cmd.expectedVersion
    && ct in db.plans && db.plans[ct].awaiting && db.plans[ct].sha == cmd.planSha
    && db.plans[ct].tasks != [] && OneTypeEach(db.plans[ct].tasks)
  }

  /** The company, its catalog, the workspace with its grant, and everyone the plan names are there. */
  ghost predicate Equipped(db: Db, cmd: Command)
    requires cmd.companyTask in db.plans
  {
    var ct, res := cmd.companyTask, db.resources;
    && res.companyRevision.Some? && res.catalogRelease.Some?
    && ct in res.workspaces && res.workspaces[ct].active && res.workspaces[ct].grantActive
    && (cmd.grants == {} || res.workspaces[ct].grant in cmd.grants)
    && Staffed(res, db.plans[ct].tasks, res.workspaces[ct].grant)
  }

  /** The tables take the rows: stage keys are new and distinct, and no waiting row lacks its resume state. */
  ghost predicate Storable(schema: Schema, db: Db, cmd: Command)
    requires cmd.companyTask in db.plans
  {
    var ct, plan := cmd.companyTask, db.plans[cmd.companyTask].tasks;
    && (forall i: nat, j: nat :: i < j < |plan| ==> plan[i].localRef != plan[j].localRef)
    && (forall r, i: nat :: r in db.departmentTasks && r.companyTask == ct && i < |plan| ==>
          r.stageKey != plan[i].localRef)
    && (schema.Shipped? ==> forall i: nat :: i < |plan| ==> !Waits(plan, i))
    && cmd.planArtifact !in db.artifacts
  }

  /** A confirmation changes the database exactly under these conditions, each one on the rows. */
  lemma {:induction false} ConfirmsExactly(schema: Schema, db: Db, cmd: Command)
    ensures Apply(db, Confirm(schema, cmd)) != db <==>
            Answers(db, cmd) && Equipped(db, cmd) && Storable(schema, db, cmd) && cmd.routable
  {
    if cmd.companyTask in db.plans {
      var plan := db.plans[cmd.companyTask].tasks;
      DistinctMeansOneEach(plan);
      if db.resources.catalogRelease.Some? && cmd.companyTask in db.resources.workspaces {
        StaffedMeansResourced(db.resources, plan, db.resources.catalogRelease.value,
                              db.resources.workspaces[cmd.companyTask].grant);
      }
      assert forall i: nat :: i < |plan| ==> (Waits(plan, i) <==> HasUpstream(plan, i));
      AcceptsStorable(schema, db, cmd, plan);
    }
    if Confirmable(schema, db, cmd) {
      ConfirmationFrame(schema, db, cmd, 0);
    }
  }

  lemma {:induction false} AcceptsStorable(schema: Schema, db: Db, cmd: Command, plan: seq<DepartmentPlan>)
    requires cmd.companyTask in db.plans && plan == db.plans[cmd.companyTask].tasks
    ensures SchemaAccepts(schema, db.departmentTasks, cmd.companyTask, plan) && cmd.planArtifact !in db.artifacts
            <==> Storable(schema, db, cmd)
  {
    assert forall i: nat :: i < |plan| ==> (Waits(plan, i) <==> HasUpstream(plan, i));
  }
}
