/**
 `confirm_and_dispatch`: one transaction turns the awaiting plan into department
 tasks, employee tasks, dependency edges, frozen dispatch specs and queued runs.
 */
module ConfirmPlan {
  import opened Basics
  import opened Plans
  import opened Preflight
  import opened Records
  import CompanyTasks

  /**
   The tables as migrated, and the tables as the repository's own dependency test
   presents them: there a wrapper adds the resume state that the confirmation leaves
   out when it inserts a department that waits for another one.
   */
  datatype Schema = Shipped | ResumeSupplied

  datatype Command = Command(
    companyTask: nat,
    planArtifact: string,
    planSha: string,
    expectedVersion: nat,
    grants: set<string>,
    routable: bool)             // the routing candidates of every run queued at once can be resolved

  datatype Refusal =
    | ResourceNotFound | StateTransitionInvalid | OptimisticLockConflict | NoAwaitingPlan | PlanShaMismatch
    | PlanInvalid | DuplicateArtifactType | CompanyRevisionNotFound | WorkspaceNotReady | GrantMismatch
    | WriteFailed

  datatype Reply =
    | Confirmed(version: nat)
    | AlreadyConfirmed(version: nat)
    | WaitingForResources(version: nat)
    | Raised(refusal: Refusal)

  // ---- The employee tasks a plan asks for -------------------------------------------------

  /** Does department `i` depend on one listed before it? */
  predicate HasUpstream(plan: seq<DepartmentPlan>, i: nat) {
    i < |plan| && exists j :: 0 <= j < i && plan[j].localRef in plan[i].dependencyRefs
  }

  /** With a primary contributor the peers only review. */
  function Kept(d: Deliverable): seq<string> {
    if d.strategy.PrimaryWithPeerReview? && d.contributors != [] then d.contributors[..1] else d.contributors
  }

  /** A department of the plan as its employee tasks see it. */
  datatype Stage = Stage(index: nat, waits: bool, tags: seq<string>)

  function StageOf(plan: seq<DepartmentPlan>, i: nat): Stage
    requires i < |plan|
  {
    Stage(i, HasUpstream(plan, i), plan[i].requiredTags)
  }

  /**
   One employee task to create: the place in the plan it stands for, who does it, and
   whether it follows the contributor before it.
   */
  datatype Slot = Slot(stage: Stage, deliverable: nat, position: nat, employee: string, chained: bool)

  function SlotFor(stage: Stage, deliverable: nat, d: Deliverable, i: nat): Slot
    requires i < |Kept(d)|
  {
    Slot(stage, deliverable, i, Kept(d)[i], d.strategy.SequentialRefinement? && i > 0)
  }

  function ContributorSlots(stage: Stage, deliverable: nat, d: Deliverable, n: nat): (s: seq<Slot>)
    requires n <= |Kept(d)|
    ensures |s| == n && forall i :: 0 <= i < n ==> s[i] == SlotFor(stage, deliverable, d, i)
  {
    if n == 0 then [] else ContributorSlots(stage, deliverable, d, n - 1) + [SlotFor(stage, deliverable, d, n - 1)]
  }

  function DeliverableSlots(stage: Stage, ds: seq<Deliverable>, n: nat): seq<Slot>
    requires n <= |ds|
  {
    if n == 0 then []
    else DeliverableSlots(stage, ds, n - 1) + ContributorSlots(stage, n - 1, ds[n - 1], |Kept(ds[n - 1])|)
  }

  function StageSlots(plan: seq<DepartmentPlan>, i: nat): seq<Slot>
    requires i < |plan|
  {
    DeliverableSlots(StageOf(plan, i), plan[i].deliverables, |plan[i].deliverables|)
  }

  /** The employee tasks of the first `n` department tasks, in creation order. */
  function PlanSlots(plan: seq<DepartmentPlan>, n: nat): seq<Slot>
    requires n <= |plan|
  {
    if n == 0 then [] else PlanSlots(plan, n - 1) + StageSlots(plan, n - 1)
  }

  // ---- The employee rows ------------------------------------------------------------------

  /** What the transaction has resolved before it starts inserting. */
  datatype Target = Target(
    companyTask: nat,
    firstDepartment: nat,
    firstTask: nat,
    catalog: string,
    grant: string,
    profiles: map<string, Option<string>>)

  function SlotRow(g: Target, s: Slot): EmployeeTask {
    var waits := s.chained || s.stage.waits;
    EmployeeTask(g.firstDepartment + s.stage.index, s.employee, Standard,
                 if waits then EmployeeStatus.WaitingResource else Assigned,
                 if waits then Some(Assigned) else None, 1)
  }

  function ProfileIn(profiles: map<string, Option<string>>, e: string): Option<string> {
    if e in profiles then profiles[e] else None
  }

  /** The tag list is frozen as the plan has it. */
  function Freeze(tags: seq<string>): FrozenTags {
    Items(seq(|tags|, i requires 0 <= i < |tags| => Text(tags[i])))
  }

  function SlotSpec(g: Target, s: Slot): DispatchSpec {
    DispatchSpec(g.companyTask, g.firstDepartment + s.stage.index, s.employee,
                 ProfileIn(g.profiles, s.employee), g.catalog, g.grant, Freeze(s.stage.tags))
  }

  function SlotRun(g: Target, s: Slot, id: nat): Run {
    Run(id, g.companyTask, g.firstDepartment + s.stage.index, s.employee,
        ProfileIn(g.profiles, s.employee), g.catalog, g.grant, s.stage.tags, Queued)
  }

  ghost function SlotRows(g: Target, slots: seq<Slot>): (rows: seq<EmployeeTask>)
    ensures |rows| == |slots| && forall k :: 0 <= k < |slots| ==> rows[k] == SlotRow(g, slots[k])
  {
    if slots == [] then [] else SlotRows(g, slots[..|slots| - 1]) + [SlotRow(g, slots[|slots| - 1])]
  }

  /** A chained slot depends on the task created just before it. */
  ghost function ChainEdges(first: nat, slots: seq<Slot>): set<(nat, nat)> {
    if slots == [] then {}
    else
      var k := |slots| - 1;
      var before := ChainEdges(first, slots[..k]);
      if slots[k].chained && first + k > 0 then before + {(first + k, (first + k - 1) as nat)} else before
  }

  ghost function DeferredSpecs(g: Target, slots: seq<Slot>): map<nat, DispatchSpec> {
    if slots == [] then map[]
    else
      var k := |slots| - 1;
      var before := DeferredSpecs(g, slots[..k]);
      if slots[k].chained then before[g.firstTask + k := SlotSpec(g, slots[k])] else before
  }

  /** The runs queued at once: one for every slot that follows nobody. */
  ghost function EagerRuns(g: Target, slots: seq<Slot>): seq<Run> {
    if slots == [] then []
    else
      var k := |slots| - 1;
      var before := EagerRuns(g, slots[..k]);
      if slots[k].chained then before else before + [SlotRun(g, slots[k], g.firstTask + k)]
  }

  /** The four tables the contributor loop writes. */
  datatype EmployeeTables = EmployeeTables(
    tasks: seq<EmployeeTask>,
    edges: set<(nat, nat)>,
    specs: map<nat, DispatchSpec>,
    runs: seq<Run>)

  /** What `before` had, and the rows of `slots`. */
  ghost function With(before: EmployeeTables, g: Target, slots: seq<Slot>): EmployeeTables {
    EmployeeTables(before.tasks + SlotRows(g, slots), before.edges + ChainEdges(g.firstTask, slots),
                   before.specs + DeferredSpecs(g, slots), before.runs + EagerRuns(g, slots))
  }

  lemma {:induction false} WithNothing(before: EmployeeTables, g: Target)
    ensures With(before, g, []) == before
  {
  }

  lemma {:induction false} OneMoreSlot(g: Target, slots: seq<Slot>, s: Slot)
    requires s.chained ==> g.firstTask + |slots| > 0
    ensures SlotRows(g, slots + [s]) == SlotRows(g, slots) + [SlotRow(g, s)]
    ensures ChainEdges(g.firstTask, slots + [s]) ==
            if s.chained
            then ChainEdges(g.firstTask, slots) + {(g.firstTask + |slots|, (g.firstTask + |slots| - 1) as nat)}
            else ChainEdges(g.firstTask, slots)
    ensures DeferredSpecs(g, slots + [s]) ==
            if s.chained
            then DeferredSpecs(g, slots)[g.firstTask + |slots| := SlotSpec(g, s)]
            else DeferredSpecs(g, slots)
    ensures EagerRuns(g, slots + [s]) ==
            if s.chained then EagerRuns(g, slots) else EagerRuns(g, slots) + [SlotRun(g, s, g.firstTask + |slots|)]
  {
    assert (slots + [s])[..|slots|] == slots;
  }

  lemma {:induction false} WithOneMoreChained(before: EmployeeTables, g: Target, done: seq<Slot>, s: Slot)
    requires s.chained && g.firstTask + |done| > 0
    ensures
      var cur, id := With(before, g, done), g.firstTask + |done|;
      With(before, g, done + [s]) == EmployeeTables(cur.tasks + [SlotRow(g, s)], cur.edges + {(id, (id - 1) as nat)},
                                                    cur.specs[id := SlotSpec(g, s)], cur.runs)
  {
    var id := g.firstTask + |done|;
    OneMoreSlot(g, done, s);
    AppendAssoc(before.tasks, SlotRows(g, done), [SlotRow(g, s)]);
    UnionAssoc(before.edges, ChainEdges(g.firstTask, done), {(id, (id - 1) as nat)});
    MergePut(before.specs, DeferredSpecs(g, done), id, SlotSpec(g, s));
  }

  lemma {:induction false} WithOneMoreEager(before: EmployeeTables, g: Target, done: seq<Slot>, s: Slot)
    requires !s.chained
    ensures
      var cur, id := With(before, g, done), g.firstTask + |done|;
      With(before, g, done + [s])
        == EmployeeTables(cur.tasks + [SlotRow(g, s)], cur.edges, cur.specs, cur.runs + [SlotRun(g, s, id)])
  {
    OneMoreSlot(g, done, s);
    AppendAssoc(before.tasks, SlotRows(g, done), [SlotRow(g, s)]);
    AppendAssoc(before.runs, EagerRuns(g, done), [SlotRun(g, s, g.firstTask + |done|)]);
  }

  // ---- The department rows ----------------------------------------------------------------

  function DepartmentRow(schema: Schema, companyTask: nat, plan: seq<DepartmentPlan>, i: nat): DepartmentTask
    requires i < |plan|
  {
    var waits := HasUpstream(plan, i);
    DepartmentTask(companyTask, plan[i].departmentId, plan[i].localRef,
                   if waits then DepartmentStatus.WaitingDependency else DepartmentStatus.Ready,
                   if waits && schema.ResumeSupplied? then Some(DepartmentStatus.Ready) else None, 1)
  }

  ghost function DepartmentRows(schema: Schema, companyTask: nat, plan: seq<DepartmentPlan>,
                                n: nat): (rows: seq<DepartmentTask>)
    requires n <= |plan|
    ensures |rows| == n && forall i :: 0 <= i < n ==> rows[i] == DepartmentRow(schema, companyTask, plan, i)
  {
    if n == 0 then []
    else DepartmentRows(schema, companyTask, plan, n - 1) + [DepartmentRow(schema, companyTask, plan, n - 1)]
  }

  /** The edges recorded with department `n`: dependencies on departments created before it. */
  ghost function EdgesFrom(plan: seq<DepartmentPlan>, base: nat, n: nat, refs: seq<string>): set<(nat, nat)>
    requires n < |plan|
  {
    set j: nat | j < n && plan[j].localRef in refs :: (base + n, base + j)
  }

  ghost function DepartmentEdges(plan: seq<DepartmentPlan>, base: nat, n: nat): set<(nat, nat)>
    requires n <= |plan|
  {
    if n == 0 then {}
    else DepartmentEdges(plan, base, n - 1) + EdgesFrom(plan, base, n - 1, plan[n - 1].dependencyRefs)
  }

  /** No stored row of the company task has the stage key. */
  predicate StageFree(rows: seq<DepartmentTask>, companyTask: nat, stage: string) {
    forall r :: r in rows && r.companyTask == companyTask ==> r.stageKey != stage
  }

  ghost predicate DistinctStages(rows: seq<DepartmentTask>, companyTask: nat, plan: seq<DepartmentPlan>, n: nat)
    requires n <= |plan|
  {
    && (forall i, j :: 0 <= i < j < n ==> plan[i].localRef != plan[j].localRef)
    && (forall i :: 0 <= i < n ==> StageFree(rows, companyTask, plan[i].localRef))
  }

  /** The constraints of department_tasks on the rows of the first `n` departments. */
  ghost predicate AcceptedUpTo(schema: Schema, rows: seq<DepartmentTask>, companyTask: nat, plan: seq<DepartmentPlan>,
                               n: nat)
    requires n <= |plan|
  {
    && DistinctStages(rows, companyTask, plan, n)
    && (schema.Shipped? ==> forall i :: 0 <= i < n ==> !HasUpstream(plan, i))
  }

  ghost predicate SchemaAccepts(schema: Schema, rows: seq<DepartmentTask>, companyTask: nat,
                                plan: seq<DepartmentPlan>) {
    AcceptedUpTo(schema, rows, companyTask, plan, |plan|)
  }

  /** The next row passes its constraints exactly when one more department is acceptable. */
  lemma {:induction false} AcceptedStep(schema: Schema, rows: seq<DepartmentTask>, ct: nat, plan: seq<DepartmentPlan>,
                                        n: nat)
    requires n < |plan| && AcceptedUpTo(schema, rows, ct, plan, n)
    ensures AcceptedUpTo(schema, rows, ct, plan, n + 1) <==>
            DepartmentRowOk(DepartmentRow(schema, ct, plan, n))
            && StageFree(rows + DepartmentRows(schema, ct, plan, n), ct, plan[n].localRef)
    ensures StageFree(rows + DepartmentRows(schema, ct, plan, n), ct, plan[n].localRef) ==>
              forall j :: 0 <= j < n ==> plan[j].localRef != plan[n].localRef
  {
    var all := rows + DepartmentRows(schema, ct, plan, n);
    if StageFree(all, ct, plan[n].localRef) {
      forall j | 0 <= j < n
        ensures plan[j].localRef != plan[n].localRef
      {
        assert all[|rows| + j] == DepartmentRow(schema, ct, plan, j);
      }
      assert forall r :: r in rows ==> r in all;
    }
  }

  lemma {:induction false} RejectionIsFinal(schema: Schema, rows: seq<DepartmentTask>, ct: nat,
                                            plan: seq<DepartmentPlan>, n: nat)
    requires n <= |plan| && !AcceptedUpTo(schema, rows, ct, plan, n)
    ensures !SchemaAccepts(schema, rows, ct, plan)
  {
  }

  // ---- When a plan can be confirmed -------------------------------------------------------

  /** The artifact types of all deliverables, in order. */
  function ArtifactTypes(plan: seq<DepartmentPlan>, n: nat): seq<string>
    requires n <= |plan|
  {
    if n == 0 then []
    else
      var ds := plan[n - 1].deliverables;
      ArtifactTypes(plan, n - 1) + seq(|ds|, i requires 0 <= i < |ds| => ds[i].artifactType)
  }

  ghost predicate NoRepeat(s: seq<string>) {
    forall i, j :: 0 <= i < j < |s| ==> s[i] != s[j]
  }

  ghost predicate DistinctArtifactTypes(plan: seq<DepartmentPlan>) {
    NoRepeat(ArtifactTypes(plan, |plan|))
  }

  /** The command fits the company task and its plan. */
  ghost predicate Addressed(db: Db, cmd: Command) {
    var ct := cmd.companyTask;
    && ct < |db.companyTasks|
    && db.companyTasks[ct].row.state == CompanyTasks.AwaitingUserConfirmation
    && db.companyTasks[ct].version == cmd.expectedVersion
    && ct in db.plans && db.plans[ct].awaiting && db.plans[ct].sha == cmd.planSha
    && db.plans[ct].tasks != [] && DistinctArtifactTypes(db.plans[ct].tasks)
    && db.resources.companyRevision.Some?
    && ct in db.resources.workspaces
    && var w := db.resources.workspaces[ct];
       w.active && w.grantActive && (cmd.grants == {} || w.grant in cmd.grants)
  }

  ghost predicate Resourced(db: Db, cmd: Command)
    requires Addressed(db, cmd)
  {
    && db.resources.catalogRelease.Some?
    && forall i :: 0 <= i < |db.plans[cmd.companyTask].tasks| ==>
         TaskOk(db.resources, db.plans[cmd.companyTask].tasks[i], db.resources.catalogRelease.value,
                db.resources.workspaces[cmd.companyTask].grant)
  }

  ghost predicate Confirmable(schema: Schema, db: Db, cmd: Command) {
    && Addressed(db, cmd) && Resourced(db, cmd)
    && SchemaAccepts(schema, db.departmentTasks, cmd.companyTask, db.plans[cmd.companyTask].tasks)
    && cmd.routable && cmd.planArtifact !in db.artifacts
  }

  /** What each refusal means; the checks are made in this order, and the first that fails is reported. */
  ghost predicate WhyRefused(db: Db, cmd: Command, refusal: Refusal) {
    var ct := cmd.companyTask;
    if ct >= |db.companyTasks| then refusal == ResourceNotFound
    else if db.companyTasks[ct].row.state != CompanyTasks.AwaitingUserConfirmation
    then refusal == StateTransitionInvalid && db.companyTasks[ct].row.state != CompanyTasks.Executing
    else if db.companyTasks[ct].version != cmd.expectedVersion then refusal == OptimisticLockConflict
    else if ct !in db.plans || !db.plans[ct].awaiting then refusal == NoAwaitingPlan
    else if db.plans[ct].sha != cmd.planSha then refusal == PlanShaMismatch
    else if db.plans[ct].tasks == [] then refusal == PlanInvalid
    else if !DistinctArtifactTypes(db.plans[ct].tasks) then refusal == DuplicateArtifactType
    else if db.resources.companyRevision.None? then refusal == CompanyRevisionNotFound
    else if ct !in db.resources.workspaces || !db.resources.workspaces[ct].active
            || !db.resources.workspaces[ct].grantActive then refusal == WorkspaceNotReady
    else if cmd.grants != {} && db.resources.workspaces[ct].grant !in cmd.grants then refusal == GrantMismatch
    else refusal == WriteFailed
  }

  // ---- The whole effect -------------------------------------------------------------------

  function ProfilesOf(res: Resources): map<string, Option<string>> {
    map e | e in res.employees :: res.employees[e].profileVersion
  }

  function Tables(db: Db): EmployeeTables {
    EmployeeTables(db.employeeTasks, db.employeeEdges, db.specs, db.runs)
  }

  ghost function TargetOf(db: Db, cmd: Command): Target
    requires Addressed(db, cmd) && Resourced(db, cmd)
  {
    Target(cmd.companyTask, |db.departmentTasks|, |db.employeeTasks|, db.resources.catalogRelease.value,
           db.resources.workspaces[cmd.companyTask].grant, ProfilesOf(db.resources))
  }

  ghost function PathStep(i: nat): Change
    requires i + 1 < |CompanyTasks.CONFIRMATION_PATH|
  {
    CompanyChange(CompanyTasks.CONFIRMATION_PATH[i], CompanyTasks.CONFIRMATION_PATH[i + 1])
  }

  ghost function PathEvents(ct: nat, v: nat, k: nat): (s: seq<DomainEvent>)
    requires k < |CompanyTasks.CONFIRMATION_PATH|
    ensures |s| == k && forall i :: 0 <= i < k ==> s[i] == DomainEvent(ct, v + i + 1, PathStep(i))
  {
    if k == 0 then [] else PathEvents(ct, v, k - 1) + [DomainEvent(ct, v + k, PathStep(k - 1))]
  }

  ghost function PathRows(ct: nat, k: nat): (s: seq<OutboxRow>)
    requires k < |CompanyTasks.CONFIRMATION_PATH|
    ensures |s| == k && forall i :: 0 <= i < k ==> s[i] == OutboxRow(CompanyStatusChanged, ct, PathStep(i), true)
  {
    if k == 0 then [] else PathRows(ct, k - 1) + [OutboxRow(CompanyStatusChanged, ct, PathStep(k - 1), true)]
  }

  /** The company task after the four edges of the confirmation path. */
  ghost function WithPath(db: Db, ct: nat): Db
    requires ct < |db.companyTasks|
  {
    var v := db.companyTasks[ct].version;
    db.(companyTasks := db.companyTasks[ct := CompanyTask(CompanyTasks.Row(CompanyTasks.Executing, None), v + 4)],
        events := db.events + PathEvents(ct, v, 4),
        outbox := db.outbox + PathRows(ct, 4))
  }

  /** The database a successful confirmation leaves. */
  ghost function AfterConfirm(schema: Schema, db: Db, cmd: Command): Db
    requires Confirmable(schema, db, cmd)
  {
    var ct, plan := cmd.companyTask, db.plans[cmd.companyTask].tasks;
    var tables := With(Tables(db), TargetOf(db, cmd), PlanSlots(plan, |plan|));
    WithPath(db.(departmentTasks := db.departmentTasks + DepartmentRows(schema, ct, plan, |plan|),
                 departmentEdges := db.departmentEdges + DepartmentEdges(plan, |db.departmentTasks|, |plan|),
                 employeeTasks := tables.tasks, employeeEdges := tables.edges,
                 specs := tables.specs, runs := tables.runs,
                 artifacts := db.artifacts + {cmd.planArtifact},
                 plans := db.plans[ct := db.plans[ct].(awaiting := false)]), ct)
  }

  // ---- The scan for repeated artifact types -----------------------------------------------

  lemma {:induction false} TypesPrefix(plan: seq<DepartmentPlan>, n: nat, m: nat)
    requires n <= m <= |plan|
    ensures ArtifactTypes(plan, n) <= ArtifactTypes(plan, m)
  {
    if n < m {
      TypesPrefix(plan, n, m - 1);
    }
  }

  lemma {:induction false} RepeatFound(plan: seq<DepartmentPlan>, n: nat, cur: seq<string>, x: string)
    requires n <= |plan| && cur + [x] <= ArtifactTypes(plan, n) && x in cur
    ensures !DistinctArtifactTypes(plan)
  {
    TypesPrefix(plan, n, |plan|);
    var all := ArtifactTypes(plan, |plan|);
    var i :| 0 <= i < |cur| && cur[i] == x;
    assert all[i] == (cur + [x])[i] == x && all[|cur|] == (cur + [x])[|cur|] == x;
  }

  /** The scan that refuses two deliverables of one artifact type. */
  method HasDuplicateType(plan: seq<DepartmentPlan>) returns (dup: bool)
    ensures dup <==> !DistinctArtifactTypes(plan)
  {
    var seen: set<string> := {};
    ghost var cur: seq<string> := [];
    for n := 0 to |plan|
      invariant cur == ArtifactTypes(plan, n) && NoRepeat(cur)
      invariant forall x :: x in seen <==> x in cur
    {
      var ds := plan[n].deliverables;
      ghost var before, all := cur, ArtifactTypes(plan, n + 1);
      for k := 0 to |ds|
        invariant |cur| == |before| + k && cur <= all && NoRepeat(cur)
        invariant forall x :: x in seen <==> x in cur
      {
        var x := ds[k].artifactType;
        assert all[|cur|] == x;
        if x in seen {
          RepeatFound(plan, n + 1, cur, x);
          return true;
        }
        seen := seen + {x};
        cur := cur + [x];
      }
    }
    return false;
  }

  // ---- The loops, on the tables they write ------------------------------------------------

  /** `local_ref_to_dept_task` after `n` departments. */
  ghost predicate RefsRecord(plan: seq<DepartmentPlan>, base: nat, n: nat, refs: map<string, nat>)
    requires n <= |plan|
  {
    && (forall j :: 0 <= j < n ==> plan[j].localRef in refs && refs[plan[j].localRef] == base + j)
    && (forall r :: r in refs ==> exists j :: 0 <= j < n && plan[j].localRef == r)
  }

  lemma {:induction false} RefsTellUpstream(plan: seq<DepartmentPlan>, base: nat, n: nat, refs: map<string, nat>)
    requires n < |plan| && RefsRecord(plan, base, n, refs)
    ensures (exists d :: d in plan[n].dependencyRefs && d in refs) <==> HasUpstream(plan, n)
  {
  }

  lemma {:induction false} EdgesFromOneMore(plan: seq<DepartmentPlan>, base: nat, n: nat, deps: seq<string>,
                                            ref: string,
                                            refs: map<string, nat>)
    requires n < |plan| && RefsRecord(plan, base, n + 1, refs)
    ensures EdgesFrom(plan, base, n, deps + [ref]) ==
            if ref in refs && refs[ref] != base + n then EdgesFrom(plan, base, n, deps) + {(base + n, refs[ref])}
            else EdgesFrom(plan, base, n, deps)
  {
    if ref in refs {
      var m: nat :| m < n + 1 && plan[m].localRef == ref;
      assert refs[ref] == base + m;
      forall j: nat | j < n && plan[j].localRef == ref
        ensures j == m
      {
        assert refs[plan[j].localRef] == base + j;
      }
      if m < n {
        assert plan[m].localRef in deps + [ref];
      }
    } else {
      assert forall j: nat :: j < n ==> plan[j].localRef in refs;
    }
  }

  /** One turn of the edge loop. */
  lemma {:induction false} EdgeLoopTurn(plan: seq<DepartmentPlan>, base: nat, n: nat, deps: seq<string>, k: nat,
                                        refs: map<string, nat>, edges: set<(nat, nat)>)
    requires n < |plan| && RefsRecord(plan, base, n + 1, refs) && k < |deps|
    ensures edges + EdgesFrom(plan, base, n, deps[..k + 1]) ==
            if deps[k] in refs && refs[deps[k]] != base + n
            then edges + EdgesFrom(plan, base, n, deps[..k]) + {(base + n, refs[deps[k]])}
            else edges + EdgesFrom(plan, base, n, deps[..k])
  {
    EdgesFromOneMore(plan, base, n, deps[..k], deps[k], refs);
    assert deps[..k + 1] == deps[..k] + [deps[k]];
    if deps[k] in refs {
      UnionAssoc(edges, EdgesFrom(plan, base, n, deps[..k]), {(base + n, refs[deps[k]])});
    }
  }

  /** The edge loop of department `n`; a row that depends on itself fails its CHECK and is ignored. */
  method RecordEdges(plan: seq<DepartmentPlan>, base: nat, n: nat, refs: map<string, nat>, edges: set<(nat, nat)>)
      returns (edges': set<(nat, nat)>)
    requires n < |plan| && RefsRecord(plan, base, n + 1, refs)
    ensures edges' == edges + EdgesFrom(plan, base, n, plan[n].dependencyRefs)
  {
    var deps, id := plan[n].dependencyRefs, base + n;
    edges' := edges;
    for k := 0 to |deps|
      invariant edges' == edges + EdgesFrom(plan, base, n, deps[..k])
    {
      EdgeLoopTurn(plan, base, n, deps, k, refs, edges);
      if deps[k] in refs && refs[deps[k]] != id {
        edges' := edges' + {(id, refs[deps[k]])};
      }
    }
    assert deps[..|deps|] == deps;
  }

  /** The row of department `n`, then one edge per dependency already created; false when a constraint fails. */
  method InsertDepartment(schema: Schema, ct: nat, plan: seq<DepartmentPlan>, base: nat, n: nat,
                          refs: map<string, nat>, rows: seq<DepartmentTask>, edges: set<(nat, nat)>)
      returns (ok: bool, refs': map<string, nat>, rows': seq<DepartmentTask>, edges': set<(nat, nat)>)
    requires n < |plan| && RefsRecord(plan, base, n, refs)
    requires |rows| == base + n
    requires StageFree(rows, ct, plan[n].localRef) ==> forall j :: 0 <= j < n ==> plan[j].localRef != plan[n].localRef
    ensures ok <==> DepartmentRowOk(DepartmentRow(schema, ct, plan, n)) && StageFree(rows, ct, plan[n].localRef)
    ensures ok ==> RefsRecord(plan, base, n + 1, refs')
    ensures ok ==> rows' == rows + [DepartmentRow(schema, ct, plan, n)]
                   && edges' == edges + EdgesFrom(plan, base, n, plan[n].dependencyRefs)
  {
    var t := plan[n];
    var waits := exists d :: d in t.dependencyRefs && d in refs;
    RefsTellUpstream(plan, base, n, refs);
    var row := DepartmentTask(ct, t.departmentId, t.localRef,
                              if waits then DepartmentStatus.WaitingDependency else DepartmentStatus.Ready,
                              if waits && schema.ResumeSupplied? then Some(DepartmentStatus.Ready) else None, 1);
    if !DepartmentRowOk(row) || !StageFree(rows, ct, t.localRef) {
      return false, refs, rows, edges;
    }
    refs' := refs[t.localRef := |rows|];
    edges' := RecordEdges(plan, base, n, refs', edges);
    return true, refs', rows + [row], edges';
  }

  /** One contributor: the task row, then an edge and a frozen spec, or a queued run. */
  method InsertContributor(g: Target, stage: Stage, e: string, sequential: bool, previous: Option<nat>,
                           profile: Option<string>, cur: EmployeeTables,
                           ghost before: EmployeeTables, ghost done: seq<Slot>, ghost s: Slot)
      returns (next: EmployeeTables)
    requires s.stage == stage && s.employee == e && s.chained == (sequential && previous.Some?)
    requires g.firstTask == |before.tasks| && cur == With(before, g, done)
    requires previous.Some? ==> previous.value + 1 == |cur.tasks|
    requires profile == ProfileIn(g.profiles, e)
    ensures next == With(before, g, done + [s])
  {
    if s.chained {
      WithOneMoreChained(before, g, done, s);
    } else {
      WithOneMoreEager(before, g, done, s);
    }
    var id := |cur.tasks|;
    var deferred := sequential && previous.Some?;
    var waits := deferred || stage.waits;
    next := cur.(tasks := cur.tasks + [EmployeeTask(g.firstDepartment + stage.index, e, Standard,
      if waits then EmployeeStatus.WaitingResource else Assigned, if waits then Some(Assigned) else None, 1)]);
    if deferred {
      next := next.(edges := next.edges + {(id, previous.value)});
      next := next.(specs := next.specs[id := DispatchSpec(g.companyTask, g.firstDepartment + stage.index, e,
        profile, g.catalog, g.grant, Freeze(stage.tags))]);
    } else {
      next := next.(runs := next.runs + [Run(id, g.companyTask, g.firstDepartment + stage.index, e,
        profile, g.catalog, g.grant, stage.tags, Queued)]);
    }
  }

  /** The preflight left the profile of every listed employee at hand. */
  ghost predicate Covers(g: Target, cache: map<string, Prepared>, people: seq<string>) {
    forall e :: e in people ==> e in cache && cache[e].profileVersion == ProfileIn(g.profiles, e)
  }

  /** The contributor loop of one deliverable. */
  method InsertContributors(g: Target, stage: Stage, deliverable: nat, d: Deliverable, cache: map<string, Prepared>,
                            cur: EmployeeTables, ghost before: EmployeeTables, ghost slots: seq<Slot>)
      returns (next: EmployeeTables)
    requires g.firstTask == |before.tasks| && cur == With(before, g, slots) && Covers(g, cache, d.contributors)
    ensures next == With(before, g, slots + ContributorSlots(stage, deliverable, d, |Kept(d)|))
  {
    var kept := d.contributors;
    if d.strategy.PrimaryWithPeerReview? && |kept| > 0 {
      kept := kept[..1];
    }
    assert kept == Kept(d);
    next := cur;
    var previous: Option<nat> := None;
    ghost var done := slots;
    for i := 0 to |kept|
      invariant if i == 0 then previous.None? else previous.Some? && previous.value + 1 == |next.tasks|
      invariant done == slots + ContributorSlots(stage, deliverable, d, i)
      invariant next == With(before, g, done)
    {
      ghost var s := SlotFor(stage, deliverable, d, i);
      var id := |next.tasks|;
      next := InsertContributor(g, stage, kept[i], d.strategy.SequentialRefinement?, previous,
                                cache[kept[i]].profileVersion, next, before, done, s);
      AppendAssoc(slots, ContributorSlots(stage, deliverable, d, i), [s]);
      done := done + [s];
      previous := Some(id);
    }
  }

  /** The deliverable loop of one department. */
  method InsertDeliverables(g: Target, stage: Stage, ds: seq<Deliverable>, cache: map<string, Prepared>,
                            cur: EmployeeTables, ghost before: EmployeeTables, ghost slots: seq<Slot>)
      returns (next: EmployeeTables)
    requires StageCovered(g, cache, ds)
    requires g.firstTask == |before.tasks| && cur == With(before, g, slots)
    ensures next == With(before, g, slots + DeliverableSlots(stage, ds, |ds|))
  {
    next := cur;
    ghost var done := slots;
    for k := 0 to |ds|
      invariant done == slots + DeliverableSlots(stage, ds, k) && next == With(before, g, done)
    {
      next := InsertContributors(g, stage, k, ds[k], cache, next, before, done);
      AppendAssoc(slots, DeliverableSlots(stage, ds, k), ContributorSlots(stage, k, ds[k], |Kept(ds[k])|));
      done := done + ContributorSlots(stage, k, ds[k], |Kept(ds[k])|);
    }
  }

  ghost predicate StageCovered(g: Target, cache: map<string, Prepared>, ds: seq<Deliverable>) {
    forall k :: 0 <= k < |ds| ==> Covers(g, cache, ds[k].contributors)
  }

  ghost predicate PlanCovered(g: Target, cache: map<string, Prepared>, plan: seq<DepartmentPlan>) {
    forall i :: 0 <= i < |plan| ==> StageCovered(g, cache, plan[i].deliverables)
  }

  /** The department tables hold the first `n` departments of the plan after the older rows. */
  ghost predicate Placed(schema: Schema, ct: nat, plan: seq<DepartmentPlan>, n: nat,
                         departments: seq<DepartmentTask>, departmentEdges: set<(nat, nat)>,
                         refs: map<string, nat>, rows: seq<DepartmentTask>, edges: set<(nat, nat)>)
    requires n <= |plan|
  {
    && RefsRecord(plan, |departments|, n, refs) && AcceptedUpTo(schema, departments, ct, plan, n)
    && rows == departments + DepartmentRows(schema, ct, plan, n)
    && edges == departmentEdges + DepartmentEdges(plan, |departments|, n)
  }

  method PlaceDepartment(schema: Schema, ct: nat, plan: seq<DepartmentPlan>, n: nat, base: nat,
                         ghost departments: seq<DepartmentTask>, ghost departmentEdges: set<(nat, nat)>,
                         refs: map<string, nat>, rows: seq<DepartmentTask>, edges: set<(nat, nat)>)
      returns (ok: bool, refs': map<string, nat>, rows': seq<DepartmentTask>, edges': set<(nat, nat)>)
    requires n < |plan| && base == |departments|
    requires Placed(schema, ct, plan, n, departments, departmentEdges, refs, rows, edges)
    ensures ok <==> AcceptedUpTo(schema, departments, ct, plan, n + 1)
    ensures ok ==> Placed(schema, ct, plan, n + 1, departments, departmentEdges, refs', rows', edges')
  {
    AcceptedStep(schema, departments, ct, plan, n);
    AppendAssoc(departments, DepartmentRows(schema, ct, plan, n), [DepartmentRow(schema, ct, plan, n)]);
    UnionAssoc(departmentEdges, DepartmentEdges(plan, base, n), EdgesFrom(plan, base, n, plan[n].dependencyRefs));
    ok, refs', rows', edges' := InsertDepartment(schema, ct, plan, base, n, refs, rows, edges);
  }

  /** One round of the outer loop: department `n` with everything below it. */
  method InsertStage(schema: Schema, g: Target, plan: seq<DepartmentPlan>, n: nat, cache: map<string, Prepared>,
                     refs: map<string, nat>, rows: seq<DepartmentTask>, edges: set<(nat, nat)>, tables: EmployeeTables,
                     ghost departments: seq<DepartmentTask>, ghost departmentEdges: set<(nat, nat)>,
                     ghost before: EmployeeTables)
      returns (ok: bool, refs': map<string, nat>, rows': seq<DepartmentTask>, edges': set<(nat, nat)>,
               tables': EmployeeTables)
    requires n < |plan| && g.firstTask == |before.tasks| && g.firstDepartment == |departments|
    requires StageCovered(g, cache, plan[n].deliverables)
    requires Placed(schema, g.companyTask, plan, n, departments, departmentEdges, refs, rows, edges)
    requires tables == With(before, g, PlanSlots(plan, n))
    ensures ok <==> AcceptedUpTo(schema, departments, g.companyTask, plan, n + 1)
    ensures ok ==> Placed(schema, g.companyTask, plan, n + 1, departments, departmentEdges, refs', rows', edges')
    ensures ok ==> tables' == With(before, g, PlanSlots(plan, n + 1))
  {
    ok, refs', rows', edges' :=
      PlaceDepartment(schema, g.companyTask, plan, n, g.firstDepartment,
                      departments, departmentEdges, refs, rows, edges);
    tables' := tables;
    if ok {
      tables' := InsertDeliverables(g, StageOf(plan, n), plan[n].deliverables, cache,
                                    tables, before, PlanSlots(plan, n));
    }
  }

  /** All departments, deliverables and contributors; false when a constraint stops the transaction. */
  method InsertGraph(schema: Schema, g: Target, plan: seq<DepartmentPlan>, cache: map<string, Prepared>,
                     departments: seq<DepartmentTask>, departmentEdges: set<(nat, nat)>, before: EmployeeTables)
      returns (ok: bool, rows: seq<DepartmentTask>, edges: set<(nat, nat)>, tables: EmployeeTables)
    requires g.firstTask == |before.tasks| && g.firstDepartment == |departments| && PlanCovered(g, cache, plan)
    ensures ok <==> SchemaAccepts(schema, departments, g.companyTask, plan)
    ensures ok ==> rows == departments + DepartmentRows(schema, g.companyTask, plan, |plan|)
    ensures ok ==> edges == departmentEdges + DepartmentEdges(plan, g.firstDepartment, |plan|)
    ensures ok ==> tables == With(before, g, PlanSlots(plan, |plan|))
  {
    ok, rows, edges, tables := true, departments, departmentEdges, before;
    WithNothing(before, g);
    var n, refs: map<string, nat> := 0, map[];
    while ok && n < |plan|
      invariant 0 <= n <= |plan|
      invariant ok ==> Placed(schema, g.companyTask, plan, n, departments, departmentEdges, refs, rows, edges)
      invariant ok ==> tables == With(before, g, PlanSlots(plan, n))
      invariant !ok ==> !AcceptedUpTo(schema, departments, g.companyTask, plan, n)
      decreases |plan| - n
    {
      ok, refs, rows, edges, tables :=
        InsertStage(schema, g, plan, n, cache, refs, rows, edges, tables, departments, departmentEdges, before);
      n := n + 1;
    }
    if !ok {
      RejectionIsFinal(schema, departments, g.companyTask, plan, n);
    }
  }

  /** The guarded status updates, one per edge of the path, each with its event and outbox row. */
  method ApplyPath(db: Db, ct: nat) returns (db': Db)
    requires ct < |db.companyTasks|
    requires db.companyTasks[ct].row == CompanyTasks.Row(CompanyTasks.AwaitingUserConfirmation, None)
    ensures db' == WithPath(db, ct)
  {
    var path, v := CompanyTasks.CONFIRMATION_PATH, db.companyTasks[ct].version;
    var companyTasks, events, outbox := db.companyTasks, db.events, db.outbox;
    for k := 0 to 4
      invariant |companyTasks| == |db.companyTasks|
      invariant companyTasks == db.companyTasks[ct := CompanyTask(CompanyTasks.Row(path[k], None), v + k)]
      invariant events == db.events + PathEvents(ct, v, k) && outbox == db.outbox + PathRows(ct, k)
    {
      companyTasks := companyTasks[ct := CompanyTask(CompanyTasks.Row(path[k + 1], None), v + k + 1)];
      events := events + [DomainEvent(ct, v + k + 1, CompanyChange(path[k], path[k + 1]))];
      outbox := outbox + [OutboxRow(CompanyStatusChanged, ct, CompanyChange(path[k], path[k + 1]), true)];
    }
    db' := db.(companyTasks := companyTasks, events := events, outbox := outbox);
  }

  /** The transaction on the writer connection. */
  class Transaction {
    var db: Db

    /** The writes of a command that passed every check; false when a constraint stops them. */
    method WriteConfirmation(schema: Schema, cmd: Command, cache: map<string, Prepared>) returns (ok: bool)
      requires Addressed(db, cmd) && Resourced(db, cmd) && CompanyRowOk(db.companyTasks[cmd.companyTask])
      requires PlanCovered(TargetOf(db, cmd), cache, db.plans[cmd.companyTask].tasks)
      modifies this
      ensures ok <==> Confirmable(schema, old(db), cmd)
      ensures ok ==> db == AfterConfirm(schema, old(db), cmd)
    {
      var ct := cmd.companyTask;
      var g := Target(ct, |db.departmentTasks|, |db.employeeTasks|, db.resources.catalogRelease.value,
                      db.resources.workspaces[ct].grant, ProfilesOf(db.resources));
      var rows, edges, tables;
      ok, rows, edges, tables := InsertGraph(schema, g, db.plans[ct].tasks, cache,
                                             db.departmentTasks, db.departmentEdges, Tables(db));
      if !ok || !cmd.routable || cmd.planArtifact in db.artifacts {
        return false;
      }
      db := db.(departmentTasks := rows, departmentEdges := edges, employeeTasks := tables.tasks,
                employeeEdges := tables.edges, specs := tables.specs, runs := tables.runs,
                artifacts := db.artifacts + {cmd.planArtifact},
                plans := db.plans[ct := db.plans[ct].(awaiting := false)]);
      db := ApplyPath(db, ct);
    }

    /** `confirm_and_dispatch`, inside a transaction that its caller commits or rolls back. */
    method ConfirmAndDispatch(schema: Schema, cmd: Command) returns (reply: Reply)
      requires forall i :: 0 <= i < |db.companyTasks| ==> CompanyRowOk(db.companyTasks[i])
      modifies this
      ensures reply.Confirmed? <==> Confirmable(schema, old(db), cmd)
      ensures reply.Confirmed? ==> db == AfterConfirm(schema, old(db), cmd) && reply.version == cmd.expectedVersion + 4
      ensures reply.AlreadyConfirmed? <==> cmd.companyTask < |old(db).companyTasks|
                                           && old(db).companyTasks[cmd.companyTask].row.state.Executing?
      ensures reply.WaitingForResources? <==> Addressed(old(db), cmd) && !Resourced(old(db), cmd)
      ensures !reply.Confirmed? && !reply.Raised? ==> db == old(db)
      ensures reply.AlreadyConfirmed? ==> reply.version == old(db).companyTasks[cmd.companyTask].version
      ensures reply.WaitingForResources? ==> reply.version == cmd.expectedVersion
      ensures reply.Raised? ==> WhyRefused(old(db), cmd, reply.refusal)
    {
      var ct := cmd.companyTask;
      if ct >= |db.companyTasks| {
        return Raised(ResourceNotFound);
      }
      var task := db.companyTasks[ct];
      if task.row.state.Executing? {
        return AlreadyConfirmed(task.version);
      }
      if !task.row.state.AwaitingUserConfirmation? {
        return Raised(StateTransitionInvalid);
      }
      if task.version != cmd.expectedVersion {
        return Raised(OptimisticLockConflict);
      }
      if ct !in db.plans || !db.plans[ct].awaiting {
        return Raised(NoAwaitingPlan);
      }
      if db.plans[ct].sha != cmd.planSha {
        return Raised(PlanShaMismatch);
      }
      var plan := db.plans[ct].tasks;
      if plan == [] {
        return Raised(PlanInvalid);
      }
      var dup := HasDuplicateType(plan);
      if dup {
        return Raised(DuplicateArtifactType);
      }
      if db.resources.companyRevision.None? {
        return Raised(CompanyRevisionNotFound);
      }
      if ct !in db.resources.workspaces || !db.resources.workspaces[ct].active
        || !db.resources.workspaces[ct].grantActive {
        return Raised(WorkspaceNotReady);
      }
      var grant := db.resources.workspaces[ct].grant;
      if cmd.grants != {} && grant !in cmd.grants {
        return Raised(GrantMismatch);
      }
      if db.resources.catalogRelease.None? {
        return WaitingForResources(cmd.expectedVersion);
      }
      var cache, available := PrepareEmployeeResources(db.resources, plan, db.resources.catalogRelease.value, grant);
      if !available {
        return WaitingForResources(cmd.expectedVersion);
      }
      var ok := WriteConfirmation(schema, cmd, cache);
      return if ok then Confirmed(cmd.expectedVersion + 4) else Raised(WriteFailed);
    }

    /** The same call run by the write queue: an exception rolls every row back. */
    method ConfirmAtomically(schema: Schema, cmd: Command) returns (reply: Reply)
      requires forall i :: 0 <= i < |db.companyTasks| ==> CompanyRowOk(db.companyTasks[i])
      modifies this
      ensures reply.Confirmed? <==> Confirmable(schema, old(db), cmd)
      ensures db == if Confirmable(schema, old(db), cmd) then AfterConfirm(schema, old(db), cmd) else old(db)
    {
      var saved := db;
      reply := ConfirmAndDispatch(schema, cmd);
      if reply.Raised? {
        db := saved;
      }
    }
  }
}
