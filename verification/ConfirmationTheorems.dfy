/**
 What a confirmation does in any state the system can reach, and what becomes of the
 segments it defers.
 */
module ConfirmationTheorems {
  import opened Plans
  import opened Preflight
  import opened Records
  import opened TagOrder
  import opened ConfirmPlan
  import opened ConfirmedGraph
  import opened DispatchStrategies
  import opened LazyDispatch
  import opened TaskGraph
  import opened Outbox
  import opened ProtocolSteps
  import opened ProtocolReferences
  import opened TaskProtocol
  import opened TaskTheorems

  /** A confirmation of `cmd` in a reachable state, with the plan it confirms and the database it leaves. */
  ghost predicate Confirms(resources: Resources, steps: seq<Step>, schema: Schema, cmd: Command,
                           db: Db, plan: seq<DepartmentPlan>, after: Db) {
    && db == RunAll(Empty(resources), steps) && Confirmable(schema, db, cmd)
    && plan == db.plans[cmd.companyTask].tasks && after == AfterConfirm(schema, db, cmd)
  }

  /** What the confirmation adds to each table. */
  lemma {:induction false} ConfirmedTables(resources: Resources, steps: seq<Step>, schema: Schema, cmd: Command,
                                           db: Db, plan: seq<DepartmentPlan>, after: Db)
    requires Confirms(resources, steps, schema, cmd, db, plan, after)
    ensures
      var g, slots := TargetOf(db, cmd), PlanSlots(plan, |plan|);
      && g.firstTask == |db.employeeTasks| && g.firstDepartment == |db.departmentTasks|
      && after.employeeTasks == db.employeeTasks + SlotRows(g, slots)
      && after.employeeEdges == db.employeeEdges + ChainEdges(g.firstTask, slots)
      && after.specs == db.specs + DeferredSpecs(g, slots)
      && after.runs == db.runs + EagerRuns(g, slots)
      && after.departmentTasks == db.departmentTasks + DepartmentRows(schema, cmd.companyTask, plan, |plan|)
      && after.departmentEdges == db.departmentEdges + DepartmentEdges(plan, g.firstDepartment, |plan|)
  {
    ConfirmExtends(schema, db, cmd);
    assert Tables(after) == With(Tables(db), TargetOf(db, cmd), PlanSlots(plan, |plan|));
  }

  /** Older rows are about older tasks and departments. */
  lemma {:induction false} OlderRows(resources: Resources, steps: seq<Step>, schema: Schema, cmd: Command,
                                     db: Db, plan: seq<DepartmentPlan>, after: Db)
    requires Confirms(resources, steps, schema, cmd, db, plan, after)
    ensures (forall x :: x in db.employeeEdges ==> x.1 < x.0 < |db.employeeTasks|)
    ensures (forall t :: t in db.specs ==> t < |db.employeeTasks|)
    ensures (forall r :: r in db.runs ==> r.task < |db.employeeTasks|)
    ensures Backward(db.departmentEdges, |db.departmentTasks|)
  {
    Reachable(resources, steps);
    assert Precede(Tables(db), |db.employeeTasks|);
  }

  // ---- Departments ------------------------------------------------------------------------

  /** The row of department `i` waits exactly when one of its dependencies was recorded. */
  ghost predicate WaitsAsRecorded(rows: seq<DepartmentTask>, edges: set<(nat, nat)>, first: nat,
                                  plan: seq<DepartmentPlan>, i: nat)
    requires i < |plan|
  {
    && first + i < |rows| && rows[first + i].stageKey == plan[i].localRef
    && (rows[first + i].status.WaitingDependency? <==> HasEdge(edges, first + i))
  }

  lemma {:induction false} DepartmentWaits(schema: Schema, rows: seq<DepartmentTask>, edges: set<(nat, nat)>, ct: nat,
                                           plan: seq<DepartmentPlan>, i: nat)
    requires i < |plan| && Backward(edges, |rows|)
    ensures WaitsAsRecorded(rows + DepartmentRows(schema, ct, plan, |plan|),
                            edges + DepartmentEdges(plan, |rows|, |plan|),
                            |rows|, plan, i)
  {
    DepartmentWaitsExactlyWhenRecorded(schema, rows, edges, ct, plan, i, |rows| + i);
    DepartmentRowAt(rows, schema, ct, plan, i, |rows| + i);
  }

  /** The recorded department edges are exactly the plan's backward edges, and all edges stay acyclic. */
  lemma {:induction false} RecordedEdgesAreBackwardEdges(resources: Resources, steps: seq<Step>, schema: Schema,
                                                         cmd: Command, db: Db, plan: seq<DepartmentPlan>, after: Db,
                                                         i: nat, j: nat)
    requires Confirms(resources, steps, schema, cmd, db, plan, after) && i < |plan|
    ensures Recorded(after.departmentEdges, |db.departmentTasks|, i, j) <==> j < i && PlanEdge(plan, i, j)
    ensures Backward(after.departmentEdges, |after.departmentTasks|)
  {
    ConfirmedTables(resources, steps, schema, cmd, db, plan, after);
    OlderRows(resources, steps, schema, cmd, db, plan, after);
    DepartmentOutcome(db.departmentEdges, plan, |db.departmentTasks|, i);
  }

  /** A department starts out waiting exactly when one of its dependencies was recorded. */
  lemma {:induction false} WaitsExactlyWhenRecorded(resources: Resources, steps: seq<Step>, schema: Schema,
                                                    cmd: Command, db: Db, plan: seq<DepartmentPlan>, after: Db, i: nat)
    requires Confirms(resources, steps, schema, cmd, db, plan, after) && i < |plan|
    ensures WaitsAsRecorded(after.departmentTasks, after.departmentEdges, |db.departmentTasks|, plan, i)
  {
    ConfirmedTables(resources, steps, schema, cmd, db, plan, after);
    OlderRows(resources, steps, schema, cmd, db, plan, after);
    DepartmentWaits(schema, db.departmentTasks, db.departmentEdges, cmd.companyTask, plan, i);
  }

  /** No dependency is lost exactly when the plan lists every department after the ones it depends on. */
  lemma {:induction false} NothingLostExactlyInTopologicalOrder(resources: Resources, steps: seq<Step>, schema: Schema,
                                                                cmd: Command, db: Db, plan: seq<DepartmentPlan>,
                                                                after: Db)
    requires Confirms(resources, steps, schema, cmd, db, plan, after)
    ensures (forall i: nat, j: nat ::
               PlanEdge(plan, i, j) ==> Recorded(after.departmentEdges, |db.departmentTasks|, i, j))
            <==> (forall i: nat, j: nat :: PlanEdge(plan, i, j) ==> j < i)
  {
    ConfirmedTables(resources, steps, schema, cmd, db, plan, after);
    OlderRows(resources, steps, schema, cmd, db, plan, after);
    EdgesKeptExactlyInTopologicalOrder(db.departmentEdges, plan, |db.departmentTasks|);
  }

  // ---- Contributors -----------------------------------------------------------------------

  /** Every contributor the strategy keeps has its task. */
  lemma {:induction false} ConfirmedTask(resources: Resources, steps: seq<Step>, schema: Schema, cmd: Command,
                                         db: Db, plan: seq<DepartmentPlan>, after: Db, d: nat, e: nat, i: nat)
    requires Confirms(resources, steps, schema, cmd, db, plan, after) && InPlan(plan, d, e, i)
    ensures TaskPlaced(after.employeeTasks, |db.employeeTasks|, |db.departmentTasks|, plan, d, e, i)
  {
    assert after.employeeTasks == db.employeeTasks + SlotRows(TargetOf(db, cmd), PlanSlots(plan, |plan|)) by {
      ConfirmedTables(resources, steps, schema, cmd, db, plan, after);
    }
    ContributorTask(db.employeeTasks, after.employeeTasks, TargetOf(db, cmd), plan, d, e, i);
  }

  /** It has exactly one of a queued run and a frozen spec, the spec exactly when it depends on another task. */
  lemma {:induction false} ConfirmedContributor(resources: Resources, steps: seq<Step>, schema: Schema, cmd: Command,
                                                db: Db, plan: seq<DepartmentPlan>, after: Db,
                                                d: nat, e: nat, i: nat, t: nat)
    requires Confirms(resources, steps, schema, cmd, db, plan, after) && InPlan(plan, d, e, i)
    requires t == |db.employeeTasks| + SlotIndex(plan, d, e, i)
    ensures t in after.specs <==> HasEdge(after.employeeEdges, t)
    ensures RunCount(after.runs, t) == if t in after.specs then 0 else 1
  {
    ConfirmedTables(resources, steps, schema, cmd, db, plan, after);
    OlderRows(resources, steps, schema, cmd, db, plan, after);
    SpecExactlyWithEdge(db.specs, after.specs, db.employeeEdges, after.employeeEdges,
                        TargetOf(db, cmd), plan, d, e, i, t);
    RunExactlyWithoutSpec(db.specs, after.specs, db.runs, after.runs, TargetOf(db, cmd), plan, d, e, i, t);
  }

  /** Each sequential deliverable is one chain in contributor order, and there are no other edges. */
  lemma {:induction false} ConfirmedChain(resources: Resources, steps: seq<Step>, schema: Schema, cmd: Command,
                                          db: Db, plan: seq<DepartmentPlan>, after: Db, d: nat, e: nat, i: nat, u: nat)
    requires Confirms(resources, steps, schema, cmd, db, plan, after) && InPlan(plan, d, e, i)
    ensures Linked(after.employeeEdges, |db.employeeTasks| + SlotIndex(plan, d, e, i), plan, d, e, i, u)
  {
    ConfirmedTables(resources, steps, schema, cmd, db, plan, after);
    OlderRows(resources, steps, schema, cmd, db, plan, after);
    ContributorChain(db.employeeEdges, after.employeeEdges, |db.employeeTasks|, plan, d, e, i, u,
                     |db.employeeTasks| + SlotIndex(plan, d, e, i));
  }

  /** Task `t` is that of contributor `i` of deliverable `e` of department `d`. */
  ghost predicate Holds(db: Db, plan: seq<DepartmentPlan>, d: nat, e: nat, i: nat, t: nat) {
    InPlan(plan, d, e, i) && t == |db.employeeTasks| + SlotIndex(plan, d, e, i)
  }

  /** Every new task is some contributor's, and no two contributors share one. */
  lemma {:induction false} OneTaskPerContributor(resources: Resources, steps: seq<Step>, schema: Schema, cmd: Command,
                                                 db: Db, plan: seq<DepartmentPlan>, after: Db, t: nat)
    returns (d: nat, e: nat, i: nat)
    requires Confirms(resources, steps, schema, cmd, db, plan, after) && |db.employeeTasks| <= t < |after.employeeTasks|
    ensures Holds(db, plan, d, e, i, t)
    ensures forall d': nat, e': nat, i': nat :: Holds(db, plan, d', e', i', t) ==> d' == d && e' == e && i' == i
  {
    ConfirmedTables(resources, steps, schema, cmd, db, plan, after);
    d, e, i := ConfirmCreatesNothingElse(plan, |db.employeeTasks|, t);
    forall d': nat, e': nat, i': nat | Holds(db, plan, d', e', i', t)
      ensures d' == d && e' == e && i' == i
    {
      OneSlotEach(plan, d, e, i, d', e', i');
    }
  }

  // ---- Deferred contributors --------------------------------------------------------------

  /** The spec of a deferred contributor is the one its slot asks for. */
  lemma {:induction false} SpecOfDeferred(before: map<nat, DispatchSpec>, after: map<nat, DispatchSpec>, g: Target,
                                          plan: seq<DepartmentPlan>, d: nat, e: nat, i: nat, t: nat)
    requires InPlan(plan, d, e, i) && Deferred(plan, d, e, i) && t == g.firstTask + SlotIndex(plan, d, e, i)
    requires after == before + DeferredSpecs(g, PlanSlots(plan, |plan|))
    ensures t in after && after[t] == SlotSpec(g, PlanSlot(plan, d, e, i))
  {
    SlotAt(plan, d, e, i, |plan|);
    DeferredSpecsMeaning(g, PlanSlots(plan, |plan|), t);
  }

  lemma {:induction false} DepartmentIdAt(before: seq<DepartmentTask>, after: seq<DepartmentTask>, schema: Schema,
                                          ct: nat,
                                          plan: seq<DepartmentPlan>, i: nat, d: nat)
    requires i < |plan| && d == |before| + i && after == before + DepartmentRows(schema, ct, plan, |plan|)
    ensures d < |after| && after[d].departmentId == plan[i].departmentId
  {
    DepartmentRowAt(before, schema, ct, plan, i, d);
  }

  /** Confirmation has checked what the spec of each contributor relies on. */
  lemma {:induction false} SlotSpecIsFrozen(schema: Schema, db: Db, cmd: Command, d: nat, e: nat, i: nat)
    requires Confirmable(schema, db, cmd) && InPlan(db.plans[cmd.companyTask].tasks, d, e, i)
    ensures
      var plan, g := db.plans[cmd.companyTask].tasks, TargetOf(db, cmd);
      FrozenFrom(db.resources, SlotSpec(g, PlanSlot(plan, d, e, i)), plan[d], Kept(plan[d].deliverables[e])[i],
                 cmd.companyTask, g.catalog)
  {
    var plan := db.plans[cmd.companyTask].tasks;
    KeptIsListed(plan[d].deliverables[e], i);
    assert plan[d].deliverables[e] in plan[d].deliverables;
  }

  /** Where a deferred contributor's spec is, and which department it points to. */
  lemma {:induction false} ConfirmedSpec(resources: Resources, steps: seq<Step>, schema: Schema, cmd: Command,
                                         db: Db, plan: seq<DepartmentPlan>, after: Db, d: nat, e: nat, i: nat, t: nat)
    requires Confirms(resources, steps, schema, cmd, db, plan, after) && InPlan(plan, d, e, i)
    requires Deferred(plan, d, e, i)
    requires t == |db.employeeTasks| + SlotIndex(plan, d, e, i)
    ensures t in after.specs && after.specs[t] == SlotSpec(TargetOf(db, cmd), PlanSlot(plan, d, e, i))
    ensures |db.departmentTasks| + d < |after.departmentTasks|
    ensures after.departmentTasks[|db.departmentTasks| + d].departmentId == plan[d].departmentId
  {
    ConfirmedTables(resources, steps, schema, cmd, db, plan, after);
    SpecOfDeferred(db.specs, after.specs, TargetOf(db, cmd), plan, d, e, i, t);
    DepartmentIdAt(db.departmentTasks, after.departmentTasks, schema, cmd.companyTask,
                   plan, d, |db.departmentTasks| + d);
  }

  /** The spec a confirmation freezes is one its own checks vouch for, in the department the plan names. */
  lemma {:induction false} ConfirmedSpecIsFrozen(resources: Resources, steps: seq<Step>, schema: Schema, cmd: Command,
                                                 db: Db, plan: seq<DepartmentPlan>, after: Db, d: nat, e: nat, i: nat,
                                                   t: nat)
    requires Confirms(resources, steps, schema, cmd, db, plan, after) && InPlan(plan, d, e, i)
    requires Deferred(plan, d, e, i)
    requires t == |db.employeeTasks| + SlotIndex(plan, d, e, i)
    ensures t in after.specs && after.specs[t].department == |db.departmentTasks| + d < |after.departmentTasks|
    ensures after.departmentTasks[|db.departmentTasks| + d].departmentId == plan[d].departmentId
    ensures FrozenFrom(db.resources, after.specs[t], plan[d], Kept(plan[d].deliverables[e])[i], cmd.companyTask,
                       db.resources.catalogRelease.value)
  {
    ConfirmedSpec(resources, steps, schema, cmd, db, plan, after, d, e, i, t);
    SlotSpecIsFrozen(schema, db, cmd, d, e, i);
  }

  // ---- From freezing to dispatch ----------------------------------------------------------

  /** Frozen specs and the departments they point to stay as they are. */
  ghost predicate Persists(db: Db, db': Db) {
    && (forall t :: t in db.specs ==> t in db'.specs && db'.specs[t] == db.specs[t])
    && |db.departmentTasks| <= |db'.departmentTasks|
    && (forall d: nat :: d < |db.departmentTasks| ==>
          db'.departmentTasks[d].departmentId == db.departmentTasks[d].departmentId)
  }

  lemma {:induction false} SpecsPersist(specs: map<nat, DispatchSpec>, g: Target, slots: seq<Slot>, t: nat)
    requires t in specs && t < g.firstTask
    ensures t in specs + DeferredSpecs(g, slots) && (specs + DeferredSpecs(g, slots))[t] == specs[t]
  {
    DeferredSpecsMeaning(g, slots, t);
  }

  lemma {:induction false} ConfirmPersists(schema: Schema, db: Db, cmd: Command)
    requires Inv(db) && Confirmable(schema, db, cmd)
    ensures Persists(db, AfterConfirm(schema, db, cmd))
  {
    var after, g, plan := AfterConfirm(schema, db, cmd), TargetOf(db, cmd), db.plans[cmd.companyTask].tasks;
    ConfirmExtends(schema, db, cmd);
    assert after.specs == Tables(after).specs == db.specs + DeferredSpecs(g, PlanSlots(plan, |plan|));
    forall t | t in db.specs
      ensures t in after.specs && after.specs[t] == db.specs[t]
    {
      SpecsPersist(db.specs, g, PlanSlots(plan, |plan|), t);
    }
  }

  lemma {:induction false} StepPersists(db: Db, step: Step)
    requires Inv(db)
    ensures Persists(db, Apply(db, step))
  {
    match step
    case Confirm(schema, cmd) => if Confirmable(schema, db, cmd) { ConfirmPersists(schema, db, cmd); }
    case ChangeResources(_) =>
    case _ => StepReferences(db, step);
  }

  lemma {:induction false} RunPersists(db: Db, more: seq<Step>)
    requires Inv(db)
    ensures Inv(RunAll(db, more)) && Persists(db, RunAll(db, more))
  {
    if more != [] {
      var before := RunAll(db, more[..|more| - 1]);
      RunPersists(db, more[..|more| - 1]);
      StepKeeps(before, more[|more| - 1]);
      StepPersists(before, more[|more| - 1]);
    }
  }

  /** What a delivery makes of a waiting task that was frozen with `tags`. */
  ghost predicate SettledByTags(final: Db, spec: DispatchSpec, t: nat, tags: seq<string>) {
    && t < |final.employeeTasks|
    && if UsableTags(tags)
       then && final.employeeTasks[t].status.Assigned?
            && RunCount(final.runs, t) == 1 && SegmentRun(spec, t, SortTags(tags)) in final.runs
       else final.employeeTasks[t].status.Failed? && RunCount(final.runs, t) == 0
  }

  lemma {:induction false} FrozenSegmentSettles(later: Db, final: Db, plan: DepartmentPlan, employee: string, ct: nat,
                                                catalog: string, t: nat)
    requires Resolved(later, final, t) && FrozenFrom(later.resources, later.specs[t], plan, employee, ct, catalog)
    requires later.departmentTasks[later.specs[t].department].departmentId == plan.departmentId
    ensures SettledByTags(final, later.specs[t], t, plan.requiredTags)
  {
    LazyCheckAgreesExactlyOnUsableTags(later.resources, later.specs[t], plan, employee, ct, catalog);
  }

  /**
   A segment deferred at confirmation, in any later state in which the resource rows are as
   they were: once it is due, the delivery that wakes it dispatches it if its tags are
   trimmed and not blank, and fails it otherwise.
   */
  lemma {:induction false} DeferredSegmentIsSettledByItsTags(resources: Resources, steps: seq<Step>, schema: Schema,
                                                             cmd: Command, db: Db, plan: seq<DepartmentPlan>, after: Db,
                                                             d: nat, e: nat, i: nat, t: nat, more: seq<Step>, row: nat,
                                                               env: Env)
    requires Confirms(resources, steps, schema, cmd, db, plan, after) && InPlan(plan, d, e, i)
    requires Deferred(plan, d, e, i)
    requires t == |db.employeeTasks| + SlotIndex(plan, d, e, i)
    requires
      var later := RunAll(after, more);
      && later.resources == db.resources && Due(Tables(later), t)
      && row < |later.outbox| && Wakes(later.employeeEdges, later.outbox[row], t) && DeliverOne(later, row, env).Some?
    ensures t in after.specs
    ensures SettledByTags(DeliverOne(RunAll(after, more), row, env).value, after.specs[t], t, plan[d].requiredTags)
  {
    var later := RunAll(after, more);
    ConfirmedSpecIsFrozen(resources, steps, schema, cmd, db, plan, after, d, e, i, t);
    Reachable(resources, steps);
    StepKeeps(db, Confirm(schema, cmd));
    RunPersists(after, more);
    WakingDeliveryResolves(later, row, env, t);
    FrozenSegmentSettles(later, DeliverOne(later, row, env).value, plan[d], Kept(plan[d].deliverables[e])[i],
                         cmd.companyTask, db.resources.catalogRelease.value, t);
  }
}
