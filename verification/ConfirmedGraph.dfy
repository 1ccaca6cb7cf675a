/**
 What a confirmation leaves behind, stated about the plan: one task per kept
 contributor, chains exactly along sequential deliverables, and exactly one of a
 queued run and a frozen spec for each task.
 */
module ConfirmedGraph {
  import opened Basics
  import opened Plans
  import opened Records
  import opened ConfirmPlan
  import CompanyTasks

  // ---- Where the contributors of a plan land ----------------------------------------------

  /** Contributor `i` of deliverable `e` of department `d`, if the strategy keeps it. */
  ghost predicate InPlan(plan: seq<DepartmentPlan>, d: nat, e: nat, i: nat) {
    d < |plan| && e < |plan[d].deliverables| && i < |Kept(plan[d].deliverables[e])|
  }

  /** The place of contributor `i` among the slots of its department. */
  ghost function StageIndex(plan: seq<DepartmentPlan>, d: nat, e: nat, i: nat): nat
    requires InPlan(plan, d, e, i)
  {
    |DeliverableSlots(StageOf(plan, d), plan[d].deliverables, e)| + i
  }

  /** Its place among all slots. */
  ghost function SlotIndex(plan: seq<DepartmentPlan>, d: nat, e: nat, i: nat): nat
    requires InPlan(plan, d, e, i)
  {
    |PlanSlots(plan, d)| + StageIndex(plan, d, e, i)
  }

  ghost function PlanSlot(plan: seq<DepartmentPlan>, d: nat, e: nat, i: nat): Slot
    requires InPlan(plan, d, e, i)
  {
    SlotFor(StageOf(plan, d), e, plan[d].deliverables[e], i)
  }

  lemma {:induction false} DeliverableSlotsPrefix(stage: Stage, ds: seq<Deliverable>, m: nat, n: nat)
    requires m <= n <= |ds|
    ensures DeliverableSlots(stage, ds, m) <= DeliverableSlots(stage, ds, n)
  {
    if m < n {
      DeliverableSlotsPrefix(stage, ds, m, n - 1);
    }
  }

  lemma {:induction false} PlanSlotsPrefix(plan: seq<DepartmentPlan>, m: nat, n: nat)
    requires m <= n <= |plan|
    ensures PlanSlots(plan, m) <= PlanSlots(plan, n)
  {
    if m < n {
      PlanSlotsPrefix(plan, m, n - 1);
    }
  }

  lemma {:induction false} SlotInStage(stage: Stage, ds: seq<Deliverable>, e: nat, i: nat, j: nat)
    requires e < |ds| && i < |Kept(ds[e])| && j == |DeliverableSlots(stage, ds, e)| + i
    ensures j < |DeliverableSlots(stage, ds, |ds|)|
    ensures DeliverableSlots(stage, ds, |ds|)[j] == SlotFor(stage, e, ds[e], i)
  {
    var before, here := DeliverableSlots(stage, ds, e), ContributorSlots(stage, e, ds[e], |Kept(ds[e])|);
    DeliverableSlotsPrefix(stage, ds, e + 1, |ds|);
    PlaceIn(before, here, DeliverableSlots(stage, ds, |ds|), i);
  }

  lemma {:induction false} StageInPlan(plan: seq<DepartmentPlan>, d: nat, j: nat, n: nat, k: nat)
    requires d < n <= |plan| && j < |StageSlots(plan, d)| && k == |PlanSlots(plan, d)| + j
    ensures k < |PlanSlots(plan, n)| && PlanSlots(plan, n)[k] == StageSlots(plan, d)[j]
  {
    PlanSlotsPrefix(plan, d + 1, n);
    PlaceIn(PlanSlots(plan, d), StageSlots(plan, d), PlanSlots(plan, n), j);
  }

  lemma {:induction false} SlotOfStage(plan: seq<DepartmentPlan>, d: nat, e: nat, i: nat)
    requires InPlan(plan, d, e, i)
    ensures StageIndex(plan, d, e, i) < |StageSlots(plan, d)|
    ensures StageSlots(plan, d)[StageIndex(plan, d, e, i)] == PlanSlot(plan, d, e, i)
  {
    SlotInStage(StageOf(plan, d), plan[d].deliverables, e, i, StageIndex(plan, d, e, i));
  }

  /** Every kept contributor has its slot, in plan order. */
  lemma {:induction false} SlotAt(plan: seq<DepartmentPlan>, d: nat, e: nat, i: nat, n: nat)
    requires InPlan(plan, d, e, i) && d < n <= |plan|
    ensures SlotIndex(plan, d, e, i) < |PlanSlots(plan, n)|
    ensures PlanSlots(plan, n)[SlotIndex(plan, d, e, i)] == PlanSlot(plan, d, e, i)
  {
    SlotOfStage(plan, d, e, i);
    StageInPlan(plan, d, StageIndex(plan, d, e, i), n, SlotIndex(plan, d, e, i));
  }

  /** Different contributors have different slots. */
  lemma {:induction false} OneSlotEach(plan: seq<DepartmentPlan>, d: nat, e: nat, i: nat, d': nat, e': nat, i': nat)
    requires InPlan(plan, d, e, i) && InPlan(plan, d', e', i')
    requires SlotIndex(plan, d, e, i) == SlotIndex(plan, d', e', i')
    ensures d == d' && e == e' && i == i'
  {
    SlotAt(plan, d, e, i, |plan|);
    SlotAt(plan, d', e', i', |plan|);
    assert PlanSlot(plan, d, e, i) == PlanSlot(plan, d', e', i');
  }

  lemma {:induction false} DeliverableSlotFrom(stage: Stage, ds: seq<Deliverable>, n: nat, k: nat)
    returns (e: nat, i: nat)
    requires n <= |ds| && k < |DeliverableSlots(stage, ds, n)|
    ensures e < n && i < |Kept(ds[e])| && k == |DeliverableSlots(stage, ds, e)| + i
  {
    var before := |DeliverableSlots(stage, ds, n - 1)|;
    if k < before {
      e, i := DeliverableSlotFrom(stage, ds, n - 1, k);
    } else {
      e, i := n - 1, k - before;
    }
  }

  /** And no slot stands for anything else. */
  lemma {:induction false} SlotFrom(plan: seq<DepartmentPlan>, n: nat, k: nat) returns (d: nat, e: nat, i: nat)
    requires n <= |plan| && k < |PlanSlots(plan, n)|
    ensures InPlan(plan, d, e, i) && d < n && k == SlotIndex(plan, d, e, i)
    ensures PlanSlots(plan, n)[k] == PlanSlot(plan, d, e, i)
  {
    var before := |PlanSlots(plan, n - 1)|;
    if k < before {
      d, e, i := SlotFrom(plan, n - 1, k);
    } else {
      d := n - 1;
      e, i := DeliverableSlotFrom(StageOf(plan, d), plan[d].deliverables, |plan[d].deliverables|, k - before);
      SlotAt(plan, d, e, i, n);
    }
  }

  /** A chained slot follows the previous contributor of the same deliverable. */
  lemma {:induction false} ChainedFollows(plan: seq<DepartmentPlan>, k: nat)
    requires k < |PlanSlots(plan, |plan|)| && PlanSlots(plan, |plan|)[k].chained
    ensures k > 0
    ensures var s, p := PlanSlots(plan, |plan|)[k], PlanSlots(plan, |plan|)[k - 1];
            p.stage == s.stage && p.deliverable == s.deliverable && p.position + 1 == s.position
  {
    var d, e, i := SlotFrom(plan, |plan|, k);
    SlotAt(plan, d, e, i - 1, |plan|);
  }

  ghost predicate Deferred(plan: seq<DepartmentPlan>, d: nat, e: nat, i: nat)
    requires InPlan(plan, d, e, i)
  {
    plan[d].deliverables[e].strategy.SequentialRefinement? && i > 0
  }

  /** The next contributor refines what this one did. */
  ghost predicate Followed(plan: seq<DepartmentPlan>, d: nat, e: nat, i: nat)
    requires InPlan(plan, d, e, i)
  {
    plan[d].deliverables[e].strategy.SequentialRefinement? && i + 1 < |Kept(plan[d].deliverables[e])|
  }

  lemma {:induction false} ChainedExactlyWhenDeferred(plan: seq<DepartmentPlan>, d: nat, e: nat, i: nat, k: nat)
    requires InPlan(plan, d, e, i) && k == SlotIndex(plan, d, e, i)
    ensures k < |PlanSlots(plan, |plan|)| && PlanSlots(plan, |plan|)[k].chained == Deferred(plan, d, e, i)
  {
    SlotAt(plan, d, e, i, |plan|);
  }

  /** Whoever is chained to contributor `i` is the next contributor of the same deliverable. */
  lemma {:induction false} ChainedIsNext(plan: seq<DepartmentPlan>, d: nat, e: nat, i: nat, k: nat)
    requires InPlan(plan, d, e, i) && k == SlotIndex(plan, d, e, i)
    requires k + 1 < |PlanSlots(plan, |plan|)| && PlanSlots(plan, |plan|)[k + 1].chained
    ensures Followed(plan, d, e, i)
  {
    var d', e', i' := SlotFrom(plan, |plan|, k + 1);
    SlotAt(plan, d', e', i' - 1, |plan|);
    SlotAt(plan, d, e, i, |plan|);
    assert PlanSlot(plan, d', e', i' - 1) == PlanSlot(plan, d, e, i);
  }

  lemma {:induction false} FollowedIsChained(plan: seq<DepartmentPlan>, d: nat, e: nat, i: nat, k: nat)
    requires InPlan(plan, d, e, i) && k == SlotIndex(plan, d, e, i) && Followed(plan, d, e, i)
    ensures k + 1 < |PlanSlots(plan, |plan|)| && PlanSlots(plan, |plan|)[k + 1].chained
  {
    ChainedExactlyWhenDeferred(plan, d, e, i + 1, k + 1);
  }

  lemma {:induction false} NextInChain(plan: seq<DepartmentPlan>, d: nat, e: nat, i: nat, k: nat)
    requires InPlan(plan, d, e, i) && k == SlotIndex(plan, d, e, i)
    ensures k + 1 < |PlanSlots(plan, |plan|)| && PlanSlots(plan, |plan|)[k + 1].chained <==> Followed(plan, d, e, i)
  {
    if Followed(plan, d, e, i) {
      FollowedIsChained(plan, d, e, i, k);
    } else if k + 1 < |PlanSlots(plan, |plan|)| && PlanSlots(plan, |plan|)[k + 1].chained {
      ChainedIsNext(plan, d, e, i, k);
    }
  }

  // ---- The row builders, read back --------------------------------------------------------

  lemma {:induction false} ChainEdgesMeaning(first: nat, slots: seq<Slot>, x: nat, y: nat)
    ensures (x, y) in ChainEdges(first, slots) <==>
            first <= x < first + |slots| && slots[x - first].chained && x == y + 1
  {
    if slots != [] {
      ChainEdgesMeaning(first, slots[..|slots| - 1], x, y);
    }
  }

  lemma {:induction false} DeferredSpecsMeaning(g: Target, slots: seq<Slot>, t: nat)
    ensures t in DeferredSpecs(g, slots) <==> g.firstTask <= t < g.firstTask + |slots| && slots[t - g.firstTask].chained
    ensures t in DeferredSpecs(g, slots) ==> DeferredSpecs(g, slots)[t] == SlotSpec(g, slots[t - g.firstTask])
  {
    if slots != [] {
      DeferredSpecsMeaning(g, slots[..|slots| - 1], t);
    }
  }

  lemma {:induction false} EagerRunsMeaning(g: Target, slots: seq<Slot>, t: nat)
    ensures RunCount(EagerRuns(g, slots), t) ==
            if g.firstTask <= t < g.firstTask + |slots| && !slots[t - g.firstTask].chained then 1 else 0
  {
    if slots != [] {
      var k := |slots| - 1;
      EagerRunsMeaning(g, slots[..k], t);
      RunCountOneMore(EagerRuns(g, slots[..k]), SlotRun(g, slots[k], g.firstTask + k), t);
    }
  }

  lemma {:induction false} EagerRunsFit(g: Target, slots: seq<Slot>)
    ensures forall r :: r in EagerRuns(g, slots) ==> g.firstTask <= r.task < g.firstTask + |slots|
  {
    if slots != [] {
      EagerRunsFit(g, slots[..|slots| - 1]);
    }
  }

  lemma {:induction false} DepartmentEdgesMeaning(plan: seq<DepartmentPlan>, base: nat, n: nat, i: nat, j: nat)
    requires n <= |plan|
    ensures (base + i, base + j) in DepartmentEdges(plan, base, n) <==>
            j < i < n && plan[j].localRef in plan[i].dependencyRefs
    ensures forall x :: x in DepartmentEdges(plan, base, n) ==> base <= x.1 < x.0 < base + n
  {
    if n > 0 {
      DepartmentEdgesMeaning(plan, base, n - 1, i, j);
    }
  }

  // ---- One slot ---------------------------------------------------------------------------

  /** All rows of the tables are about tasks below `n`. */
  ghost predicate Precede(tables: EmployeeTables, n: nat) {
    && (forall x :: x in tables.edges ==> x.1 < x.0 < n)
    && (forall t :: t in tables.specs ==> t < n)
    && (forall r :: r in tables.runs ==> r.task < n)
  }

  lemma {:induction false} NoRunYet(runs: seq<Run>, t: nat)
    requires forall r :: r in runs ==> r.task < t
    ensures RunCount(runs, t) == 0
  {
    if runs != [] {
      assert forall r :: r in runs[..|runs| - 1] ==> r in runs;
      NoRunYet(runs[..|runs| - 1], t);
    }
  }

  /** The slot's task waits on the one before it, and the next one on it, exactly as the slots are chained. */
  lemma {:induction false} SlotEdges(first: nat, edges: set<(nat, nat)>, slots: seq<Slot>, k: nat, u: nat, waits: bool,
                                     followed: bool)
    requires k < |slots| && forall x :: x in edges ==> x.1 < x.0 < first
    requires slots[k].chained == waits && (k + 1 < |slots| && slots[k + 1].chained <==> followed)
    ensures (first + k, u) in edges + ChainEdges(first, slots) <==> waits && first + k == u + 1
    ensures (u, first + k) in edges + ChainEdges(first, slots) <==> followed && u == first + k + 1
  {
    ChainEdgesMeaning(first, slots, first + k, u);
    ChainEdgesMeaning(first, slots, u, first + k);
  }

  lemma {:induction false} SlotSpecs(before: map<nat, DispatchSpec>, g: Target, slots: seq<Slot>, k: nat, waits: bool)
    requires k < |slots| && slots[k].chained == waits && forall t :: t in before ==> t < g.firstTask
    ensures g.firstTask + k in before + DeferredSpecs(g, slots) <==> waits
  {
    DeferredSpecsMeaning(g, slots, g.firstTask + k);
  }

  lemma {:induction false} SlotRuns(before: seq<Run>, g: Target, slots: seq<Slot>, k: nat, waits: bool)
    requires k < |slots| && slots[k].chained == waits && forall r :: r in before ==> r.task < g.firstTask
    ensures RunCount(before + EagerRuns(g, slots), g.firstTask + k) == if waits then 0 else 1
  {
    EagerRunsMeaning(g, slots, g.firstTask + k);
    RunCountAppend(before, EagerRuns(g, slots), g.firstTask + k);
    NoRunYet(before, g.firstTask + k);
  }

  // ---- The theorems -----------------------------------------------------------------------

  /** `after` is `db` with the plan's departments and the contributors' tasks inserted. */
  ghost predicate Extends(schema: Schema, db: Db, after: Db, g: Target, plan: seq<DepartmentPlan>) {
    && g.firstTask == |db.employeeTasks| && g.firstDepartment == |db.departmentTasks|
    && Tables(after) == With(Tables(db), g, PlanSlots(plan, |plan|))
    && after.departmentTasks == db.departmentTasks + DepartmentRows(schema, g.companyTask, plan, |plan|)
    && after.departmentEdges == db.departmentEdges + DepartmentEdges(plan, g.firstDepartment, |plan|)
  }

  lemma {:induction false} ConfirmExtends(schema: Schema, db: Db, cmd: Command)
    requires Confirmable(schema, db, cmd)
    ensures Extends(schema, db, AfterConfirm(schema, db, cmd), TargetOf(db, cmd), db.plans[cmd.companyTask].tasks)
  {
  }

  /** A task starts out waiting when its chain or its department does. */
  ghost function FirstStatus(plan: seq<DepartmentPlan>, d: nat, e: nat, i: nat): EmployeeStatus
    requires InPlan(plan, d, e, i)
  {
    if Deferred(plan, d, e, i) || HasUpstream(plan, d) then EmployeeStatus.WaitingResource else Assigned
  }

  /** Contributor `i` of a confirmed plan has its task, in its department. */
  ghost predicate TaskPlaced(tasks: seq<EmployeeTask>, firstTask: nat, firstDepartment: nat, plan: seq<DepartmentPlan>,
                             d: nat, e: nat, i: nat)
    requires InPlan(plan, d, e, i)
  {
    var t := firstTask + SlotIndex(plan, d, e, i);
    && t < |tasks| && tasks[t].employee == Kept(plan[d].deliverables[e])[i]
    && tasks[t].department == firstDepartment + d
    && tasks[t].status == FirstStatus(plan, d, e, i)
  }

  lemma {:induction false} ContributorTask(before: seq<EmployeeTask>, after: seq<EmployeeTask>, g: Target,
                                           plan: seq<DepartmentPlan>, d: nat, e: nat, i: nat)
    requires after == before + SlotRows(g, PlanSlots(plan, |plan|)) && g.firstTask == |before| && InPlan(plan, d, e, i)
    ensures TaskPlaced(after, |before|, g.firstDepartment, plan, d, e, i)
  {
    var k := SlotIndex(plan, d, e, i);
    SlotAt(plan, d, e, i, |plan|);
    RowOfSlot(before, after, g, PlanSlots(plan, |plan|), k, |before| + k);
    SlotRowMeaning(g, plan, d, e, i);
  }

  lemma {:induction false} RowOfSlot(before: seq<EmployeeTask>, after: seq<EmployeeTask>, g: Target, slots: seq<Slot>,
                                     k: nat, t: nat)
    requires after == before + SlotRows(g, slots) && k < |slots| && t == |before| + k
    ensures t < |after| && after[t] == SlotRow(g, slots[k])
  {
  }

  lemma {:induction false} SlotRowMeaning(g: Target, plan: seq<DepartmentPlan>, d: nat, e: nat, i: nat)
    requires InPlan(plan, d, e, i)
    ensures
      var row := SlotRow(g, PlanSlot(plan, d, e, i));
      && row.employee == Kept(plan[d].deliverables[e])[i] && row.department == g.firstDepartment + d
      && row.status == FirstStatus(plan, d, e, i)
  {
  }

  /** The edges of task `t` to and from `u`: to its predecessor and from its successor in a sequential deliverable. */
  ghost predicate Linked(edges: set<(nat, nat)>, t: nat, plan: seq<DepartmentPlan>, d: nat, e: nat, i: nat, u: nat)
    requires InPlan(plan, d, e, i)
  {
    && ((t, u) in edges <==> Deferred(plan, d, e, i) && t == u + 1)
    && ((u, t) in edges <==> Followed(plan, d, e, i) && u == t + 1)
  }

  /** Each sequential deliverable is one chain in contributor order. */
  lemma {:induction false} ContributorChain(edges: set<(nat, nat)>, edges': set<(nat, nat)>, first: nat,
                                            plan: seq<DepartmentPlan>, d: nat, e: nat, i: nat, u: nat, t: nat)
    requires InPlan(plan, d, e, i) && t == first + SlotIndex(plan, d, e, i)
    requires forall x :: x in edges ==> x.1 < x.0 < first
    requires edges' == edges + ChainEdges(first, PlanSlots(plan, |plan|))
    ensures Linked(edges', t, plan, d, e, i, u)
  {
    var k := SlotIndex(plan, d, e, i);
    ChainedExactlyWhenDeferred(plan, d, e, i, k);
    NextInChain(plan, d, e, i, k);
    SlotEdges(first, edges, PlanSlots(plan, |plan|), k, u, Deferred(plan, d, e, i), Followed(plan, d, e, i));
  }

  /** The task has a frozen spec exactly when it has to wait for another one. */
  lemma {:induction false} ContributorSpec(specs: map<nat, DispatchSpec>, specs': map<nat, DispatchSpec>, g: Target,
                                           plan: seq<DepartmentPlan>, d: nat, e: nat, i: nat, t: nat)
    requires InPlan(plan, d, e, i) && t == g.firstTask + SlotIndex(plan, d, e, i)
    requires (forall u :: u in specs ==> u < g.firstTask) && specs' == specs + DeferredSpecs(g, PlanSlots(plan, |plan|))
    ensures t in specs' <==> Deferred(plan, d, e, i)
  {
    ChainedExactlyWhenDeferred(plan, d, e, i, SlotIndex(plan, d, e, i));
    SlotSpecs(specs, g, PlanSlots(plan, |plan|), SlotIndex(plan, d, e, i), Deferred(plan, d, e, i));
  }

  /** And exactly one run otherwise. */
  lemma {:induction false} ContributorRun(runs: seq<Run>, runs': seq<Run>, g: Target,
                                          plan: seq<DepartmentPlan>, d: nat, e: nat, i: nat, t: nat)
    requires InPlan(plan, d, e, i) && t == g.firstTask + SlotIndex(plan, d, e, i)
    requires (forall r :: r in runs ==> r.task < g.firstTask) && runs' == runs + EagerRuns(g, PlanSlots(plan, |plan|))
    ensures RunCount(runs', t) == if Deferred(plan, d, e, i) then 0 else 1
  {
    ChainedExactlyWhenDeferred(plan, d, e, i, SlotIndex(plan, d, e, i));
    SlotRuns(runs, g, PlanSlots(plan, |plan|), SlotIndex(plan, d, e, i), Deferred(plan, d, e, i));
  }

  /** The task depends on another one. */
  ghost predicate HasEdge(edges: set<(nat, nat)>, t: nat) {
    exists u: nat :: (t, u) in edges
  }

  /** It has an upstream task exactly when it has to wait for one. */
  lemma {:induction false} UpstreamExactlyWhenDeferred(edges: set<(nat, nat)>, edges': set<(nat, nat)>, first: nat,
                                                       plan: seq<DepartmentPlan>, d: nat, e: nat, i: nat, t: nat)
    requires InPlan(plan, d, e, i) && t == first + SlotIndex(plan, d, e, i)
    requires (forall x :: x in edges ==> x.1 < x.0 < first)
    requires edges' == edges + ChainEdges(first, PlanSlots(plan, |plan|))
    ensures HasEdge(edges', t) <==> Deferred(plan, d, e, i)
  {
    if HasEdge(edges', t) {
      var u :| (t, u) in edges';
      ContributorChain(edges, edges', first, plan, d, e, i, u, t);
    }
    if Deferred(plan, d, e, i) {
      assert SlotIndex(plan, d, e, i) >= i > 0;
      ContributorChain(edges, edges', first, plan, d, e, i, t - 1, t);
    }
  }

  /** A new task has a frozen spec exactly when it has an upstream task. */
  lemma {:induction false} SpecExactlyWithEdge(specs: map<nat, DispatchSpec>, specs': map<nat, DispatchSpec>,
                                               edges: set<(nat, nat)>, edges': set<(nat, nat)>, g: Target,
                                               plan: seq<DepartmentPlan>, d: nat, e: nat, i: nat, t: nat)
    requires InPlan(plan, d, e, i) && t == g.firstTask + SlotIndex(plan, d, e, i)
    requires (forall u :: u in specs ==> u < g.firstTask) && specs' == specs + DeferredSpecs(g, PlanSlots(plan, |plan|))
    requires forall x :: x in edges ==> x.1 < x.0 < g.firstTask
    requires edges' == edges + ChainEdges(g.firstTask, PlanSlots(plan, |plan|))
    ensures t in specs' <==> HasEdge(edges', t)
  {
    ContributorSpec(specs, specs', g, plan, d, e, i, t);
    UpstreamExactlyWhenDeferred(edges, edges', g.firstTask, plan, d, e, i, t);
  }

  /** It has a run exactly when it has no spec, and then one. */
  lemma {:induction false} RunExactlyWithoutSpec(specs: map<nat, DispatchSpec>, specs': map<nat, DispatchSpec>,
                                                 runs: seq<Run>, runs': seq<Run>, g: Target,
                                                 plan: seq<DepartmentPlan>, d: nat, e: nat, i: nat, t: nat)
    requires InPlan(plan, d, e, i) && t == g.firstTask + SlotIndex(plan, d, e, i)
    requires (forall u :: u in specs ==> u < g.firstTask) && specs' == specs + DeferredSpecs(g, PlanSlots(plan, |plan|))
    requires (forall r :: r in runs ==> r.task < g.firstTask) && runs' == runs + EagerRuns(g, PlanSlots(plan, |plan|))
    ensures RunCount(runs', t) == if t in specs' then 0 else 1
  {
    ContributorSpec(specs, specs', g, plan, d, e, i, t);
    ContributorRun(runs, runs', g, plan, d, e, i, t);
  }

  /** Nothing but the contributors' tasks is created. */
  lemma {:induction false} ConfirmCreatesNothingElse(plan: seq<DepartmentPlan>, first: nat, t: nat)
    returns (d: nat, e: nat, i: nat)
    requires first <= t < first + |PlanSlots(plan, |plan|)|
    ensures InPlan(plan, d, e, i) && t == first + SlotIndex(plan, d, e, i)
  {
    d, e, i := SlotFrom(plan, |plan|, t - first);
  }

  /** Department `i` of the plan depends on department `j`. */
  predicate PlanEdge(plan: seq<DepartmentPlan>, i: nat, j: nat) {
    i < |plan| && j < |plan| && plan[j].localRef in plan[i].dependencyRefs
  }

  /** The database holds the edge between departments `i` and `j` of the plan. */
  predicate Recorded(edges: set<(nat, nat)>, base: nat, i: nat, j: nat) {
    (base + i, base + j) in edges
  }

  /**
   The recorded department edges are the plan's backward edges: hence acyclic.
   */
  lemma {:induction false} DepartmentOutcome(edges: set<(nat, nat)>, plan: seq<DepartmentPlan>, base: nat, i: nat)
    requires i < |plan| && forall x :: x in edges ==> x.1 < x.0 < base
    ensures forall j: nat ::
              Recorded(edges + DepartmentEdges(plan, base, |plan|), base, i, j) <==> j < i && PlanEdge(plan, i, j)
    ensures forall x :: x in edges + DepartmentEdges(plan, base, |plan|) ==> x.1 < x.0 < base + |plan|
  {
    var all := edges + DepartmentEdges(plan, base, |plan|);
    forall j: nat
      ensures Recorded(all, base, i, j) <==> j < i && PlanEdge(plan, i, j)
    {
      DepartmentEdgesMeaning(plan, base, |plan|, i, j);
    }
    DepartmentEdgesMeaning(plan, base, |plan|, 0, 0);
  }

  lemma {:induction false} UpstreamIsRecorded(edges: set<(nat, nat)>, edges': set<(nat, nat)>,
                                              plan: seq<DepartmentPlan>, base: nat, i: nat, d: nat)
    requires i < |plan| && d == base + i && forall x :: x in edges ==> x.1 < x.0 < base
    requires edges' == edges + DepartmentEdges(plan, base, |plan|)
    ensures HasUpstream(plan, i) <==> HasEdge(edges', d)
  {
    if HasUpstream(plan, i) {
      var j: nat :| j < i && plan[j].localRef in plan[i].dependencyRefs;
      DepartmentEdgesMeaning(plan, base, |plan|, i, j);
      assert (d, base + j) in edges';
    }
    if HasEdge(edges', d) {
      var u: nat :| (d, u) in edges';
      assert (base + i, u) in DepartmentEdges(plan, base, |plan|);
      DepartmentEdgesMeaning(plan, base, |plan|, 0, 0);
      DepartmentEdgesMeaning(plan, base, |plan|, i, u - base);
    }
  }

  lemma {:induction false} DepartmentRowAt(rows: seq<DepartmentTask>, schema: Schema, ct: nat,
                                           plan: seq<DepartmentPlan>,
                                           i: nat, d: nat)
    requires i < |plan| && d == |rows| + i
    ensures d < |rows + DepartmentRows(schema, ct, plan, |plan|)|
    ensures (rows + DepartmentRows(schema, ct, plan, |plan|))[d] == DepartmentRow(schema, ct, plan, i)
  {
  }

  /** A department of a confirmed plan waits exactly when the database holds one of its dependencies. */
  lemma {:induction false} DepartmentWaitsExactlyWhenRecorded(schema: Schema, rows: seq<DepartmentTask>,
                                                              edges: set<(nat, nat)>,
                                                              ct: nat, plan: seq<DepartmentPlan>, i: nat, d: nat)
    requires i < |plan| && d == |rows| + i && forall x :: x in edges ==> x.1 < x.0 < |rows|
    ensures d < |rows + DepartmentRows(schema, ct, plan, |plan|)|
    ensures (rows + DepartmentRows(schema, ct, plan, |plan|))[d].status.WaitingDependency?
            <==> HasEdge(edges + DepartmentEdges(plan, |rows|, |plan|), d)
  {
    UpstreamIsRecorded(edges, edges + DepartmentEdges(plan, |rows|, |plan|), plan, |rows|, i, d);
    DepartmentRowAt(rows, schema, ct, plan, i, d);
    assert DepartmentRow(schema, ct, plan, i).status.WaitingDependency? <==> HasUpstream(plan, i);
  }

  /**
   No dependency of the plan is lost exactly when the plan lists every department after
   the ones it depends on; a forward or self reference is dropped without a word.
   */
  lemma {:induction false} EdgesKeptExactlyInTopologicalOrder(edges: set<(nat, nat)>, plan: seq<DepartmentPlan>,
                                                              base: nat)
    requires forall x :: x in edges ==> x.1 < x.0 < base
    ensures (forall i: nat, j: nat :: PlanEdge(plan, i, j) ==>
                                        Recorded(edges + DepartmentEdges(plan, base, |plan|), base, i, j))
            <==> (forall i: nat, j: nat :: PlanEdge(plan, i, j) ==> j < i)
  {
    var all := edges + DepartmentEdges(plan, base, |plan|);
    forall i: nat, j: nat | PlanEdge(plan, i, j)
      ensures Recorded(all, base, i, j) <==> j < i
    {
      DepartmentOutcome(edges, plan, base, i);
    }
  }

  /**
   Under the shipped tables a plan in which any department depends on an earlier one is
   never confirmed: its waiting row has no resume state, and the CHECK refuses it.  With
   the resume state supplied the same plan passes that constraint.
   */
  lemma {:induction false} ShippedTablesRefuseDependentPlans(db: Db, cmd: Command)
    requires Confirmable(ResumeSupplied, db, cmd)
    ensures Confirmable(Shipped, db, cmd) <==>
            forall i :: 0 <= i < |db.plans[cmd.companyTask].tasks| ==> !HasUpstream(db.plans[cmd.companyTask].tasks, i)
  {
  }

  /** A confirmed company task is being executed, and no command can confirm it from there. */
  lemma {:induction false} ConfirmedIsExecuting(schema: Schema, db: Db, cmd: Command)
    requires Confirmable(schema, db, cmd)
    ensures
      var after, ct := AfterConfirm(schema, db, cmd), cmd.companyTask;
      && after.companyTasks[ct] == CompanyTask(CompanyTasks.Row(CompanyTasks.Executing, None), cmd.expectedVersion + 4)
      && CompanyTasks.PastApproval(after.companyTasks[ct].row)
      && forall s: Schema, c: Command :: c.companyTask == ct ==> !Confirmable(s, after, c)
  {
  }

  /** It got there along four legal edges with consecutive versions, one event and one outbox row each. */
  lemma {:induction false} ConfirmationWalksThePath(schema: Schema, db: Db, cmd: Command, k: nat)
    requires Confirmable(schema, db, cmd) && k < 4
    ensures
      var after, ct, path := AfterConfirm(schema, db, cmd), cmd.companyTask, CompanyTasks.CONFIRMATION_PATH;
      && |after.events| == |db.events| + 4 && |after.outbox| == |db.outbox| + 4
      && after.events[|db.events| + k] ==
         DomainEvent(ct, cmd.expectedVersion + k + 1, CompanyChange(path[k], path[k + 1]))
      && after.outbox[|db.outbox| + k].change == CompanyChange(path[k], path[k + 1])
      && CompanyTasks.Move(CompanyTasks.Row(path[k], None), path[k + 1]) == Some(CompanyTasks.Row(path[k + 1], None))
  {
    CompanyTasks.ConfirmationPathIsLegal(k);
  }
}
