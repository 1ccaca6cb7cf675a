/**
 The invariant of the employee-task graph, and the three kinds of change that keep it:
 a handler rewriting one row, an advance settling waiting segments, and a confirmation
 appending the tasks of a plan.
 */
module TaskGraph {
  import opened Plans
  import opened Records
  import opened ConfirmPlan
  import opened ConfirmedGraph
  import opened DispatchStrategies

  // ---- The invariant ----------------------------------------------------------------------

  /**
   An edge leads to an older task; its source has a frozen spec, has left `waiting_resource`
   only if its target is accepted, and has no run while it waits.
   */
  ghost predicate EdgeSound(tb: EmployeeTables, x: (nat, nat)) {
    && x.1 < x.0 < |tb.tasks|
    && x.0 in tb.specs && tb.specs[x.0].department == tb.tasks[x.0].department
    && (tb.tasks[x.0].status.WaitingResource? || tb.tasks[x.1].status.Accepted?)
    && (tb.tasks[x.0].status.WaitingResource? ==> RunCount(tb.runs, x.0) == 0)
  }

  ghost predicate TaskSound(tb: EmployeeTables, departments: nat, t: nat)
    requires t < |tb.tasks|
  {
    EmployeeRowOk(tb.tasks[t]) && tb.tasks[t].department < departments && RunCount(tb.runs, t) <= 1
  }

  ghost predicate GraphSound(tb: EmployeeTables, departments: nat) {
    && (forall x :: x in tb.edges ==> EdgeSound(tb, x))
    && (forall t: nat :: t < |tb.tasks| ==> TaskSound(tb, departments, t))
    && Precede(tb, |tb.tasks|)
  }

  /** A pending `graph_advance` row that will look at task `t`. */
  predicate Wakes(edges: set<(nat, nat)>, row: OutboxRow, t: nat) {
    row.pending && row.topic.GraphAdvance? && row.change == EmployeeChange(Accepted) && (t, row.aggregate) in edges
  }

  /** Task `t` waits for nothing any more. */
  ghost predicate Due(tb: EmployeeTables, t: nat) {
    && t < |tb.tasks| && tb.tasks[t].status.WaitingResource?
    && (exists x :: x in tb.edges && x.0 == t)
    && Unblocked(tb.tasks, tb.edges, t)
  }

  /** No lost wake-up: a due task has a pending event that will dispatch or fail it. */
  ghost predicate Woken(tb: EmployeeTables, outbox: seq<OutboxRow>) {
    forall t: nat :: Due(tb, t) ==> exists i :: 0 <= i < |outbox| && Wakes(tb.edges, outbox[i], t)
  }

  lemma {:induction false} WokenMonotone(tb: EmployeeTables, outbox: seq<OutboxRow>, more: seq<OutboxRow>)
    requires Woken(tb, outbox)
    ensures Woken(tb, outbox + more)
  {
    forall t: nat | Due(tb, t)
      ensures exists i :: 0 <= i < |outbox + more| && Wakes(tb.edges, (outbox + more)[i], t)
    {
      var i :| 0 <= i < |outbox| && Wakes(tb.edges, outbox[i], t);
      assert (outbox + more)[i] == outbox[i];
    }
  }

  /** Marking rows of other topics as delivered wakes nobody less. */
  lemma {:induction false} WokenOtherTopic(tb: EmployeeTables, outbox: seq<OutboxRow>, i: nat)
    requires Woken(tb, outbox) && i < |outbox|
    requires !outbox[i].topic.GraphAdvance? || outbox[i].change != EmployeeChange(Accepted)
    ensures Woken(tb, outbox[i := outbox[i].(pending := false)])
  {
    var outbox' := outbox[i := outbox[i].(pending := false)];
    forall t: nat | Due(tb, t)
      ensures exists j :: 0 <= j < |outbox'| && Wakes(tb.edges, outbox'[j], t)
    {
      var j :| 0 <= j < |outbox| && Wakes(tb.edges, outbox[j], t);
      assert outbox'[j] == outbox[j];
    }
  }

  // ---- A handler rewrites one row ---------------------------------------------------------

  function WithRow(tb: EmployeeTables, t: nat, row: EmployeeTask): EmployeeTables
    requires t < |tb.tasks|
  {
    tb.(tasks := tb.tasks[t := row])
  }

  ghost predicate HandlerChange(old': EmployeeTask, row: EmployeeTask) {
    && !old'.status.WaitingResource? && !row.status.WaitingResource?
    && row.department == old'.department && EmployeeRowOk(row)
    && (old'.status.Accepted? ==> row.status.Accepted?)
  }

  lemma {:induction false} RowChangeKeepsGraph(tb: EmployeeTables, departments: nat, t: nat, row: EmployeeTask)
    requires GraphSound(tb, departments) && t < |tb.tasks| && HandlerChange(tb.tasks[t], row)
    ensures GraphSound(WithRow(tb, t, row), departments)
  {
    var tb' := WithRow(tb, t, row);
    forall x | x in tb'.edges
      ensures EdgeSound(tb', x)
    {
      assert EdgeSound(tb, x);
    }
    forall u: nat | u < |tb'.tasks|
      ensures TaskSound(tb', departments, u)
    {
      assert TaskSound(tb, departments, u);
    }
  }

  /** If the row becomes accepted, the handler's `graph_advance` row covers the tasks that become due. */
  lemma {:induction false} RowChangeKeepsWoken(tb: EmployeeTables, outbox: seq<OutboxRow>, t: nat, row: EmployeeTask,
                                               more: seq<OutboxRow>)
    requires Woken(tb, outbox) && t < |tb.tasks| && HandlerChange(tb.tasks[t], row)
    requires row.status.Accepted?
             ==> exists k :: 0 <= k < |more| && more[k] == OutboxRow(GraphAdvance, t, EmployeeChange(Accepted), true)
    ensures Woken(WithRow(tb, t, row), outbox + more)
  {
    var tb', all := WithRow(tb, t, row), outbox + more;
    forall u: nat | Due(tb', u)
      ensures exists i :: 0 <= i < |all| && Wakes(tb'.edges, all[i], u)
    {
      if (u, t) in tb.edges {
        assert tb'.tasks[t].status.Accepted?;
        var k :| 0 <= k < |more| && more[k] == OutboxRow(GraphAdvance, t, EmployeeChange(Accepted), true);
        assert all[|outbox| + k] == more[k];
      } else {
        assert Due(tb, u) by {
          forall x | x in tb.edges && x.0 == u
            ensures x.1 < |tb.tasks| && tb.tasks[x.1].status.Accepted?
          {
            assert x == (u, x.1);
          }
        }
        var i :| 0 <= i < |outbox| && Wakes(tb.edges, outbox[i], u);
        assert all[i] == outbox[i];
      }
    }
  }

  // ---- An advance settles waiting segments ------------------------------------------------

  function WithSegments(tb: EmployeeTables, s: Segments): EmployeeTables {
    tb.(tasks := s.tasks, runs := s.runs)
  }

  ghost predicate Serves(f: Frame, tb: EmployeeTables, departments: nat) {
    f.edges == tb.edges && f.specs == tb.specs && |f.departments| == departments
  }

  lemma {:induction false} AtMostOneMore(runs: seq<Run>, more: seq<Run>, t: nat, u: nat)
    requires more == [] || (|more| == 1 && more[0].task == t)
    ensures RunCount(runs + more, u) == RunCount(runs, u) + if more != [] && u == t then 1 else 0
  {
    if more == [] {
      assert runs + more == runs;
    } else {
      assert more == [more[0]];
      RunCountOneMore(runs, more[0], u);
    }
  }

  function SettledTables(tb: EmployeeTables, t: nat, status: EmployeeStatus, more: seq<Run>): EmployeeTables
    requires t < |tb.tasks|
  {
    EmployeeTables(tb.tasks[t := Settled(tb.tasks[t], status)], tb.edges, tb.specs, tb.runs + more)
  }

  lemma {:induction false} SettleKeepsEdge(tb: EmployeeTables, t: nat, status: EmployeeStatus, more: seq<Run>,
                                           x: (nat, nat))
    requires EdgeSound(tb, x) && x in tb.edges && Due(tb, t) && (status.Assigned? || status.Failed?)
    requires more == [] || (|more| == 1 && more[0].task == t)
    ensures EdgeSound(SettledTables(tb, t, status, more), x)
  {
    AtMostOneMore(tb.runs, more, t, x.0);
  }

  lemma {:induction false} SettleKeepsTask(tb: EmployeeTables, departments: nat, t: nat, status: EmployeeStatus,
                                           more: seq<Run>, u: nat)
    requires u < |tb.tasks| && TaskSound(tb, departments, u) && t < |tb.tasks| && RunCount(tb.runs, t) == 0
    requires (status.Assigned? || status.Failed?) && (more == [] || (|more| == 1 && more[0].task == t))
    ensures TaskSound(SettledTables(tb, t, status, more), departments, u)
  {
    AtMostOneMore(tb.runs, more, t, u);
  }

  /** One settled segment. */
  lemma {:induction false} SettleKeepsGraph(tb: EmployeeTables, departments: nat, t: nat, status: EmployeeStatus,
                                            more: seq<Run>)
    requires GraphSound(tb, departments) && Due(tb, t) && (status.Assigned? || status.Failed?)
    requires more == [] || (|more| == 1 && more[0].task == t)
    ensures GraphSound(SettledTables(tb, t, status, more), departments)
  {
    var tb' := SettledTables(tb, t, status, more);
    var y :| y in tb.edges && y.0 == t;
    assert EdgeSound(tb, y);
    forall x | x in tb'.edges
      ensures EdgeSound(tb', x)
    {
      SettleKeepsEdge(tb, t, status, more, x);
    }
    forall u: nat | u < |tb'.tasks|
      ensures TaskSound(tb', departments, u)
    {
      SettleKeepsTask(tb, departments, t, status, more, u);
    }
  }

  /** What the loop has done after `n` tasks: it only settles due dependents, and misses none. */
  ghost predicate Advanced(edges: set<(nat, nat)>, start: Segments, s: Segments, upstream: nat, n: nat) {
    && |s.tasks| == |start.tasks|
    && (forall t: nat :: t < |s.tasks| ==> AdvancedAt(edges, start, s, upstream, n, t))
  }

  ghost predicate AdvancedAt(edges: set<(nat, nat)>, start: Segments, s: Segments, upstream: nat, n: nat, t: nat)
    requires t < |s.tasks| == |start.tasks|
  {
    if t < n && IsDependent(start.tasks, edges, upstream, t) && Unblocked(start.tasks, edges, t)
    then s.tasks[t] == Settled(start.tasks[t], Assigned) || s.tasks[t] == Settled(start.tasks[t], EmployeeStatus.Failed)
    else s.tasks[t] == start.tasks[t]
  }

  /** Settling never changes which tasks are accepted. */
  lemma {:induction false} UnblockedAgrees(edges: set<(nat, nat)>, start: Segments, s: Segments, upstream: nat, n: nat,
                                           t: nat)
    requires Advanced(edges, start, s, upstream, n)
    ensures Unblocked(s.tasks, edges, t) <==> Unblocked(start.tasks, edges, t)
  {
    forall u: nat | u < |s.tasks|
      ensures s.tasks[u].status.Accepted? <==> start.tasks[u].status.Accepted?
    {
      assert AdvancedAt(edges, start, s, upstream, n, u);
    }
  }

  lemma {:induction false} AdvanceKeepsGraph(f: Frame, tb: EmployeeTables, departments: nat, start: Segments,
                                             upstream: nat, n: nat)
    requires Serves(f, tb, departments) && n <= |start.tasks|
    requires GraphSound(WithSegments(tb, start), departments)
    requires AdvanceUpTo(f, start, upstream, n).Some?
    ensures GraphSound(WithSegments(tb, AdvanceUpTo(f, start, upstream, n).value), departments)
    ensures Advanced(tb.edges, start, AdvanceUpTo(f, start, upstream, n).value, upstream, n)
  {
    if n > 0 {
      AdvanceKeepsGraph(f, tb, departments, start, upstream, n - 1);
      var s, t := AdvanceUpTo(f, start, upstream, n - 1).value, n - 1;
      var next := AdvanceUpTo(f, start, upstream, n).value;
      UnblockedAgrees(tb.edges, start, s, upstream, n - 1, t);
      assert AdvancedAt(tb.edges, start, s, upstream, n - 1, t);
      if IsDependent(start.tasks, tb.edges, upstream, t) && Unblocked(start.tasks, tb.edges, t) {
        RoundSettles(f, WithSegments(tb, s), departments, s, upstream, t);
      }
      forall u: nat | u < |next.tasks|
        ensures AdvancedAt(tb.edges, start, next, upstream, n, u)
      {
        assert AdvancedAt(tb.edges, start, s, upstream, n - 1, u);
      }
    }
  }

  /** One round on a due dependent. */
  lemma {:induction false} RoundSettles(f: Frame, tb: EmployeeTables, departments: nat, s: Segments, upstream: nat,
                                        t: nat)
    requires Serves(f, tb, departments) && GraphSound(tb, departments) && tb.tasks == s.tasks && tb.runs == s.runs
    requires IsDependent(s.tasks, tb.edges, upstream, t) && Unblocked(s.tasks, tb.edges, t)
    requires DispatchOne(f, s, t).Some?
    ensures
      var next := DispatchOne(f, s, t).value;
      && GraphSound(WithSegments(tb, next), departments)
      && (next.tasks == s.tasks[t := Settled(s.tasks[t], Assigned)]
          || next.tasks == s.tasks[t := Settled(s.tasks[t], EmployeeStatus.Failed)])
  {
    assert EdgeSound(tb, (t, upstream));
    assert TaskSound(tb, departments, t);
    assert Due(tb, t) by {
      assert (t, upstream) in tb.edges && (t, upstream).0 == t;
    }
    var next := DispatchOne(f, s, t).value;
    if next.tasks[t].status.Assigned? {
      SettleKeepsGraph(tb, departments, t, Assigned, [next.runs[|s.runs|]]);
    } else {
      SettleKeepsGraph(tb, departments, t, EmployeeStatus.Failed, []);
      assert s.runs + [] == s.runs;
    }
  }

  /** After the advance for `upstream` no task is due that its event was needed for. */
  lemma {:induction false} AdvanceKeepsWoken(tb: EmployeeTables, start: Segments, s: Segments, upstream: nat,
                                             outbox: seq<OutboxRow>, outbox': seq<OutboxRow>)
    requires Woken(WithSegments(tb, start), outbox) && Advanced(tb.edges, start, s, upstream, |start.tasks|)
    requires |outbox'| == |outbox|
    requires forall i :: 0 <= i < |outbox| ==> outbox'[i] == outbox[i] || outbox[i].aggregate == upstream
    ensures Woken(WithSegments(tb, s), outbox')
  {
    var before, after := WithSegments(tb, start), WithSegments(tb, s);
    forall t: nat | Due(after, t)
      ensures exists i :: 0 <= i < |outbox'| && Wakes(tb.edges, outbox'[i], t)
    {
      UnblockedAgrees(tb.edges, start, s, upstream, |start.tasks|, t);
      assert AdvancedAt(tb.edges, start, s, upstream, |start.tasks|, t);
      assert Due(before, t);
      var i :| 0 <= i < |outbox| && Wakes(tb.edges, outbox[i], t);
      assert outbox'[i] == outbox[i];
    }
  }

  // ---- A confirmation appends the tasks of a plan -----------------------------------------

  /** Slots of `stages` departments in which nobody follows nobody. */
  ghost predicate SlotsFit(slots: seq<Slot>, stages: nat) {
    forall k :: 0 <= k < |slots| ==> slots[k].stage.index < stages && (slots[k].chained ==> k > 0)
  }

  lemma {:induction false} PlanSlotsFit(plan: seq<DepartmentPlan>)
    ensures SlotsFit(PlanSlots(plan, |plan|), |plan|)
  {
    var slots := PlanSlots(plan, |plan|);
    forall k | 0 <= k < |slots|
      ensures slots[k].stage.index < |plan| && (slots[k].chained ==> k > 0)
    {
      var d, e, i := SlotFrom(plan, |plan|, k);
      if slots[k].chained {
        ChainedFollows(plan, k);
      }
    }
  }

  lemma {:induction false} ConfirmKeepsPrecede(before: EmployeeTables, g: Target, slots: seq<Slot>, stages: nat)
    requires Precede(before, |before.tasks|) && g.firstTask == |before.tasks| && SlotsFit(slots, stages)
    ensures Precede(With(before, g, slots), |before.tasks| + |slots|)
  {
    var after, n := With(before, g, slots), |before.tasks| + |slots|;
    forall x | x in after.edges
      ensures x.1 < x.0 < n
    {
      if x in ChainEdges(g.firstTask, slots) {
        assert x == (x.0, x.1);
        ChainEdgesMeaning(g.firstTask, slots, x.0, x.1);
      }
    }
    forall t | t in after.specs
      ensures t < n
    {
      DeferredSpecsMeaning(g, slots, t);
    }
    EagerRunsFit(g, slots);
  }

  lemma {:induction false} ConfirmKeepsTask(before: EmployeeTables, departments: nat, g: Target, slots: seq<Slot>,
                                            stages: nat, t: nat)
    requires GraphSound(before, departments) && SlotsFit(slots, stages)
    requires g.firstTask == |before.tasks| && g.firstDepartment == departments && t < |before.tasks| + |slots|
    ensures TaskSound(With(before, g, slots), departments + stages, t)
    ensures t < |before.tasks| ==> RunCount(With(before, g, slots).runs, t) == RunCount(before.runs, t)
    ensures t >= |before.tasks| && slots[t - |before.tasks|].chained ==> RunCount(With(before, g, slots).runs, t) == 0
  {
    EagerRunsMeaning(g, slots, t);
    RunCountAppend(before.runs, EagerRuns(g, slots), t);
    if t < |before.tasks| {
      assert TaskSound(before, departments, t);
    } else {
      NoRunYet(before.runs, t);
    }
  }

  lemma {:induction false} ConfirmKeepsEdge(before: EmployeeTables, departments: nat, g: Target, slots: seq<Slot>,
                                            stages: nat, x: (nat, nat))
    requires GraphSound(before, departments) && SlotsFit(slots, stages)
    requires g.firstTask == |before.tasks| && g.firstDepartment == departments
    requires x in With(before, g, slots).edges
    ensures EdgeSound(With(before, g, slots), x)
  {
    var after := With(before, g, slots);
    DeferredSpecsMeaning(g, slots, x.0);
    if x in before.edges {
      assert EdgeSound(before, x);
      ConfirmKeepsTask(before, departments, g, slots, stages, x.0);
    } else {
      assert x == (x.0, x.1);
      ChainEdgesMeaning(g.firstTask, slots, x.0, x.1);
      ConfirmKeepsTask(before, departments, g, slots, stages, x.0);
      assert after.tasks[x.0] == SlotRow(g, slots[x.0 - g.firstTask]);
    }
  }

  lemma {:induction false} ConfirmKeepsGraph(before: EmployeeTables, departments: nat, g: Target, slots: seq<Slot>,
                                             stages: nat)
    requires GraphSound(before, departments) && SlotsFit(slots, stages)
    requires g.firstTask == |before.tasks| && g.firstDepartment == departments
    ensures GraphSound(With(before, g, slots), departments + stages)
  {
    var after, total := With(before, g, slots), departments + stages;
    forall x | x in after.edges
      ensures EdgeSound(after, x)
    {
      ConfirmKeepsEdge(before, departments, g, slots, stages, x);
    }
    forall t: nat | t < |after.tasks|
      ensures TaskSound(after, total, t)
    {
      ConfirmKeepsTask(before, departments, g, slots, stages, t);
    }
    ConfirmKeepsPrecede(before, g, slots, stages);
  }

  /** No new task is due: a chained one follows a task that is not accepted yet. */
  lemma {:induction false} NewTaskNotDue(before: EmployeeTables, departments: nat, g: Target, slots: seq<Slot>,
                                         stages: nat, t: nat)
    requires GraphSound(before, departments) && SlotsFit(slots, stages)
    requires g.firstTask == |before.tasks| && t >= |before.tasks|
    ensures !Due(With(before, g, slots), t)
  {
    var after := With(before, g, slots);
    forall y | y in after.edges && y.0 == t
      ensures y.1 < |after.tasks| && !after.tasks[y.1].status.Accepted?
    {
      assert y in ChainEdges(g.firstTask, slots) && y == (y.0, y.1);
      ChainEdgesMeaning(g.firstTask, slots, y.0, y.1);
      assert after.tasks[y.1] == SlotRow(g, slots[y.1 - g.firstTask]);
    }
  }

  lemma {:induction false} ConfirmKeepsWoken(before: EmployeeTables, departments: nat, g: Target, slots: seq<Slot>,
                                             stages: nat,
                                             outbox: seq<OutboxRow>)
    requires GraphSound(before, departments) && Woken(before, outbox) && SlotsFit(slots, stages)
    requires g.firstTask == |before.tasks|
    ensures Woken(With(before, g, slots), outbox)
  {
    var after := With(before, g, slots);
    forall t: nat | Due(after, t)
      ensures exists i :: 0 <= i < |outbox| && Wakes(after.edges, outbox[i], t)
    {
      if t >= |before.tasks| {
        NewTaskNotDue(before, departments, g, slots, stages, t);
      }
      OldTaskStaysDue(before, departments, g, slots, t);
      var i :| 0 <= i < |outbox| && Wakes(before.edges, outbox[i], t);
    }
  }

  lemma {:induction false} OldTaskStaysDue(before: EmployeeTables, departments: nat, g: Target, slots: seq<Slot>,
                                           t: nat)
    requires GraphSound(before, departments) && g.firstTask == |before.tasks|
    requires t < |before.tasks| && Due(With(before, g, slots), t)
    ensures Due(before, t)
  {
    var after := With(before, g, slots);
    var y :| y in after.edges && y.0 == t;
    assert y == (y.0, y.1);
    ChainEdgesMeaning(g.firstTask, slots, y.0, y.1);
    assert y in before.edges;
    forall x | x in before.edges && x.0 == t
      ensures x.1 < |before.tasks| && before.tasks[x.1].status.Accepted?
    {
      assert EdgeSound(before, x);
      assert x in after.edges && after.tasks[x.1] == before.tasks[x.1];
    }
  }
}
