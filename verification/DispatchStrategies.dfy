/**
 `advance_employee_task_graph`: dispatching the deferred segments of a sequential
 refinement once their upstream segments are accepted.
 */
module DispatchStrategies {
  import opened Basics
  import opened Plans
  import opened Preflight
  import opened Records
  import opened TagOrder

  // ---- The frozen spec --------------------------------------------------------------------

  predicate UsableTag(item: TagItem) {
    item.Text? && !Blank(item.text) && Trimmed(item.text)
  }

  function Texts(items: seq<TagItem>): (s: seq<string>)
    requires forall i :: 0 <= i < |items| ==> items[i].Text?
    ensures |s| == |items| && forall i :: 0 <= i < |s| ==> s[i] == items[i].text
  {
    if items == [] then [] else [items[0].text] + Texts(items[1..])
  }

  /** `_parse_frozen_capability_tags`: nothing but an array of trimmed, non-empty strings will do. */
  function ParseTags(raw: FrozenTags): Option<seq<string>> {
    match raw
    case Absent => Some([])
    case NotAnArray => None
    case Items(items) =>
      if forall i :: 0 <= i < |items| ==> UsableTag(items[i]) then Some(SortTags(Texts(items))) else None
  }

  /** `_lazy_availability_checks`: a missing employee row makes it raise. */
  datatype Probe = Raises | Probed(available: bool)

  function LazyProbe(res: Resources, spec: DispatchSpec, departmentId: string, required: seq<string>): Probe {
    if spec.employee !in res.employees then Raises
    else
      var e := res.employees[spec.employee];
      Probed(
        && e.active && e.department == departmentId
        && spec.profileVersion.Some? && spec.profileVersion.value in res.profiles
        && (var p := res.profiles[spec.profileVersion.value];
            p.published && p.profileActive && p.catalogRelease == spec.catalogRelease
            && forall t :: t in required && !Blank(t) ==> t in p.tags)
        && spec.companyTask in res.workspaces
        && (var w := res.workspaces[spec.companyTask]; w.active && w.grant == spec.grant && w.grantActive))
  }

  /** What becomes of a segment: the tags to run with, a failure, or an exception. */
  datatype Verdict = Dispatch(tags: seq<string>) | Fail | Abort

  function SegmentVerdict(res: Resources, spec: DispatchSpec, departmentId: string): Verdict {
    match ParseTags(spec.tags)
    case None => Fail
    case Some(tags) =>
      match LazyProbe(res, spec, departmentId, tags)
      case Raises => Abort
      case Probed(available) => if available then Dispatch(tags) else Fail
  }

  function SegmentRun(spec: DispatchSpec, t: nat, tags: seq<string>): Run {
    Run(t, spec.companyTask, spec.department, spec.employee, spec.profileVersion,
        spec.catalogRelease, spec.grant, tags, Queued)
  }

  // ---- One dependent ----------------------------------------------------------------------

  /** The pending-count query: every upstream task exists and is accepted. */
  predicate Unblocked(tasks: seq<EmployeeTask>, edges: set<(nat, nat)>, t: nat) {
    forall x :: x in edges && x.0 == t ==> x.1 < |tasks| && tasks[x.1].status.Accepted?
  }

  predicate IsDependent(tasks: seq<EmployeeTask>, edges: set<(nat, nat)>, upstream: nat, t: nat) {
    t < |tasks| && (t, upstream) in edges && tasks[t].status.WaitingResource?
  }

  /** The row of a waiting task that is dispatched or failed. */
  function Settled(row: EmployeeTask, status: EmployeeStatus): EmployeeTask {
    row.(status := status, resume := None, version := row.version + 1)
  }

  datatype Segments = Segments(tasks: seq<EmployeeTask>, runs: seq<Run>)

  /** The part of the database the advance reads and does not write. */
  datatype Frame = Frame(
    edges: set<(nat, nat)>,
    specs: map<nat, DispatchSpec>,
    departments: seq<DepartmentTask>,
    resources: Resources,
    unresolvable: set<nat>)

  /** One round of the loop; candidate resolution of an unresolvable task raises. */
  function DispatchOne(f: Frame, s: Segments, t: nat): Option<Segments>
    requires t < |s.tasks|
  {
    if !Unblocked(s.tasks, f.edges, t) || t !in f.specs || f.specs[t].department >= |f.departments| then Some(s)
    else
      var spec := f.specs[t];
      match SegmentVerdict(f.resources, spec, f.departments[spec.department].departmentId)
      case Abort => None
      case Fail =>
        if s.tasks[t].status.WaitingResource?
        then Some(s.(tasks := s.tasks[t := Settled(s.tasks[t], EmployeeStatus.Failed)]))
        else Some(s)
      case Dispatch(tags) =>
        if !s.tasks[t].status.WaitingResource? then Some(s)
        else if t in f.unresolvable then None
        else Some(Segments(s.tasks[t := Settled(s.tasks[t], Assigned)], s.runs + [SegmentRun(spec, t, tags)]))
  }

  /** The loop over the first `n` tasks, taking the dependents that waited when it started. */
  function AdvanceUpTo(f: Frame, start: Segments, upstream: nat, n: nat): (r: Option<Segments>)
    requires n <= |start.tasks|
    ensures r.Some? ==> |r.value.tasks| == |start.tasks|
  {
    if n == 0 then Some(start)
    else
      match AdvanceUpTo(f, start, upstream, n - 1)
      case None => None
      case Some(s) => if IsDependent(start.tasks, f.edges, upstream, n - 1) then DispatchOne(f, s, n - 1) else Some(s)
  }

  /** `advance_employee_task_graph`; `None` when it raises and the delivery rolls back. */
  method Advance(f: Frame, start: Segments, upstream: nat)
      returns (r: Option<Segments>, dispatched: seq<nat>, failed: seq<nat>)
    ensures r == AdvanceUpTo(f, start, upstream, |start.tasks|)
    ensures r.Some? ==> forall t: nat :: t in dispatched <==>
              t < |start.tasks| && start.tasks[t].status.WaitingResource? && r.value.tasks[t].status.Assigned?
    ensures r.Some? ==> forall t: nat :: t in failed <==>
              t < |start.tasks| && start.tasks[t].status.WaitingResource? && r.value.tasks[t].status.Failed?
  {
    var s := start;
    dispatched, failed := [], [];
    for n := 0 to |start.tasks|
      invariant |s.tasks| == |start.tasks| && AdvanceUpTo(f, start, upstream, n) == Some(s)
      invariant forall k :: n <= k < |start.tasks| ==> s.tasks[k] == start.tasks[k]
      invariant forall t: nat :: t in dispatched <==>
                  t < n && start.tasks[t].status.WaitingResource? && s.tasks[t].status.Assigned?
      invariant forall t: nat :: t in failed <==>
                  t < n && start.tasks[t].status.WaitingResource? && s.tasks[t].status.Failed?
    {
      if IsDependent(start.tasks, f.edges, upstream, n) {
        var next := DispatchOne(f, s, n);
        if next.None? {
          AbortStays(f, start, upstream, n + 1, |start.tasks|);
          return None, [], [];
        }
        if next.value.tasks[n].status.Assigned? {
          dispatched := dispatched + [n];
        } else if next.value.tasks[n].status.Failed? {
          failed := failed + [n];
        }
        s := next.value;
      }
    }
    return Some(s), dispatched, failed;
  }

  lemma {:induction false} AbortStays(f: Frame, start: Segments, upstream: nat, m: nat, n: nat)
    requires m <= n <= |start.tasks| && AdvanceUpTo(f, start, upstream, m).None?
    ensures AdvanceUpTo(f, start, upstream, n).None?
  {
    if m < n {
      AbortStays(f, start, upstream, m, n - 1);
    }
  }

  // ---- When it raises ---------------------------------------------------------------------

  /** Settling segments changes no later row, no employee, and no row into or out of `accepted`. */
  lemma {:induction false} AdvanceFrame(f: Frame, start: Segments, upstream: nat, n: nat)
    requires n <= |start.tasks| && AdvanceUpTo(f, start, upstream, n).Some?
    ensures var s := AdvanceUpTo(f, start, upstream, n).value;
            && (forall t: nat :: n <= t < |start.tasks| ==> s.tasks[t] == start.tasks[t])
            && (forall t: nat :: t < |start.tasks| ==>
                  && (s.tasks[t].status.Accepted? <==> start.tasks[t].status.Accepted?)
                  && s.tasks[t].employee == start.tasks[t].employee)
  {
    if n > 0 {
      AdvanceFrame(f, start, upstream, n - 1);
    }
  }

  /** Task `t` is a dependent that waits for nothing any more, and its spec can be found. */
  predicate DueIn(f: Frame, start: Segments, upstream: nat, t: nat) {
    && IsDependent(start.tasks, f.edges, upstream, t) && Unblocked(start.tasks, f.edges, t)
    && t in f.specs && f.specs[t].department < |f.departments|
  }

  function VerdictIn(f: Frame, t: nat): Verdict
    requires t in f.specs && f.specs[t].department < |f.departments|
  {
    SegmentVerdict(f.resources, f.specs[t], f.departments[f.specs[t].department].departmentId)
  }

  /** Dependent `t` is due, its spec is readable, and its employee row is gone or its candidates cannot be resolved. */
  predicate RaisesAt(f: Frame, start: Segments, upstream: nat, t: nat) {
    && DueIn(f, start, upstream, t)
    && match VerdictIn(f, t)
       case Abort => true
       case Fail => false
       case Dispatch(_) => t in f.unresolvable
  }

  /** The advance raises exactly when some due dependent does; no order of the rows avoids it. */
  lemma {:induction false} AdvanceRaisesExactly(f: Frame, start: Segments, upstream: nat, n: nat)
    requires n <= |start.tasks|
    ensures AdvanceUpTo(f, start, upstream, n).None? <==> exists t: nat :: t < n && RaisesAt(f, start, upstream, t)
  {
    if n > 0 {
      AdvanceRaisesExactly(f, start, upstream, n - 1);
      if AdvanceUpTo(f, start, upstream, n - 1).Some? {
        var s, t := AdvanceUpTo(f, start, upstream, n - 1).value, n - 1;
        AdvanceFrame(f, start, upstream, n - 1);
        assert Unblocked(s.tasks, f.edges, t) <==> Unblocked(start.tasks, f.edges, t);
        assert AdvanceUpTo(f, start, upstream, n).None? <==> RaisesAt(f, start, upstream, t);
      }
    }
  }

  // ---- What becomes of each task ----------------------------------------------------------

  /** Assigned with one new run exactly on `Dispatch`, failed with none exactly on `Fail`. */
  ghost predicate SettledAs(f: Frame, start: Segments, s: Segments, t: nat)
    requires t < |start.tasks| == |s.tasks| && t in f.specs && f.specs[t].department < |f.departments|
  {
    match VerdictIn(f, t)
    case Dispatch(tags) =>
      && s.tasks[t] == Settled(start.tasks[t], Assigned)
      && RunCount(s.runs, t) == RunCount(start.runs, t) + 1 && SegmentRun(f.specs[t], t, tags) in s.runs
    case Fail =>
      s.tasks[t] == Settled(start.tasks[t], EmployeeStatus.Failed) && RunCount(s.runs, t) == RunCount(start.runs, t)
    case Abort => false
  }

  /** One round: only task `t` changes, by its verdict. */
  lemma {:induction false} RoundOutcome(f: Frame, s: Segments, t: nat, u: nat)
    requires t < |s.tasks| && u < |s.tasks| && s.tasks[t].status.WaitingResource? && DispatchOne(f, s, t).Some?
    ensures var next := DispatchOne(f, s, t).value;
            && |next.tasks| == |s.tasks| && (forall r :: r in s.runs ==> r in next.runs)
            && if u == t && Unblocked(s.tasks, f.edges, t) && t in f.specs && f.specs[t].department < |f.departments|
               then SettledAs(f, s, next, t)
               else next.tasks[u] == s.tasks[u] && RunCount(next.runs, u) == RunCount(s.runs, u)
  {
    var next := DispatchOne(f, s, t).value;
    if |next.runs| > |s.runs| {
      RunCountOneMore(s.runs, next.runs[|s.runs|], u);
    }
  }

  /** The exact outcome of the advance for every task. */
  lemma {:induction false} AdvanceOutcome(f: Frame, start: Segments, upstream: nat, n: nat, t: nat)
    requires n <= |start.tasks| && AdvanceUpTo(f, start, upstream, n).Some? && t < |start.tasks|
    ensures var s := AdvanceUpTo(f, start, upstream, n).value;
            if t < n && DueIn(f, start, upstream, t) then SettledAs(f, start, s, t)
            else s.tasks[t] == start.tasks[t] && RunCount(s.runs, t) == RunCount(start.runs, t)
  {
    if n > 0 {
      AdvanceOutcome(f, start, upstream, n - 1, t);
      if IsDependent(start.tasks, f.edges, upstream, n - 1) {
        var s := AdvanceUpTo(f, start, upstream, n - 1).value;
        AdvanceFrame(f, start, upstream, n - 1);
        assert Unblocked(s.tasks, f.edges, n - 1) <==> Unblocked(start.tasks, f.edges, n - 1);
        RoundOutcome(f, s, n - 1, t);
      }
    }
  }
}
