/**
 `validate_plan`: which rules a plan breaks and where.
 */
module PlanValidator {
  import opened Plans
  import opened PlanGraph

  datatype CompanyPlan = CompanyPlan(
    goals: seq<string>,
    departmentTasks: seq<DepartmentPlan>,
    finalAcceptanceCriteria: seq<string>)

  /** What the caller knows about the company when it validates. */
  datatype Company = Company(
    activeDepartments: set<string>,
    candidateDepartments: set<string>,
    ledDepartments: set<string>,
    employees: set<string>,
    disabledTags: set<string>,
    forbiddenActions: set<string>)

  datatype Issue =
    | IncompletePlan                             // PV-001
    | DepartmentNotEligible(ref: string)         // PV-002
    | DuplicateReference                         // PV-003
    | BadDependency(ref: string)                 // PV-003
    | DependencyCycle                            // PV-003
    | NoActiveLeader(ref: string)                // PV-004
    | UnknownEmployee(ref: string, index: nat)   // PV-005
    | BadExternalWrite(ref: string, index: nat)  // PV-006
    | NoReviewSetup(ref: string, index: nat)     // PV-007
    | SelfReview(ref: string, index: nat)        // PV-008
    | NoFinalCriteria                            // PV-009
    | DisabledCapability(ref: string)            // PV-010
    | ForbiddenAction(ref: string, index: nat)   // PV-011

  predicate Complete(t: DepartmentPlan) {
    !Blank(t.objective) && t.deliverables != [] && t.acceptanceCriteria != []
  }

  ghost predicate UniqueRefs(tasks: seq<DepartmentPlan>) {
    forall i, j :: 0 <= i < j < |tasks| ==> tasks[i].localRef != tasks[j].localRef
  }

  predicate Declares(tasks: seq<DepartmentPlan>, ref: string) {
    exists i :: 0 <= i < |tasks| && tasks[i].localRef == ref
  }

  /** Task `t` of a plan whose references are `refs` breaks the rule `issue` names. */
  ghost predicate TaskViolates(t: DepartmentPlan, refs: set<string>, c: Company, issue: Issue) {
    match issue
    case DepartmentNotEligible(ref) =>
      ref == t.localRef
      && !(t.departmentId in c.activeDepartments && (t.departmentId in c.candidateDepartments || t.temporaryAssignment))
    case NoActiveLeader(ref) => ref == t.localRef && t.departmentId !in c.ledDepartments
    case BadDependency(ref) =>
      ref == t.localRef && exists d :: d in t.dependencyRefs && (d !in refs || d == t.localRef)
    case UnknownEmployee(ref, k) =>
      ref == t.localRef && k < |t.deliverables|
      && (t.deliverables[k].contributors == [] || t.deliverables[k].reviewers == []
          || exists e :: e in t.deliverables[k].contributors + t.deliverables[k].reviewers && e !in c.employees)
    case SelfReview(ref, k) =>
      ref == t.localRef && k < |t.deliverables|
      && exists e :: e in t.deliverables[k].contributors && e in t.deliverables[k].reviewers
    case NoReviewSetup(ref, k) => ref == t.localRef && k < |t.deliverables| && t.deliverables[k].reviewRounds == 0
    case DisabledCapability(ref) => ref == t.localRef && exists tag :: tag in t.requiredTags && tag in c.disabledTags
    case BadExternalWrite(ref, k) =>
      ref == t.localRef && k < |t.externalWrites|
      && !("/" <= t.externalWrites[k].target && !Blank(t.externalWrites[k].expectedEffect))
    case ForbiddenAction(ref, k) =>
      ref == t.localRef && k < |t.externalWrites| && t.externalWrites[k].action in c.forbiddenActions
    case _ => false
  }

  /** The plan breaks the rule `issue` names, at the place it names. */
  ghost predicate Violates(plan: CompanyPlan, c: Company, issue: Issue) {
    var tasks := plan.departmentTasks;
    var refs := set t | t in tasks :: t.localRef;
    match issue
    case IncompletePlan => plan.goals == [] || tasks == [] || exists t :: t in tasks && !Complete(t)
    case DuplicateReference => !UniqueRefs(tasks)
    case DependencyCycle => Cyclic(GraphOf(tasks))
    case NoFinalCriteria => plan.finalAcceptanceCriteria == []
    case _ => exists t :: t in tasks && TaskViolates(t, refs, c, issue)
  }

  /** Every dependency names another task the plan declares. */
  ghost predicate ClosedRefs(tasks: seq<DepartmentPlan>) {
    forall i :: 0 <= i < |tasks| ==> ClosedRef(tasks, tasks[i])
  }

  ghost predicate ClosedRef(tasks: seq<DepartmentPlan>, t: DepartmentPlan) {
    forall d :: d in t.dependencyRefs ==> d != t.localRef && Declares(tasks, d)
  }

  ghost predicate WellReferenced(tasks: seq<DepartmentPlan>) {
    && UniqueRefs(tasks)
    && ClosedRefs(tasks)
    && exists order :: TopologicalOrder(GraphOf(tasks), order)
  }

  lemma {:induction false} NoViolationMeansClosedRefs(plan: CompanyPlan, c: Company)
    requires forall x :: !Violates(plan, c, x)
    ensures UniqueRefs(plan.departmentTasks) && ClosedRefs(plan.departmentTasks)
  {
    var tasks := plan.departmentTasks;
    var refs := set t | t in tasks :: t.localRef;
    assert !Violates(plan, c, DuplicateReference);
    forall i | 0 <= i < |tasks|
      ensures ClosedRef(tasks, tasks[i])
    {
      var issue := BadDependency(tasks[i].localRef);
      assert !Violates(plan, c, issue);
      assert tasks[i] in tasks && !TaskViolates(tasks[i], refs, c, issue);
      assert forall d :: d in tasks[i].dependencyRefs ==> d in refs;
    }
  }

  // ---- The plans that pass ----------------------------------------------------------------

  /** Known contributors and reviewers, nobody in both roles, and at least one review round. */
  ghost predicate Reviewable(d: Deliverable, c: Company) {
    && d.contributors != [] && d.reviewers != [] && d.reviewRounds != 0
    && forall e :: (e in d.contributors ==> e in c.employees && e !in d.reviewers)
                   && (e in d.reviewers ==> e in c.employees)
  }

  /** A permitted action on an absolute target with a stated effect. */
  ghost predicate Permitted(w: ExternalWrite, c: Company) {
    w.target != "" && w.target[0] == '/' && !Blank(w.expectedEffect) && w.action !in c.forbiddenActions
  }

  /** A department task that breaks no rule of its own. */
  ghost predicate Assignable(t: DepartmentPlan, c: Company) {
    && t.departmentId in c.activeDepartments && (t.departmentId in c.candidateDepartments || t.temporaryAssignment)
    && t.departmentId in c.ledDepartments && (forall tag :: tag in t.requiredTags ==> tag !in c.disabledTags)
    && (forall k :: 0 <= k < |t.deliverables| ==> Reviewable(t.deliverables[k], c))
    && (forall k :: 0 <= k < |t.externalWrites| ==> Permitted(t.externalWrites[k], c))
  }

  /** Its dependencies are other references of the plan. */
  ghost predicate Refers(t: DepartmentPlan, refs: set<string>) {
    forall d :: d in t.dependencyRefs ==> d in refs && d != t.localRef
  }

  lemma {:induction false} UnbrokenDeliverable(t: DepartmentPlan, refs: set<string>, c: Company, k: nat)
    requires k < |t.deliverables| && forall x :: !TaskViolates(t, refs, c, x)
    ensures Reviewable(t.deliverables[k], c)
  {
    var ref, d := t.localRef, t.deliverables[k];
    assert !TaskViolates(t, refs, c, UnknownEmployee(ref, k)) && !TaskViolates(t, refs, c, SelfReview(ref, k));
    assert !TaskViolates(t, refs, c, NoReviewSetup(ref, k));
    assert forall e :: e in d.contributors + d.reviewers <==> e in d.contributors || e in d.reviewers;
  }

  lemma {:induction false} UnbrokenIsAssignable(t: DepartmentPlan, refs: set<string>, c: Company)
    requires forall x :: !TaskViolates(t, refs, c, x)
    ensures Assignable(t, c) && Refers(t, refs)
  {
    var ref := t.localRef;
    assert !TaskViolates(t, refs, c, DepartmentNotEligible(ref)) && !TaskViolates(t, refs, c, NoActiveLeader(ref));
    assert !TaskViolates(t, refs, c, BadDependency(ref)) && !TaskViolates(t, refs, c, DisabledCapability(ref));
    forall k | 0 <= k < |t.deliverables|
      ensures Reviewable(t.deliverables[k], c)
    {
      UnbrokenDeliverable(t, refs, c, k);
    }
    forall k | 0 <= k < |t.externalWrites|
      ensures Permitted(t.externalWrites[k], c)
    {
      assert !TaskViolates(t, refs, c, BadExternalWrite(ref, k));
      assert !TaskViolates(t, refs, c, ForbiddenAction(ref, k));
    }
  }

  lemma {:induction false} AssignableIsUnbroken(t: DepartmentPlan, refs: set<string>, c: Company, x: Issue)
    requires Assignable(t, c) && Refers(t, refs)
    ensures !TaskViolates(t, refs, c, x)
  {
    if (x.UnknownEmployee? || x.SelfReview? || x.NoReviewSetup?) && x.index < |t.deliverables| {
      assert Reviewable(t.deliverables[x.index], c);
    } else if (x.BadExternalWrite? || x.ForbiddenAction?) && x.index < |t.externalWrites| {
      assert Permitted(t.externalWrites[x.index], c);
    }
  }

  /**
   A plan passes exactly when it has goals, tasks and final criteria; every task is complete
   and assignable; references are distinct and point to other declared tasks; and the
   dependencies have no cycle.
   */
  lemma {:induction false} PassesExactly(plan: CompanyPlan, c: Company)
    ensures (forall x :: !Violates(plan, c, x)) <==>
            && plan.goals != [] && plan.departmentTasks != [] && plan.finalAcceptanceCriteria != []
            && (forall t :: t in plan.departmentTasks ==>
                  !Blank(t.objective) && t.deliverables != [] && t.acceptanceCriteria != [] && Assignable(t, c))
            && UniqueRefs(plan.departmentTasks) && ClosedRefs(plan.departmentTasks)
            && !Cyclic(GraphOf(plan.departmentTasks))
  {
    var tasks := plan.departmentTasks;
    var refs := set t | t in tasks :: t.localRef;
    if forall x :: !Violates(plan, c, x) {
      NoViolationMeansClosedRefs(plan, c);
      assert !Violates(plan, c, IncompletePlan) && !Violates(plan, c, NoFinalCriteria);
      assert !Violates(plan, c, DependencyCycle);
      forall t | t in tasks
        ensures Assignable(t, c)
      {
        forall x
          ensures !TaskViolates(t, refs, c, x)
        {
          assert !Violates(plan, c, x);
        }
        UnbrokenIsAssignable(t, refs, c);
      }
    } else {
      var x :| Violates(plan, c, x);
      if ClosedRefs(tasks) && forall t :: t in tasks ==> Assignable(t, c) {
        forall t | t in tasks
          ensures !TaskViolates(t, refs, c, x)
        {
          var i :| 0 <= i < |tasks| && tasks[i] == t;
          assert ClosedRef(tasks, tasks[i]);
          AssignableIsUnbroken(t, refs, c, x);
        }
      }
    }
  }

  method CheckDeliverables(t: DepartmentPlan, c: Company, ghost refs: set<string>) returns (issues: seq<Issue>)
    ensures forall x :: x in issues <==>
                        TaskViolates(t, refs, c, x) && (x.UnknownEmployee? || x.SelfReview? || x.NoReviewSetup?)
  {
    issues := [];
    for k := 0 to |t.deliverables|
      invariant forall x :: x in issues <==>
                            && TaskViolates(t, refs, c, x) && (x.UnknownEmployee? || x.SelfReview? || x.NoReviewSetup?)
                            && x.index < k
    {
      var d := t.deliverables[k];
      var people := d.contributors + d.reviewers;
      if d.contributors == [] || d.reviewers == [] || !(forall e :: e in people ==> e in c.employees) {
        issues := issues + [UnknownEmployee(t.localRef, k)];
      }
      if exists e :: e in d.contributors && e in d.reviewers {
        issues := issues + [SelfReview(t.localRef, k)];
      }
      if d.reviewRounds == 0 {
        issues := issues + [NoReviewSetup(t.localRef, k)];
      }
    }
  }

  method CheckWrites(t: DepartmentPlan, c: Company, ghost refs: set<string>) returns (issues: seq<Issue>)
    ensures forall x :: x in issues <==> TaskViolates(t, refs, c, x) && (x.BadExternalWrite? || x.ForbiddenAction?)
  {
    issues := [];
    for k := 0 to |t.externalWrites|
      invariant forall x :: x in issues <==>
                            && TaskViolates(t, refs, c, x) && (x.BadExternalWrite? || x.ForbiddenAction?)
                            && x.index < k
    {
      var w := t.externalWrites[k];
      if !("/" <= w.target) || Blank(w.expectedEffect) {
        issues := issues + [BadExternalWrite(t.localRef, k)];
      }
      if w.action in c.forbiddenActions {
        issues := issues + [ForbiddenAction(t.localRef, k)];
      }
    }
  }

  method CheckTask(t: DepartmentPlan, refs: set<string>, c: Company) returns (issues: seq<Issue>)
    ensures forall x :: x in issues <==> TaskViolates(t, refs, c, x)
  {
    issues := [];
    if t.departmentId !in c.activeDepartments || (t.departmentId !in c.candidateDepartments && !t.temporaryAssignment) {
      issues := issues + [DepartmentNotEligible(t.localRef)];
    }
    if t.departmentId !in c.ledDepartments {
      issues := issues + [NoActiveLeader(t.localRef)];
    }
    if exists d :: d in t.dependencyRefs && (d !in refs || d == t.localRef) {
      issues := issues + [BadDependency(t.localRef)];
    }
    var more := CheckDeliverables(t, c, refs);
    issues := issues + more;
    if exists tag :: tag in t.requiredTags && tag in c.disabledTags {
      issues := issues + [DisabledCapability(t.localRef)];
    }
    more := CheckWrites(t, c, refs);
    issues := issues + more;
  }

  /** `len(set(references)) != len(references)` */
  method HasDuplicate(tasks: seq<DepartmentPlan>) returns (dup: bool, refs: set<string>)
    ensures dup <==> !UniqueRefs(tasks)
    ensures refs == set t | t in tasks :: t.localRef
  {
    dup, refs := false, {};
    for i := 0 to |tasks|
      invariant dup <==> !UniqueRefs(tasks[..i])
      invariant refs == set k | 0 <= k < i :: tasks[k].localRef
    {
      assert forall k :: 0 <= k < i ==> tasks[..i + 1][k] == tasks[..i][k] == tasks[k];
      if tasks[i].localRef in refs {
        dup := true;
        var k :| 0 <= k < i && tasks[k].localRef == tasks[i].localRef;
        assert tasks[..i + 1][k].localRef == tasks[..i + 1][i].localRef;
      } else if dup {
        ghost var a, b :| 0 <= a < b < i && tasks[..i][a].localRef == tasks[..i][b].localRef;
        assert tasks[..i + 1][a].localRef == tasks[..i + 1][b].localRef;
      } else {
        assert forall k :: 0 <= k < i ==> tasks[k].localRef in refs;
      }
      refs := refs + {tasks[i].localRef};
    }
    assert tasks[..|tasks|] == tasks;
    forall t | t in tasks
      ensures t.localRef in refs
    {
      var k :| 0 <= k < |tasks| && tasks[k] == t;
      assert tasks[k].localRef in refs;
    }
  }

  /**
   `validate_plan` reports exactly the rules the plan breaks.  A plan it passes has
   unique references, depends only on declared other tasks, and can be listed with
   every dependency first.
   */
  method ValidatePlan(plan: CompanyPlan, c: Company) returns (issues: seq<Issue>)
    ensures forall x :: x in issues <==> Violates(plan, c, x)
    ensures issues == [] ==> WellReferenced(plan.departmentTasks)
  {
    var tasks := plan.departmentTasks;
    issues := [];
    if plan.goals == [] || tasks == [] || exists t :: t in tasks && !Complete(t) {
      issues := issues + [IncompletePlan];
    }
    var dup, refs := HasDuplicate(tasks);
    if dup {
      issues := issues + [DuplicateReference];
    }
    ghost var head := issues;
    for i := 0 to |tasks|
      invariant forall x :: x in issues <==>
                            x in head || exists k :: 0 <= k < i && TaskViolates(tasks[k], refs, c, x)
    {
      var more := CheckTask(tasks[i], refs, c);
      issues := issues + more;
    }
    var cycle := HasCycle(tasks);
    if cycle {
      issues := issues + [DependencyCycle];
    }
    if plan.finalAcceptanceCriteria == [] {
      issues := issues + [NoFinalCriteria];
    }
    if issues == [] {
      assert forall x :: Violates(plan, c, x) ==> x in issues;
      NoViolationMeansClosedRefs(plan, c);
    }
  }
}
