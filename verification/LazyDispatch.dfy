/**
 What freezing a segment and dispatching it later has in common with dispatching it at
 once, and where the two part.
 */
module LazyDispatch {
  import opened Basics
  import opened Plans
  import opened Preflight
  import opened Records
  import opened TagOrder
  import opened ConfirmPlan
  import opened DispatchStrategies

  ghost predicate UsableTags(tags: seq<string>) {
    forall i :: 0 <= i < |tags| ==> !Blank(tags[i]) && Trimmed(tags[i])
  }

  /** A frozen tag list is readable exactly when every tag is trimmed and not blank. */
  lemma {:induction false} FrozenTagsReadBack(tags: seq<string>)
    ensures ParseTags(Freeze(tags)) == if UsableTags(tags) then Some(SortTags(tags)) else None
  {
    var items := Freeze(tags).items;
    assert forall i :: 0 <= i < |tags| ==> items[i] == Text(tags[i]);
    if forall i :: 0 <= i < |items| ==> UsableTag(items[i]) {
      assert Texts(items) == tags;
      assert forall i :: 0 <= i < |tags| ==> UsableTag(items[i]);
    } else {
      var i :| 0 <= i < |items| && !UsableTag(items[i]);
      assert Blank(tags[i]) || !Trimmed(tags[i]);
    }
  }

  /** The segment of employee `e` was frozen by a confirmation that these rows satisfy. */
  ghost predicate FrozenFrom(res: Resources, spec: DispatchSpec, t: DepartmentPlan, e: string, ct: nat,
                             catalog: string) {
    && ct in res.workspaces && res.workspaces[ct].active && res.workspaces[ct].grantActive
    && EmployeeOk(res, e, t, catalog, res.workspaces[ct].grant)
    && spec.companyTask == ct && spec.employee == e && spec.profileVersion == res.employees[e].profileVersion
    && spec.catalogRelease == catalog && spec.grant == res.workspaces[ct].grant && spec.tags == Freeze(t.requiredTags)
  }

  /**
   As long as the rows the confirmation checked have not changed, the later check agrees
   with it exactly when the tags are trimmed and not blank: a plan with any other tag
   passes confirmation and then fails every deferred segment.
   */
  lemma {:induction false} LazyCheckAgreesExactlyOnUsableTags(res: Resources, spec: DispatchSpec, t: DepartmentPlan,
                                                              e: string, ct: nat, catalog: string)
    requires FrozenFrom(res, spec, t, e, ct, catalog)
    ensures SegmentVerdict(res, spec, t.departmentId) ==
            if UsableTags(t.requiredTags) then Dispatch(SortTags(t.requiredTags)) else Fail
  {
    FrozenTagsReadBack(t.requiredTags);
    if UsableTags(t.requiredTags) {
      SortTagsSorts(t.requiredTags);
      assert forall x :: x in SortTags(t.requiredTags) ==> x in Required(t.requiredTags);
    }
  }

  /** Confirmation lets the tag list [" "] through for everybody; no segment can be dispatched with it. */
  lemma {:induction false} BlankTagExample(res: Resources, e: string, t: DepartmentPlan, catalog: string, grant: string)
    requires t.requiredTags == [" "] && EmployeeLive(res, e, t.departmentId, catalog, grant)
    ensures EmployeeOk(res, e, t, catalog, grant)
    ensures ParseTags(Freeze(t.requiredTags)).None?
  {
    assert Blank(" ");
    assert Required(t.requiredTags) == {};
    FrozenTagsReadBack(t.requiredTags);
    assert !UsableTags(t.requiredTags) by {
      assert Blank(t.requiredTags[0]);
    }
  }

  /**
   The run a segment gets later equals the run it would have got at once exactly when
   its tag list was strictly sorted: the later one carries the tags sorted and without
   repetition.
   */
  lemma {:induction false} LazyRunEqualsEagerRunExactlyWhenSorted(g: Target, s: Slot, id: nat)
    ensures SegmentRun(SlotSpec(g, s), id, SortTags(s.stage.tags)) == SlotRun(g, s, id)
            <==> StrictlySorted(s.stage.tags)
  {
    SortTagsKeeps(s.stage.tags);
  }
}
