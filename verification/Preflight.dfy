/**
 The resource rows a plan is checked against, and the memoised preflight that
 confirmation runs before it writes anything.
 */
module Preflight {
  import opened Basics
  import opened Plans

  datatype Employee = Employee(active: bool, department: string, profileVersion: Option<string>)

  datatype ProfileVersion = ProfileVersion(
    published: bool,
    profileActive: bool,
    catalogRelease: string,
    tags: set<string>,
    bindingUsable: bool)

  datatype Department = Department(active: bool, revision: Option<string>)

  /** The workspace of a company task and the grant behind it. */
  datatype Workspace = Workspace(active: bool, grant: string, grantActive: bool)

  datatype Resources = Resources(
    companyRevision: Option<string>,
    catalogRelease: Option<string>,
    departments: map<string, Department>,
    employees: map<string, Employee>,
    profiles: map<string, ProfileVersion>,
    workspaces: map<nat, Workspace>)

  /** The capability tags that count: blank ones are dropped. */
  function Required(tags: seq<string>): set<string> {
    set t | t in tags && !Blank(t)
  }

  predicate DepartmentOk(res: Resources, id: string) {
    id in res.departments && res.departments[id].active && res.departments[id].revision.Some?
  }

  /** The profile version an employee works under, when it exists. */
  function ProfileOf(res: Resources, e: string): Option<ProfileVersion> {
    if e in res.employees && res.employees[e].profileVersion.Some?
       && res.employees[e].profileVersion.value in res.profiles
    then Some(res.profiles[res.employees[e].profileVersion.value])
    else None
  }

  predicate EmployeeLive(res: Resources, e: string, department: string, catalog: string, grant: string) {
    && e in res.employees && res.employees[e].active && res.employees[e].department == department
    && ProfileOf(res, e).Some?
    && var p := ProfileOf(res, e).value;
       p.published && p.profileActive && p.catalogRelease == catalog && p.bindingUsable && grant != ""
  }

  /** The check of one employee for one department task, with nothing remembered. */
  predicate EmployeeOk(res: Resources, e: string, t: DepartmentPlan, catalog: string, grant: string) {
    EmployeeLive(res, e, t.departmentId, catalog, grant) && Required(t.requiredTags) <= ProfileOf(res, e).value.tags
  }

  predicate DeliverableOk(res: Resources, d: Deliverable, t: DepartmentPlan, catalog: string, grant: string) {
    && d.contributors != []
    && forall e :: e in d.contributors + d.reviewers ==> EmployeeOk(res, e, t, catalog, grant)
  }

  predicate TaskOk(res: Resources, t: DepartmentPlan, catalog: string, grant: string) {
    && DepartmentOk(res, t.departmentId)
    && t.deliverables != []
    && forall d :: d in t.deliverables ==> DeliverableOk(res, d, t, catalog, grant)
  }

  /** What confirmation remembers about an employee it has looked up. */
  datatype Prepared = Prepared(
    departmentId: string,
    profileVersion: Option<string>,
    tags: set<string>,
    checked: set<set<string>>,
    available: bool)

  ghost predicate CacheValid(res: Resources, cache: map<string, Prepared>, catalog: string, grant: string) {
    forall e :: e in cache && cache[e].available ==>
      && EmployeeLive(res, e, cache[e].departmentId, catalog, grant)
      && cache[e].profileVersion == res.employees[e].profileVersion
      && cache[e].tags == ProfileOf(res, e).value.tags
      && forall ts :: ts in cache[e].checked ==> ts <= cache[e].tags
  }

  /** `_apply_capability_preflight`: a tag set already looked at answers from memory. */
  function ApplyCapability(p: Prepared, required: set<string>): Prepared {
    if required in p.checked then p
    else p.(checked := p.checked + {required}, available := p.available && required <= p.tags)
  }

  /** The full lookup of an employee seen for the first time. */
  function Lookup(res: Resources, e: string, department: string, catalog: string, grant: string): Prepared {
    if e !in res.employees then Prepared(department, None, {}, {}, false)
    else Prepared(department, res.employees[e].profileVersion,
                  if ProfileOf(res, e).Some? then ProfileOf(res, e).value.tags else {}, {},
                  EmployeeLive(res, e, department, catalog, grant))
  }

  /** One employee of one task, through the cache: the verdict stays what the uncached check says. */
  method CheckEmployee(res: Resources, cache: map<string, Prepared>, ok: bool,
                       e: string, t: DepartmentPlan, catalog: string, grant: string)
      returns (cache': map<string, Prepared>, ok': bool)
    requires CacheValid(res, cache, catalog, grant)
    requires ok ==> forall x :: x in cache ==> cache[x].available
    ensures CacheValid(res, cache', catalog, grant)
    ensures ok' ==> forall x :: x in cache' ==> cache'[x].available
    ensures cache'.Keys == cache.Keys + {e}
    ensures ok' <==> ok && EmployeeOk(res, e, t, catalog, grant)
  {
    cache', ok' := cache, ok;
    if e in cache {
      if cache[e].departmentId != t.departmentId {
        ok' := false;
      } else {
        cache' := cache[e := ApplyCapability(cache[e], Required(t.requiredTags))];
        ok' := cache'[e].available && ok;
      }
    } else {
      var p := Lookup(res, e, t.departmentId, catalog, grant);
      cache' := cache[e := ApplyCapability(p, Required(t.requiredTags))];
      ok' := ok && p.available && cache'[e].available;
    }
  }

  /** Everyone on one deliverable, each once. */
  method CheckDeliverable(res: Resources, cache: map<string, Prepared>, ok: bool,
                          d: Deliverable, t: DepartmentPlan, catalog: string, grant: string)
      returns (cache': map<string, Prepared>, ok': bool)
    requires CacheValid(res, cache, catalog, grant)
    requires ok ==> forall x :: x in cache ==> cache[x].available
    requires d.contributors != []
    ensures CacheValid(res, cache', catalog, grant)
    ensures ok' ==> forall x :: x in cache' ==> cache'[x].available
    ensures cache.Keys <= cache'.Keys && forall e :: e in d.contributors ==> e in cache'
    ensures ok' <==> ok && DeliverableOk(res, d, t, catalog, grant)
  {
    cache', ok' := cache, ok;
    var people, seen := d.contributors + d.reviewers, {};
    for k := 0 to |people|
      invariant CacheValid(res, cache', catalog, grant)
      invariant ok' ==> forall x :: x in cache' ==> cache'[x].available
      invariant forall j :: 0 <= j < k ==> people[j] in seen
      invariant cache.Keys <= cache'.Keys && seen <= cache'.Keys
      invariant ok' <==> ok && forall e :: e in seen ==> EmployeeOk(res, e, t, catalog, grant)
      invariant forall e :: e in seen ==> e in people
    {
      if people[k] !in seen {
        cache', ok' := CheckEmployee(res, cache', ok', people[k], t, catalog, grant);
        seen := seen + {people[k]};
      }
    }
    assert forall e :: e in d.contributors ==> e in people;
    assert forall e :: e in people <==> e in seen;
  }

  /** One department task; `complete` is false when it lists nobody, and the preflight stops. */
  method CheckTask(res: Resources, cache: map<string, Prepared>, ok: bool, t: DepartmentPlan, catalog: string,
                   grant: string)
      returns (complete: bool, cache': map<string, Prepared>, ok': bool)
    requires CacheValid(res, cache, catalog, grant)
    requires ok ==> forall x :: x in cache ==> cache[x].available
    ensures !complete ==> !TaskOk(res, t, catalog, grant)
    ensures complete ==> CacheValid(res, cache', catalog, grant) && cache.Keys <= cache'.Keys
    ensures complete && ok' ==> forall x :: x in cache' ==> cache'[x].available
    ensures complete ==> (ok' <==> ok && TaskOk(res, t, catalog, grant))
    ensures complete ==> forall d, e :: d in t.deliverables && e in d.contributors ==> e in cache'
  {
    cache', ok' := cache, ok && DepartmentOk(res, t.departmentId);
    if t.deliverables == [] {
      return false, cache', ok';
    }
    ghost var before := ok';
    for j := 0 to |t.deliverables|
      invariant CacheValid(res, cache', catalog, grant) && cache.Keys <= cache'.Keys
      invariant ok' ==> forall x :: x in cache' ==> cache'[x].available
      invariant ok' <==> before && forall k :: 0 <= k < j ==> DeliverableOk(res, t.deliverables[k], t, catalog, grant)
      invariant forall k, e :: 0 <= k < j && e in t.deliverables[k].contributors ==> e in cache'
    {
      if t.deliverables[j].contributors == [] {
        assert t.deliverables[j] in t.deliverables;
        return false, cache', ok';
      }
      cache', ok' := CheckDeliverable(res, cache', ok', t.deliverables[j], t, catalog, grant);
    }
    assert forall k :: 0 <= k < |t.deliverables| ==> t.deliverables[k] in t.deliverables;
    return true, cache', ok';
  }

  /**
   `_prepare_employee_resources`: remembering employees and tag sets across the plan
   accepts exactly the plans on which every single check passes.
   */
  method PrepareEmployeeResources(res: Resources, plan: seq<DepartmentPlan>, catalog: string, grant: string)
      returns (cache: map<string, Prepared>, ok: bool)
    ensures ok <==> forall i :: 0 <= i < |plan| ==> TaskOk(res, plan[i], catalog, grant)
    ensures ok ==> forall i, d, e :: 0 <= i < |plan| && d in plan[i].deliverables && e in d.contributors ==>
                                       e in cache && e in res.employees
                                       && cache[e].profileVersion == res.employees[e].profileVersion
  {
    cache, ok := map[], true;
    for i := 0 to |plan|
      invariant CacheValid(res, cache, catalog, grant)
      invariant ok ==> forall x :: x in cache ==> cache[x].available
      invariant ok <==> forall k :: 0 <= k < i ==> TaskOk(res, plan[k], catalog, grant)
      invariant forall k, d, e :: 0 <= k < i && d in plan[k].deliverables && e in d.contributors ==> e in cache
    {
      var complete;
      complete, cache, ok := CheckTask(res, cache, ok, plan[i], catalog, grant);
      if !complete {
        return map[], false;
      }
    }
    assert ok ==> forall x :: x in cache ==> cache[x].available && x in res.employees;
  }
}
