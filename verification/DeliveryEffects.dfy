/**
 What each command and each delivery does to the rows, for every database the system can
 reach: which rows change, to what, and what is announced.
 */
module DeliveryEffects {
  import opened Basics
  import opened Plans
  import opened Preflight
  import opened Records
  import opened TagOrder
  import opened ConfirmPlan
  import opened DispatchStrategies
  import opened CompletionHandlers
  import opened TaskGraph
  import opened Outbox
  import opened ProtocolSteps
  import opened TaskProtocol
  import opened TaskTheorems
  import CompanyTasks

  // ---- Rows -------------------------------------------------------------------------------

  /** Employee task `t` gets the status, one version on, with its event and its outbox row. */
  ghost function TaskMoved(db: Db, t: nat, status: EmployeeStatus): Db
    requires t < |db.employeeTasks|
  {
    var v := db.employeeTasks[t].version + 1;
    db.(employeeTasks := db.employeeTasks[t := db.employeeTasks[t].(status := status, version := v)],
        events := db.events + [DomainEvent(t, v, EmployeeChange(status))],
        outbox := db.outbox + [OutboxRow(EmployeeStatusChanged, t, EmployeeChange(status), true)])
  }

  /** Acceptance also tells the tasks that follow. */
  ghost function TaskAccepted(db: Db, t: nat): Db
    requires t < |db.employeeTasks|
  {
    var moved := TaskMoved(db, t, Accepted);
    moved.(outbox := moved.outbox + [OutboxRow(GraphAdvance, t, EmployeeChange(Accepted), true)])
  }

  ghost function DepartmentCompleted(db: Db, d: nat): Db
    requires d < |db.departmentTasks|
  {
    var v, change := db.departmentTasks[d].version + 1, DepartmentChange(DepartmentStatus.Completed);
    db.(departmentTasks := db.departmentTasks[d := db.departmentTasks[d].(status := DepartmentStatus.Completed,
                                                                         version := v)],
        events := db.events + [DomainEvent(d, v, change)],
        outbox := db.outbox + [OutboxRow(DepartmentStatusChanged, d, change, true)])
  }

  ghost function CompanyCompleted(db: Db, c: nat): Db
    requires c < |db.companyTasks|
  {
    var v := db.companyTasks[c].version + 1;
    var change := CompanyChange(db.companyTasks[c].row.state, CompanyTasks.Completed);
    db.(companyTasks := db.companyTasks[c := CompanyTask(CompanyTasks.Row(CompanyTasks.Completed, None), v)],
        events := db.events + [DomainEvent(c, v, change)],
        outbox := db.outbox + [OutboxRow(CompanyStatusChanged, c, change, true)])
  }

  /** Nobody in the department has anything left to do: accepted, or cancelled without being a merge. */
  ghost predicate NothingLeft(db: Db, d: nat) {
    forall t: nat :: t < |db.employeeTasks| && db.employeeTasks[t].department == d ==>
      || db.employeeTasks[t].status.Accepted?
      || (db.employeeTasks[t].status.Cancelled? && db.employeeTasks[t].kind.Standard?)
  }

  /** Every department of the company task is completed or cancelled. */
  ghost predicate AllOver(db: Db, c: nat) {
    forall d: nat :: d < |db.departmentTasks| && db.departmentTasks[d].companyTask == c ==>
      db.departmentTasks[d].status.Completed? || db.departmentTasks[d].status.Cancelled?
  }

  // ---- Commands ---------------------------------------------------------------------------

  /** A task starts from `assigned` or `ready` and only in the version the caller saw. */
  lemma {:induction false} StartEffect(db: Db, t: nat, expected: nat)
    requires Inv(db)
    ensures Apply(db, StartTask(t, expected)) ==
            if && t < |db.employeeTasks| && db.employeeTasks[t].version == expected
               && (db.employeeTasks[t].status.Assigned? || db.employeeTasks[t].status.Ready?)
            then TaskMoved(db, t, Running) else db
  {
    if t < |db.employeeTasks| {
      assert TaskSound(Tables(db), |db.departmentTasks|, t);
    }
  }

  /** A running task is submitted, in the version the caller saw. */
  lemma {:induction false} SubmitEffect(db: Db, t: nat, expected: nat)
    requires Inv(db)
    ensures Apply(db, SubmitTask(t, expected)) ==
            if t < |db.employeeTasks| && db.employeeTasks[t].version == expected && db.employeeTasks[t].status.Running?
            then TaskMoved(db, t, Submitted) else db
  {
    if t < |db.employeeTasks| {
      assert TaskSound(Tables(db), |db.departmentTasks|, t);
    }
  }

  /** Behind an open gate any task that is not suspended is accepted, whatever its status. */
  lemma {:induction false} AcceptEffect(db: Db, t: nat, open: bool)
    requires Inv(db)
    ensures Apply(db, AcceptTask(t, open)) ==
            if && t < |db.employeeTasks| && open
               && !db.employeeTasks[t].status.WaitingResource? && !db.employeeTasks[t].status.Paused?
            then TaskAccepted(db, t) else db
  {
    if t < |db.employeeTasks| {
      assert TaskSound(Tables(db), |db.departmentTasks|, t);
      assert TaskAccepted(db, t).outbox == db.outbox + EmployeeRowsOut(t, Accepted);
    }
  }

  /** The row has been submitted, or is past that. */
  predicate PastSubmission(row: EmployeeTask) {
    row.status.Submitted? || row.status.PeerReviewing? || row.status.Accepted?
  }

  /** What a refused or idle employee command reports. */
  lemma {:induction false} EmployeeRefusals(db: Db, t: nat, expected: nat, open: bool)
    requires Inv(db)
    ensures t >= |db.employeeTasks| ==>
              Start(db, t, expected) == Submit(db, t, expected) == Accept(db, t, open) == Err(NotFound)
    ensures t < |db.employeeTasks| ==>
              var row := db.employeeTasks[t];
              var startable := row.version == expected && (row.status.Assigned? || row.status.Ready?);
              var submittable := row.version == expected && row.status.Running?;
              && (row.status.Running? ==> Start(db, t, expected) == Ok(db))
              && (!row.status.Running? && !startable ==> Start(db, t, expected) == Err(LockConflict))
              && (PastSubmission(row) ==> Submit(db, t, expected) == Ok(db))
              && (!PastSubmission(row) && !submittable ==> Submit(db, t, expected) == Err(LockConflict))
              && (!open ==> Accept(db, t, open) == Err(GateBlocked))
              && (open && (row.status.WaitingResource? || row.status.Paused?) ==>
                    Accept(db, t, open) == Err(ConstraintFailed))
  {
    if t < |db.employeeTasks| {
      assert TaskSound(Tables(db), |db.departmentTasks|, t);
    }
  }

  /** What a refused completion reports. */
  lemma {:induction false} CompletionRefusals(db: Db, n: nat, open: bool)
    ensures n >= |db.departmentTasks| ==> CompleteDepartment(db, n, open) == Err(NotFound)
    ensures n < |db.departmentTasks| && !(open && NothingLeft(db, n)) ==>
              CompleteDepartment(db, n, open) == Err(GateBlocked)
    ensures n < |db.departmentTasks| && open && NothingLeft(db, n) && db.departmentTasks[n].resume.Some? ==>
              CompleteDepartment(db, n, open) == Err(ConstraintFailed)
    ensures n >= |db.companyTasks| ==> CompleteCompany(db, n, open) == Err(NotFound)
    ensures n < |db.companyTasks| && !(open && AllOver(db, n)) ==> CompleteCompany(db, n, open) == Err(GateBlocked)
    ensures n < |db.companyTasks| && open && AllOver(db, n) && db.companyTasks[n].row.resume.Some? ==>
              CompleteCompany(db, n, open) == Err(ConstraintFailed)
  {
    assert DepartmentGate(db.employeeTasks, n) <==> NothingLeft(db, n);
    assert CompanyGate(db.departmentTasks, n) <==> AllOver(db, n);
  }

  lemma {:induction false} FinishDepartmentEffect(db: Db, d: nat, open: bool)
    ensures Apply(db, FinishDepartment(d, open)) ==
            if d < |db.departmentTasks| && open && NothingLeft(db, d) && db.departmentTasks[d].resume.None?
            then DepartmentCompleted(db, d) else db
  {
    assert DepartmentGate(db.employeeTasks, d) <==> NothingLeft(db, d);
  }

  lemma {:induction false} FinishCompanyEffect(db: Db, c: nat, open: bool)
    ensures Apply(db, FinishCompany(c, open)) ==
            if c < |db.companyTasks| && open && AllOver(db, c) && db.companyTasks[c].row.resume.None?
            then CompanyCompleted(db, c) else db
  {
    assert CompanyGate(db.departmentTasks, c) <==> AllOver(db, c);
  }

  // ---- Deliveries -------------------------------------------------------------------------

  /** Row `i` is delivered. */
  ghost function Delivered(db: Db, i: nat): Db
    requires i < |db.outbox|
  {
    db.(outbox := db.outbox[i := OutboxRow(db.outbox[i].topic, db.outbox[i].aggregate, db.outbox[i].change, false)])
  }

  /** A run that succeeded submits its task if that is running; nothing else happens. */
  lemma {:induction false} RunDelivered(db: Db, i: nat, env: Env)
    requires Inv(db) && i < |db.outbox| && db.outbox[i].topic.RunCompleted?
    ensures
      var r := db.outbox[i].aggregate;
      if && db.outbox[i].change == RunChange(Succeeded) && r < |db.runs| && db.runs[r].status.Succeeded?
         && db.runs[r].task < |db.employeeTasks| && db.employeeTasks[db.runs[r].task].status.Running?
      then DeliverOne(db, i, env) == Some(Delivered(TaskMoved(db, db.runs[r].task, Submitted), i))
      else DeliverOne(db, i, env) == Some(Delivered(db, i))
  {
    var r := db.outbox[i].aggregate;
    if r < |db.runs| && db.runs[r].task < |db.employeeTasks| {
      assert TaskSound(Tables(db), |db.departmentTasks|, db.runs[r].task);
    }
  }

  /** A review, or an issue that was closed, accepts the task it is about if the gate is open. */
  lemma {:induction false} ReviewDelivered(db: Db, i: nat, env: Env)
    requires Inv(db) && i < |db.outbox|
    requires db.outbox[i].topic.ReviewSubmitted? || db.outbox[i].topic.ReviewIssueChanged?
    ensures
      if && (db.outbox[i].topic.ReviewSubmitted? || db.outbox[i].change == IssueChange(true))
         && env.task.Some? && env.task.value < |db.employeeTasks| && env.open
      then
        var status := db.employeeTasks[env.task.value].status;
        DeliverOne(db, i, env) == if status.WaitingResource? || status.Paused? then None
                                  else Some(Delivered(TaskAccepted(db, env.task.value), i))
      else DeliverOne(db, i, env) == Some(Delivered(db, i))
  {
    if env.task.Some? && env.task.value < |db.employeeTasks| {
      var t := env.task.value;
      assert TaskSound(Tables(db), |db.departmentTasks|, t);
      assert TaskAccepted(db, t).outbox == db.outbox + EmployeeRowsOut(t, Accepted);
    }
  }

  /** The acceptance of a task completes its department once nobody has anything left to do. */
  lemma {:induction false} AcceptanceDelivered(db: Db, i: nat, env: Env)
    requires Inv(db) && i < |db.outbox| && db.outbox[i].topic.EmployeeStatusChanged?
    ensures
      var t := db.outbox[i].aggregate;
      if && db.outbox[i].change == EmployeeChange(Accepted) && t < |db.employeeTasks| && env.open
         && NothingLeft(db, db.employeeTasks[t].department)
      then
        var d := db.employeeTasks[t].department;
        && d < |db.departmentTasks|
        && DeliverOne(db, i, env) == if db.departmentTasks[d].resume.Some? then None
                                     else Some(Delivered(DepartmentCompleted(db, d), i))
      else DeliverOne(db, i, env) == Some(Delivered(db, i))
  {
    var t := db.outbox[i].aggregate;
    if t < |db.employeeTasks| {
      assert TaskSound(Tables(db), |db.departmentTasks|, t);
      assert DepartmentGate(db.employeeTasks, db.employeeTasks[t].department)
             <==> NothingLeft(db, db.employeeTasks[t].department);
    }
  }

  /** The completion of a department completes its company task once all its departments are over. */
  lemma {:induction false} DepartmentDelivered(db: Db, i: nat, env: Env)
    requires Inv(db) && i < |db.outbox| && db.outbox[i].topic.DepartmentStatusChanged?
    ensures
      var d := db.outbox[i].aggregate;
      if && db.outbox[i].change == DepartmentChange(DepartmentStatus.Completed) && d < |db.departmentTasks| && env.open
         && AllOver(db, db.departmentTasks[d].companyTask)
      then
        var c := db.departmentTasks[d].companyTask;
        && c < |db.companyTasks|
        && DeliverOne(db, i, env) == if db.companyTasks[c].row.resume.Some? then None
                                     else Some(Delivered(CompanyCompleted(db, c), i))
      else DeliverOne(db, i, env) == Some(Delivered(db, i))
  {
    var d := db.outbox[i].aggregate;
    if d < |db.departmentTasks| {
      assert DepartmentSound(db.companyTasks, db.departmentTasks, db.employeeTasks, d);
      assert CompanyGate(db.departmentTasks, db.departmentTasks[d].companyTask)
             <==> AllOver(db, db.departmentTasks[d].companyTask);
    }
  }

  /** Company events and advances about anything but an acceptance are only marked. */
  lemma {:induction false} NothingTriggered(db: Db, i: nat, env: Env)
    requires i < |db.outbox|
    requires db.outbox[i].topic.CompanyStatusChanged?
             || (db.outbox[i].topic.GraphAdvance? && db.outbox[i].change != EmployeeChange(Accepted))
    ensures DeliverOne(db, i, env) == Some(Delivered(db, i))
  {
  }

  // ---- The advance ------------------------------------------------------------------------

  /** The frozen tags are missing altogether, or an array of trimmed strings that are not blank. */
  predicate Readable(tags: FrozenTags) {
    || tags.Absent?
    || (tags.Items? && forall k :: 0 <= k < |tags.items| ==>
          tags.items[k].Text? && !Blank(tags.items[k].text) && Trimmed(tags.items[k].text))
  }

  predicate Names(tags: FrozenTags, tag: string) {
    tags.Items? && exists k :: 0 <= k < |tags.items| && tags.items[k] == Text(tag)
  }

  /** The employee is active and in the department. */
  predicate StillEmployed(res: Resources, spec: DispatchSpec, departmentId: string) {
    && spec.employee in res.employees && res.employees[spec.employee].active
    && res.employees[spec.employee].department == departmentId
  }

  /** The frozen profile version is published and active on the frozen release, and holds the frozen tags. */
  ghost predicate StillQualified(res: Resources, spec: DispatchSpec) {
    && spec.profileVersion.Some? && spec.profileVersion.value in res.profiles
    && var p := res.profiles[spec.profileVersion.value];
       && p.published && p.profileActive && p.catalogRelease == spec.catalogRelease
       && forall tag :: Names(spec.tags, tag) ==> tag in p.tags
  }

  /** The workspace is active, and still has the frozen grant, which is active. */
  predicate StillGranted(res: Resources, spec: DispatchSpec) {
    && spec.companyTask in res.workspaces && res.workspaces[spec.companyTask].active
    && res.workspaces[spec.companyTask].grant == spec.grant && res.workspaces[spec.companyTask].grantActive
  }

  /** Nothing the segment was frozen with has drifted. */
  ghost predicate Dispatchable(db: Db, spec: DispatchSpec) {
    && spec.department < |db.departmentTasks| && Readable(spec.tags)
    && StillEmployed(db.resources, spec, db.departmentTasks[spec.department].departmentId)
    && StillQualified(db.resources, spec) && StillGranted(db.resources, spec)
  }

  /** The run a segment gets: what was frozen, with the tags sorted and each once. */
  ghost predicate RunOf(r: Run, spec: DispatchSpec, t: nat) {
    && r == Run(t, spec.companyTask, spec.department, spec.employee, spec.profileVersion, spec.catalogRelease,
                spec.grant, r.tags, Queued)
    && StrictlySorted(r.tags) && forall tag :: tag in r.tags <==> Names(spec.tags, tag)
  }

  lemma {:induction false} ParsedTags(raw: FrozenTags)
    ensures ParseTags(raw).Some? <==> Readable(raw)
    ensures ParseTags(raw).Some? ==>
              && StrictlySorted(ParseTags(raw).value)
              && forall tag :: tag in ParseTags(raw).value <==> Names(raw, tag)
    ensures ParseTags(raw).Some? ==> forall tag :: tag in ParseTags(raw).value ==> !Blank(tag)
  {
    if raw.Items? && Readable(raw) {
      var texts := Texts(raw.items);
      assert forall k :: 0 <= k < |raw.items| ==> UsableTag(raw.items[k]);
      SortTagsSorts(texts);
      forall tag
        ensures tag in texts <==> Names(raw, tag)
      {
        if tag in texts {
          var k :| 0 <= k < |texts| && texts[k] == tag;
          assert raw.items[k] == Text(tag);
        }
        if Names(raw, tag) {
          var k :| 0 <= k < |raw.items| && raw.items[k] == Text(tag);
          assert texts[k] == tag;
        }
      }
      forall tag | tag in texts
        ensures !Blank(tag)
      {
        var k :| 0 <= k < |texts| && texts[k] == tag;
        assert UsableTag(raw.items[k]);
      }
    } else if raw.Items? {
      assert ParseTags(raw).Some? ==> forall k :: 0 <= k < |raw.items| ==> UsableTag(raw.items[k]);
    }
  }

  /** A segment is dispatched exactly when nothing has drifted; a missing employee apart, it fails otherwise. */
  lemma {:induction false} VerdictMeaning(db: Db, spec: DispatchSpec)
    requires spec.department < |db.departmentTasks| && spec.employee in db.resources.employees
    ensures
      var verdict := SegmentVerdict(db.resources, spec, db.departmentTasks[spec.department].departmentId);
      && (verdict.Dispatch? <==> Dispatchable(db, spec)) && (verdict.Fail? <==> !Dispatchable(db, spec))
      && (verdict.Dispatch? ==> forall t: nat :: RunOf(SegmentRun(spec, t, verdict.tags), spec, t))
  {
    ParsedTags(spec.tags);
  }

  /** What a committed waking delivery leaves of task `t`, which was due. */
  ghost predicate SettledFrom(db: Db, after: Db, t: nat)
    requires t < |db.employeeTasks| && t in db.specs
  {
    && t < |after.employeeTasks|
    && var v := db.employeeTasks[t].version + 1;
       if Dispatchable(db, db.specs[t])
       then && after.employeeTasks[t] == db.employeeTasks[t].(status := Assigned, resume := None, version := v)
            && RunCount(after.runs, t) == 1 && exists r :: r in after.runs && RunOf(r, db.specs[t], t)
       else && after.employeeTasks[t] == db.employeeTasks[t].(status := EmployeeStatus.Failed, resume := None,
                                                              version := v)
            && RunCount(after.runs, t) == 0
  }

  /**
   A due task gets its run exactly when its employee is still employed, its frozen profile
   still qualifies and its workspace is still granted; if any of these has drifted, or its
   tags cannot be read, the delivery that wakes it fails it and it has no run.
   */
  lemma {:induction false} DriftDecides(resources: Resources, steps: seq<Step>, i: nat, env: Env, t: nat)
    requires
      var db := RunAll(Empty(resources), steps);
      && i < |db.outbox| && Due(Tables(db), t) && Wakes(db.employeeEdges, db.outbox[i], t)
      && DeliverOne(db, i, env).Some?
    ensures
      var db := RunAll(Empty(resources), steps);
      t in db.specs && SettledFrom(db, DeliverOne(db, i, env).value, t)
  {
    var db := RunAll(Empty(resources), steps);
    Reachable(resources, steps);
    WakingSettles(db, i, env, t);
  }

  lemma {:induction false} WakingSettles(db: Db, i: nat, env: Env, t: nat)
    requires Inv(db) && i < |db.outbox| && Due(Tables(db), t) && Wakes(db.employeeEdges, db.outbox[i], t)
    requires DeliverOne(db, i, env).Some?
    ensures t in db.specs && SettledFrom(db, DeliverOne(db, i, env).value, t)
  {
    var f, start, u := FrameOf(db, env.unresolvable), Segments(db.employeeTasks, db.runs), db.outbox[i].aggregate;
    var after, spec := DeliverOne(db, i, env).value, db.specs[t];
    DueHasSpec(db, t);
    AdvanceOutcome(f, start, u, |start.tasks|, t);
    VerdictMeaning(db, spec);
    if Dispatchable(db, spec) {
      var r := SegmentRun(spec, t, VerdictIn(f, t).tags);
      assert r in after.runs && RunOf(r, spec, t);
    }
  }

  /** Task `t` follows `upstream` and waits for nothing any more. */
  ghost predicate Released(db: Db, upstream: nat, t: nat) {
    && t < |db.employeeTasks| && db.employeeTasks[t].status.WaitingResource? && (t, upstream) in db.employeeEdges
    && forall u: nat :: (t, u) in db.employeeEdges ==>
         u < |db.employeeTasks| && db.employeeTasks[u].status.Accepted?
  }

  /** An advance leaves everybody else, and every other table, as they were. */
  lemma {:induction false} AdvanceTouchesOnlyReleased(db: Db, i: nat, env: Env, t: nat)
    requires Inv(db) && i < |db.outbox| && db.outbox[i].topic.GraphAdvance? && t < |db.employeeTasks|
    requires DeliverOne(db, i, env).Some? && !Released(db, db.outbox[i].aggregate, t)
    ensures
      var after := DeliverOne(db, i, env).value;
      && |after.employeeTasks| == |db.employeeTasks| && after.employeeTasks[t] == db.employeeTasks[t]
      && RunCount(after.runs, t) == RunCount(db.runs, t)
      && after == Delivered(db, i).(employeeTasks := after.employeeTasks, runs := after.runs)
  {
    var f, start, u := FrameOf(db, env.unresolvable), Segments(db.employeeTasks, db.runs), db.outbox[i].aggregate;
    if Triggered(db.outbox[i]) {
      assert !DueIn(f, start, u, t) by {
        if DueIn(f, start, u, t) {
          forall k: nat | (t, k) in db.employeeEdges
            ensures k < |db.employeeTasks| && db.employeeTasks[k].status.Accepted?
          {
            assert (t, k).0 == t;
          }
        }
      }
      AdvanceOutcome(f, start, u, |start.tasks|, t);
    }
  }

  // ---- Batches ----------------------------------------------------------------------------

  /** Row `i` is pending, triggers its command, and the command raises. */
  ghost predicate RaisesNow(db: Db, i: nat, env: Env) {
    i < |db.outbox| && db.outbox[i].pending && Triggered(db.outbox[i]) && TaskTheorems.Raises(db, db.outbox[i], env)
  }

  /** Delivery `k` of the batch raises after the ones before it. */
  ghost predicate RaisesInBatch(db: Db, batch: seq<(nat, Env)>, k: nat) {
    k < |batch| && RaisesNow(RunAll(db, DeliverySteps(batch, k)), batch[k].0, batch[k].1)
  }

  lemma {:induction false} DeliveryRaisesExactly(db: Db, i: nat, env: Env)
    requires Inv(db)
    ensures DeliverPending(db, i, env).None? <==> RaisesNow(db, i, env)
  {
    if i < |db.outbox| {
      HandleRaisesExactly(db, db.outbox[i], env);
    }
  }

  lemma {:induction false} OneMoreRow(db: Db, batch: seq<(nat, Env)>, k: nat)
    requires k < |batch| && DeliverUpTo(db, batch, k).Some?
    ensures DeliverUpTo(db, batch, k + 1)
            == DeliverPending(RunAll(db, DeliverySteps(batch, k)), batch[k].0, batch[k].1)
  {
    BatchIsARun(db, batch, k);
  }

  lemma {:induction false} OneMoreRaises(db: Db, batch: seq<(nat, Env)>, k: nat)
    requires Inv(db) && k < |batch| && DeliverUpTo(db, batch, k).Some?
    ensures DeliverUpTo(db, batch, k + 1).None? <==> RaisesInBatch(db, batch, k)
  {
    OneMoreRow(db, batch, k);
    RunLater(db, DeliverySteps(batch, k));
    DeliveryRaisesExactly(RunAll(db, DeliverySteps(batch, k)), batch[k].0, batch[k].1);
  }

  /** A batch that is undone has a delivery that is reached and raises. */
  lemma {:induction false} UndoneBatchRaises(db: Db, batch: seq<(nat, Env)>, n: nat) returns (k: nat)
    requires Inv(db) && n <= |batch| && DeliverUpTo(db, batch, n).None?
    ensures k < n && DeliverUpTo(db, batch, k).Some? && RaisesInBatch(db, batch, k)
  {
    k := FirstFailure(db, batch, n);
    OneMoreRaises(db, batch, k);
  }

  lemma {:induction false} FirstFailure(db: Db, batch: seq<(nat, Env)>, n: nat) returns (k: nat)
    requires n <= |batch| && DeliverUpTo(db, batch, n).None?
    ensures k < n && DeliverUpTo(db, batch, k).Some? && DeliverUpTo(db, batch, k + 1).None?
  {
    if DeliverUpTo(db, batch, n - 1).None? {
      k := FirstFailure(db, batch, n - 1);
    } else {
      k := n - 1;
    }
  }

  /** And a delivery that is reached and raises undoes every batch it is in. */
  lemma {:induction false} RaisingUndoesBatch(db: Db, batch: seq<(nat, Env)>, k: nat, n: nat)
    requires Inv(db) && k < n <= |batch| && DeliverUpTo(db, batch, k).Some? && RaisesInBatch(db, batch, k)
    ensures DeliverUpTo(db, batch, n).None?
  {
    OneMoreRaises(db, batch, k);
    BatchAborts(db, batch, k + 1, n);
  }
}
