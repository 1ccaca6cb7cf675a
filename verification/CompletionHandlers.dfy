/**
 The employee, department and company handlers.  The queries of a gate that do not
 look at task status are one boolean, `open`.
 */
module CompletionHandlers {
  import opened Basics
  import opened Records
  import CompanyTasks

  datatype HandlerError = NotFound | GateBlocked | LockConflict | ConstraintFailed

  // ---- What each handler does to the row --------------------------------------------------

  datatype RowResult = Same | Changed(row: EmployeeTask) | Refused(error: HandlerError)

  /** `StartEmployeeTaskHandler` */
  function StartRow(r: EmployeeTask, expected: nat): RowResult {
    if r.status.Running? then Same
    else if !(r.status.Assigned? || r.status.Ready?) || r.version != expected then Refused(LockConflict)
    else Checked(r.(status := Running, version := r.version + 1))
  }

  /** `SubmitEmployeeTaskHandler` */
  function SubmitRow(r: EmployeeTask, expected: nat): RowResult {
    if r.status.Submitted? || r.status.PeerReviewing? || r.status.Accepted? then Same
    else if !r.status.Running? || r.version != expected then Refused(LockConflict)
    else Checked(r.(status := Submitted, version := r.version + 1))
  }

  /** `AcceptEmployeeTaskHandler`: no test of the old status; a suspended row fails its CHECK. */
  function AcceptRow(r: EmployeeTask, open: bool): RowResult {
    if !open then Refused(GateBlocked)
    else Checked(r.(status := Accepted, version := r.version + 1))
  }

  function Checked(r: EmployeeTask): RowResult {
    if EmployeeRowOk(r) then Changed(r) else Refused(ConstraintFailed)
  }

  function EmployeeRowsOut(t: nat, status: EmployeeStatus): seq<OutboxRow> {
    var changed := OutboxRow(EmployeeStatusChanged, t, EmployeeChange(status), true);
    if status.Accepted? then [changed, OutboxRow(GraphAdvance, t, EmployeeChange(Accepted), true)] else [changed]
  }

  /** Writing an employee handler's result: the row, its event, its outbox rows. */
  function WriteEmployee(db: Db, t: nat, res: RowResult): Result<Db, HandlerError>
    requires t < |db.employeeTasks|
  {
    match res
    case Same => Ok(db)
    case Refused(error) => Err(error)
    case Changed(row) =>
      Ok(db.(employeeTasks := db.employeeTasks[t := row],
             events := db.events + [DomainEvent(t, row.version, EmployeeChange(row.status))],
             outbox := db.outbox + EmployeeRowsOut(t, row.status)))
  }

  function Start(db: Db, t: nat, expected: nat): Result<Db, HandlerError> {
    if t >= |db.employeeTasks| then Err(NotFound) else WriteEmployee(db, t, StartRow(db.employeeTasks[t], expected))
  }

  function Submit(db: Db, t: nat, expected: nat): Result<Db, HandlerError> {
    if t >= |db.employeeTasks| then Err(NotFound) else WriteEmployee(db, t, SubmitRow(db.employeeTasks[t], expected))
  }

  function Accept(db: Db, t: nat, open: bool): Result<Db, HandlerError> {
    if t >= |db.employeeTasks| then Err(NotFound) else WriteEmployee(db, t, AcceptRow(db.employeeTasks[t], open))
  }

  // ---- Departments and companies ----------------------------------------------------------

  /** What the department gate lets through: accepted, or cancelled and not a merge. */
  predicate Closed(r: EmployeeTask) {
    r.status.Accepted? || (r.status.Cancelled? && !r.kind.Merge?)
  }

  predicate DepartmentGate(tasks: seq<EmployeeTask>, d: nat) {
    forall t :: 0 <= t < |tasks| && tasks[t].department == d ==> Closed(tasks[t])
  }

  predicate Over(r: DepartmentTask) {
    r.status.Completed? || r.status.Cancelled?
  }

  predicate CompanyGate(departments: seq<DepartmentTask>, c: nat) {
    forall d :: 0 <= d < |departments| && departments[d].companyTask == c ==> Over(departments[d])
  }

  /** `CompleteDepartmentTaskHandler` */
  function CompleteDepartment(db: Db, d: nat, open: bool): Result<Db, HandlerError> {
    if d >= |db.departmentTasks| then Err(NotFound)
    else if !open || !DepartmentGate(db.employeeTasks, d) then Err(GateBlocked)
    else
      var old' := db.departmentTasks[d];
      var row := old'.(status := DepartmentStatus.Completed, version := old'.version + 1);
      if !DepartmentRowOk(row) then Err(ConstraintFailed)
      else Ok(db.(departmentTasks := db.departmentTasks[d := row],
                  events := db.events + [DomainEvent(d, row.version, DepartmentChange(row.status))],
                  outbox := db.outbox + [OutboxRow(DepartmentStatusChanged, d, DepartmentChange(row.status), true)]))
  }

  /** `CompleteCompanyTaskHandler` */
  function CompleteCompany(db: Db, c: nat, open: bool): Result<Db, HandlerError> {
    if c >= |db.companyTasks| then Err(NotFound)
    else if !open || !CompanyGate(db.departmentTasks, c) then Err(GateBlocked)
    else
      var old' := db.companyTasks[c];
      var row := CompanyTask(CompanyTasks.Row(CompanyTasks.Completed, old'.row.resume), old'.version + 1);
      var change := CompanyChange(old'.row.state, CompanyTasks.Completed);
      if !CompanyRowOk(row) then Err(ConstraintFailed)
      else Ok(db.(companyTasks := db.companyTasks[c := row],
                  events := db.events + [DomainEvent(c, row.version, change)],
                  outbox := db.outbox + [OutboxRow(CompanyStatusChanged, c, change, true)]))
  }

  /**
   The company handler writes `completed` over any status: that is an edge of the state
   machine exactly when the task was in final review.
   */
  lemma {:induction false} CompletionEdgeIsLegalExactlyFromFinalReview(db: Db, c: nat, open: bool)
    requires c < |db.companyTasks| && CompanyRowOk(db.companyTasks[c]) && CompleteCompany(db, c, open).Ok?
    ensures CompanyTasks.Move(db.companyTasks[c].row, CompanyTasks.Completed).Some? <==>
            db.companyTasks[c].row.state == CompanyTasks.FinalReview
  {
  }

  // ---- The handlers -----------------------------------------------------------------------

  /** The handlers on the writer connection; a refusal writes nothing. */
  class TaskHandlers {
    var db: Db

    method WriteRow(t: nat, row: EmployeeTask)
      requires t < |db.employeeTasks|
      modifies this
      ensures WriteEmployee(old(db), t, Changed(row)) == Ok(db)
    {
      db := db.(employeeTasks := db.employeeTasks[t := row]);
      db := db.(events := db.events + [DomainEvent(t, row.version, EmployeeChange(row.status))]);
      db := db.(outbox := db.outbox + EmployeeRowsOut(t, row.status));
    }

    method StartEmployeeTask(t: nat, expected: nat) returns (error: Option<HandlerError>)
      modifies this
      ensures Start(old(db), t, expected) == if error.None? then Ok(db) else Err(error.value)
      ensures error.Some? ==> db == old(db)
    {
      if t >= |db.employeeTasks| {
        return Some(NotFound);
      }
      var task := db.employeeTasks[t];
      if task.status.Running? {
        return None;
      }
      if !(task.status.Assigned? || task.status.Ready?) || task.version != expected {
        return Some(LockConflict);
      }
      var row := task.(status := Running, version := task.version + 1);
      if !EmployeeRowOk(row) {
        return Some(ConstraintFailed);
      }
      WriteRow(t, row);
      return None;
    }

    method SubmitEmployeeTask(t: nat, expected: nat) returns (error: Option<HandlerError>)
      modifies this
      ensures Submit(old(db), t, expected) == if error.None? then Ok(db) else Err(error.value)
      ensures error.Some? ==> db == old(db)
    {
      if t >= |db.employeeTasks| {
        return Some(NotFound);
      }
      var task := db.employeeTasks[t];
      if task.status.Submitted? || task.status.PeerReviewing? || task.status.Accepted? {
        return None;
      }
      if !task.status.Running? || task.version != expected {
        return Some(LockConflict);
      }
      var row := task.(status := Submitted, version := task.version + 1);
      if !EmployeeRowOk(row) {
        return Some(ConstraintFailed);
      }
      WriteRow(t, row);
      return None;
    }

    method AcceptEmployeeTask(t: nat, open: bool) returns (error: Option<HandlerError>)
      modifies this
      ensures Accept(old(db), t, open) == if error.None? then Ok(db) else Err(error.value)
      ensures error.Some? ==> db == old(db)
    {
      if t >= |db.employeeTasks| {
        return Some(NotFound);
      }
      if !open {
        return Some(GateBlocked);
      }
      var task := db.employeeTasks[t];
      var row := task.(status := Accepted, version := task.version + 1);
      if !EmployeeRowOk(row) {
        return Some(ConstraintFailed);
      }
      WriteRow(t, row);
      return None;
    }

    method CompleteDepartmentTask(d: nat, open: bool) returns (error: Option<HandlerError>)
      modifies this
      ensures CompleteDepartment(old(db), d, open) == if error.None? then Ok(db) else Err(error.value)
      ensures error.Some? ==> db == old(db)
    {
      if d >= |db.departmentTasks| {
        return Some(NotFound);
      }
      if !open || !DepartmentGate(db.employeeTasks, d) {
        return Some(GateBlocked);
      }
      var task := db.departmentTasks[d];
      var row := task.(status := DepartmentStatus.Completed, version := task.version + 1);
      if !DepartmentRowOk(row) {
        return Some(ConstraintFailed);
      }
      var change := DepartmentChange(row.status);
      db := db.(departmentTasks := db.departmentTasks[d := row]);
      db := db.(events := db.events + [DomainEvent(d, row.version, change)]);
      db := db.(outbox := db.outbox + [OutboxRow(DepartmentStatusChanged, d, change, true)]);
      return None;
    }

    method CompleteCompanyTask(c: nat, open: bool) returns (error: Option<HandlerError>)
      modifies this
      ensures CompleteCompany(old(db), c, open) == if error.None? then Ok(db) else Err(error.value)
      ensures error.Some? ==> db == old(db)
    {
      if c >= |db.companyTasks| {
        return Some(NotFound);
      }
      if !open || !CompanyGate(db.departmentTasks, c) {
        return Some(GateBlocked);
      }
      var task := db.companyTasks[c];
      var row := CompanyTask(CompanyTasks.Row(CompanyTasks.Completed, task.row.resume), task.version + 1);
      if !CompanyRowOk(row) {
        return Some(ConstraintFailed);
      }
      var change := CompanyChange(task.row.state, CompanyTasks.Completed);
      db := db.(companyTasks := db.companyTasks[c := row]);
      db := db.(events := db.events + [DomainEvent(c, row.version, change)]);
      db := db.(outbox := db.outbox + [OutboxRow(CompanyStatusChanged, c, change, true)]);
      return None;
    }
  }
}
