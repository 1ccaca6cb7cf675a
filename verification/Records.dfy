/**
 The rows the orchestration works on.  A table whose rows are never deleted is a
 sequence and a row's index is its id, so appending yields a fresh id.
 */
module Records {
  import opened Basics
  import opened Plans
  import opened Preflight
  import CompanyTasks

  datatype EmployeeStatus =
    | Assigned | Ready | Running | Submitted | PeerReviewing | ChangesRequested | Accepted
    | NeedsReview | NeedsRework | WaitingResource | Paused | Cancelled | Failed

  datatype TaskKind = Standard | Merge

  datatype EmployeeTask = EmployeeTask(
    department: nat,
    employee: string,
    kind: TaskKind,
    status: EmployeeStatus,
    resume: Option<EmployeeStatus>,
    version: nat)

  /** The CHECK constraint of employee_tasks: a suspended row, and no other, has a resume state. */
  predicate EmployeeRowOk(r: EmployeeTask) {
    r.status.WaitingResource? || r.status.Paused? <==> r.resume.Some?
  }

  datatype DepartmentStatus =
    | Draft | CheckingResources | Ready | Executing | Reviewing | Fixing | Completed
    | WaitingDependency | WaitingResource | WaitingPermission | Paused | Cancelled | Failed

  datatype DepartmentTask = DepartmentTask(
    companyTask: nat,
    departmentId: string,
    stageKey: string,
    status: DepartmentStatus,
    resume: Option<DepartmentStatus>,
    version: nat)

  /** The same CHECK constraint on department_tasks. */
  predicate DepartmentRowOk(r: DepartmentTask) {
    r.status.WaitingDependency? || r.status.WaitingResource? || r.status.WaitingPermission? || r.status.Paused?
    <==> r.resume.Some?
  }

  datatype CompanyTask = CompanyTask(row: CompanyTasks.Row, version: nat)

  /** And on company_tasks, where it is what `validate_resume_state` asks. */
  predicate CompanyRowOk(r: CompanyTask) {
    CompanyTasks.ResumeStateValid(r.row.state, r.row.resume)
  }

  /** The plan version that currently awaits, or got, the user's confirmation. */
  datatype PlanVersion = PlanVersion(sha: string, tasks: seq<DepartmentPlan>, awaiting: bool)

  /** The stored JSON of `required_capability_tags_json`. */
  datatype TagItem = Text(text: string) | NotText
  datatype FrozenTags = Absent | NotAnArray | Items(items: seq<TagItem>)

  /** What confirmation freezes for a segment that is dispatched later. */
  datatype DispatchSpec = DispatchSpec(
    companyTask: nat,
    department: nat,
    employee: string,
    profileVersion: Option<string>,
    catalogRelease: string,
    grant: string,
    tags: FrozenTags)

  datatype RunStatus = Queued | InProgress | Succeeded | NotSucceeded

  datatype Run = Run(
    task: nat,
    companyTask: nat,
    department: nat,
    employee: string,
    profileVersion: Option<string>,
    catalogRelease: string,
    grant: string,
    tags: seq<string>,
    status: RunStatus)

  datatype Change =
    | EmployeeChange(employeeTo: EmployeeStatus)
    | DepartmentChange(departmentTo: DepartmentStatus)
    | CompanyChange(companyFrom: CompanyTasks.State, companyTo: CompanyTasks.State)
    | RunChange(runTo: RunStatus)
    | IssueChange(closed: bool)

  datatype DomainEvent = DomainEvent(aggregate: nat, version: nat, change: Change)

  datatype Topic =
    | RunCompleted | ReviewSubmitted | ReviewIssueChanged
    | EmployeeStatusChanged | GraphAdvance | DepartmentStatusChanged | CompanyStatusChanged

  datatype OutboxRow = OutboxRow(topic: Topic, aggregate: nat, change: Change, pending: bool)

  datatype Db = Db(
    companyTasks: seq<CompanyTask>,
    plans: map<nat, PlanVersion>,
    departmentTasks: seq<DepartmentTask>,
    departmentEdges: set<(nat, nat)>,
    employeeTasks: seq<EmployeeTask>,
    employeeEdges: set<(nat, nat)>,
    specs: map<nat, DispatchSpec>,
    runs: seq<Run>,
    artifacts: set<string>,
    events: seq<DomainEvent>,
    outbox: seq<OutboxRow>,
    resources: Resources)

  /** How many runs a task has been given. */
  ghost function RunCount(runs: seq<Run>, task: nat): nat {
    if runs == [] then 0
    else RunCount(runs[..|runs| - 1], task) + if runs[|runs| - 1].task == task then 1 else 0
  }

  lemma {:induction false} RunCountOneMore(runs: seq<Run>, run: Run, task: nat)
    ensures RunCount(runs + [run], task) == RunCount(runs, task) + if run.task == task then 1 else 0
  {
    assert (runs + [run])[..|runs|] == runs;
  }

  lemma {:induction false} RunCountAppend(runs: seq<Run>, more: seq<Run>, task: nat)
    ensures RunCount(runs + more, task) == RunCount(runs, task) + RunCount(more, task)
  {
    if more == [] {
      assert runs + more == runs;
    } else {
      var all := runs + more;
      assert all[..|all| - 1] == runs + more[..|more| - 1];
      RunCountAppend(runs, more[..|more| - 1], task);
    }
  }
}
