/**
 Whole runs: confirmations, handlers, outbox deliveries in any order and any number,
 and what the outside may change in between.
 */
module ProtocolSteps {
  import opened Basics
  import opened Preflight
  import opened Records
  import opened ConfirmPlan
  import opened CompletionHandlers
  import opened Outbox
  import CompanyTasks

  datatype Step =
    | Confirm(schema: Schema, cmd: Command)
    | StartTask(t: nat, expected: nat)
    | SubmitTask(t: nat, expected: nat)
    | AcceptTask(t: nat, open: bool)
    | FinishDepartment(d: nat, open: bool)
    | FinishCompany(c: nat, open: bool)
    | AdvanceAgain(upstream: nat, unresolvable: set<nat>)   // a repeated or stray graph advance
    | DeliverRow(i: nat, env: Env)
    | NewCompany                                            // the rest is the outside
    | MoveCompany(c: nat, target: CompanyTasks.State)
    | ProposePlan(c: nat, plan: PlanVersion)
    | ChangeResources(resources: Resources)
    | MoveRun(run: nat, status: RunStatus)
    | Post(row: OutboxRow)

  /** A command handler is invoked directly. */
  predicate HandlerStep(step: Step) {
    step.StartTask? || step.SubmitTask? || step.AcceptTask? || step.FinishDepartment? || step.FinishCompany?
  }

  /** The topics the runtime and the reviews post. */
  predicate Foreign(row: OutboxRow) {
    row.topic.RunCompleted? || row.topic.ReviewSubmitted? || row.topic.ReviewIssueChanged?
  }

  function Keep<E>(db: Db, r: Result<Db, E>): Db {
    if r.Ok? then r.value else db
  }

  /** The foreign key of employee_tasks: a row that a task names stays. */
  ghost predicate Employs(tasks: seq<EmployeeTask>, res: Resources) {
    forall t: nat :: t < |tasks| ==> tasks[t].employee in res.employees
  }

  /** One step; a refused one leaves the database as it was. */
  ghost function Apply(db: Db, step: Step): Db {
    match step
    case Confirm(schema, cmd) => if Confirmable(schema, db, cmd) then AfterConfirm(schema, db, cmd) else db
    case StartTask(t, expected) => Keep(db, Start(db, t, expected))
    case SubmitTask(t, expected) => Keep(db, Submit(db, t, expected))
    case AcceptTask(t, open) => Keep(db, Accept(db, t, open))
    case FinishDepartment(d, open) => Keep(db, CompleteDepartment(db, d, open))
    case FinishCompany(c, open) => Keep(db, CompleteCompany(db, c, open))
    case AdvanceAgain(upstream, unresolvable) =>
      (match AdvanceDb(db, upstream, unresolvable) case None => db case Some(d) => d)
    case DeliverRow(i, env) =>
      if i < |db.outbox| && db.outbox[i].pending
      then (match DeliverOne(db, i, env) case None => db case Some(d) => d)
      else db
    case NewCompany =>
      db.(companyTasks := db.companyTasks + [CompanyTask(CompanyTasks.Row(CompanyTasks.Draft, None), 1)])
    case MoveCompany(c, target) =>
      if c < |db.companyTasks| && !target.Completed? && CompanyTasks.Move(db.companyTasks[c].row, target).Some?
      then
        var row := CompanyTasks.Move(db.companyTasks[c].row, target).value;
        db.(companyTasks := db.companyTasks[c := CompanyTask(row, db.companyTasks[c].version + 1)])
      else db
    case ProposePlan(c, plan) => db.(plans := db.plans[c := plan])
    case ChangeResources(resources) => if Employs(db.employeeTasks, resources) then db.(resources := resources) else db
    case MoveRun(run, status) =>
      if run < |db.runs| then db.(runs := db.runs[run := db.runs[run].(status := status)]) else db
    case Post(row) => if Foreign(row) then db.(outbox := db.outbox + [row]) else db
  }

  ghost function RunAll(db: Db, steps: seq<Step>): Db {
    if steps == [] then db else Apply(RunAll(db, steps[..|steps| - 1]), steps[|steps| - 1])
  }

  function Empty(resources: Resources): Db {
    Db([], map[], [], {}, [], {}, map[], [], {}, [], [], resources)
  }
}
