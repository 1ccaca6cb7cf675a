/**
 The CompanyTask state machine: the immutable transition table, the waiting states
 and the resume state a task returns to.
 */
module CompanyTasks {
  import opened Basics

  datatype State =
    | Draft | Analyzing | AwaitingUserConfirmation | RevisionRequested | Approved | Rejected
    | Dispatching | CheckingResources | Executing | Reviewing | Fixing | FinalReview | Completed
    | WaitingDependency | WaitingResource | WaitingPermission | Paused
    | Cancelling | Cancelled | Failed

  /** The transition table. */
  function Targets(s: State): set<State> {
    match s
    case Draft => {Analyzing, Cancelling}
    case Analyzing => {AwaitingUserConfirmation, WaitingResource, Cancelling, Failed}
    case AwaitingUserConfirmation => {Approved, RevisionRequested, Rejected, Cancelling}
    case RevisionRequested => {Analyzing, Rejected, Cancelling}
    case Approved => {Dispatching, Cancelling}
    case Dispatching => {CheckingResources, WaitingDependency, WaitingResource, Cancelling, Failed}
    case CheckingResources =>
      {Executing, WaitingDependency, WaitingResource, WaitingPermission, Cancelling, Failed}
    case Executing =>
      {Reviewing, WaitingDependency, WaitingResource, WaitingPermission, Paused, Cancelling, Failed}
    case Reviewing => {Fixing, FinalReview, WaitingResource, WaitingPermission, Paused, Cancelling, Failed}
    case Fixing => {Reviewing, WaitingResource, WaitingPermission, Paused, Cancelling, Failed}
    case FinalReview => {Completed, Fixing, WaitingResource, WaitingPermission, Paused, Cancelling, Failed}
    case WaitingDependency | WaitingResource | WaitingPermission | Paused => {Cancelling, Failed}
    case Cancelling => {Cancelled, Failed}
    case Rejected | Completed | Cancelled | Failed => {}
  }

  predicate Waiting(s: State) {
    s == WaitingDependency || s == WaitingResource || s == WaitingPermission || s == Paused
  }

  predicate Terminal(s: State) {
    s == Rejected || s == Completed || s == Cancelled || s == Failed
  }

  /** `can_transition`: a table edge, or a waiting state returning to the given resume state. */
  predicate CanTransition(current: State, target: State, resume: Option<State>) {
    target in Targets(current) || (Waiting(current) && resume == Some(target))
  }

  datatype Outcome = Illegal | ResumeStateRequired | Moved(cleared: Option<State>)

  /** `transition`: reports the resume state the caller has to clear when leaving a waiting state. */
  function Transition(current: State, target: State, resume: Option<State>): Outcome {
    if !CanTransition(current, target, resume) then Illegal
    else if Waiting(target) then if resume.None? then ResumeStateRequired else Moved(None)
    else if Waiting(current) then Moved(resume)
    else Moved(None)
  }

  /** `validate_resume_state` */
  predicate ResumeStateValid(s: State, resume: Option<State>) {
    Waiting(s) <==> resume.Some?
  }

  /** A task row as far as the machine is concerned. */
  datatype Row = Row(state: State, resume: Option<State>)

  /** The resume state a disciplined caller passes: the recorded one, or the state being left. */
  function PassedResume(row: Row, target: State): Option<State> {
    if Waiting(row.state) then row.resume else if Waiting(target) then Some(row.state) else None
  }

  /** One disciplined move of a row to `target`. */
  function Move(row: Row, target: State): Option<Row> {
    if Transition(row.state, target, PassedResume(row, target)).Moved?
    then Some(Row(target, if Waiting(target) then PassedResume(row, target) else None))
    else None
  }

  /** Each row is the move of the one before. */
  ghost predicate IsPath(path: seq<Row>) {
    path != [] && forall i :: 0 < i < |path| ==> Move(path[i - 1], path[i].state) == Some(path[i])
  }

  ghost predicate IsRun(run: seq<Row>) {
    IsPath(run) && run[0] == Row(Draft, None)
  }

  /** The states in which approved work is being carried out. */
  predicate Working(s: State) {
    s in {Dispatching, CheckingResources, Executing, Reviewing, Fixing, FinalReview}
  }

  /** The row is at work, suspended out of work, or done with it. */
  predicate AtWork(row: Row) {
    Working(row.state) || row.state == Completed || (row.resume.Some? && Working(row.resume.value))
  }

  /** Only analysis and work can be suspended, so a resume state is never itself a waiting state. */
  lemma {:induction false} RowsStayValid(run: seq<Row>, i: nat)
    requires IsRun(run) && i < |run|
    ensures ResumeStateValid(run[i].state, run[i].resume)
    ensures run[i].resume.Some? ==> run[i].resume.value == Analyzing || Working(run[i].resume.value)
  {
    if i > 0 {
      RowsStayValid(run, i - 1);
      assert Move(run[i - 1], run[i].state) == Some(run[i]);
    }
  }

  /** What a run must show before its `i`-th row: the user was asked, and then approved. */
  ghost predicate ApprovedBefore(run: seq<Row>, i: nat) {
    exists j :: 0 < j < i <= |run| && run[j].state == Approved && run[j - 1].state == AwaitingUserConfirmation
  }

  /** One move into work comes from work or from approval, and approval from the user. */
  lemma {:induction false} WayIn(row: Row, next: Row)
    requires Move(row, next.state) == Some(next) && ResumeStateValid(row.state, row.resume)
    requires row.resume.Some? ==> row.resume.value == Analyzing || Working(row.resume.value)
    ensures AtWork(next) ==> row.state == Approved || AtWork(row)
    ensures next.state == Approved ==> row.state == AwaitingUserConfirmation
  {
  }

  lemma {:induction false} WayInOfRun(run: seq<Row>, i: nat)
    requires IsRun(run) && 0 < i < |run|
    ensures AtWork(run[i]) ==> run[i - 1].state == Approved || AtWork(run[i - 1])
    ensures run[i].state == Approved ==> run[i - 1].state == AwaitingUserConfirmation
  {
    RowsStayValid(run, i - 1);
    WayIn(run[i - 1], run[i]);
  }

  /** No task works, waits out of work or completes unless the user approved it first. */
  lemma {:induction false} ApprovalPrecedesWork(run: seq<Row>, i: nat)
    requires IsRun(run) && i < |run| && AtWork(run[i])
    ensures ApprovedBefore(run, i)
  {
    if i > 0 {
      WayInOfRun(run, i);
      if run[i - 1].state == Approved {
        WayInOfRun(run, i - 1);
      } else {
        ApprovalPrecedesWork(run, i - 1);
      }
    }
  }

  lemma {:induction false} WayOut(row: Row, next: Row)
    requires Move(row, next.state) == Some(next) && ResumeStateValid(row.state, row.resume)
    requires row.resume.Some? ==> row.resume.value == Analyzing || Working(row.resume.value)
    ensures !Terminal(row.state) && (next.state == Completed ==> row.state == FinalReview)
  {
  }

  /** Completion has one way in, and a terminal row never moves again. */
  lemma {:induction false} CompletionAndTermination(run: seq<Row>, i: nat, j: nat)
    requires IsRun(run) && i <= j < |run|
    ensures i > 0 && run[i].state == Completed ==> run[i - 1].state == FinalReview
    ensures Terminal(run[i].state) ==> i + 1 == |run| && i == j
  {
    if i > 0 {
      RowsStayValid(run, i - 1);
      WayOut(run[i - 1], run[i]);
    }
    if i + 1 < |run| {
      RowsStayValid(run, i);
      WayOut(run[i], run[i + 1]);
    }
  }

  /**
   `transition` itself does not compare the resume state it is given with anything: a
   caller that passes another one takes an unapproved draft to completion in four
   accepted calls, three of them along the table.
   */
  lemma {:induction false} ResumeStateIsTrusted()
    ensures Transition(Draft, Analyzing, None) == Moved(None)
    ensures Transition(Analyzing, WaitingResource, Some(Analyzing)) == Moved(None)
    ensures Transition(WaitingResource, FinalReview, Some(FinalReview)) == Moved(Some(FinalReview))
    ensures Transition(FinalReview, Completed, None) == Moved(None)
  {
  }

  /**
   Exactly which accepted calls go beyond the disciplined move: those that leave a waiting
   row, along no edge of the table, for a state that was passed but not recorded.
   */
  lemma {:induction false} BeyondMoveExactly(row: Row, target: State, passed: Option<State>)
    requires !Waiting(target)
    ensures Transition(row.state, target, passed).Moved? && Move(row, target).None? <==>
            && Waiting(row.state) && target !in Targets(row.state)
            && passed == Some(target) && row.resume != Some(target)
  {
  }

  /**
   Past approval: states from which a disciplined row never asks the user again.
   Moves keep it, so one approval is final.
   */
  predicate PastApproval(row: Row) {
    && ResumeStateValid(row.state, row.resume)
    && row.state !in {Draft, Analyzing, AwaitingUserConfirmation, RevisionRequested}
    && (row.resume.Some? ==> Working(row.resume.value))
  }

  lemma {:induction false} PastApprovalIsFinal(row: Row, target: State)
    requires PastApproval(row) && Move(row, target).Some?
    ensures PastApproval(Move(row, target).value)
  {
  }

  // ---- What the machine can do ------------------------------------------------------------

  /** The table read from its targets: where each state can be entered from. */
  predicate EnteredFrom(t: State, s: State) {
    match t
    case Draft => false
    case Analyzing => s.Draft? || s.RevisionRequested?
    case AwaitingUserConfirmation => s.Analyzing?
    case RevisionRequested | Approved => s.AwaitingUserConfirmation?
    case Rejected => s.AwaitingUserConfirmation? || s.RevisionRequested?
    case Dispatching => s.Approved?
    case CheckingResources => s.Dispatching?
    case Executing => s.CheckingResources?
    case Reviewing => s.Executing? || s.Fixing?
    case Fixing => s.Reviewing? || s.FinalReview?
    case FinalReview => s.Reviewing?
    case Completed => s.FinalReview?
    case WaitingDependency => s.Dispatching? || s.CheckingResources? || s.Executing?
    case WaitingResource => Working(s) || s.Analyzing?
    case WaitingPermission => Working(s) && !s.Dispatching?
    case Paused => Working(s) && !s.Dispatching? && !s.CheckingResources?
    case Cancelling => !Terminal(s) && !s.Cancelling?
    case Cancelled => s.Cancelling?
    case Failed => Working(s) || Waiting(s) || s.Analyzing? || s.Cancelling?
  }

  lemma {:induction false} TableOfWork(t: State, s: State)
    requires Working(s)
    ensures t in Targets(s) <==> EnteredFrom(t, s)
  {
    match s
    case Dispatching =>
    case CheckingResources =>
    case Executing =>
    case Reviewing =>
    case Fixing =>
    case FinalReview =>
  }

  lemma {:induction false} TableOfWaiting(t: State, s: State)
    requires Waiting(s) || Terminal(s) || s.Cancelling?
    ensures t in Targets(s) <==> EnteredFrom(t, s)
  {
    match s
    case WaitingDependency =>
    case WaitingResource =>
    case WaitingPermission =>
    case Paused =>
    case Rejected =>
    case Completed =>
    case Cancelled =>
    case Failed =>
    case Cancelling =>
  }

  /** Read from its targets, the table has exactly these edges. */
  lemma {:induction false} TableFromTargets(t: State, s: State)
    ensures t in Targets(s) <==> EnteredFrom(t, s)
  {
    match s
    case Draft =>
    case Analyzing =>
    case AwaitingUserConfirmation =>
    case RevisionRequested =>
    case Approved =>
    case _ =>
      if Working(s) {
        TableOfWork(t, s);
      } else {
        TableOfWaiting(t, s);
      }
  }

  /** A call moves a row that is not waiting along the table only, and a waiting one back to the state it passes too. */
  lemma {:induction false} TransitionMeaning(current: State, target: State, resume: Option<State>)
    ensures Transition(current, target, resume).Illegal? <==>
            !EnteredFrom(target, current) && !(Waiting(current) && resume == Some(target))
    ensures Transition(current, target, resume).ResumeStateRequired? <==>
            EnteredFrom(target, current) && Waiting(target) && resume.None?
    ensures Transition(current, target, resume).Moved? ==>
              Transition(current, target, resume).cleared
                == if Waiting(current) && !Waiting(target) then resume else None
  {
    TableFromTargets(target, current);
  }

  /** How far a working state is from `completed`. */
  function ToGo(s: State): nat
    requires Working(s)
  {
    match s
    case Dispatching => 5
    case CheckingResources => 4
    case Executing => 3
    case Fixing => 3
    case Reviewing => 2
    case FinalReview => 1
  }

  lemma {:induction false} Prepended(row: Row, path: seq<Row>)
    requires IsPath(path) && Move(row, path[0].state) == Some(path[0])
    ensures IsPath([row] + path)
  {
    var all := [row] + path;
    forall i | 0 < i < |all|
      ensures Move(all[i - 1], all[i].state) == Some(all[i])
    {
      if i > 1 {
        assert Move(path[i - 2], path[i - 1].state) == Some(path[i - 1]);
      }
    }
  }

  /** Every working state reaches `completed`. */
  lemma {:induction false} WorkCanComplete(s: State) returns (path: seq<Row>)
    requires Working(s)
    ensures IsPath(path) && path[0] == Row(s, None) && path[|path| - 1] == Row(Completed, None)
    ensures |path| == ToGo(s) + 1
    decreases ToGo(s)
  {
    if s == FinalReview {
      path := [Row(FinalReview, None), Row(Completed, None)];
    } else {
      var next := match s
        case Dispatching => CheckingResources
        case CheckingResources => Executing
        case Executing => Reviewing
        case Fixing => Reviewing
        case Reviewing => FinalReview;
      path := WorkCanComplete(next);
      Prepended(Row(s, None), path);
      path := [Row(s, None)] + path;
    }
  }

  /** So does work that is suspended: it resumes where it was. */
  lemma {:induction false} SuspendedWorkCanComplete(row: Row) returns (path: seq<Row>)
    requires Waiting(row.state) && row.resume.Some? && Working(row.resume.value)
    ensures IsPath(path) && path[0] == row && path[|path| - 1] == Row(Completed, None)
  {
    path := WorkCanComplete(row.resume.value);
    Prepended(row, path);
    path := [row] + path;
  }

  /** Whatever is not over can be cancelled. */
  lemma {:induction false} CanBeCancelled(row: Row)
    requires !Terminal(row.state) && row.state != Cancelling
    ensures Move(row, Cancelling) == Some(Row(Cancelling, None))
    ensures Move(Row(Cancelling, None), Cancelled) == Some(Row(Cancelled, None))
  {
    TableFromTargets(Cancelling, row.state);
  }

  /** The four edges the confirmation transaction applies, in order. */
  const CONFIRMATION_PATH: seq<State> :=
    [AwaitingUserConfirmation, Approved, Dispatching, CheckingResources, Executing]

  lemma {:induction false} ConfirmationPathIsLegal(k: nat)
    requires k + 1 < |CONFIRMATION_PATH|
    ensures Move(Row(CONFIRMATION_PATH[k], None), CONFIRMATION_PATH[k + 1]) == Some(Row(CONFIRMATION_PATH[k + 1], None))
  {
  }
}
