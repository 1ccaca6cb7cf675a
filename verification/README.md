# iBreeze: task graph, single writer and the pieces around them

This project models the decision logic of iBreeze in Dafny and proves what that logic keeps.
Tables are sequences, sets and maps; ids are positions or fresh values; a transaction is a
step that commits or leaves the database as it was; time is an integer; foreign queries are
parameters.

* **Plan to graph to completion.** `PlanGraph` and `PlanValidator` check a plan,
  `Preflight` is the memoised resource check, `ConfirmPlan` the confirming transaction,
  `ConfirmedGraph` what that transaction leaves behind, `TagOrder`, `DispatchStrategies` and
  `LazyDispatch` the later dispatch of deferred segments, `CompletionHandlers` the
  start, submit, accept and complete commands, `Outbox` event delivery. `ProtocolSteps`
  is the whole transition system, whose invariant `TaskGraph`, `ProtocolReferences` and
  `TaskProtocol` hold; in it confirmations, handlers and deliveries happen in any order and
  any number. `TaskTheorems` reads the
  protocol-level results off it, `ConfirmationTheorems` what a confirmation does in any
  reachable state, `ConfirmedRows` and `DeliveryEffects` what confirmations, commands and
  deliveries do field by field, in terms of the rows alone, `StalledTasks` which tasks nothing
  ever wakes, and `Examples` has runs into states where the code surprises.
  `CompanyTasks` is the company-task state machine.
* **Single writer.** `WriteQueue` is the bounded FIFO with expiry, cancellation and rollback,
  `QueueHistory` how each envelope ends; `UnitOfWork` is the idempotent command execution
  inside it, and its theorems, with those of `CallEffects`, are about units of work submitted
  to that queue.
* **Canonical JSON.** `Utf16`, `CanonicalJson`, `JsonTexts`, `JsonEquality`, `JsonKeyOrder`,
  and `JsonReader`, an independent reader.
* **Credentials.** `Credentials` is the index file and the keychain under failures and crashes,
  `CredentialOutcomes` what the operations achieve.
* **Reviewer ledger, rank fusion, restart throttle.** `ReviewLedger`, `RankFusion` with
  `FusionLaws`, `RestartThrottle`.

What the source updates in place is a class or a method with loops, proved equal to a function
of the old state; the results over whole runs are lemmas about those functions.

## Where the code differs from what one would expect

* Confirming inserts a department that waits for another one without a resume state, and the
  shipped CHECK on `department_tasks` refuses such a row
  (`sidecar/ibreeze/persistence/migrations/001_initial.sql:473-504`). On the shipped tables a
  plan is therefore confirmed only if no department depends on an earlier one; the
  repository's own test supplies the missing value
  (`sidecar/tests/test_confirm_plan_coverage_gaps.py:92-121`). `Schema` covers both, every
  theorem holds for both, `ShippedTablesRefuseDependentPlans` is the exact condition, and
  `DependentPlanIsRefused` a run to such a plan.
* Forward and self references between departments are dropped at confirmation;
  `NothingLostExactlyInTopologicalOrder` says exactly when nothing is lost, and
  `ForwardReferenceIsLost` is a run in which something is.
* Even with the resume state supplied, nothing ever wakes a department that waits for another
  one, nor its tasks: acceptance wakes followers in a chain only, and the completion of a
  department wakes nobody. `WaitsForEverExactlyWhenStuck` says exactly which waiting tasks stay
  so in all continuations, `StuckExactlyInDependentDepartments` that these are the tasks of
  the dependent departments, and `DependentPlanNeverCompletes` that the company task of a plan
  with a backward dependency is never completed, under either schema.
* Confirmation accepts blank and untrimmed capability tags, and the parser of the frozen spec
  does not, so every deferred segment of such a plan fails
  (`DeferredSegmentIsSettledByItsTags`, and the run `BlankTagFailsTheSegment`). Eager and lazy
  dispatch are meant to build the identical rows (`sidecar/ibreeze/orchestration/run_builder.py:1-8`). The row of the run is
  identical exactly for strictly sorted tags (`LazyRunEqualsEagerRunExactlyWhenSorted`); the
  availability snapshot beside it never is, because only confirmation records a
  `runtime_binding` check (`sidecar/ibreeze/orchestration/confirm_plan.py:317-323`).
* A waking `graph_advance` delivery raises, and stays pending, exactly when some due dependent
  of the same task is to be dispatched and its routing candidates cannot be resolved
  (`WakingDeliveryCommits`, and the run `RoutingFailureRaises`). `HandleRaisesExactly` has the
  condition for every topic; a raising row undoes its whole batch. A missing employee row would
  raise too (`AdvanceRaisesExactly`), but the foreign key of `employee_tasks`
  (`sidecar/ibreeze/persistence/migrations/001_initial.sql:554`) rules it out.
* `transition` compares the resume state it is given with nothing (`ResumeStateIsTrusted`);
  `BeyondMoveExactly` says which calls take advantage of that. The results about company-task
  runs are about callers that pass the recorded one.
* The company handler writes `completed` over any status; this is an edge of the state machine
  exactly from `final_review`, and `IllegalCompletionIsReachable` is a run to another one.
* A replayed response is the original exactly when it is not a bare string.
* A failed credential update writes the old metadata version back, so the counter goes
  `v, v + 1, v` within one call; between calls it never drops. No operation takes an entry
  out of `creating`, `updating` or `deleting` once a call has left it there.
* Keys with lone surrogates can make canonical text depend on insertion order
  (`IllFormedKeysShowTheirOrder`); section 3.1 of RFC 8785 excludes them, and
  `TextIgnoresOrderExactlyWhenKeysApart` is the exact condition.

## Model

| member | source | states |
|---|---|---|
| `PlanGraph.HasCycle` | sidecar/ibreeze/orchestration/plan_validator.py:207-224 | terminates and returns true exactly when the dependency graph over known references has a directed cycle, self-loops included; false comes with a topological order |
| `PlanGraph.CycleFinder.Visit` | sidecar/ibreeze/orchestration/plan_validator.py:212-222 | one depth-first visit finds a cycle or leaves the finished nodes listed with dependencies first |
| `PlanGraph.WalkDescends` | sidecar/ibreeze/orchestration/plan_validator.py:207-224 | along any walk positions in a dependencies-first order strictly decrease |
| `PlanGraph.OrderedIsAcyclic` | sidecar/ibreeze/orchestration/plan_validator.py:207-224 | a graph with a topological order has no cycle |
| `PlanGraph.ClosedWalkIsCycle` | sidecar/ibreeze/orchestration/plan_validator.py:212-216 | meeting a node that is still being visited closes a cycle through the stack |
| `PlanGraph.NodesAreDeclared` | sidecar/ibreeze/orchestration/plan_validator.py:208-208 | the nodes of the graph are exactly the declared references |
| `PlanGraph.LastDeclarationCounts` | sidecar/ibreeze/orchestration/plan_validator.py:208-208 | a reference has the dependencies of the last task that declares it |
| `PlanValidator.ValidatePlan` | sidecar/ibreeze/orchestration/plan_validator.py:69-204 | reports exactly the rules the plan breaks; no issue means unique references, closed dependencies and a topological order |
| `PlanValidator.CheckTask` | sidecar/ibreeze/orchestration/plan_validator.py:103-182 | reports exactly the rules one department task breaks |
| `PlanValidator.CheckDeliverables` | sidecar/ibreeze/orchestration/plan_validator.py:130-156 | reports exactly the deliverables with missing, foreign or overlapping people or no review set-up |
| `PlanValidator.CheckWrites` | sidecar/ibreeze/orchestration/plan_validator.py:165-182 | reports exactly the external writes that are malformed or forbidden |
| `PlanValidator.HasDuplicate` | sidecar/ibreeze/orchestration/plan_validator.py:93-102 | comparing the number of references with the size of their set finds exactly the repeated ones |
| `PlanValidator.NoViolationMeansClosedRefs` | sidecar/ibreeze/orchestration/plan_validator.py:93-129 | a plan that breaks no rule has unique references and depends only on other declared tasks |
| `PlanValidator.PassesExactly` | sidecar/ibreeze/orchestration/plan_validator.py:69-204 | a plan passes exactly when it is complete, every task has an eligible and led department, permitted writes, enabled tags and reviewable deliverables, and references are unique, closed and acyclic; stated without the issue codes |
| `Plans.StripMeaning` | sidecar/ibreeze/orchestration/dispatch_strategies.py:43-65 | blank means that stripping leaves nothing, trimmed that it leaves everything |
| `CompanyTasks.RowsStayValid` | sidecar/ibreeze/state_machine.py:818-831 | in every disciplined run a row has a resume state exactly while waiting, and it is analysis or a working state |
| `CompanyTasks.ApprovalPrecedesWork` | sidecar/ibreeze/state_machine.py:51-183 | work, suspended work and completion are preceded by `approved`, and that directly by `awaiting_user_confirmation` |
| `CompanyTasks.CompletionAndTermination` | sidecar/ibreeze/state_machine.py:51-183 | `completed` is entered only from `final_review`; nothing follows a terminal state |
| `CompanyTasks.ResumeStateIsTrusted` | sidecar/ibreeze/state_machine.py:745-815 | a caller that passes another resume state takes an unapproved draft to `completed` |
| `CompanyTasks.BeyondMoveExactly` | sidecar/ibreeze/state_machine.py:745-815 | an accepted call to a state that is not waiting goes beyond the disciplined move exactly when it leaves a waiting row, along no edge of the table, for a state that was passed but not recorded |
| `CompanyTasks.PastApprovalIsFinal` | sidecar/ibreeze/state_machine.py:51-183 | a row past approval never returns to a state that asks the user |
| `CompanyTasks.ConfirmationPathIsLegal` | sidecar/ibreeze/orchestration/confirm_plan.py:795-800 | the four status changes of a confirmation are edges of the state machine |
| `CompanyTasks.TableFromTargets` | sidecar/ibreeze/state_machine.py:51-183 | the table read the other way: from which states each state is entered, edge by edge |
| `CompanyTasks.TransitionMeaning` | sidecar/ibreeze/state_machine.py:745-815 | exactly when a call is illegal or lacks a resume state, and which resume state the caller has to clear |
| `CompanyTasks.WorkCanComplete` | sidecar/ibreeze/state_machine.py:51-183 | every working state reaches `completed` |
| `CompanyTasks.SuspendedWorkCanComplete` | sidecar/ibreeze/state_machine.py:51-183 | so does work that is suspended |
| `CompanyTasks.CanBeCancelled` | sidecar/ibreeze/state_machine.py:51-183 | whatever is neither over nor being cancelled can be cancelled |
| `Preflight.PrepareEmployeeResources` | sidecar/ibreeze/orchestration/confirm_plan.py:131-357 | the preflight with its employee cache and its sets of checked tags accepts a plan exactly when the uncached check of every person on every department task passes |
| `Preflight.CheckTask` | sidecar/ibreeze/orchestration/confirm_plan.py:149-357 | one department task through the cache: same verdict as uncached, cache stays valid |
| `Preflight.CheckDeliverable` | sidecar/ibreeze/orchestration/confirm_plan.py:149-357 | the same for the contributors and reviewers of one deliverable, each looked at once |
| `Preflight.CheckEmployee` | sidecar/ibreeze/orchestration/confirm_plan.py:37-69 | the same for one employee, whether remembered or looked up |
| `ConfirmPlan.Transaction.ConfirmAndDispatch` | sidecar/ibreeze/orchestration/confirm_plan.py:406-858 | confirms exactly when the command fits, resources are there and the tables accept the rows; then the database is the one specified; otherwise it replies with the task's version, or raises the error of the first check that fails |
| `ConfirmPlan.Transaction.ConfirmAtomically` | sidecar/ibreeze/orchestration/confirm_plan.py:406-858 | under the writer's transaction: the whole confirmation or no change |
| `ConfirmPlan.Transaction.WriteConfirmation` | sidecar/ibreeze/orchestration/confirm_plan.py:533-854 | the writes succeed exactly when no constraint stops them, and leave the specified database |
| `ConfirmPlan.HasDuplicateType` | sidecar/ibreeze/orchestration/confirm_plan.py:448-459 | the scan finds a repeated artifact type exactly when there is one |
| `ConfirmPlan.InsertGraph` | sidecar/ibreeze/orchestration/confirm_plan.py:533-759 | the nested loops create the specified department rows, edges, tasks, chains, specs and runs, or stop at a refused row |
| `ConfirmPlan.InsertStage` | sidecar/ibreeze/orchestration/confirm_plan.py:533-759 | one department with all its contributors |
| `ConfirmPlan.InsertDepartment` | sidecar/ibreeze/orchestration/confirm_plan.py:540-575 | the department row waits exactly when it depends on one created before; its edges follow |
| `ConfirmPlan.RecordEdges` | sidecar/ibreeze/orchestration/confirm_plan.py:565-575 | one edge per dependency already created; a self reference is ignored by the CHECK |
| `ConfirmPlan.InsertDeliverables` | sidecar/ibreeze/orchestration/confirm_plan.py:578-759 | the deliverables of a department in order |
| `ConfirmPlan.InsertContributors` | sidecar/ibreeze/orchestration/confirm_plan.py:616-759 | the contributors the strategy keeps, each chained to the one before in a sequential refinement |
| `ConfirmPlan.InsertContributor` | sidecar/ibreeze/orchestration/confirm_plan.py:622-758 | one task row, with an edge and a frozen spec or with a queued run |
| `ConfirmPlan.ApplyPath` | sidecar/ibreeze/orchestration/confirm_plan.py:795-854 | four status changes with consecutive versions, one event and one outbox row each |
| `ConfirmedGraph.SlotAt` | sidecar/ibreeze/orchestration/confirm_plan.py:578-645 | every contributor the strategy keeps has its task, at a place given by the plan |
| `ConfirmedGraph.SlotFrom` | sidecar/ibreeze/orchestration/confirm_plan.py:578-645 | every created task stands for one such contributor |
| `ConfirmedGraph.OneSlotEach` | sidecar/ibreeze/orchestration/confirm_plan.py:578-645 | different contributors have different places |
| `ConfirmedGraph.ContributorTask` | sidecar/ibreeze/orchestration/confirm_plan.py:622-650 | the row at that place belongs to the contributor and its department, and is assigned exactly when neither the chain nor the department waits |
| `ConfirmedGraph.ContributorChain` | sidecar/ibreeze/orchestration/confirm_plan.py:656-668 | a task has an edge to its predecessor and one from its successor exactly within a sequential deliverable |
| `ConfirmedGraph.ContributorSpec` | sidecar/ibreeze/orchestration/confirm_plan.py:679-720 | a frozen spec exactly for a deferred contributor |
| `ConfirmedGraph.ContributorRun` | sidecar/ibreeze/orchestration/confirm_plan.py:722-758 | no run for a deferred contributor, exactly one for any other |
| `ConfirmedGraph.ConfirmCreatesNothingElse` | sidecar/ibreeze/orchestration/confirm_plan.py:533-759 | every place among the new tasks is some contributor's |
| `ConfirmationTheorems.ConfirmedTask` | sidecar/ibreeze/orchestration/confirm_plan.py:622-650 | in every reachable state a confirmation gives each contributor the strategy keeps a task in its department, waiting exactly when its chain or the department does and assigned otherwise |
| `ConfirmationTheorems.ConfirmedContributor` | sidecar/ibreeze/orchestration/confirm_plan.py:656-758 | that task has exactly one of a queued run and a frozen spec, the spec exactly when it has an upstream edge |
| `ConfirmationTheorems.ConfirmedChain` | sidecar/ibreeze/orchestration/confirm_plan.py:656-668 | the edges of that task in both directions: each sequential deliverable is one chain in contributor order, and there are no other edges |
| `ConfirmationTheorems.OneTaskPerContributor` | sidecar/ibreeze/orchestration/confirm_plan.py:533-759 | every new task is some contributor's, and no two contributors share one |
| `ConfirmationTheorems.ConfirmedTables` | sidecar/ibreeze/orchestration/confirm_plan.py:533-759 | what a confirmation adds to each table |
| `ConfirmationTheorems.RecordedEdgesAreBackwardEdges` | sidecar/ibreeze/orchestration/confirm_plan.py:533-575 | in every reachable state the recorded department edges of a confirmation are exactly the plan's backward edges, and all department edges stay acyclic |
| `ConfirmationTheorems.WaitsExactlyWhenRecorded` | sidecar/ibreeze/orchestration/confirm_plan.py:540-575 | a department starts `waiting_dependency` exactly when an edge of it was recorded |
| `ConfirmationTheorems.NothingLostExactlyInTopologicalOrder` | sidecar/ibreeze/orchestration/confirm_plan.py:540-575 | all edges of the plan are recorded exactly when it lists dependencies first |
| `ConfirmationTheorems.ConfirmedSpecIsFrozen` | sidecar/ibreeze/orchestration/confirm_plan.py:679-720 | the spec frozen for a deferred contributor is one that the confirming checks vouch for, in the department the plan names |
| `ConfirmationTheorems.DeferredSegmentIsSettledByItsTags` | sidecar/ibreeze/orchestration/dispatch_strategies.py:204-326 | from confirmation to dispatch: once a deferred segment is due and the resource rows are as they were, the waking delivery gives it its one run if its tags are trimmed and not blank, and fails it otherwise |
| `ConfirmationTheorems.RunPersists` | sidecar/ibreeze/orchestration/dispatch_strategies.py:329-350 | frozen specs and the departments they point to stay as they are over every continuation |
| `ConfirmedRows.ContributorHasTask` | sidecar/ibreeze/orchestration/confirm_plan.py:616-650 | position p of a deliverable has a task, in plan order and with every field of its row, if p is 0 or the strategy is not primary with peer review |
| `ConfirmedRows.NobodyElseHasTask` | sidecar/ibreeze/orchestration/confirm_plan.py:616-650 | there are as many new tasks as such positions, each new task is exactly one such position's, and older tasks stay |
| `ConfirmedRows.RefinerIsDeferred` | sidecar/ibreeze/orchestration/confirm_plan.py:679-720 | every later contributor of a sequential deliverable has no run and a frozen spec with the plan's tags and the resolved profile, catalog and grant, field by field |
| `ConfirmedRows.OthersAreQueued` | sidecar/ibreeze/orchestration/confirm_plan.py:722-758 | everybody else has a queued run with those fields |
| `ConfirmedRows.OthersHaveOneRun` | sidecar/ibreeze/orchestration/confirm_plan.py:656-758 | that run is the only one, and there is no spec |
| `ConfirmedRows.FollowsExactly` | sidecar/ibreeze/orchestration/confirm_plan.py:656-668 | who refines follows the task before it and no other; nobody else follows anybody |
| `ConfirmedRows.DepartmentHasRow` | sidecar/ibreeze/orchestration/confirm_plan.py:540-575 | every field of each department row, and how many there are |
| `ConfirmedRows.ConfirmationFrame` | sidecar/ibreeze/orchestration/confirm_plan.py:760-854 | what else changes: this company task, its plan, the plan's artifact; no other company task, no resource |
| `ConfirmedRows.ConfirmationAnnounces` | sidecar/ibreeze/orchestration/confirm_plan.py:795-854 | the four events and the four pending outbox rows, in order |
| `ConfirmedRows.ConfirmsExactly` | sidecar/ibreeze/orchestration/confirm_plan.py:406-575 | a confirmation changes the database exactly when state, version, sha, artifact types, workspace, grant, catalog, departments, every contributor and reviewer, stage keys and routing are as required, each condition stated on the rows |
| `ConfirmedGraph.ConfirmExtends` | sidecar/ibreeze/orchestration/confirm_plan.py:533-759 | the database after a confirmation is the old one with the plan's rows added, which is what the lemmas above are about |
| `ConfirmedGraph.ShippedTablesRefuseDependentPlans` | sidecar/ibreeze/persistence/migrations/001_initial.sql:473-504 | on the shipped tables an otherwise confirmable plan is confirmed exactly when no department depends on an earlier one |
| `Examples.DependentPlanIsRefused` | sidecar/ibreeze/persistence/migrations/001_initial.sql:473-504 | a run to a two-department plan that is confirmable but for that CHECK |
| `Examples.ForwardReferenceIsLost` | sidecar/ibreeze/orchestration/confirm_plan.py:565-575 | a run to a plan that is confirmed and loses a dependency listed forward |
| `ConfirmedGraph.ConfirmationWalksThePath` | sidecar/ibreeze/orchestration/confirm_plan.py:795-854 | four legal edges with consecutive versions, one event and one outbox row each |
| `ConfirmedGraph.ConfirmedIsExecuting` | sidecar/ibreeze/orchestration/confirm_plan.py:795-854 | the company task ends up executing, four versions on, and no command can confirm it from there |
| `TagOrder.SortTagsSorts` | sidecar/ibreeze/orchestration/dispatch_strategies.py:43-65 | the parsed tags are strictly sorted and have exactly the given members |
| `TagOrder.SortTagsKeeps` | sidecar/ibreeze/orchestration/dispatch_strategies.py:43-65 | sorting changes nothing exactly when the list was strictly sorted |
| `DispatchStrategies.Advance` | sidecar/ibreeze/orchestration/dispatch_strategies.py:182-326 | equals the specified advance; `dispatched` and `failed` list exactly the waiting tasks that became assigned and failed |
| `DispatchStrategies.AdvanceRaisesExactly` | sidecar/ibreeze/orchestration/dispatch_strategies.py:217-326 | the advance raises exactly when some due dependent has no employee row or is to be dispatched and cannot be routed |
| `DispatchStrategies.AdvanceOutcome` | sidecar/ibreeze/orchestration/dispatch_strategies.py:217-326 | for every task: assigned with one new run exactly on a passing check, failed with none exactly on a failing one, untouched unless it is a due dependent |
| `DispatchStrategies.AdvanceFrame` | sidecar/ibreeze/orchestration/dispatch_strategies.py:217-326 | the loop changes no row it has not reached, no employee, and no row into or out of `accepted` |
| `LazyDispatch.FrozenTagsReadBack` | sidecar/ibreeze/orchestration/dispatch_strategies.py:43-65 | frozen tags are read back, sorted, exactly when all are trimmed and not blank |
| `LazyDispatch.LazyCheckAgreesExactlyOnUsableTags` | sidecar/ibreeze/orchestration/dispatch_strategies.py:353-493 | on unchanged rows the later check agrees with confirmation exactly on such tags |
| `LazyDispatch.BlankTagExample` | sidecar/ibreeze/orchestration/confirm_plan.py:37-69 | a blank tag passes confirmation and can never be dispatched |
| `LazyDispatch.LazyRunEqualsEagerRunExactlyWhenSorted` | sidecar/ibreeze/orchestration/run_builder.py:1-55 | the row of the lazily built run equals that of the eagerly built one exactly when the tags are strictly sorted |
| `DeliveryEffects.DriftDecides` | sidecar/ibreeze/orchestration/dispatch_strategies.py:217-493 | in every reachable state a committed waking delivery gives a due task its run, with sorted tags and every field, exactly when its tags are readable, its employee is active in the department, the frozen profile version is published and active on the frozen release with all tags, and the workspace is active with the same active grant; if any of these has drifted it is failed without a run |
| `DeliveryEffects.VerdictMeaning` | sidecar/ibreeze/orchestration/dispatch_strategies.py:353-493 | the verdict on a spec in terms of the rows alone |
| `DeliveryEffects.ParsedTags` | sidecar/ibreeze/orchestration/dispatch_strategies.py:43-65 | which stored tags can be read, and that reading sorts them |
| `DeliveryEffects.AdvanceTouchesOnlyReleased` | sidecar/ibreeze/orchestration/dispatch_strategies.py:204-326 | an advance leaves every task that does not wait for this acceptance alone, and every other table |
| `CompletionHandlers.TaskHandlers.StartEmployeeTask` | sidecar/ibreeze/application/completion_handlers.py:602-654 | starts from assigned or ready at the expected version, is a no-op when running, refuses otherwise |
| `CompletionHandlers.TaskHandlers.SubmitEmployeeTask` | sidecar/ibreeze/application/completion_handlers.py:657-728 | submits from running, is a no-op when already submitted or later, refuses otherwise |
| `CompletionHandlers.TaskHandlers.AcceptEmployeeTask` | sidecar/ibreeze/application/completion_handlers.py:529-599 | accepts when the gate is open whatever the status, unless the row's CHECK refuses; emits status change and graph advance |
| `CompletionHandlers.TaskHandlers.CompleteDepartmentTask` | sidecar/ibreeze/application/completion_handlers.py:731-790 | completes only through the gate over the department's employee tasks |
| `CompletionHandlers.TaskHandlers.CompleteCompanyTask` | sidecar/ibreeze/application/completion_handlers.py:793-857 | completes only through the gate over the company task's departments |
| `CompletionHandlers.CompletionEdgeIsLegalExactlyFromFinalReview` | sidecar/ibreeze/application/completion_handlers.py:800-811 | the write to `completed` is an edge of the state machine exactly from `final_review` |
| `DeliveryEffects.StartEffect` | sidecar/ibreeze/application/completion_handlers.py:602-654 | a task becomes running only from assigned or ready and only in the expected version, with one event and one outbox row; otherwise nothing changes |
| `DeliveryEffects.SubmitEffect` | sidecar/ibreeze/application/completion_handlers.py:657-728 | the same for submission from running |
| `DeliveryEffects.AcceptEffect` | sidecar/ibreeze/application/completion_handlers.py:529-599 | any task that is not suspended is accepted behind an open gate, and its followers are notified |
| `DeliveryEffects.FinishDepartmentEffect` | sidecar/ibreeze/application/completion_handlers.py:731-790 | a department is completed exactly when nobody in it has anything left to do and it is not suspended |
| `DeliveryEffects.FinishCompanyEffect` | sidecar/ibreeze/application/completion_handlers.py:793-857 | a company task is completed exactly when all its departments are over and it is not suspended |
| `DeliveryEffects.EmployeeRefusals` | sidecar/ibreeze/application/completion_handlers.py:529-728 | which error or no-op each employee command reports |
| `DeliveryEffects.CompletionRefusals` | sidecar/ibreeze/application/completion_handlers.py:731-857 | which error a refused completion reports |
| `Examples.IllegalCompletionIsReachable` | sidecar/ibreeze/application/completion_handlers.py:800-811 | a run after which the handler completes a company task that is still executing |
| `TaskGraph.RowChangeKeepsGraph` | sidecar/ibreeze/application/completion_handlers.py:529-728 | a handler's row change keeps edges, specs and runs consistent |
| `TaskGraph.RowChangeKeepsWoken` | sidecar/ibreeze/application/completion_handlers.py:565-586 | an acceptance emits the wake-up of every task it makes due |
| `TaskGraph.SettleKeepsGraph` | sidecar/ibreeze/orchestration/dispatch_strategies.py:265-325 | dispatching or failing one due task keeps the graph consistent |
| `TaskGraph.AdvanceKeepsGraph` | sidecar/ibreeze/orchestration/dispatch_strategies.py:204-326 | the loop settles exactly the due dependents it has reached and keeps the graph consistent |
| `TaskGraph.AdvanceKeepsWoken` | sidecar/ibreeze/orchestration/dispatch_strategies.py:204-326 | after an advance its own event may be dropped without losing a wake-up |
| `TaskGraph.ConfirmKeepsGraph` | sidecar/ibreeze/orchestration/confirm_plan.py:621-759 | the tasks of a new plan join the graph consistently |
| `TaskGraph.ConfirmKeepsWoken` | sidecar/ibreeze/orchestration/confirm_plan.py:621-759 | no new task is due unannounced, and older wake-ups stay |
| `Outbox.OutboxWorker.Deliver` | sidecar/ibreeze/workers/outbox.py:47-125 | a batch is delivered row by row in one transaction; the first exception undoes all of it |
| `Outbox.HandleExtendsOutbox` | sidecar/ibreeze/application/lifecycle.py:387-566 | a command only appends outbox rows, of less total weight than the event that triggered it |
| `Outbox.DeliveryLowersWeight` | sidecar/ibreeze/events/outbox.py:9-28 | a committed delivery strictly lowers the weight of the pending rows |
| `Outbox.DrainingEnds` | sidecar/ibreeze/events/outbox.py:9-28 | however rows are picked, no more deliveries commit than the outbox weighs |
| `DeliveryEffects.RunDelivered` | sidecar/ibreeze/application/lifecycle.py:428-462 | delivering a completed run submits its task, one version on with one event and one outbox row, exactly when the run succeeded and the task is running; otherwise only the row is marked |
| `DeliveryEffects.ReviewDelivered` | sidecar/ibreeze/application/lifecycle.py:463-496 | a review or a closed issue accepts its task behind an open gate, raises on a suspended one, and otherwise only marks the row |
| `DeliveryEffects.AcceptanceDelivered` | sidecar/ibreeze/application/lifecycle.py:522-540 | an acceptance completes the department exactly when the gate is open and nobody has anything left to do |
| `DeliveryEffects.DepartmentDelivered` | sidecar/ibreeze/application/lifecycle.py:499-518 | a department completion completes the company task exactly when the gate is open and all departments are over |
| `DeliveryEffects.NothingTriggered` | sidecar/ibreeze/events/outbox.py:20-28 | everything else is only marked |
| `DeliveryEffects.UndoneBatchRaises` | sidecar/ibreeze/workers/outbox.py:47-125 | a batch that is undone has a row that is reached and raises |
| `DeliveryEffects.RaisingUndoesBatch` | sidecar/ibreeze/workers/outbox.py:47-125 | and such a row undoes every batch it is in |
| `TaskProtocol.StepKeeps` | sidecar/ibreeze/application/completion_handlers.py:529-857 | every step of the transition system keeps the invariant |
| `TaskProtocol.Reachable` | sidecar/ibreeze/application/lifecycle.py:387-566 | the invariant holds in every reachable state |
| `ProtocolReferences.StepKeepsReferences` | sidecar/ibreeze/persistence/migrations/001_initial.sql:506-558 | department edges lead to older departments, a spec names the employee of its task, and every task's employee has a row |
| `TaskProtocol.HandleKeeps` | sidecar/ibreeze/application/lifecycle.py:387-566 | so does the evaluation of any internal command |
| `TaskProtocol.ConfirmKeepsHierarchy` | sidecar/ibreeze/orchestration/confirm_plan.py:533-858 | a confirmation adds departments only to an approved, uncompleted company task |
| `TaskTheorems.ExactlyOnceDispatch` | sidecar/ibreeze/orchestration/dispatch_strategies.py:217-325 | over all interleavings with repeated and reordered deliveries a task has at most one run; one with an upstream edge has it only if the upstream task is accepted, then and ever after |
| `TaskTheorems.AcceptanceFollowsTheChain` | sidecar/ibreeze/application/completion_handlers.py:536-547 | although acceptance tests no status, a chain is accepted in chain order |
| `TaskTheorems.NoLostWakeup` | sidecar/ibreeze/application/completion_handlers.py:565-586 | in every reachable state a waiting task whose upstream tasks are all accepted has a pending `graph_advance` event, and delivering it leaves the task assigned with its one run, or failed with none, by the verdict on its frozen spec |
| `TaskTheorems.WakingDeliveryResolves` | sidecar/ibreeze/orchestration/dispatch_strategies.py:204-326 | any committed delivery of a waking event settles the task by that verdict |
| `TaskTheorems.WakingDeliveryCommits` | sidecar/ibreeze/orchestration/dispatch_strategies.py:204-326 | in every reachable state that delivery commits exactly when every due dependent that is to be dispatched can be routed |
| `TaskTheorems.NobodyDueWhenDrained` | sidecar/ibreeze/application/completion_handlers.py:565-586 | with no such event pending, no task that follows others waits while all of them are accepted |
| `TaskTheorems.AdvanceRaisesOnRouting` | sidecar/ibreeze/orchestration/dispatch_strategies.py:217-326 | in a sound database an advance raises exactly when some due dependent that is to be dispatched cannot be routed |
| `TaskTheorems.HandleRaisesExactly` | sidecar/ibreeze/application/lifecycle.py:387-566 | for every topic: the command raises exactly on a suspended row behind an open gate, or on a routing failure |
| `Examples.RoutingFailureRaises` | sidecar/ibreeze/orchestration/dispatch_strategies.py:284-325 | a run after which the waking delivery commits or raises with the routing of the task it wakes |
| `Examples.BlankTagFailsTheSegment` | sidecar/ibreeze/orchestration/dispatch_strategies.py:43-65 | a run in which a plan with a blank tag is confirmed and its deferred task fails when woken |
| `StalledTasks.StepWaits` | sidecar/ibreeze/application/completion_handlers.py:529-857 | no step changes a suspended task unless the task before it in its chain is accepted, nor ever a suspended department |
| `StalledTasks.StuckStays` | sidecar/ibreeze/orchestration/dispatch_strategies.py:204-231 | a task whose whole chain waits stays so |
| `StalledTasks.WakeUp` | sidecar/ibreeze/application/completion_handlers.py:565-586 | any other waiting task can be woken, by accepting and delivering along its chain |
| `StalledTasks.WaitsForEverExactlyWhenStuck` | sidecar/ibreeze/orchestration/dispatch_strategies.py:204-326 | in every reachable state a task waits in all continuations exactly when its whole chain waits, back to a task that follows nobody |
| `StalledTasks.StuckExactlyInDependentDepartments` | sidecar/ibreeze/orchestration/confirm_plan.py:622-668 | a confirmation leaves a contributor so exactly in the departments that depend on an earlier one |
| `StalledTasks.DependentTasksNeverStart` | sidecar/ibreeze/orchestration/confirm_plan.py:629-632 | in every continuation the tasks of such a department are still waiting |
| `StalledTasks.HeldBlocksCompletion` | sidecar/ibreeze/application/completion_handlers.py:738-749 | a department waiting with a resume state is never changed, so its company task is never completed |
| `StalledTasks.DependentPlanNeverCompletes` | sidecar/ibreeze/orchestration/confirm_plan.py:540-575 | in every continuation a dependent department is still waiting and its company task not completed |
| `TaskTheorems.RunLater` | sidecar/ibreeze/application/completion_handlers.py:529-857 | accepted tasks stay accepted and edges stay, over every continuation |
| `TaskTheorems.CompletedDepartmentsAreClosed` | sidecar/ibreeze/application/completion_handlers.py:266-274 | in every reachable state the tasks of a completed department are accepted, or cancelled and not a merge |
| `TaskTheorems.CompletedCompaniesAreOver` | sidecar/ibreeze/application/completion_handlers.py:411-419 | in every reachable state every department of a completed company task is completed or cancelled |
| `TaskTheorems.AtMostOneConfirmation` | sidecar/ibreeze/orchestration/confirm_plan.py:417-427 | after one confirmation, and whatever follows, no command confirms the same company task |
| `TaskTheorems.BatchIsARun` | sidecar/ibreeze/workers/outbox.py:47-125 | a committed batch is a run of single deliveries, so all of this holds of it |
| `WriteQueue.WriteQueue.SubmitEnvelope` | sidecar/ibreeze/persistence/write_queue.py:50-69 | refuses exactly when stopped or full, else enqueues with a pending future |
| `WriteQueue.WriteQueue.SubmitBarrier` | sidecar/ibreeze/persistence/write_queue.py:71-85 | enqueues an envelope that changes nothing, unless full |
| `WriteQueue.WriteQueue.CancelFuture` | sidecar/ibreeze/persistence/write_queue.py:69-69 | a caller that gives up cancels only its own pending future |
| `WriteQueue.WriteQueue.StopAccepting` | sidecar/ibreeze/persistence/write_queue.py:91-92 | nothing is accepted any more; what is queued stays queued |
| `WriteQueue.WriteQueue.TakeEnvelope` | sidecar/ibreeze/persistence/write_queue.py:105-124 | takes the oldest envelope; a cancelled one is skipped, an expired one rejected |
| `WriteQueue.WriteQueue.FinishEnvelope` | sidecar/ibreeze/persistence/write_queue.py:125-139 | commits and resolves, or rolls back and rejects |
| `WriteQueue.StepKeeps` | sidecar/ibreeze/persistence/write_queue.py:50-139 | every step of callers and worker keeps the history serial |
| `WriteQueue.Serialisable` | sidecar/ibreeze/persistence/write_queue.py:50-139 | for every interleaving the database is the fold, in enqueue order, of exactly the committed envelopes, each future tells its own outcome, and the queue stays within its capacity |
| `WriteQueue.TheRestLeavesNoTrace` | sidecar/ibreeze/persistence/write_queue.py:105-139 | that fold is the plain run of the committed envelopes alone |
| `WriteQueue.SettledOnce` | sidecar/ibreeze/persistence/write_queue.py:117-137 | a settled future never changes |
| `WriteQueue.BarrierSeesEverythingBefore` | sidecar/ibreeze/persistence/write_queue.py:71-85 | a barrier is resolved in a database that is the fold of everything enqueued before it |
| `QueueHistory.DeadlinesDecide` | sidecar/ibreeze/persistence/write_queue.py:105-139 | over every run and its own clock: an envelope ends skipped exactly when it was given up before it was taken, expired exactly when it was taken after its deadline, committed exactly when it was taken in time, ran through and its commit did |
| `QueueHistory.ExecutedInTime` | sidecar/ibreeze/persistence/write_queue.py:117-126 | what is being executed was taken no later than its deadline |
| `QueueHistory.CallersAreTold` | sidecar/ibreeze/persistence/write_queue.py:117-137 | a caller that has not given up gets its own result or error, the failed commit, or the missed deadline |
| `QueueHistory.CancelledExactly` | sidecar/ibreeze/persistence/write_queue.py:69-69 | a future is cancelled exactly when its own caller gave it up while it was pending |
| `QueueHistory.AcceptsExactly` | sidecar/ibreeze/persistence/write_queue.py:50-85 | an envelope is taken in exactly while the queue runs and has room, a barrier while it has room |
| `QueueHistory.RunsUntilStopped` | sidecar/ibreeze/persistence/write_queue.py:50-92 | the queue runs until it is stopped |
| `UnitOfWork.UnitOfWork.Run` | sidecar/ibreeze/persistence/unit_of_work.py:38-74 | equals the specified execution: response and new store, or the error; outside a transaction it refuses |
| `UnitOfWork.UnitOfWork.Claim` | sidecar/ibreeze/persistence/idempotency.py:38-60 | inserts a `processing` row exactly when the key is free and the hash well-formed |
| `UnitOfWork.UnitOfWork.Complete` | sidecar/ibreeze/persistence/idempotency.py:62-79 | marks the row completed with the response |
| `UnitOfWork.UnitOfWork.AppendAll` | sidecar/ibreeze/events/store.py:6-29 | appends all events exactly when each has a company and a new id |
| `UnitOfWork.UnitOfWork.EnqueueAll` | sidecar/ibreeze/events/outbox.py:31-52 | enqueues all records, or reports the first one without an existing event |
| `UnitOfWork.NoFaultMeansPublished` | sidecar/ibreeze/events/outbox.py:31-52 | no fault means exactly that every record names an existing event |
| `UnitOfWork.CallMeaning` | sidecar/ibreeze/persistence/unit_of_work.py:46-74 | on a fresh key a call does what the unkeyed call does and records its outcome; otherwise nothing changes |
| `UnitOfWork.ReplayMeaning` | sidecar/ibreeze/persistence/unit_of_work.py:50-73 | on a completed key another hash conflicts, the same hash returns the original response exactly when that is not a bare string, and nothing changes |
| `UnitOfWork.ExecuteKeepsClean` | sidecar/ibreeze/persistence/unit_of_work.py:46-74 | no call leaves a `processing` row, a repeated event id or an outbox row without its event |
| `UnitOfWork.EnvelopesCarryCalls` | sidecar/ibreeze/persistence/write_queue.py:50-139 | every interleaving in which all writes are units of work yields a serial history of calls |
| `UnitOfWork.NothingStaysProcessing` | sidecar/ibreeze/persistence/idempotency.py:13-79 | in every committed database of such a history no key is `processing` |
| `UnitOfWork.KeyTableTellsHistory` | sidecar/ibreeze/persistence/idempotency.py:13-79 | a key is in the table exactly when a call that brings it took effect, and the row holds that call's hash and response |
| `UnitOfWork.EffectsCommitOnce` | sidecar/ibreeze/persistence/unit_of_work.py:38-74 | after a call with a key took effect no envelope with that key changes the database; another hash does not commit, the same hash reports the original response |
| `UnitOfWork.FailedKeysStayReusable` | sidecar/ibreeze/persistence/unit_of_work.py:58-67 | a key whose calls all failed is still free |
| `UnitOfWork.OnlyEffectiveCallsPublish` | sidecar/ibreeze/persistence/unit_of_work.py:67-69 | the event log and the outbox hold what the effective calls published, each once, and nothing else |
| `CallEffects.UnkeyedCall` | sidecar/ibreeze/persistence/unit_of_work.py:66-74 | a call without key succeeds exactly when its command runs through and the tables take its events and records; it leaves the command's own writes, the events and the outbox rows |
| `CallEffects.FreshCall` | sidecar/ibreeze/persistence/unit_of_work.py:46-74 | on a free key the same, and one completed row with hash and response |
| `CallEffects.FailedCall` | sidecar/ibreeze/persistence/unit_of_work.py:46-74 | which error a call that may run its command reports |
| `CallEffects.TakenKey` | sidecar/ibreeze/persistence/idempotency.py:13-36 | on a taken key nothing is written, and the row alone decides the answer |
| `CallEffects.FaultMeaning` | sidecar/ibreeze/events/outbox.py:31-52 | the outbox reports the first record without an existing event |
| `CallEffects.FirstCallApplies` | sidecar/ibreeze/persistence/unit_of_work.py:66-74 | exactly a committed envelope with a free key or none runs its command, on the database before it, and its caller is told that command's response |
| `CallEffects.OnlyFirstCallsWrite` | sidecar/ibreeze/persistence/unit_of_work.py:66-74 | the committed application tables are the fold of exactly those commands, each once and in order |
| `CallEffects.CommittedTables` | sidecar/ibreeze/persistence/write_queue.py:125-128 | so is the database of the queue under every interleaving of units of work |
| `Credentials.CredentialStore.CreateCredential` | apps/desktop-core/src/commands.rs:747-836 | under any failure or crash leaves one of the specified disks and keeps the crash-safety invariant; only a disturbance keeps an admissible call from succeeding |
| `Credentials.CredentialStore.UpdateSecret` | apps/desktop-core/src/commands.rs:862-986 | the same for updates |
| `Credentials.CredentialStore.DeleteCredential` | apps/desktop-core/src/commands.rs:988-1120 | the same for deletions |
| `Credentials.CredentialStore.InsertCredential` | apps/desktop-core/src/commands.rs:787-835 | index entry, secret, index entry; a refused secret takes the entry out again |
| `Credentials.CredentialStore.ReplaceSecret` | apps/desktop-core/src/commands.rs:927-985 | index entry, new secret, index entry, old secret; a refused secret restores the old entry |
| `Credentials.CredentialStore.EraseSecret` | apps/desktop-core/src/commands.rs:1023-1119 | nothing is erased unless every reference was seen to be gone |
| `Credentials.CredentialStore.Save` | apps/desktop-core/src/broker/credential_index.rs:82-112 | the file is replaced as a whole or not at all, and may be replaced although the call fails |
| `Credentials.OperationKeepsSafe` | apps/desktop-core/src/commands.rs:747-1120 | every disk an operation may leave has usable entries backed by a secret and unique labels per provider |
| `Credentials.AlwaysSafe` | apps/desktop-core/src/commands.rs:673-701 | crash safety over every sequence of operations, failures and crashes |
| `Credentials.ActiveSecretIsNeverTorn` | apps/desktop-core/src/commands.rs:862-1120 | a usable entry keeps its active secret untouched and its metadata version does not drop, or its own update replaced the secret as a whole, or it is being deleted unreferenced |
| `Credentials.TransitionsAreNeverResumed` | apps/desktop-core/src/commands.rs:892-897 | an entry left creating, updating or deleting stays exactly so under every later operation |
| `CredentialOutcomes.CreationOutcome` | apps/desktop-core/src/commands.rs:747-836 | a creation succeeds only with admissible parameters and a free label, and then adds one unverified entry in version 2 with the given secret as its first |
| `CredentialOutcomes.UpdateOutcome` | apps/desktop-core/src/commands.rs:862-986 | an update succeeds only on a resting, unleased entry in the expected version, and then leaves it unverified, two versions on, with only its new secret |
| `CredentialOutcomes.DeletionOutcome` | apps/desktop-core/src/commands.rs:988-1120 | a deletion succeeds only when nothing refers to the credential, and then only its entry and secret are gone; a refused one costs two versions |
| `CredentialOutcomes.UnknownReference` | apps/desktop-core/src/commands.rs:862-1120 | an unknown reference changes nothing |
| `CredentialOutcomes.NothingBecomesReady` | apps/desktop-core/src/commands.rs:747-1120 | over every history an entry that is ready was ready from the start with the same secret version |
| `Utf16.ByteOrderIsUnitOrder` | sidecar/ibreeze/routing/canonical_json.py:30-30 | comparing UTF-16BE bytes is comparing unsigned code units, the order of section 3.2.3 of RFC 8785 |
| `Utf16.UnitsInjective` | sidecar/ibreeze/routing/canonical_json.py:30-30 | UTF-16 tells well-formed texts apart |
| `Utf16.CodePointOrderDiffers` | sidecar/ibreeze/routing/canonical_json.py:21-24 | code-point order is a different order |
| `Utf16.SurrogatesCollide` | sidecar/ibreeze/routing/canonical_json.py:30-30 | with lone surrogates two texts can share an encoding |
| `JsonTexts.RenderReads` | sidecar/ibreeze/routing/canonical_json.py:37-40 | the text of a float-free tree determines the tree and what follows it |
| `JsonTexts.EscapeAllReads` | sidecar/ibreeze/routing/canonical_json.py:40-40 | an escaped string can be read back |
| `JsonTexts.NumberReads` | sidecar/ibreeze/routing/canonical_json.py:40-40 | so can an integer followed by anything but a digit |
| `JsonReader.ReadsBack` | sidecar/ibreeze/routing/canonical_json.py:37-40 | a reader written from the JSON grammar reads the text of a float-free tree back and stops where it ends |
| `JsonReader.WritesBack` | sidecar/ibreeze/routing/canonical_json.py:37-40 | and accepts nothing else: what it reads is written again as the same text |
| `JsonReader.CanonicalAscends` | sidecar/ibreeze/routing/canonical_json.py:18-34 | in every object of the canonical tree the keys ascend by UTF-16 code units |
| `JsonReader.CanonicalTextReads` | sidecar/ibreeze/routing/canonical_json.py:7-40 | canonical text exists exactly without floats, and reads back, to the last character, as an equal value with ascending keys |
| `JsonEquality.KeyOrder` | sidecar/ibreeze/routing/canonical_json.py:30-30 | on well-formed keys the sort key is a strict total order, that of the code units |
| `JsonEquality.CanonicalMeaning` | sidecar/ibreeze/routing/canonical_json.py:18-34 | canonicalising keeps the value |
| `JsonEquality.SameValueSameTree` | sidecar/ibreeze/routing/canonical_json.py:18-34 | equal values have the same canonical tree |
| `JsonEquality.SameTextSameValue` | sidecar/ibreeze/routing/canonical_json.py:37-40 | equal text means equal value, for all dictionaries |
| `JsonEquality.SameTextExactlyWhenSameValue` | sidecar/ibreeze/routing/canonical_json.py:7-40 | float-free trees with well-formed keys have a text, and the same one exactly when they are the same value up to key order |
| `JsonEquality.IllFormedKeysShowTheirOrder` | sidecar/ibreeze/routing/canonical_json.py:18-40 | with ill-formed keys insertion order can show |
| `JsonEquality.WellFormedKeysApart` | sidecar/ibreeze/routing/canonical_json.py:30-30 | well-formed keys never collide in the sort |
| `JsonEquality.CanonicalFloat` | sidecar/ibreeze/routing/canonical_json.py:7-34 | canonicalising neither adds nor loses a float |
| `JsonKeyOrder.SortIsStable` | sidecar/ibreeze/routing/canonical_json.py:28-31 | keys the sort cannot tell apart keep their insertion order |
| `JsonKeyOrder.OrderShows` | sidecar/ibreeze/routing/canonical_json.py:18-34 | a tree with colliding keys has an equal value with another canonical tree |
| `JsonKeyOrder.TextIgnoresOrderExactlyWhenKeysApart` | sidecar/ibreeze/routing/canonical_json.py:7-40 | the text is the same for every insertion order exactly when no object has two keys with the same UTF-16 |
| `ReviewLedger.ReviewAggregation.RecordScore` | sidecar/ibreeze/application/review_aggregation.py:107-153 | one row per report; a report that has one is left alone |
| `ReviewLedger.ReviewAggregation.FinalizeScores` | sidecar/ibreeze/application/review_aggregation.py:303-345 | credits exactly the uncredited rows of the artifact |
| `ReviewLedger.ReviewAggregation.OnReportSubmitted` | sidecar/ibreeze/application/review_aggregation.py:59-103 | records, then credits when the fusion is final |
| `ReviewLedger.LedgerConserved` | sidecar/ibreeze/application/review_aggregation.py:107-345 | in every reachable state and for every reviewer the counters equal the credited rows, no report is credited twice, and an accuracy is at most 0.999 and positive exactly when some credited report agreed |
| `ReviewLedger.CreditKeepsBalance` | sidecar/ibreeze/application/review_aggregation.py:323-345 | crediting one row keeps every reviewer's balance |
| `ReviewLedger.BlendMoves` | sidecar/ibreeze/application/review_aggregation.py:333-334 | agreement raises an accuracy until 0.999, disagreement lowers it until 0.001, and there it stays |
| `ReviewLedger.ReplayChangesNothing` | sidecar/ibreeze/application/review_aggregation.py:107-153 | replaying a finalised submission changes nothing, whatever the second fusion says |
| `ReviewLedger.CreditIsFinal` | sidecar/ibreeze/application/review_aggregation.py:303-345 | a credited row keeps its contribution over every continuation |
| `ReviewLedger.SubmitRows` | sidecar/ibreeze/application/review_aggregation.py:107-345 | every row after a submission: the report's own row is added once, and the uncredited rows of a decided artifact are credited with 1.000 or 0.000 |
| `ReviewLedger.FinalFusionCreditsEverything` | sidecar/ibreeze/application/review_aggregation.py:303-345 | after a final fusion no row of the artifact is uncredited |
| `ReviewLedger.SubmitJudges` | sidecar/ibreeze/application/review_aggregation.py:323-345 | the statistics of a reviewer change exactly by judging, in row order, that reviewer's uncredited reports on the decided artifact |
| `ReviewLedger.BlendRounds` | sidecar/ibreeze/application/review_aggregation.py:333-334 | the new accuracy is seven tenths of the old and three tenths of the contribution, to the nearest thousandth |
| `ReviewLedger.FirstAgreement` | sidecar/ibreeze/application/review_aggregation.py:323-345 | a first agreement gives an accuracy of 0.300 |
| `RankFusion.ReciprocalRankFusion` | sidecar/ibreeze/knowledge/hybrid_search.py:30-49 | each id once, with the exact sum of its shares and its first item, by descending score and then first appearance |
| `RankFusion.SortRanks` | sidecar/ibreeze/knowledge/hybrid_search.py:48-48 | the sort keeps the ids, orders by score and is stable |
| `FusionLaws.EachIdOnceByScore` | sidecar/ibreeze/knowledge/hybrid_search.py:48-49 | ids are distinct and scores non-increasing |
| `FusionLaws.ScoreIsReciprocalSum` | sidecar/ibreeze/knowledge/hybrid_search.py:41-46 | a score is the plain sum of 1 / (k + rank) over every place of the id in every list |
| `FusionLaws.AuthorizedInOrder` | sidecar/ibreeze/knowledge/hybrid_search.py:82-100 | the filter looks at each result by itself and keeps the order |
| `FusionLaws.DominanceKeepsScore` | sidecar/ibreeze/knowledge/hybrid_search.py:41-46 | an id that in every list, wherever one stops reading, has occurred at least as often as another never scores lower |
| `FusionLaws.BetterRankedNeverScoresLower` | sidecar/ibreeze/knowledge/hybrid_search.py:41-46 | in duplicate-free lists an id ranked at least as well as another in every list never scores lower |
| `FusionLaws.BothBeatsOne` | sidecar/ibreeze/knowledge/hybrid_search.py:30-49 | with two duplicate-free lists of at most k + 1 items, an id in both scores strictly more than one in only one |
| `FusionLaws.BoundIsExact` | sidecar/ibreeze/knowledge/hybrid_search.py:30-49 | with k + 2 items that fails |
| `FusionLaws.HybridSearch` | sidecar/ibreeze/knowledge/hybrid_search.py:71-104 | the first `limit` of the fusion of the authorised results, and nothing unauthorised |
| `FusionLaws.BothBranchesFirst` | sidecar/ibreeze/knowledge/hybrid_search.py:71-104 | for every limit up to 30 a result of both branches precedes every result of one |
| `RestartThrottle.RestartTracker.IsThrottled` | apps/desktop-core/src/sidecar.rs:58-63 | keeps the starts less than a window old and reports whether there are three |
| `RestartThrottle.RestartTracker.RecordRestart` | apps/desktop-core/src/sidecar.rs:65-67 | appends the start |
| `RestartThrottle.SidecarSupervisor.Launch` | apps/desktop-core/src/sidecar.rs:85-189 | refuses when running or throttled, records exactly the successful starts |
| `RestartThrottle.SidecarSupervisor.Halt` | apps/desktop-core/src/sidecar.rs:200-204 | stopping frees the supervisor and forgets no start |
| `RestartThrottle.NeverTooManyStarts` | apps/desktop-core/src/sidecar.rs:58-68 | for any monotone clock no half-open window holds more than three successful starts |
| `RestartThrottle.PrunedListDecides` | apps/desktop-core/src/sidecar.rs:58-63 | the pruned list decides as the full history would |
| `RestartThrottle.StartsExactlyAfterFewerThanThree` | apps/desktop-core/src/sidecar.rs:85-189 | a start goes through exactly when nothing runs, the launch works and fewer than three starts succeeded in the last minute |

## Left out

- SQL text, pragmas, WAL, migrations, backups, logging, the UI and all network and file I/O: only row effects and their constraints are modelled.
- Scoping by company id: one company is modelled, so the filters on it are not.
- Statements about all continuations are about the steps of the transition system.
- Pause, cancel, replace and rework steps, and moves of department and employee tasks other than those of the handlers: not part of the transition system; company tasks move by the state machine, and into `completed` only through the handler.
- CompletionHandlers.TaskHandlers.CompleteDepartmentTask: does not write the routing-outcome projection, because no rule of the handlers reads it.
- CompletionHandlers.TaskHandlers.CompleteCompanyTask: the same.
- Outbox.OutboxWorker.Deliver: takes any batch of rows in any order, so the choice of the oldest fifty due rows is not stated.
- LazyDispatch.LazyRunEqualsEagerRunExactlyWhenSorted: about the row of the run; availability and execution snapshots are not modelled.
- Artifact, review, verification, report and active-run queries of the gates: one arbitrary boolean per call.
- `confirm_and_dispatch` stops with DEPARTMENT_REVISION_NOT_FOUND when a revision is missing, which the preflight has ruled out by then; deliverable review specs, conversations, timestamps and malformed stored plans are not modelled.
- Runtime-binding and routing-policy parsing is one boolean of a profile version; candidate resolution is one boolean of a confirmation and an arbitrary set of tasks per delivery; `fuse_verdicts`, `rerun_decision` and `compute_weight` are arbitrary.
- The order in which an advance visits dependents is taken to be id order; the query fixes none.
- PlanValidator.ValidatePlan: states which issues are reported, not their order and number, because the final sort only arranges them for display.
- ReviewLedger.ReviewAggregation.FinalizeScores: credits rows in insertion order, because the query fixes none; accuracies are exact thousandths, not binary floating point.
- Outbox rows with an unknown topic or unreadable payload, which the worker marks as failed, retry times and attempt counts.
- WriteQueue.WriteQueue.SubmitBarrier: does not model that a barrier cannot be built on 29 February, when its deadline in the year 9999 does not exist; a barrier never expires here.
- Cancelling the queue worker during an execution, failures of rollback, and the waiting of `stop`; a failed commit is a boolean of the step that finishes an envelope.
- UnitOfWork.UnitOfWork.Run: responses are strings or JSON trees that `json` returns unchanged; values that `default=str` turns into strings are not modelled, nor is JSON validity of payloads or existence of the company an event names.
- The other functions on the idempotency table in `sidecar/ibreeze/persistence/__init__.py`, and expiry of keys, which no code applies.
- Parsing of credential parameters other than blank and over-long ones, whose texts are not told apart by field.
- Credential probing, listing, leases, the credential idempotency journal and the file revision counter; version counters are unbounded.
- Non-string dictionary keys and integers beyond the range RFC 8785 keeps exact in canonical JSON.
- Rank fusion in binary floating point: scores are exact reals.
- Organisation management, rollout modes, metrics, report generation and embeddings: easy members or foreign code.
