# ROP: the reversal protocol, verified

ROP is a durable protocol for undoing one Action. A request that is accepted writes a reversal
attempt, moves its Action to REVERSING and registers its idempotency key in one transaction, calls
the provider once, records what was observed, and moves the Action on. Whatever cannot be observed
stays unknown until reconciliation brings proven evidence. The demo provider embeds the protocol
over versioned resources: an update captures the value and version it replaced, and is undone by a
compare-and-swap on the version it produced.

The project models that program in three layers.

1. **Tables and functions.** `Domain` holds the rows and the status graph, `Records` and
   `ResourceApi` what each statement does to the tables, `Services` and `Reconciliation` what each
   service call answers and leaves when it runs by itself, `Timestamp` the calendar and the store's
   fixed-width time text, `Dependency` the edges and the budgeted cycle check.
   `Answers`, `Verdicts` and `Business` say case by case, on the rows alone, what is answered and
   recorded.
2. **Classes.** `Storage.Store` is the mutable store; `Provider.Api`, `DependencyService.Service`,
   `ReversalService.Service`, `ReconciliationService.Service` and `PlannerService.Service` are the
   services, written statement by statement and loop by loop over it. Each method is proved to
   change the tables exactly as its function says.
3. **Steps.** `Protocol` is the same program as steps of any number of threads: a request between
   any two of its database accesses, a reconciliation, a crash that kills every thread, recovery
   after a restart, a thread abandoned anywhere (which also stands for a store error, a cancelled
   request or a panic). Only the transaction that begins a reversal is one step; concluding an
   attempt and moving the status are two. A `trail` beside the attempts records what the program
   cannot see: who owns an attempt, how often its provider was called, what came back, whether the
   reversal really took effect. A `Label` fixes every choice the code does not make.

Each file holds the module of its name, except `Calendar.dfy` (module `Timestamp`) and `Store.dfy`
(module `Storage`).

`Refinement` and `ServiceRuns` connect the layers: any sequence of service calls is a run of the
steps, so a theorem about all runs is a theorem about the classes. `Invariant` holds the one
inductive invariant everything else rests on; `Moves` and `Steps` say what one step can touch.
`Safety`, `Idempotency`, `TornPairs`, `UndoStack`, `Withdrawals` and `RoundTrip` hold of every run.
`Checks`, `Graph`, `Deletion` and `Expiry` say exactly what the checks that stand outside the
transaction are worth when requests interleave, `Races` gives reachable states for what they do not
cover, and `SerialTheorems` derives what they guarantee when requests do not interleave.

"Reached" means reached by any interleaving with crashes, "serially reached" that each request
starts when no other is in flight (threads may still be abandoned and the process may still crash).
A request is "admitted" when it has passed every check and stands before the transaction or beyond.

Six findings where the code and what is written about it differ, each with its exact condition:

- The comment on `reverseCreate` promises a compare-and-swap on the version; the statement checks
  none. The delete loses nothing if and only if every update of the resource is undone
  (`Deletion.DeleteIsSafeExactly`), and only an update recorded after the request read its
  dependents can be one that is not (`Deletion.OnlyLaterUpdatesAreLost`). The missing guard, version
  1, would have been exact. Such an update can be lost for every resource (`Races.UpdateIsLost`); in
  request-serial runs none is (`SerialTheorems.DeleteIsSafe`).
- Expiry is promised at the boundary by server time. A request that arrives too late can be
  accepted if and only if its Action may be REVERSING while the request's own sweep queries, and only
  for creations, updates and what other services can reverse (`Expiry.LateExactly`); a notification's
  reversal is attempted at most once (`Withdrawals.WithdrawnAtMostOnce`). In request-serial runs no
  late request is accepted (`SerialTheorems.NoReversalAfterExpiry`).
- A dependency created after planning is promised to block. An unresolved dependent of an admitted
  request is exactly one recorded after that request read its dependents
  (`Checks.AdmittedOverResolved`), and there is such a state (`Races.ReversalOverLateDependent`); in
  request-serial runs there is none (`SerialTheorems.DependentsResolveFirst`).
- A dependency that would close a cycle is promised to be rejected. The search expands at most 65
  nodes: it answers exactly on all graphs covered by n nodes if and only if n is at most 65
  (`Dependency.ExactUpToTheBudget`), and 133 calls build a store in which it accepts a cycle
  (`Bounds.AcceptedDependencyClosesACycle`).
- The check and the insertion of a dependency are separate statements. The graph stays acyclic if
  and only if no insertion closes a path at the moment it is written (`Graph.GraphIsAcyclicExactly`);
  two overlapping additions that both pass their check can (`Races.OverlappingAddsCloseACycle`).
- "Lexicographic equals chronological" is true of all times below a bound if and only if the bound
  is at most the first instant of the year 10000 (`Timestamp.OrderedUpToYear10000`).

## Model

| member | source | states |
|---|---|---|
| Timestamp.TextOrderIsTimeOrder | internal/store/actions.go:14 | comparing two stored times as text, strictly or not, decides exactly as comparing the instants, for every two instants of the years 0000 to 9999 |
| Timestamp.InstantOrder | internal/store/actions.go:98-101 | the calendar conversion keeps order: one instant is before another exactly when its date and time fields are, field by field |
| Timestamp.ParseUndoesFormat | internal/store/actions.go:150-158 | parsing a stored time gives back the instant to the nanosecond |
| Timestamp.OrderedUpToYear10000 | internal/store/actions.go:14 | text order is time order for all times below a bound if and only if the bound is at most the first instant of the year 10000 |
| Storage.Store.CreateAction | internal/store/actions.go:95-128 | the Action and its first history row are there, and nothing else has changed |
| Storage.Store.GetAction | internal/store/actions.go:132-160 | an Action of another scope is as absent as one that does not exist |
| Storage.Store.UpdateStatus | internal/store/actions.go:198-221 | written if and only if the change is on the graph and the row of this scope is in the expected status; then the row has the new status and the history one more entry; an illegal change and a row in another status are told apart, and nothing is written |
| Storage.Store.SelectDue | internal/store/actions.go:279-297 | selecting by text comparison finds exactly the APPLIED Actions whose window closed by now |
| Storage.Store.SweepExpiry | internal/store/actions.go:278-305 | the loop of transitions leaves the swept tables and returns how many Actions expired |
| Storage.Store.CreateAttempt | internal/store/attempts.go:68-80 | a RUNNING attempt with its execution identity, or the in-progress error when the Action has an open one |
| Storage.Store.ConcludeAttempt | internal/store/attempts.go:153-164 | an open attempt gets its result, keeping the earlier error and class where none is given; a concluded one is left alone |
| Storage.Store.MarkAwaitingReconciliation | internal/store/attempts.go:169-179 | only a RUNNING attempt is parked |
| Storage.LatestAttempt | internal/store/attempts.go:201-207 | the attempt with the greatest request time, the later name on a tie |
| Storage.Store.GetRunningAttempts | internal/store/attempts.go:212-229 | the loop returns exactly the RUNNING attempts, in order |
| Storage.Store.CreateIdempotency | internal/store/idempotency.go:75-88 | the key is registered once in its scope; a second registration changes nothing and is told so |
| Storage.Store.GetIdempotency | internal/store/idempotency.go:30-48 | the record of exactly this scope and key, if there is one |
| Storage.Store.RecordObservation | internal/store/reconciliation.go:76-84 | the evidence log grows by one entry at its end and nothing else changes |
| Storage.Store.ObservationsForAttempt | internal/store/reconciliation.go:88-108 | the loop returns the attempt's observations, oldest first |
| Storage.ObservationsInOrder | internal/store/reconciliation.go:88-108 | they are the logged ones at exactly the positions where the attempt matches, in the order of the log |
| Storage.Store.AddDependency | internal/store/residue.go:27-39 | a new edge is appended; a duplicate changes nothing |
| Storage.Store.DependenciesOfParent | internal/store/residue.go:43-77 | the loop returns exactly the edges of this scope with this parent |
| Storage.Store.DependenciesOfDependent | internal/store/residue.go:52-77 | the loop returns exactly the edges of this scope with this dependent |
| Dependency.ParentEdgesInOrder | internal/store/residue.go:43-77 | the edges of one parent are those at exactly the matching positions, in the order they were recorded |
| Dependency.DependentEdgesInOrder | internal/store/residue.go:52-77 | and so are the edges of one dependent |
| Storage.Store.BeginTx | internal/store/store.go:69-71 | the transaction holds the tables of the moment it began |
| Storage.Tx.Rollback | internal/reversal/service.go:148-170 | every table is again what it was when this transaction began |
| Services.SweepIsExact | internal/store/actions.go:275-305 | the sweep moves exactly the APPLIED Actions whose window has closed, boundary included, adds one history row for each with the time of the sweep, in order, touches nothing else, and does nothing the second time |
| Dependency.SearchIsSound | internal/dependency/service.go:83-105 | the stack-based search answers yes only when the target really is reached by depends-on edges |
| Dependency.SearchIsComplete | internal/dependency/service.go:83-105 | when the budget covers the nodes still to be expanded, a path is never missed |
| Dependency.ReachableIsExact | internal/dependency/service.go:83-105 | yes means a path; no means none whenever at most 65 nodes other than the target can be reached |
| Dependency.BudgetIsTight | internal/dependency/service.go:86-88 | a chain with 66 such nodes hides its path from the search |
| Dependency.ExactUpToTheBudget | internal/dependency/service.go:83-105 | the search decides exactly on every graph in which at most n nodes other than the target can be reached if and only if n is at most 65 |
| Bounds.AcceptedDependencyClosesACycle | internal/dependency/service.go:54-79 | 67 created Actions and 66 accepted dependencies make an acyclic store in which the check finds no problem with the dependency that closes a cycle |
| Dependency.EdgeKeepsAcyclic | internal/dependency/service.go:68-78 | inserting an edge keeps the graph acyclic if and only if the parent does not already depend on the dependent |
| Dependency.FreshDependentKeepsAcyclic | examples/resource-api/resourceapi.go:233-242 | an edge from a new Action keeps a graph of any size acyclic without the check |
| DependencyService.Service.IsReachable | internal/dependency/service.go:83-105 | the two nested loops over stack, visited set and depth counter compute the search's answer |
| DependencyService.Service.Add | internal/dependency/service.go:54-79 | an edge is recorded or refused, and why; a refusal changes nothing |
| DependencyService.AddIsExact | internal/dependency/service.go:49-79 | within the search's bound an edge is accepted if and only if both Actions exist in the scope and the graph stays acyclic; refused as not found exactly when two different Actions are not both there, and as a cycle exactly when it is a self-edge or closes a path |
| DependencyService.Service.Blocking | internal/dependency/service.go:109-128 | the loop returns the dependents whose effect still stands, or reports one that is missing |
| Services.NothingBlocks | internal/dependency/service.go:39-42 | nothing blocks if and only if every recorded dependent exists and is REVERSED or PARTIALLY_REVERSED |
| Services.BlockingIsExact | internal/dependency/service.go:109-128 | a recorded dependent that is missing is reported, and otherwise the list holds the dependent of each edge of this scope and parent that is neither REVERSED nor PARTIALLY_REVERSED, one entry for each edge, in the order of the edges |
| Provider.Api.Create | examples/resource-api/resourceapi.go:125-176 | row, Action, material and the link between them |
| Provider.Api.Update | examples/resource-api/resourceapi.go:183-247 | the new value one version up, the captured prior state and the edge to the creation; or the reason, and no change |
| Provider.Api.Publish | examples/resource-api/resourceapi.go:361-398 | the row is published one version up and an irreversible Action is recorded; or no change |
| Provider.Api.Notify | examples/resource-api/resourceapi.go:269-335 | the notification, its Action and the link between them; or no change |
| Business.CreateRecords | examples/resource-api/resourceapi.go:125-176 | the whole next state of a creation: version 1, the Action with the given scope, window and time, and its first history row |
| Business.UpdateRecords | examples/resource-api/resourceapi.go:183-247 | possible exactly on an unpublished row of the scope; then the whole next state: one version up, same creator, the captured value and version, the Action with its window, and one edge to the creation |
| Business.PublishRecords | examples/resource-api/resourceapi.go:361-398 | the whole next state of a publication: one version up with value, scope and creator kept, and an irreversible Action without a window |
| Business.NotifyRecords | examples/resource-api/resourceapi.go:269-335 | the whole next state of a notification: sent, and an Action with the given window whose resource stays as it is |
| Business.StatusGraph | internal/action/action.go:33-42 | the permitted status changes, all eleven and no other |
| Provider.Api.ReverseCreate | examples/resource-api/resourceapi.go:429-468 | the row is deleted and REVERSED returned exactly when this Action created it and it is not published; otherwise CONFLICT with its reason and no change |
| Provider.Api.ReverseUpdate | examples/resource-api/resourceapi.go:548-593 | captured value and version are restored exactly when the unpublished row is at the version this Action produced; otherwise no change, and a conflict or, without material, a failure |
| Provider.Api.ReverseNotify | examples/resource-api/resourceapi.go:663-702 | a sent notification of this Action is withdrawn and PARTIALLY_REVERSED returned; otherwise CONFLICT and no change |
| Provider.Api.PlanReversal | examples/resource-api/resourceapi.go:402-427 | the conflicts, appended in order, and the version they were computed against, without a write |
| Provider.Api.VerifyReversal | examples/resource-api/resourceapi.go:599-629 | verified exactly when every postcondition holds, and the list of them |
| Answers.ReverseCreateAnswers | examples/resource-api/resourceapi.go:429-468 | the row goes exactly when this Action created it and it is not published; otherwise nothing changes and the reason is the one that holds |
| Answers.ReverseUpdateAnswers | examples/resource-api/resourceapi.go:548-593 | captured value and version come back exactly when the unpublished row is at the version this Action produced; otherwise the reason that holds |
| Answers.ReverseNotifyAnswers | examples/resource-api/resourceapi.go:663-702 | withdrawn exactly when this Action sent it and it still stands; otherwise the reason that holds |
| Verdicts.CreateVerifies | examples/resource-api/resourceapi.go:470-490 | a creation is verified as undone if and only if its resource is absent in the scope |
| Verdicts.UpdateVerifies | examples/resource-api/resourceapi.go:599-629 | an update is verified as undone if and only if the unpublished row is there with the captured value and version; which entry says which |
| Verdicts.NotifyVerifies | examples/resource-api/resourceapi.go:704-729 | a notification is verified as undone if and only if it is there and withdrawn; which entry says which |
| Verdicts.StandingDoesNotVerify | examples/resource-api/resourceapi.go:470-629 | in every reachable state what can still be undone does not verify as undone |
| Verdicts.BasisIsCurrent | examples/resource-api/resourceapi.go:416-420 | the basis of a creation's or update's plan is the row's current version, and there is one if and only if the row is there |
| Verdicts.ConflictsAreExact | examples/resource-api/resourceapi.go:402-427 | each of the provider's conflicts is listed exactly for its reason, in order |
| Prediction.SuccessIsVisible | examples/resource-api/resourceapi.go:429-702 | in every reachable state a reverse function reports success exactly when it changed the tables, never touches an Action, and called again reports no success and changes nothing |
| PlannerService.Service.Plan | internal/planner/service.go:33-116 | the plan built up by appends is the plan of the swept tables, and the sweep is all that is written |
| Verdicts.PlanIsExact | internal/planner/service.go:33-116 | each refusal of a plan exactly, and otherwise the status conflict, the dependents' conflict and the provider's conflicts exactly when they hold, with every blocking dependent and the basis |
| Prediction.PlanPredictsExecution | internal/planner/service.go:33-116 | for create, update and notify, in every reachable state at rest, the plan lists no conflict if and only if reversing at once returns the success of that operation, and then verifying at once finds every postcondition satisfied |
| Prediction.ServeDemo | internal/reversal/service.go:57-186 | an accepted reversal of a demo Action succeeds exactly when its statement matches; its rows, its own status and every other Action's status afterwards |
| ReversalService.Service.Replay | internal/reversal/service.go:209-232 | however long it polls, the answer is the projection of the recorded attempt |
| ReversalService.Service.ReplayOrConflict | internal/reversal/service.go:192-203 | a registered key is replayed or, for another Action, refused; an unregistered one is handed back |
| ReversalService.Service.BeginReversal | internal/reversal/service.go:132-182 | attempt, status and key record together, or the tables as they were |
| ReversalService.Service.CheckEligibility | internal/reversal/service.go:85-130 | what refuses the request, in the order of the checks |
| ReversalService.Service.Execute | internal/reversal/service.go:240-392 | one provider call, its classification, the conclusion or parking, the status write and the answer |
| ReversalService.Service.Reverse | internal/reversal/service.go:57-186 | the whole request with its rollback and lost-race paths leaves and answers what Serve says |
| Answers.RefusalsAreExact | internal/reversal/service.go:57-186 | for every Problem, a request without a registered key is refused with it if and only if the Action's row, edges and attempts as the request finds them say so; such a refusal leaves the swept tables |
| Answers.AcceptedIsExecuted | internal/reversal/service.go:132-186 | every other request begins with exactly one RUNNING attempt, REVERSING, its history row and its key record, and then is its one execution |
| Answers.ExecuteRecords | internal/reversal/service.go:257-392 | for every provider return the attempt's whole row, class and text included, the Action's status with its history row, and the whole answer; nothing else changes |
| Answers.RegisteredKeyAnswers | internal/reversal/service.go:192-232 | a registered key is refused for other request semantics and otherwise answered field by field from its attempt; only the sweep is written |
| ReversalService.Service.RecoverAll | internal/reversal/service.go:464-491 | the recovery loop with its early returns, its counter and its two writes a round |
| ReconciliationService.Service.Reconcile | internal/reconciliation/service.go:38-159 | one round: the replay when nothing is uncertain, otherwise lookup, logged evidence and at most one transition |
| Services.ReplayIsFaithful | internal/reversal/service.go:418-453 | for every return in the vocabulary a replay tells what the first caller was told on attempt, Action, status, outcome and provider reference; on the time if and only if the attempt concluded or the call took no time; on the text if and only if no conflict came without text and no success with one |
| Services.ExecuteLeavesSettledAttempt | internal/reversal/service.go:266-391 | the rows an execution leaves are the ones that theorem is about, and its answer is the one it compares with |
| Refinement.ServeRuns | internal/reversal/service.go:57-186 | from every state at rest that satisfies the invariant, a request by itself is a request-serial run of the protocol's steps, with one new attempt whose effect is the statement's |
| ServiceRuns.ReconcileRuns | internal/reconciliation/service.go:38-159 | a reconciliation round by itself is a run of the protocol's steps |
| Recovery.RecoverRuns | internal/reversal/service.go:464-491 | after a crash, recovery is a run of the protocol's recovery steps |
| ServiceRuns.ServicesAreRuns | internal/reversal/service.go:57-186 | whatever services are called in whatever order, restarts included, the tables are those of a request-serial run from the empty store |
| Invariant.StepKeeps | internal/reversal/service.go:132-255 | every step of every thread, of recovery and of a crash keeps the invariant |
| Invariant.ReachableInv | internal/reversal/service.go:132-255 | the invariant holds after every interleaving with crashes and abandoned threads |
| Safety.CalledAtMostOnce | internal/reversal/service.go:240-247 | over every run the provider is called at most once for each attempt |
| Safety.OnlyTheNewestCanMatter | internal/reversal/service.go:132-184 | every attempt but the newest of its Action was called once, denied any effect, and is concluded as CONFLICT or as a retryable REVERSE_FAILED |
| Safety.AtMostOneEffect | internal/reversal/service.go:257-383 | over every run in which providers have no effect where they deny one, two attempts of an Action that both took effect are the same attempt |
| Safety.AtMostOneDemoEffect | examples/resource-api/resourceapi.go:429-702 | for the demo operations at most one attempt of an Action takes effect in every reachable state, with no assumption on returns |
| Safety.Coupling | internal/reversal/service.go:240-392 | in every reachable state the newest attempt's state and result and the Action's status are a pair of an explicit table, torn pairs included |
| Safety.NoAttemptNoReversal | internal/reversal/service.go:142-148 | an Action without attempts is APPLIED, EXPIRED or IRREVERSIBLE |
| Safety.FinalStatusHasEvidence | internal/reconciliation/service.go:93-148 | REVERSED, PARTIALLY_REVERSED and REVERSE_FAILED only when the newest attempt's call returned that, or it was parked and a proven observation of that kind is logged for it |
| Safety.RecoveryConcludesNothing | internal/reversal/service.go:455-491 | recovery leaves every conclusion as it is and adds none |
| Safety.ReversedIsTrue | internal/reversal/service.go:257-383 | with truthful providers, REVERSED means the effect of that attempt really happened |
| TornPairs.CleanRunsTearNothing | internal/reversal/service.go:240-392 | without crashes, abandoned threads and unrecognised outcomes, once no work is in flight every newest attempt and its Action's status match exactly; where proven lookups contradicted each other the status is one of the two that were proven |
| TornPairs.CleanRunsFinish | internal/reversal/service.go:240-392 | and then no attempt at all is RUNNING and no Action REVERSING |
| TornPairs.LossTearsForever | internal/reversal/service.go:250-255 | a crash between the two writes, or the loss of the thread there, is never repaired: over every continuation, recovery included, the row stays and the Action stays REVERSING |
| TornPairs.RecoveryCrashTearsForever | internal/reversal/service.go:478-487 | so does a crash between recovery's two writes |
| TornPairs.ReconciliationCrashTearsForever | internal/reconciliation/service.go:122-144 | a crash between reconciliation's two writes leaves the proven conclusion on an Action that stays OUTCOME_UNKNOWN over every continuation |
| Idempotency.AnswersAgree | internal/reversal/service.go:66-83 | over all interleavings and restarts every answer for a key names one attempt and one Action, and in the order of the durable reads the outcomes are unknown for a while and then one constant |
| Idempotency.DefiniteAnswerIsRecorded | internal/reversal/service.go:192-232 | an answer other than unknown is what the key's attempt recorded |
| Idempotency.OneKeyOneCall | internal/store/idempotency.go:75-88 | requests with one key cause at most one provider call over every run |
| Idempotency.KeyConflictMeansOtherAction | internal/reversal/service.go:74-82 | a found record refuses the key if and only if it names a different Action |
| Idempotency.LoserConverges | internal/reversal/service.go:132-176 | a request that reaches its transaction after its key was registered converges on that attempt if and only if the Action has an open attempt or is APPLIED again; otherwise it fails |
| UndoStack.ResourceIsTopOfStack | examples/resource-api/resourceapi.go:183-247 | in every reachable state the updates of a resource that are not undone expect the versions 2, 3, 4 and so on, each captured what the one below wrote, and the unpublished row is the top of that stack |
| UndoStack.RestoreUndoesTheTop | examples/resource-api/resourceapi.go:558-561 | no ABA: although versions are used again, a matching compare-and-swap, in any interleaving, undoes the newest update that is not undone, for the first time |
| UndoStack.PublishedStaysOverRuns | examples/resource-api/resourceapi.go:361-398 | a published row keeps its value and is never deleted, over every run |
| RoundTrip.OnlyTheTopReverses | examples/resource-api/resourceapi.go:548-593 | an eligible update is reversed if and only if it is on top, and then lowers its resource by one; any other conflicts, leaves every row and returns its Action to APPLIED |
| RoundTrip.LifoRoundTrip | examples/resource-api/resourceapi.go:548-593 | undoing any number of updates newest first, each in its window and unblocked at its turn, restores exactly what lay below; undoing all of them restores the created value at version 1 |
| Checks.AdmittedOverResolved | internal/reversal/service.go:103-116 | in every interleaving each dependent recorded before a request read them is resolved whenever that request is admitted, so all are if and only if those recorded since are |
| Checks.LateMeansReversing | internal/reversal/service.go:58-64 | in every interleaving a request that arrives at or after the end of its Action's window is admitted only if the Action was REVERSING when the request's sweep queried |
| Deletion.DeleteIsSafeExactly | examples/resource-api/resourceapi.go:429-436 | in every reachable state a row that a create-reversal would delete is at version 1 with its created value if and only if every update of it is undone, and if and only if it is at version 1 |
| Deletion.OnlyLaterUpdatesAreLost | examples/resource-api/resourceapi.go:429-436 | when the delete matches, the row is as created if and only if every update recorded since the request read its dependents is undone; the earlier ones always are |
| Graph.GraphIsAcyclicExactly | internal/dependency/service.go:54-79 | over every interleaving the graph is acyclic if and only if no checked insertion closed a path when it was written, every edge stays inside one scope, and an update's unchecked edge never closes one |
| Graph.GraphStaysAcyclic | internal/dependency/service.go:54-79 | so insertions whose check within the bound still holds when they are written, mixed with updates and everything else, keep the graph acyclic |
| SerialTheorems.NoReversalAfterExpiry | internal/reversal/service.go:58-64 | in request-serial runs every attempt ever made was requested strictly before its Action's window closed |
| SerialTheorems.DeleteIsSafe | examples/resource-api/resourceapi.go:429-438 | in request-serial runs with crashes, a row that a create-reversal deletes is at version 1 with its created value |
| SerialTheorems.DependentsResolveFirst | internal/reversal/service.go:103-116 | in request-serial runs, when a reversal is accepted every recorded dependent has already entered REVERSED or PARTIALLY_REVERSED and stays there in every later state |
| Moves.FinalStatusStays | internal/action/action.go:33-42 | nothing leads out of REVERSED, PARTIALLY_REVERSED, REVERSE_FAILED, EXPIRED or IRREVERSIBLE, over every run |
| Races.UpdateBeforeDeleteIsLost | examples/resource-api/resourceapi.go:433-436 | at every request about to delete, an update can still get in, and disappears with the row |
| Races.UpdateIsLost | examples/resource-api/resourceapi.go:429-436 | a reachable state for every resource: its update is APPLIED and not undone, and the row is gone |
| Races.LateDependentIsIgnored | internal/reversal/service.go:107-116 | a dependency recorded between the check and the transaction does not block |
| Races.ReversalOverLateDependent | internal/reversal/service.go:107-146 | a reachable state: an accepted reversal with an unresolved dependent on record |
| Races.OverlappingAddsCloseACycle | internal/dependency/service.go:72-78 | two dependencies that both pass their check on the same store, written one after the other, reach a state with a cycle |
| Withdrawals.WithdrawnAtMostOnce | examples/resource-api/resourceapi.go:663-702 | over every interleaving a notification's reversal is attempted at most once and never returns its Action to APPLIED, because a sent notification can always be withdrawn |
| Expiry.LateExactly | internal/reversal/service.go:58-146 | an Action whose window has ended can be accepted by a request that arrives then, in some run, if and only if its status at that request's sweep is REVERSING and its operation has a reverse function and is not a notification |
| Expiry.LateExactlyOverReversing | internal/reversal/service.go:58-94 | for each single Action of another service that can be reversed: a late request can be accepted in some run if and only if the status at its sweep is REVERSING |
| Expiry.ExpiredActionBeginsReversal | internal/reversal/service.go:62-94 | an Action begins a reversal at or after the end of its window: a reachable state for every window |
| Recovery.RecoveryContract | internal/reversal/service.go:464-491 | from every reachable state recovery completes, parks exactly the RUNNING attempts, moves exactly their Actions to OUTCOME_UNKNOWN, returns their number, changes nothing else, and run again changes nothing and returns 0 |
| Recovery.RecoveryRecords | internal/reversal/service.go:464-491 | recovery adds one history row from REVERSING to OUTCOME_UNKNOWN for each RUNNING attempt, in order, at its own time |
| Recovery.RunningIsRecoverable | migrations/0001_init.sql:57-58 | one open attempt per Action makes the Actions of all RUNNING attempts distinct and REVERSING |
| Reconciliation.OnlyProvenEvidenceResolves | internal/reconciliation/service.go:85-148 | an uncertain Action leaves OUTCOME_UNKNOWN if and only if the lookup says REVERSED or REVERSE_FAILED and is proven; the evidence logged, the attempt's row, the Action, the history row and the answer of each; any other lookup, an error included, logs an inconclusive observation and changes nothing else |
| Reconciliation.RoundAnswers | internal/reconciliation/service.go:43-84 | each refusal of a round exactly, and otherwise, with nothing uncertain, the attempt requested last, field by field |
| Reconciliation.ResolvedStaysResolved | internal/reconciliation/service.go:51-66 | once resolved, every later round writes nothing and answers the same, as long as request times grow from attempt to attempt |
| Reconciliation.LatestIsNewest | internal/store/attempts.go:201-207 | the latest attempt by request time is a given one if and only if no other of its Action was requested later |
| Moves.HistoryIsConserved | internal/store/actions.go:95-128 | each history is a path in the status graph from the creation status to the current one, with as many entries into REVERSING as the Action has attempts, and no entry is ever removed or changed |

## Left out

- HTTP binding, command line, server wiring, migrations as such: input and output only.
- A reversal or planning service wired without a dependency service, which then checks nothing.
- PlannerService.Service.Plan: residue, preconditions and expected reversal are fixed texts and not
  kept, nor are the status and the counts inside conflict texts. Between steps of other threads, a
  plan's sweep is that of a request abandoned after it; the rest of a plan only reads.
- Authorization, operation registry validation, problem titles and status codes: guards in front of
  what is modelled. An operation that is not registered does not occur.
- SQL text, row scanning and JSON: tables are typed. Material is a record; version numbers stay
  exact, so versions are taken to be below 2^53, where JSON numbers are.
- Store errors: each stands for an abandoned thread, or, inside a provider's reverse function, for
  an unclassified failure that may hide an effect. A store error inside recovery is a crash.
- Storage.Store.UpdateStatus: outside a transaction the status row and the history row are two
  statements; they are one write here, and the history theorem assumes it.
- Storage.Store.SweepExpiry: a failing transition stops the program's sweep with an error; alone on
  the store it cannot fail, and between steps of other threads it is modelled in Protocol.
- Names: the n-th inserted Action or attempt is called n, which stands for the random identifiers;
  resource and notification identifiers are any fresh ones.
- Storage.LatestAttempt: equal request times are broken by insertion order where the program
  compares random names; ResolvedStaysResolved therefore asks for strictly growing times.
- Reconciliation.LatestIsNewest: the same rule for ties.
- Dependency.ParentEdgesInOrder: the query names no order; rows come in the order recorded, which is
  the order of the index on scope and parent. The same for Dependency.DependentEdgesInOrder.
- Expiry.LateExactly: for windows that end after the first instant of the year 0000.
- Graph.GraphIsAcyclicExactly: adding a dependency is one insertion in the steps; the reads of its
  check are not steps of their own, and CheckedRun says when the check still holds.
- Hashes: SHA-256 of keys and request semantics is taken to be injective.
- Times: instants from the year 0000 to the end of the year 9999, in UTC; adding the length of a
  window to the present is the caller's.
- ReversalService.Service.Replay: the two-second deadline and the pause between polls are a number
  of polls. The classes have no other writer, so waiting there changes nothing; between steps of
  other threads it is a free choice to stop waiting.
- Texts: version numbers inside conflict texts and the notes of history rows are not kept, nor are
  a plan's preconditions, expected reversal and residue, which are fixed texts.
- Storage.Store.RecordObservation: the detail text beside the evidence is free text and not kept.
- Provider.Api.Notify: the declared residue and the notification's delivery time are not kept.
- Residue records and receipts, verification records, provider-owned references: free text or
  append-only logs nothing here depends on.
- Provider.Api.PlanReversal: one method for the three plan functions, and VerifyReversal for the
  three verify functions; each branch is one of them.
- Late effects: a provider whose effect happens after its call returned is not modelled; the trail
  records the effect with the call.
- PENDING attempts and the transitions nothing takes (OUTCOME_UNKNOWN to REVERSING or to
  PARTIALLY_REVERSED) are in the tables without steps.
- Idempotency.AnswersAgree: two racers with one key need not both get an answer; the loser may be
  told that a reversal is in progress or that the Action is not APPLIED. Only agreement of the
  answers given is stated.
- Liveness: that every unknown outcome is resolved in the end is not promised, and torn pairs
  refute it (TornPairs.LossTearsForever).
