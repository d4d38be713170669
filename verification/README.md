# Dark Kitchen control plane: verified model

A Dafny model of the stateful protocols of the control plane, with proofs of what they keep over whole
runs. `dafny verify dfyconfig.toml` checks everything.

| Area | Modules |
|---|---|
| Task graph and scheduler | `Digraphs` (reachability, the reference notion), `GraphValidation` (three-colour search), `DependencyKeys`, `CycleCheck` (stack search), `DependencyIds`, `DependencyStore` (mock tracker), `Scheduling` (run supervisor), `SchedulerDrain` (progress) |
| Pull-request lifecycle | `LifecycleServices` (mock SCM, tracker and release as failing oracles, with a log of effects), `PrLifecycle` (gates, merge loop, verified merge, cleanup), `DaemonLoop` (one task execution) |
| Interventions | `Interventions` (sequential service), `ConcurrentTransitions` (interleaved resolve and dismiss) |
| Agents | `Replacement` (replacement across daemon instances), `Failover` (quota failover) |
| Channels | `RoutingCode` (hash, base 36, recognition), `ReplyRouting` (correlations), `InboundReplay` (replay protection) |
| Shared | `Identifiers`, `Filtering`, `Runs` (runs of a step function) |

Objects that update their fields are classes whose methods are proved against specification functions;
lemmas about runs are stated over those functions. Protocols that interleave at an `await` are step
machines whose disabled steps change nothing, so that every sequence of events is a run. Failing calls
are nondeterministic.

## Where the code falls short of the expectation

Each of these is kept as the code has it, with an example and the condition under which the expectation holds.

- **Dependency keys.** The duplicate check joins ids with `:`, so `a` → `b:c` and `a:b` → `c` look the same
  (`DependencyKeys.CollidingKeysExample`). The validator accepts every meaningful graph over given task ids
  exactly when joining two of them is unambiguous (`AcceptsEveryMeaningfulGraph`).
- **Dependency ids.** Printing then parsing works exactly when neither id is blank or contains `->`
  (`DependencyIds.RoundTrip`). In the mock tracker two edges can share an id; the per-task index survives a
  write exactly when the id was not taken by another task (`DependencyStore.PutKeepsIndex`, `SharedIdExample`).
  Acyclicity survives regardless.
- **Errors that escape a task run.** The failure report is itself refused when its text exceeds 16000
  characters; the error then leaves `runTask` and the task stays active without an incident
  (`DaemonLoop.EscapingErrorExample`). With ids of at most 1900 characters together that happens exactly when
  the workflow throws a text longer than 15972 characters less the task id (`DaemonLoop.Daemon.RunTask`).
- **Half-written replacement.** If the daemon fails between inserting the binding and the session record
  (`Replacement.WedgedExample`), no later call for that source, action and profile can succeed. From any
  reachable state some continuation serves a key exactly when no such binding, and under a request id no other
  conflicting one, blocks it (`Replacement.ServedEventuallyIff`).
- **Stale prompts in failover.** A prompt still in flight from before a switch continues from its own
  candidate, so the public index can fall (`Failover.StalePromptExample`). A failing object moves the session
  forward, for every answer of the candidates, exactly when it is not behind the current one
  (`AdvancesExactlyFromCurrent`), and a session whose failures all meet that condition only moves forward
  (`IndexOnlyIncreases`).
- **Lost receipts.** If handlers succeed and the receipt is not stored, a redelivery runs them again
  (`InboundReplay.LostReceiptExample`). The number of successes is bounded by the number of lost receipts plus
  one (`AtMostOncePlusLost`), and a further success is possible exactly without a receipt
  (`SucceedsAgainIffNoReceipt`).
- **Empty transport id.** It drops the transport filter; replies stay within their transport exactly for the
  other ids (`ReplyRouting.ConfinedIffTransportNamed`).
- **Reuse ignores the target branch.** The lookup before creating a pull request goes by source branch only,
  so a run for one target can merge a pull request into another and report its own task as merged
  (`PrLifecycle.MergesIntoAnotherTarget`). Whatever the lookup answers, the run works on its own target exactly
  when every reusable pull request of the source has it (`PrLifecycle.OwnTargetIffReusableOnTarget`).

## Model

| member | source | states |
|---|---|---|
| `Digraphs.AddEdgeKeepsAcyclic` | packages/tracker/src/contracts.ts:94-112 | the fact both cycle tests rest on: one more edge keeps an acyclic graph acyclic if and only if its head does not already reach its tail |
| `Digraphs.SinkExists` | packages/runtime/src/scheduler.ts:52-90 | in an acyclic graph every non-empty finite set of tasks has one that depends on none of the others, the reason some task is always ready |
| `GraphValidation.CycleSearch.Visit` | packages/core/src/domain.ts:391-411 | the recursive three-colour visit terminates; it reports a cycle only if there is one, and otherwise everything it finished is closed under edges and lies on no cycle |
| `GraphValidation.CollectBlockingEdges` | packages/core/src/domain.ts:362-388 | the first faulty dependency in list order decides the error; without one the adjacency lists hold exactly the blocking edges |
| `GraphValidation.WellFormedMeansNoFault` | packages/core/src/domain.ts:356-388 | checking each dependency against the earlier ones is the same as distinct ids and keys, known endpoints and no self edge for the whole list |
| `GraphValidation.ValidateTaskGraph` | packages/core/src/domain.ts:356-412 | accepts exactly the graphs with distinct tasks, sound dependencies and no directed cycle of blocking edges; every error says what it found, in the order of the checks |
| `DependencyKeys.AcceptsEveryMeaningfulGraph` | packages/core/src/domain.ts:377-384 | for given task ids, every graph without a repeated edge and without a cycle is accepted if and only if joining two ids with a colon is unambiguous |
| `DependencyKeys.AcceptedIsMeaningful` | packages/core/src/domain.ts:356-412 | an accepted graph never lists an edge twice and never has a blocking cycle |
| `DependencyKeys.SeparatorFreeIsUnambiguous` | packages/core/src/domain.ts:377-384 | ids of which none continues another with a colon are unambiguous, a condition one can check by looking at the ids |
| `DependencyKeys.CollidingKeysExample` | packages/core/src/domain.ts:377-384 | two different edges, in an otherwise fine graph, are refused as a duplicate |
| `CycleCheck.WouldCreateCycle` | packages/tracker/src/contracts.ts:94-112 | the stack search terminates on every dependency map and returns true if and only if `from` is reachable from `to` |
| `CycleCheck.AllowedEdgeStaysAccepted` | packages/tracker/src/contracts.ts:94-112 | the two cycle algorithms agree: an accepted graph with one more blocking edge of fresh id and key is accepted if and only if the tracker's test allows the edge |
| `CycleCheck.AllowedByTrackerStaysAccepted` | packages/tracker/src/github-issues.ts:591-603 | the mock tracker tests against edges of every kind: a blocking edge it allows is still one the validator accepts |
| `DependencyIds.RoundTrip` | packages/tracker/src/github-issues.ts:452-463 | parsing a printed dependency id returns the two task ids if and only if neither is blank or contains an arrow |
| `DependencyIds.ParsedIsPrinted` | packages/tracker/src/github-issues.ts:452-463 | only printed ids parse: printing what was parsed gives the id back |
| `DependencyIds.OtherwiseNotParsed` | packages/tracker/src/github-issues.ts:452-463 | a missing prefix is no dependency id; the blank-id error comes exactly for an id printed from a blank one without arrows |
| `DependencyIds.PrintInjective` | packages/tracker/src/github-issues.ts:256 | different edges have different ids when the depending tasks' ids contain no arrow |
| `DependencyStore.MockTracker.BuildDependencyGraph` | packages/tracker/src/github-issues.ts:634-641 | the graph handed to the cycle test has exactly the stored edges |
| `DependencyStore.MockTracker.AddDependency` | packages/tracker/src/github-issues.ts:591-614 | refuses exactly the edges whose head reaches their tail, leaving the store alone; otherwise stores the dependency asked for under its printed id and indexes it for its task only |
| `DependencyStore.MockTracker.RemoveDependency` | packages/tracker/src/github-issues.ts:616-621 | removes the dependency and its index entry and nothing else |
| `DependencyStore.RunsStayAcyclic` | packages/tracker/src/github-issues.ts:591-621 | after any sequence of additions and removals the stored graph has no cycle, whatever the ids look like |
| `DependencyStore.PutKeepsIndex` | packages/tracker/src/github-issues.ts:606-612 | storing keeps the per-task index exact if and only if the id does not belong to another task's dependency |
| `DependencyStore.RunsKeepIndex` | packages/tracker/src/github-issues.ts:591-628 | with arrow-free depending ids, after any run the index lists each task's stored dependencies, each once |
| `DependencyStore.SharedIdExample` | packages/tracker/src/github-issues.ts:591-628 | with arrows in ids, a task's listing can contain another task's edge |
| `DependencyStore.ListingExact` | packages/tracker/src/github-issues.ts:623-628 | a listing holds exactly the task's stored dependencies, without repetition |
| `DependencyStore.AddedIsListedLast` | packages/tracker/src/github-issues.ts:591-628 | an added dependency of fresh id comes last in its task's listing, and no other listing changes |
| `DependencyStore.RemovedIsUnlisted` | packages/tracker/src/github-issues.ts:616-628 | a removed dependency is in no listing and no longer an edge; everything else is still listed |
| `DependencyStore.RemoveUndoesAdd` | packages/tracker/src/github-issues.ts:591-621 | removing what was just added gives back the stored dependencies and every listing |
| `DependencyStore.ListingsAccepted` | apps/cli/src/daemon.ts:525-530 | after any such run the dependencies gathered for the known tasks and restricted to them pass validation; unrestricted, if and only if no known task depends on an unknown one |
| `Scheduling.ComputeReadyTasks` | packages/runtime/src/scheduler.ts:52-90 | fails exactly on graphs the validator rejects, with the cycle error exactly for cycles; otherwise the ready, inactive tasks all of whose blockers are completed, in order |
| `Scheduling.RunSupervisor.PromoteDependents` | packages/runtime/src/scheduler.ts:150-194 | turns to ready exactly the unblocked, untouched backlog tasks whose promotion the tracker accepted, task by task, and leaves the others |
| `Scheduling.RunSupervisor.Tick` | packages/runtime/src/scheduler.ts:119-142 | takes the tick step of the supervisor's specification, keeping what was launched before a launcher failed |
| `Scheduling.TickIsSafe` | packages/runtime/src/scheduler.ts:119-142 | every launched task was startable, had all blockers completed, and was neither active, paused nor done; the active set grows by exactly the launched tasks, to at most the larger of its size before and the limit |
| `Scheduling.TickLeavesNothingIdle` | packages/runtime/src/scheduler.ts:119-142 | after a tick on an accepted graph the limit is reached, or every launchable task is active, or a launchable task's launcher threw and ended the tick; launchable is stated by tracker status, blockers, promotion, pause and completion |
| `Scheduling.TickLaunchesInOrder` | packages/runtime/src/scheduler.ts:119-142 | if a tick launches a task, it launches every launchable task listed before it |
| `Scheduling.TickRecordsRuns` | packages/runtime/src/scheduler.ts:134-141 | a launched task is active with the run its launcher answered, and every run already recorded stays |
| `Scheduling.RunsStayDisjoint` | packages/runtime/src/scheduler.ts:197-270 | in every run of ticks and controls no task is both active and completed |
| `Scheduling.NoDoubleLaunch` | packages/runtime/src/scheduler.ts:119-270 | between two launches of a task lies a failure, stop, retry or recovery as paused of that task |
| `Scheduling.LaunchableAgain` | packages/runtime/src/scheduler.ts:197-270 | a retried, resumed or failed task is launchable by the next tick once the tracker has it ready and unblocked |
| `Scheduling.NotLaunchedWhilePaused` | packages/runtime/src/scheduler.ts:197-270 | from a pause, stop or gated recovery on, over every run, a task is not launched before it is resumed or retried |
| `SchedulerDrain.UnblockedTaskExists` | packages/runtime/src/scheduler.ts:52-90 | an accepted graph with unfinished tasks has an unfinished one with only completed blockers |
| `SchedulerDrain.EveryTickLaunches` | packages/runtime/src/scheduler.ts:119-194 | with promotion on, its sync succeeding, room for one task and nothing active, paused or stale, a tick launches something while tasks are unfinished |
| `SchedulerDrain.DrainsWithinTaskCount` | packages/runtime/src/scheduler.ts:119-203 | alternating ticks with completion of what was launched finishes all n tasks within n rounds |
| `LifecycleServices.Services.CreatePullRequest` | packages/scm/src/github-scm.ts:354-374 | answers with an open or merged pull request of the pair, new only when the pair had none |
| `LifecycleServices.Services.FindByBranch` | packages/scm/src/github-scm.ts:386-402 | finds an open pull request of the branch if there is one, else a merged one, else reports that all are closed |
| `LifecycleServices.Services.Merge` | packages/scm/src/github-scm.ts:432-453 | merges only behind the required checks and, if one is given, the expected head; a refusal changes nothing; the log keeps what state the pull request was in |
| `LifecycleServices.Services.VerifyMerged` | packages/scm/src/github-scm.ts:455-458 | confirms only what is merged |
| `PrLifecycle.ValidateVerificationProofs` | packages/runtime/src/pr-lifecycle.ts:619-653 | passes exactly when the latest proof of every required profile passed with evidence, all profiles are named, all references are safe and the limits of 50 proofs and 100 references hold |
| `PrLifecycle.CheckGates` | packages/runtime/src/pr-lifecycle.ts:103-155 | lets through exactly the results with a summary, passed tests and review, a clean worktree and valid proofs, and says for each other result which state the run ends in |
| `PrLifecycle.CheckCode` | packages/runtime/src/pr-lifecycle.ts:197-245 | lets through exactly the results with named commits, two different branches and a body within the limit; without commits the checks failed, otherwise the workflow is invalid |
| `PrLifecycle.PrLifecycleOrchestrator.HandleConflict` | packages/runtime/src/pr-lifecycle.ts:535-571 | tries a base merge exactly with a worktree and an attempt left, and lets the loop go on only then |
| `PrLifecycle.PrLifecycleOrchestrator.Attempt` | packages/runtime/src/pr-lifecycle.ts:310-451 | one pass: a merge call only right after reading a head, right after a poll in which every required check passed; it stops only with the reason its effects show; and if nothing fails another attempt follows if and only if one is left and the conflict, the moved head or a pending check is a reason for it |
| `PrLifecycle.PrLifecycleOrchestrator.PollAndMerge` | packages/runtime/src/pr-lifecycle.ts:333-451 | the pass behind a pull request that does not conflict: merges at once if and only if checks and head allow it, else retries or stops with the reason the poll, the head or the merge call gives |
| `PrLifecycle.PrLifecycleOrchestrator.MergeLoop` | packages/runtime/src/pr-lifecycle.ts:310-451 | never runs out of attempts: it leaves the pull request merged by the last and only successful merge call, or open with a stopping result its last pass justifies, within m polls, m merge calls and m - 1 base merges |
| `PrLifecycle.AttemptAppends` | packages/runtime/src/pr-lifecycle.ts:310-451 | one more attempt adds at most one poll, one merge call and one base merge to any run of the loop and keeps every merge call tied to its poll |
| `PrLifecycle.PrLifecycleOrchestrator.Finish` | packages/runtime/src/pr-lifecycle.ts:453-522 | verification, tracker completion, branch deletion and release, each only if what it rests on succeeded, and a result that says how far it got |
| `PrLifecycle.PrLifecycleOrchestrator.FinishWithoutCode` | packages/runtime/src/pr-lifecycle.ts:156-196 | tracker completion then release, and the result of each failure |
| `PrLifecycle.PrLifecycleOrchestrator.CreateOrReuse` | packages/runtime/src/pr-lifecycle.ts:247-273 | at most one creation, of a branch nothing was created for before; the answer is a pull request of the source branch, with the target of the one reused or else of the run |
| `PrLifecycle.OwnTargetIffReusableOnTarget` | packages/scm/src/github-scm.ts:386-402 | every answer of the lookup leads to a pull request of the run's own target if and only if every reusable pull request of the source has it |
| `PrLifecycle.MergesIntoAnotherTarget` | packages/runtime/src/pr-lifecycle.ts:247-273 | a run for target "release" that ends merged, with the tracker completed, on a pull request into "main" |
| `PrLifecycle.PhasesGuarantee` | packages/runtime/src/pr-lifecycle.ts:247-522 | however a run's creation, loop and finish end, the whole log has completion behind gates and verification, cleanup of its own branch and worktree behind completion, the loop's bounds, and a result that reports the one pull request touched and what happened to it |
| `PrLifecycle.NoCodeGuarantee` | packages/runtime/src/pr-lifecycle.ts:156-196 | the commit-free path gives the same guarantees without a merge |
| `PrLifecycle.PrLifecycleOrchestrator.Run` | packages/runtime/src/pr-lifecycle.ts:98-523 | under arbitrary failures: the tracker is completed only behind all gates and a verified merge or a commit-free outcome; only the source branch is deleted and only the task's worktree released, if asked for and behind the tracker; merging only with auto-merge on and every required check passed; the result reports the one pull request created, brought up to date, merged or verified, which is of the source branch and of the run's target if all reusable ones are; a failed gate leaves everything alone and names the gate; a run past the gates awaits approval if and only if auto-merge is off and its pull request is still open, fails on exactly a closed one, is refused without required checks if and only if it is open, and otherwise leaves it open only with the reason of the last pass; and if nothing fails, a ready result is finished |
| `PrLifecycle.PrLifecycleOrchestrator.RunAll` | packages/runtime/src/pr-lifecycle.ts:98-523 | over any number of runs on the same services, starting from a log of which this holds, at most one pull request is created per source branch, no merge is called on a merged one, and each run keeps its guarantees |
| `PrLifecycle.RunKeepsLogSafe` | packages/runtime/src/pr-lifecycle.ts:247-451 | what one run adds to the log of all runs can neither create a second pull request of a branch nor merge a merged one |
| `DaemonLoop.Daemon.Supersede` | packages/runtime/src/daemon-loop.ts:227-249 | every active operational incident of the task becomes dismissed, and every other intervention stays as it was |
| `DaemonLoop.Daemon.ReportAndPause` | packages/runtime/src/daemon-loop.ts:254-266 | an accepted report leaves exactly one incident, of the reported kind, and the task paused; a refused one changes nothing |
| `DaemonLoop.Daemon.Execute` | packages/runtime/src/daemon-loop.ts:251-354 | each workflow outcome ends in the state and with the incidents its ending names; completed exactly when the lifecycle completed the tracker and any release |
| `DaemonLoop.Daemon.RunLifecycle` | packages/runtime/src/daemon-loop.ts:268-341 | the lifecycle finishes the task if and only if tracker and release are done, and leaves it active if and only if its pull request is left open for approval |
| `DaemonLoop.Daemon.HandleError` | packages/runtime/src/daemon-loop.ts:355-375 | an error is reported and pauses the task if and only if its report is accepted |
| `DaemonLoop.Daemon.RunTask` | packages/runtime/src/daemon-loop.ts:213-379 | whatever ticks and other runs do to the supervisor meanwhile, the task is settled as the ending says; exactly one active operational incident, of the kind of the failure, when paused for one and none otherwise; finished if and only if tracker and release are done; still active if and only if its pull request awaits approval; an error escapes if and only if the workflow threw a text too long to report |
| `DaemonLoop.ForeignRunKeeps` | packages/runtime/src/scheduler.ts:119-270 | over any ticks and any events of other tasks, a task that is active, completed or paused stays exactly that and is not launched |
| `DaemonLoop.TaskAccounting` | packages/runtime/src/daemon-loop.ts:213-379 | a launched task that no control touches, interleaved with any ticks and other tasks' runs before and after its settlement, ends completed and inactive, still active, or paused and inactive, which one being decided by its ending, and is never launched again |
| `DaemonLoop.OnlyLongErrorsEscape` | packages/runtime/src/interventions.ts:370-379 | with ids of moderate length, an error can be reported if and only if its text fits, and a refused report's own error always can |
| `DaemonLoop.EscapingErrorExample` | packages/runtime/src/daemon-loop.ts:355-375 | an error of 15972 characters escapes the run of task "t" and leaves it as it was, without an incident |
| `Interventions.InterventionService.CreateIntervention` | packages/runtime/src/interventions.ts:98-181 | keeps the service's invariant and, case by case: refuses an invalid input, answers with the record of a used key, answers with an active record of the same nature, or stores a new open record of the input |
| `Interventions.InterventionService.Resolve` | packages/runtime/src/interventions.ts:183-227 | an active record becomes resolved and loses its keys, a resolved one is answered again, a dismissed one refused; nothing else changes |
| `Interventions.InterventionService.Dismiss` | packages/runtime/src/interventions.ts:229-262 | an active record becomes dismissed; nothing else changes, and a terminal one is answered as it is |
| `Interventions.RunsStaySound` | packages/runtime/src/interventions.ts:98-262 | over every sequence of calls and restarts at most one active record exists per kind, scope and target, and the key map agrees with the deterministic ids |
| `Interventions.RestartIsInvisible` | packages/runtime/src/interventions.ts:98-181 | losing the key map at any moment changes neither the records nor any later answer |
| `Interventions.RunPersists` | packages/runtime/src/interventions.ts:183-262 | a record never disappears or changes its nature, and never changes at all once resolved or dismissed |
| `Interventions.ReplayedKey` | packages/runtime/src/interventions.ts:111-130 | repeating a key whose record exists returns that record whatever its status and creates nothing |
| `ConcurrentTransitions.NextKeepsInv` | packages/runtime/src/interventions.ts:342-354 | one call in flight per record, no record held by a call that is gone, and what a call has read is still what is stored |
| `ConcurrentTransitions.AtMostOneTerminalWrite` | packages/runtime/src/interventions.ts:183-262 | under every interleaving of resolve and dismiss calls, with crashes, a record gets at most one terminal write |
| `ConcurrentTransitions.TerminalForever` | packages/runtime/src/interventions.ts:183-262 | under every interleaving a resolved or dismissed record never changes again |
| `ConcurrentTransitions.WriteIsTheCallsOwn` | packages/runtime/src/interventions.ts:183-262 | whoever else is in flight, the write of a call that has read makes an active record what that call wants and leaves a terminal one |
| `ConcurrentTransitions.SettledByItsCall` | packages/runtime/src/interventions.ts:183-262 | in every run a resolved record was written by a resolve call and a dismissed one by a dismiss call |
| `ConcurrentTransitions.UndisturbedCall` | packages/runtime/src/interventions.ts:342-354 | the steps of one undisturbed call compose to the sequential operation |
| `ConcurrentTransitions.NeverStuck` | packages/runtime/src/interventions.ts:342-354 | from every reachable state, without a crash, any record can still be settled: the call in flight can finish and make way |
| `Replacement.InsertKeepsUnique` | packages/runtime-store-sqlite/src/migrations.ts:216-221 | inserting a binding the unique indexes let in repeats no source, action and profile and no request id |
| `Replacement.NextKeepsInv` | packages/runtime/src/agent-controls.ts:409-541 | every step of every call keeps the invariant: unique bindings, sessions accounted for, inherited identity, only ended sessions replaced, only real replacements answered |
| `Replacement.OneReplacementOthersStopped` | packages/runtime/src/agent-controls.ts:409-541 | under every interleaving of any number of instances at most one binding exists per source, action and profile, and every other settled session was asked to stop, never both |
| `Replacement.OnlyEndedSessionsReplaced` | packages/runtime/src/agent-controls.ts:416-421 | under every interleaving the source of every replacement and of every call is a recorded session in a terminal state |
| `Replacement.CallsAgree` | packages/runtime/src/agent-controls.ts:409-541 | in every run two calls for one source, action and profile that both answer answer with the same recorded session |
| `Replacement.LookupsAnswer` | packages/runtime/src/agent-controls.ts:518-541 | the lookup before the start and the one after a lost insert answer with a recorded replacement of the key and request if and only if there is one; the first fails on a used request id and else lets the call start |
| `Replacement.IdentityKeptFromRoot` | packages/runtime/src/agent-controls.ts:409-516 | every recorded session descends from one the daemon launched and keeps its run, task, execution node and workspace |
| `Replacement.ProfileKeptUnlessSwitched` | packages/runtime/src/agent-controls.ts:279-319 | in every run a restart or retry runs on its source's profile; only a switch leaves it, and carries no request id |
| `Replacement.WedgedExample` | packages/runtime/src/agent-controls.ts:455-491 | a run in which the store fails between the two writes of a restart, leaving a binding without a session record |
| `Replacement.WedgedForever` | packages/runtime/src/agent-controls.ts:455-516 | a binding without a session record blocks its source, action and profile for ever: nothing is found and nothing can be inserted |
| `Replacement.ServedNowIff` | packages/runtime/src/agent-controls.ts:518-541 | a call finds its replacement or may insert one if and only if every binding in its way, by key or by request id, is one the lookup answers with |
| `Replacement.ServedWithoutRequestIff` | packages/runtime/src/agent-controls.ts:518-541 | without a request id, if and only if no binding of its source, action and profile lacks its session record |
| `Replacement.ServedEventuallyIff` | packages/runtime/src/agent-controls.ts:409-541 | from any reachable state some continuation records a replacement that answers the call if and only if no binding blocks it, whether by another key or request id or for lack of a record to come |
| `Replacement.ServedEventuallyIffNotWedged` | packages/runtime/src/agent-controls.ts:409-541 | without a request id, if and only if no wedged binding replaces the same source, action and profile |
| `Failover.WalkMeaning` | packages/harness/src/failover-runtime.ts:91-104 | trying candidates in order settles on the first whose predecessors all refused for quota, and is exhausted if and only if all refused |
| `Failover.FailoverRuntime.StartSession` | packages/harness/src/failover-runtime.ts:91-104 | starts on, or throws from, the candidate that walk settles on, under a new public id |
| `Failover.FailoverRuntime.FailoverFrom` | packages/harness/src/failover-runtime.ts:249-285 | takes the step of the session specification under the same public id and touches no other session, ignores a second failure of an object meanwhile, and emits a failure if and only if every later candidate refused for quota |
| `Failover.IndexOnlyIncreases` | packages/harness/src/failover-runtime.ts:233-285 | while no failing object is behind the current one, each switch moves strictly forward |
| `Failover.BoundedSwitches` | packages/harness/src/failover-runtime.ts:249-285 | such a session switches at most as often as there are later candidates |
| `Failover.AdvancesExactlyFromCurrent` | packages/harness/src/failover-runtime.ts:106-116 | handling a failure can only move the public index forward, for all answers of the candidates, if and only if the failing object is not behind the current one |
| `Failover.StalePromptExample` | packages/harness/src/failover-runtime.ts:106-116 | a prompt left over from the first candidate takes a session from the fourth candidate back to the third |
| `RoutingCode.InterventionCode` | packages/channels/src/gateway.ts:68-77 | the loop over the characters computes the code of the hash specification |
| `RoutingCode.RenderRoundTrip` | packages/channels/src/gateway.ts:68-77 | every 32-bit hash renders to exactly seven base-36 digits, which decode to it |
| `RoutingCode.SameCodeIffSameHash` | packages/channels/src/gateway.ts:68-77 | two interventions share a code if and only if their hashes collide |
| `RoutingCode.OneCharacterMatters` | packages/channels/src/gateway.ts:68-77 | two ids that differ in one character, anywhere, never share a code |
| `RoutingCode.KnownHashes` | packages/channels/src/gateway.ts:68-77 | the hashes of the empty text and of "a" are the published FNV-1a values |
| `RoutingCode.ExtractMeaning` | packages/channels/src/gateway.ts:535-537 | the extracted code is the leftmost match in upper case, and there is none if and only if nothing matches |
| `RoutingCode.QuotedCodeIsFound` | packages/channels/src/gateway.ts:535-537 | an intervention's code written in any reply, in letters of either case, set off from the words around it and with no code before it, is extracted; with nothing around it in particular |
| `RoutingCode.FoundIsSetOff` | packages/channels/src/gateway.ts:535-537 | whatever is extracted has the form of a code and stands in the reply, in either case, with no word running into it |
| `ReplyRouting.InMemoryCorrelationStore.ListActive` | packages/channels/src/gateway.ts:100-114 | the interventions listed are exactly those with an active correlation the filter lets through |
| `ReplyRouting.InMemoryCorrelationStore.Deactivate` | packages/channels/src/gateway.ts:116-122 | deactivates all correlations of the intervention and leaves every other as it was |
| `ReplyRouting.ResolveIntervention` | packages/channels/src/gateway.ts:374-417 | answers with an intervention if and only if the message quotes its active notification, else names it alone by code, else it is the only one pending in the conversation |
| `ReplyRouting.RoutedInOwnConversation` | packages/channels/src/gateway.ts:374-417 | a message reaches only an intervention with an active correlation in the same transport and conversation |
| `ReplyRouting.ConfinedIffTransportNamed` | packages/channels/src/gateway.ts:106-114 | that holds for a transport, for all stores and messages, if and only if its id is not empty |
| `ReplyRouting.UnquotedNeedsSolePending` | packages/channels/src/gateway.ts:374-417 | a message whose quote is dead or missing and whose code is missing or singles out no pending question is routed to an intervention if and only if that is the sole pending one there |
| `ReplyRouting.CodePicksItsIntervention` | packages/channels/src/gateway.ts:387-400 | without a live quote, a pending intervention's code in letters of either case routes to it, however many are pending, if and only if no other pending one there has the same hash |
| `ReplyRouting.AnswerableIffPending` | packages/channels/src/gateway.ts:374-417 | some message resolves an intervention if and only if it has an active correlation |
| `ReplyRouting.RunsStayWellFormed` | packages/channels/src/gateway.ts:84-122 | over every sequence of notifications and deactivations each correlation is stored under its own key, which the routing results rest on |
| `ReplyRouting.SilentUntilNotified` | packages/channels/src/gateway.ts:316-335 | after a handled reply no message resolves the intervention until it is notified again, whatever happens to others |
| `ReplyRouting.AnsweredLeavesOthers` | packages/channels/src/gateway.ts:116-122 | answering one question leaves every other exactly as pending as it was, in every conversation |
| `ReplyRouting.QuotableUntilAnswered` | packages/channels/src/gateway.ts:374-388 | from its notification until it is answered, over every run of the store, a reply quoting the notification reaches its intervention and no other, whatever code it holds |
| `InboundReplay.RememberedFacts` | packages/channels/src/gateway.ts:513-520 | the cache stays a set within its bound and invents no key; up to the bound it forgets nothing, past it exactly the newest half is left |
| `InboundReplay.ChannelGateway.RememberInbound` | packages/channels/src/gateway.ts:513-520 | the eviction loop keeps exactly the newest half of the bound once it is exceeded, for every bound including zero and negative ones |
| `InboundReplay.ChannelGateway.Admit` | packages/channels/src/gateway.ts:291-303 | admits exactly the messages neither remembered, in processing nor receipted, and marks them |
| `InboundReplay.ChannelGateway.HandleInbound` | packages/channels/src/gateway.ts:287-366 | one uninterrupted message: a receipt is stored and remembered if and only if it was admitted and committed, which shuts it out for good; with any other ending it stays as admissible as it was; it is routed exactly as resolution says, and only the handled intervention is deactivated |
| `InboundReplay.RedeliveryIsRefused` | packages/channels/src/gateway.ts:287-342 | a committed message that comes again is refused, its handlers having run once |
| `InboundReplay.NextKeepsInv` | packages/channels/src/gateway.ts:287-366 | each step keeps cached keys receipted, phases in line with receipts, and every success either lost or accounted for |
| `InboundReplay.CacheIsBoundedSubset` | packages/channels/src/gateway.ts:513-520 | over every run, with restarts, the cache is within its bound and holds only receipted keys |
| `InboundReplay.CacheIsInvisible` | packages/channels/src/gateway.ts:296-302 | for any two bounds, including none, the same events admit the same messages and leave the same receipts: the cached check decides as the receipts alone |
| `InboundReplay.AtMostOncePlusLost` | packages/channels/src/gateway.ts:308-342 | over every interleaving a message's handlers succeed at most once more often than its receipt was lost, and never if it had a receipt from the start |
| `InboundReplay.LostReceiptExample` | packages/channels/src/gateway.ts:308-342 | a message whose receipt could not be stored is handled successfully twice |
| `InboundReplay.SucceedsAgainIffNoReceipt` | packages/channels/src/gateway.ts:308-342 | from any reachable state a further success is possible if and only if the message has no receipt |

## Left out

- The workflow engine, the worktree manager, agent prompts and their event stream, HTTP, GitHub, Jira, Linear, Telegram, WhatsApp and OpenClaw calls, SQLite and file access: replaced by oracles that may fail, or by maps with unique keys.
- `DaemonLoop.reconcile`, the command line, setup, dashboard, configuration schemas, role routing and lookup tables: they would add members without a protocol behind them.
- Overlapping ticks: a tick is one step. The launcher is awaited between the guard and the insert, so overlapping ticks could launch a task twice.
- Timestamps, delays, polling deadlines and redaction: timestamps and timers are dropped, texts are taken as given, and a pull request's body is represented by its length.
- Text length and case: strings are sequences of code points, where JavaScript counts UTF-16 units; case folding covers ASCII only. Stack depth of the recursive visit is not bounded.
- Scheduling.RunSupervisor.Tick: the tracker's acceptance of a promotion and the launcher's result are functions of the task, fixed for the tick.
- LifecycleServices.Services.Merge: failing calls have no effect, and nobody but the lifecycle merges or closes a pull request; other parties may push, rerun checks, change mergeability and open pull requests between any two calls.
- PrLifecycle.PrLifecycleOrchestrator.HandleConflict: the details text of conflicts and the run journal are not modelled.
- DaemonLoop.Daemon.RunTask: what others do meanwhile concerns the supervisor and the pull requests; the intervention store and the set of active tasks are changed by this run alone. The store does not fail, nothing else raises an incident of the task meanwhile, and the execution's random id makes its report keys new; the lifecycle event append and the deletion of the journal are best effort in the program and are left out.
- Interventions.InterventionService.CreateIntervention: creations are one at a time; the joining of concurrent creations under one key, subscribers, `askHuman` and a failing store are not modelled. The key's hash is an arbitrary function.
- Interventions.InterventionService.Resolve: the validation of the action, answer and resolver texts comes before it and is not modelled.
- ConcurrentTransitions.AtMostOneTerminalWrite: a call that joins one in flight is an event without effect; what it returns is not modelled.
- Replacement.NextKeepsInv: the class is split into steps on values because its calls interleave at every await; joining of identical calls in one instance is dropped, which only allows more runs. Saving a session's state is one step. Pausing, resuming and prompting sessions, audit events and the update of the execution node are left out.
- Failover.FailoverRuntime.FailoverFrom: a walk along the candidates is one step, at its end. Stopping the previous session, restoring checkpoints, unsubscribing and switch notifications are left out; the emission is a history variable.
- InboundReplay.ChannelGateway.Admit: the check and the marking are one step; the program awaits the receipt lookup between them, so two deliveries of one message arriving together could both pass.
- InboundReplay.ChannelGateway.HandleInbound: validation and authorization happened before; the loop over the registered handlers is one success or failure, and a handler that succeeded before a later one failed runs again. The receipts are durable; keys are triples, so ids containing the NUL separator are not confused as the program's texts could be.
- ReplyRouting.ResolveIntervention: the awaited lookups read one state of the store; stripping the code from the body and delivery retries are left out.
