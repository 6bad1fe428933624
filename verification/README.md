# Sympheo scheduler: a verified model

Sympheo polls an issue tracker and runs one coding agent per issue. This project models the parts of it whose
correctness depends on how things interleave or repeat, and proves what they keep.

* **The orchestrator** (`OrchestratorState`, `World`, `Orchestrator`). `OrchestratorState` holds what one hold of the
  state lock does, as functions; the class `Orchestrator` performs the same steps on mutable fields, branch by branch as
  `src/orchestrator/tick.rs` does, and its methods are proved to make exactly those transitions. `World` puts them
  together: every lock hold of the control thread (`tick` then `process_retries`, src/main.rs:310-311), of a worker task,
  of an HTTP handler or of a configuration reload is one step, and a run is any sequence of enabled steps. The locks'
  release points are interleaving points: between two dispatches, between the snapshot, each pop and each resolution of a
  retry pass, and between the end of a worker's run and its exit. The two loops of the control thread take an arbitrary
  function for what other actors do to the state at each release. Tracker answers, clock readings, results of runs and
  every step's configuration are arbitrary.
* **Theorems over every run.** `Claims` (the claim partition, nothing leaks, completion and cancellation histories),
  `Ownership` and `Workspace` (one worker per issue and per workspace), `Backoff`, `RetryRuns` (retry budget, failure
  chains), `Capacity` (the global limit and the limits of single states), `Lifecycle` (well-formed entries, terminal issues
  drain), `Transitions` (exactly what each step does to claims, entries and retries), `Scheduling` (the dispatch pass) and
  `RetryPasses` (the retry pass); both passes are shown to be runs of the system's steps. `Witnesses` gives concrete runs
  for what goes wrong where a condition fails.
* **Token accounting** (`TokenAccounting`, over `Folding`), **the worker's turn loop** (`Worker`) and **the ACP turn
  reactor** (`AcpTurn`).
* **Sequential algorithms**: `Config`, `Retry`, `Tracker`, `FieldCache`, `FrontMatter`, `ShellEscape`, `UrlEncoding`,
  `BranchName`.

`Prelude` holds the shared `Option` and `Result` and the lower-casing used for comparing names.

## Hypotheses of the run theorems

Four interleavings decide which theorems are true. The model keeps all of them, and each has a run in `Witnesses`.

* A stall exit removes an entry without setting its cancellation cell (src/orchestrator/tick.rs:203), so the old worker
  outlives its entry: `StallOutlivesItsEntry`.
* A refresh to a state neither active nor terminal drops entry and claim while the worker is winding down
  (src/orchestrator/tick.rs:242-249): `InactiveReleaseDoublesWorkers`.
* An operator's delete can land between the snapshot of a retry pass and the pop (src/server/mod.rs:1073-1075,
  src/orchestrator/tick.rs:408-420). The requeue then leaves a retry without its claim (`RacingDeleteLosesClaim`); a tick runs
  the issue all the same, and later the retry is started over the running entry, because src/orchestrator/tick.rs:472-486
  does not look whether the issue is running (`RacingDeleteDoublesWorkers`).
* A refresh (src/orchestrator/tick.rs:238-241) and a retry (src/orchestrator/tick.rs:459-486) do not look at the limit of the
  state an issue enters: `RefreshExceedsStateLimit`, `RetryExceedsStateLimit`.

Where a property fails under one of these, its exact condition is proved: `PartitionExactly` (the claim partition),
`OwnershipExactly` (every worker owns its entry), `OneWorkerEachExactly` (one worker per issue and, with it, per workspace),
`BackoffExactly` (no start before an attempt is due), `StateLimitExactly` (the limit of a state) and `VanishedTurnExactly`
(the tokens of a turn that loses its entry). None of them excludes an interleaving.
`NothingLeaks`, `AttemptsStayInBudget`, `AttemptsAlwaysAgree`, `CapacityUnderReload`, `EntriesAreWellFormed`,
`TerminalIssueDrains`, `ClaimIsReleasedExactly`, `CompletedExactly`, `RaisedExactly` and `EntryFollowsTracker` hold under
every interleaving.

## Where code and documentation differ

The model follows the code.

* src/agent/cli/mod.rs:37-38 says an escaped text survives the shell verbatim. It does so exactly in these cases. Between
  double quotes, where the adapters put paths (src/agent/cli/mod.rs:398-400, src/agent/cli/claude.rs:62-64,
  src/agent/cli/pi.rs:71), the special characters of the text have to be backslashes, double quotes, dollar signs and
  backticks; before any other the backslash stays (`ShellEscape.ReadsBackInsideQuotesExactly`). Without quotes, where option
  values go (src/agent/cli/mod.rs:247-259), the text has to be non-empty, without blank, tab, newline or brace, without a
  number sign at the start, and without a tilde at the start or, in a text that begins like an assignment, behind the
  equals sign or a colon in the value (`ShellEscape.ReadsBackAsArgumentExactly`; a brace counts as active wherever it
  stands, and so does every tilde in such a place, since a shell may expand it). Quote removal by itself
  loses newlines only (`ShellEscape.SurvivesQuoteRemovalExactly`).
* src/config/typed.rs:170-175 and 199-204 clamp to at least 1 before casting to `u32`, so a configured multiple of 2^32
  yields the limit 0 (`Config.ClampedLimitCanBeZero`); `RetryRuns.BudgetRangeIsExact` gives the limits for which the retry
  budget holds.
* src/orchestrator/tick.rs:230-234 calls the worker's wrapper the single owner of workspace deletion; a stall exit deletes
  the workspace too (src/orchestrator/tick.rs:210-216).
* src/tracker/github.rs:12-13 says the slug is cut to 60 characters; the code cuts the whole name.
* src/workspace/manager.rs:63-67 keeps `-` although the specification's character set does not list it.

## Model

| member | source | states |
|---|---|---|
| Prelude.LowerExactly | src/orchestrator/tick.rs:91-92 | lower-casing, on the ASCII letters, moves A to Z by 32, keeps every other character, and is idempotent |
| Config.SettingsExactly | src/config/typed.rs:163-204 | the default of each missing key, the floor of each number, the low 32 bits kept by the two casts, and lower-cased state lists without further states |
| Config.ClampedLimitCanBeZero | src/config/typed.rs:170-204 | the turn and retry limits come out as 0 exactly when the configured number is a positive multiple of 2^32 |
| Config.MaxConcurrentAgentsByState | src/config/typed.rs:214-230 | the map has exactly the lower-cased keys of positive entries, and of keys that differ only in case the last entry wins |
| Retry.DelayIsCappedExponential | src/orchestrator/retry.rs:13-20 | for every attempt from 1 the saturating u64 computation equals min(10000·2^(attempt−1), ceiling) over unbounded integers |
| Retry.DelayMonotone | src/orchestrator/retry.rs:13-20 | delays never shrink with the attempt and lie between 1000 ms and the configured ceiling |
| Retry.TotalDelayBounds | src/orchestrator/retry.rs:13-20 | the delays of attempts 1..n sum to at most n ceilings, and to exactly 10000·(2^n − 1) while uncapped |
| Tracker.EligibleExactly | src/orchestrator/tick.rs:88-102 | an issue passes the filters exactly if its state is active and not terminal and, if that is "todo", every blocker of known state is terminal |
| Tracker.BeforeIsTotalPreorder | src/orchestrator/tick.rs:105-111 | the dispatch comparator is reflexive, total and transitive, and ties agree on all three keys |
| Tracker.BeforeIsInOrder | src/orchestrator/tick.rs:105-111 | it puts the lower priority number first and a missing one last, then the older issue and an unknown age first, then the identifiers as in a dictionary, stated on the fields |
| Tracker.InsertKeepsSorted | src/orchestrator/tick.rs:105-111 | one insertion step keeps a list sorted by the comparator |
| Tracker.SortSorts | src/orchestrator/tick.rs:105-111 | sorting the candidates yields a list sorted by the comparator |
| Tracker.SortOrders | src/orchestrator/tick.rs:105-111 | the sorted candidates are the candidates, each in order by its fields before every later one |
| OrchestratorState.UsageExactly | src/orchestrator/tick.rs:561-568 | token figures are added component by component, and a saturating difference undoes the addition or is 0 |
| OrchestratorState.RunningInExactly | src/orchestrator/state.rs:92-98 | each running issue counts in its own state, and states that differ in case only are one |
| OrchestratorState.AdmitsExactly | src/orchestrator/tick.rs:114-128 | an issue is admitted exactly with a slot free, no entry, no claim, and room in its state, whose limit is its own or else the global one |
| OrchestratorState.FindIsFirst | src/orchestrator/tick.rs:449 | a retry looks at the first candidate with its id |
| OrchestratorState.RetryStartsExactly | src/orchestrator/tick.rs:449-471 | a popped retry starts exactly if that candidate is active and not terminal and a slot is free |
| OrchestratorState.ExitPathsAgree | src/orchestrator/tick.rs:323-404 | when an entry records its worker's attempt, the spawn wrapper and `handle_worker_exit` make the same transition, success or failure |
| Claims.KeyedAlways | src/orchestrator/tick.rs:131-146 | in every reachable state every entry and retry is stored under the id it names, and every cancellation cell in use is older than the next one allocated |
| Claims.StepKeepsPartition | src/orchestrator/tick.rs:406-493 | each lock hold keeps, per issue, the claim partition and the currency of the retry snapshot, unless it is a delete racing with that snapshot |
| Claims.PartitionAlways | src/orchestrator/tick.rs:131-146 | over every run without a racing delete of the issue, a claim means exactly one of running, queued, in flight |
| Claims.ClaimsArePartitioned | src/orchestrator/tick.rs:418-493 | the claimed set is the disjoint union of the running keys, the queued keys and the in-flight id, and each entry still to be popped is the one snapshotted |
| Claims.PartitionExactly | src/server/mod.rs:1061-1094 | the partition holds throughout a run if and only if no delete raced with a snapshot of the issue |
| Claims.StepKeepsAccounted | src/orchestrator/tick.rs:323-404 | each step of any kind keeps every claim accounted for and every running entry owned by a live worker of that issue |
| Claims.NothingLeaks | src/orchestrator/tick.rs:113-152 | under every interleaving each claimed id is running, queued or in flight, and each running entry's owner is a live worker |
| Claims.OwnerExitReleases | src/orchestrator/tick.rs:323-365 | the owner of a running entry is live, and its exit, whenever it comes, removes the entry |
| Claims.CompletedExactly | src/orchestrator/tick.rs:330-344 | an issue is in `completed` exactly when some worker of it reported success into a running entry |
| Claims.RaisedExactly | src/orchestrator/tick.rs:226-249 | a cancellation cell is set exactly when an operator cancelled the entry it belongs to or a refresh found that entry's issue terminal or inactive |
| Claims.WrapperDeletesIffCancelled | src/orchestrator/tick.rs:313-321 | a worker's wrapper deletes the workspace if and only if its own cell was set before its run ended; a stall exit never causes it |
| Ownership.StepKeepsExclusive | src/orchestrator/tick.rs:113-152 | each step other than a stall exit, an inactive release or a retry start over a running entry keeps a live worker the owner of its issue's entry |
| Ownership.ExclusiveOwnership | src/orchestrator/tick.rs:291-365 | in every run without such steps live workers and running entries correspond one to one |
| Ownership.ClobberFollowsRacingDelete | src/orchestrator/tick.rs:472-486 | a retry can start over a running entry only after a delete of that issue raced with a snapshot of it |
| Ownership.OwnershipExactly | src/orchestrator/tick.rs:194-249 | under every interleaving, each live worker owns its entry throughout a run if and only if no step was a stall exit, an inactive release or a retry start over a running entry |
| Ownership.WorkersWereMentioned | src/orchestrator/tick.rs:255-282 | every live worker's issue is one the tracker handed to an earlier dispatch or retry |
| Ownership.OneWorkerEachStep | src/orchestrator/tick.rs:113-152 | with one worker each before a step there is one worker each after it if and only if the step does not start an issue that has a live worker |
| Ownership.OneWorkerEachExactly | src/orchestrator/tick.rs:472-488 | over whole runs no issue ever has two live workers if and only if no step starts an issue that has one |
| Ownership.OwnedIsNotDoubled | src/orchestrator/tick.rs:113-152 | while every live worker owns its entry, only a retry start over a running entry can double one |
| Ownership.WorkspacesAreExclusive | src/workspace/manager.rs:68-84 | in every such run, with identifiers `repo#n` of one repository that tell issues apart, no two live workers share a workspace path, including while one is deleting its workspace |
| Workspace.PathsKeepIssuesApart | src/workspace/manager.rs:68-84 | sanitizing is injective on the identifiers `repo#n` of one repository |
| Workspace.SanitizeExactly | src/workspace/manager.rs:68-79 | a key is as long as its identifier, keeps letters, digits, dots, underscores and dashes, and has a dash for anything else |
| Workspace.DecimalExactly | src/tracker/github.rs:391 | printing a number gives its decimal digits without leading zeros |
| Backoff.RetriesAreWrittenExactly | src/orchestrator/tick.rs:345-401 | a retry is written only by an exit or a stall of a running issue with an attempt left, a failed retry poll with an attempt left, or a retry that finds no slot, and each of these leaves one queued |
| Backoff.RequeuedWaits | src/orchestrator/tick.rs:345-401 | each of these, over an older retry or not, queues the right attempt, due after the continuation delay or the backoff of that attempt, and the issue waits for it exactly if it was in one place: claimed, in no rest of a snapshot, not both running and in flight |
| Backoff.QueuedRetryExactly | src/orchestrator/retry.rs:13-27 | the whole retry a step queues: its id, the name of the removed entry, the popped retry or the fetched issue, its attempt and error, due 1000 ms after a success and min(10000·2^(attempt−1), ceiling) after anything else |
| Backoff.PartitionedIsInOnePlace | src/orchestrator/tick.rs:131-146 | an issue for which the claim partition holds is requeued from one place |
| Backoff.BackoffIsRespected | src/orchestrator/tick.rs:369-416 | once an attempt is queued from one place, no step of any actor starts the issue before it is due, under every interleaving in which no operator deletes that retry |
| Backoff.LooseCanStart | src/orchestrator/tick.rs:418-486 | an issue that is unclaimed, running, pending or in flight can always be started without further delay and without deleting its retry |
| Backoff.BackoffExactly | src/orchestrator/tick.rs:369-416 | in every reachable state, an attempt queued for a later time cannot be started early in any continuation without a delete of it if and only if the issue was in one place when it was queued |
| RetryRuns.AttemptsStayInBudget | src/orchestrator/tick.rs:425-471 | under all interleavings every attempt number held by a retry, an entry, a worker or a snapshot lies in 1..limit |
| RetryRuns.BudgetRangeIsExact | src/config/typed.rs:199-204 | an exit keeps attempts within the limit if and only if the limit is at least 1 and below 2^32 − 1 |
| RetryRuns.AttemptsAlwaysAgree | src/orchestrator/tick.rs:472-488 | in every reachable state an entry records the attempt argument of the worker that owns it |
| RetryRuns.StepMovesLevel | src/orchestrator/tick.rs:386-471 | a failure raises an issue's attempt by one; a slot shortage, a start, a refresh or a step of anyone else leaves it |
| RetryRuns.ChainKeepsPartition | src/orchestrator/tick.rs:345-471 | along a chain that nothing else disturbs the claim partition of the issue holds on, whatever raced before |
| RetryRuns.FailureChain | src/orchestrator/tick.rs:345-471 | while an undisturbed issue, partitioned at the start, stays claimed, its attempt number is its starting number plus its failures, and never passes the limit |
| RetryRuns.BudgetReleasesClaim | src/orchestrator/tick.rs:345-352 | after a fresh dispatch of an issue that is not queued the claim is released by the failure numbered limit + 1 at the latest |
| Transitions.RefreshExactly | src/orchestrator/tick.rs:226-250 | a terminal refresh sets the cell of the entry and keeps entry and claim, an active one replaces the entry's issue and nothing else, any other removes entry and claim and sets the cell |
| Transitions.RefreshOfOthersIsIdle | src/orchestrator/tick.rs:235-248 | a refresh of an issue that is not running changes nothing |
| Transitions.StartExactly | src/orchestrator/tick.rs:131-149 | a start enters a blank entry with the issue, its attempt and the next cell, claims it, spawns its worker, and leaves every other entry alone |
| Transitions.ClaimIsTakenExactly | src/orchestrator/tick.rs:133 | a claim is taken exactly by a start |
| Transitions.RetryIsTakenExactly | src/orchestrator/tick.rs:418-421 | a retry leaves the queue exactly by its pop or by an operator's delete |
| Transitions.TotalsAndLimitAreKept | src/orchestrator/tick.rs:48-53 | only bookkeeping touches the totals and only a reload the limit |
| Transitions.EntryIsKept | src/orchestrator/tick.rs:238-241 | an entry that is not started, refreshed or booked on does not change while it stays |
| Transitions.ClaimIsReleasedExactly | src/orchestrator/tick.rs:345-352 | in any state a claim is given up exactly by an operator's delete, an inactive refresh, exhausted attempts, or a retry poll that finds the issue gone or not workable |
| Transitions.RunningBeginsExactly | src/orchestrator/tick.rs:459-488 | an issue begins to run exactly when a dispatch or a retry starts a worker for it, under that step's own fresh cell |
| Transitions.RunningEndsExactly | src/orchestrator/tick.rs:242-249 | an entry ends exactly by the exit of a worker of the issue, a stall, or an inactive refresh |
| Transitions.EntryFollowsTracker | src/orchestrator/tick.rs:238-241 | in every reachable state an entry holds the issue as last reported by its start or by an active refresh |
| Capacity.StepRespectsLimit | src/orchestrator/state.rs:87-90 | a step that starts a worker ends at or below the limit in force, only such steps grow `running`, and none grows it at or above the limit |
| Capacity.CapacityUnderReload | src/orchestrator/tick.rs:48-53 | however the limit is reloaded, the size of `running` never exceeds the largest limit so far |
| Capacity.StateLimitStep | src/orchestrator/tick.rs:122-128 | an enabled step takes a state over its limit, or further over it, exactly when the state is full and the step is a refresh moving a running issue in or a retry start of an issue not counted there |
| Capacity.StateLimitExactly | src/orchestrator/tick.rs:238-241 | over whole runs a state with a limit of its own stays within it if and only if no step overfills it so |
| Lifecycle.EntriesAreWellFormed | src/orchestrator/tick.rs:226-250 | with fixed configuration, under every interleaving an entry's id is its key, its state is active and not terminal, and its attempt is its live owner's |
| Lifecycle.OwnersExitLikeTheOrchestrator | src/orchestrator/tick.rs:323-404 | in every run the exit of an entry's own worker is the transition of `handle_worker_exit` |
| Lifecycle.StaysStopped | src/orchestrator/tick.rs:88-93 | while the tracker reports an issue terminal, no step starts it again |
| Lifecycle.StaysDraining | src/orchestrator/tick.rs:406-456 | within a retry pass that never fails to poll, a terminal issue stays either in the snapshot or out of the queue |
| Lifecycle.StaysGone | src/orchestrator/tick.rs:113-120 | an issue the scheduler holds nothing of stays so while the tracker reports it terminal |
| Lifecycle.TerminalIssueDrains | src/orchestrator/tick.rs:448-456 | under every interleaving, once an issue is reported terminal and its worker has exited, one retry pass past the due time whose polls succeed leaves it neither running, claimed nor queued, forever after |
| Witnesses.StallOutlivesItsEntry | src/orchestrator/tick.rs:203 | a run in which a stalled worker lives on, a second one joins it in its workspace, and the first one's exit removes the second one's entry |
| Witnesses.RacingDeleteLosesClaim | src/server/mod.rs:1073-1075 | a run in which a delete races with a retry pass and leaves the issue queued, unclaimed and dispatchable |
| Witnesses.RacingDeleteDoublesWorkers | src/orchestrator/tick.rs:472-486 | the run continued, without stall or inactive release: a retry starts a second worker over the entry of the first |
| Witnesses.InactiveReleaseDoublesWorkers | src/orchestrator/tick.rs:242-249 | a run in which an inactive refresh lets a second worker join the first |
| Witnesses.RefreshExceedsStateLimit | src/orchestrator/tick.rs:238-241 | a run in which a refresh takes a state over its limit |
| Witnesses.RetryExceedsStateLimit | src/orchestrator/tick.rs:459-486 | a run in which a retry takes a state over its limit |
| Scheduling.PassOnlyAdds | src/orchestrator/tick.rs:113-152 | a dispatch pass keeps everything and adds a claim and a fresh entry for exactly the issues it starts, none of them running or claimed before |
| Scheduling.NoSlotsNoPass | src/orchestrator/tick.rs:115-117 | stopping at the first issue without a free slot is the same as offering the rest |
| Scheduling.KeepEligibleExactly | src/orchestrator/tick.rs:88-102 | the filter keeps each eligible candidate as often as it was fetched and no other |
| Scheduling.PassIsMaximal | src/orchestrator/tick.rs:114-128 | an issue left out of a sorted pass is running or claimed, or its state is full, or all slots are taken and everything started is in order before it, by the fields |
| Scheduling.PassKeepsLimits | src/orchestrator/state.rs:92-98 | a pass takes no state over its limit and the system not over the global one |
| Scheduling.TickIsMaximal | src/orchestrator/tick.rs:88-152 | filter, sort and pass together leave out no eligible candidate without one of those reasons |
| Scheduling.PassIsRun | src/orchestrator/tick.rs:113-152 | from every reachable state a pass nobody interrupts is a run of dispatch steps |
| Scheduling.ReachableTickIsMaximal | src/orchestrator/tick.rs:88-152 | from every reachable state between two passes the dispatch half of a tick is a run at whose end every eligible candidate is started or excused |
| Scheduling.QuietOfferIsPass | src/orchestrator/tick.rs:114-151 | the loop that releases the lock after each start and stops without a slot is that pass if nobody uses the releases |
| Scheduling.OfferKeepsOrder | src/orchestrator/tick.rs:114-151 | whatever other actors do at the releases, what is started is in dispatch order, by the fields |
| RetryPasses.PassSettlesDue | src/orchestrator/tick.rs:406-493 | an uninterrupted retry pass settles each due retry by the answer to its own poll, once: claim kept exactly if workable or a failed fetch has an attempt left, then running with its attempt or queued with the right attempt and due time; every other issue is as before |
| RetryPasses.RetryPassIsRun | src/orchestrator/tick.rs:406-493 | from every reachable state between two passes such a pass is a run: a snapshot, then a pop and a resolution each |
| RetryPasses.RetryPassSettles | src/orchestrator/tick.rs:406-493 | after such a pass nothing that was due and partitioned is due any more: it runs, waits at least a second, or is released |
| Orchestrator.Orchestrator.constructor | src/orchestrator/tick.rs:32-33 | a new orchestrator is empty, under the configured limit |
| Orchestrator.Orchestrator.DispatchEligible | src/orchestrator/tick.rs:113-152 | the loop, with arbitrary changes by others at each release of the lock, ends in the state and with the starts of the loop function of `Scheduling`, each under its own fresh cell |
| Orchestrator.Orchestrator.Reconcile | src/orchestrator/tick.rs:226-250 | the loop applies the refreshed issues in order and sets exactly the cells they call for |
| Orchestrator.Orchestrator.HandleExit | src/orchestrator/tick.rs:369-404 | the fields end in the state of the exit transition |
| Orchestrator.Orchestrator.WorkerExit | src/orchestrator/tick.rs:323-365 | the wrapper's last lock hold ends in the state of the wrapper's transition |
| Orchestrator.Orchestrator.DueRetries | src/orchestrator/tick.rs:406-416 | the snapshot lists every retry due, once each, and no other |
| Orchestrator.Orchestrator.Resolve | src/orchestrator/tick.rs:423-492 | a popped retry is requeued, released or started as the transition says, and a worker is spawned exactly when it starts |
| Orchestrator.Orchestrator.ProcessRetries | src/orchestrator/tick.rs:406-494 | snapshot, pops and resolutions, with arbitrary changes by others at each release of the lock, end in the state of the retry pass over exactly what was due, each start under its own fresh cell |
| Orchestrator.Orchestrator.Cancel | src/server/mod.rs:1027-1057 | sets the cell of one running entry with the identifier, or reports that there is none |
| Orchestrator.Orchestrator.DeleteQueued | src/server/mod.rs:1061-1094 | removes one queued entry with the identifier and the claim of the issue it names, or reports that there is none |
| TokenAccounting.PartsRunSolo | src/orchestrator/tick.rs:505-580 | in any interleaving an issue's session evolves as if its worker ran alone |
| TokenAccounting.SchedulerIsCalm | src/orchestrator/tick.rs:113-494 | every scheduler step under which the issues go on running with the entries they have leaves the totals and their sessions alone |
| TokenAccounting.TotalsDecompose | src/orchestrator/tick.rs:541-580 | however the lock holds of workers on distinct issues interleave with each other and with calm holds of anybody else, the totals grow by the sum of what each adds alone |
| TokenAccounting.TotalsNeverDecrease | src/orchestrator/tick.rs:565-568 | no sequence of token steps, with or without running entries, and of holds that keep the totals lowers the totals |
| TokenAccounting.TurnChargesOnce | src/orchestrator/tick.rs:811-840 | a turn with cumulative reports adds its last report if that has a total and otherwise its usage figure, never both |
| TokenAccounting.TurnShowsUsage | src/orchestrator/tick.rs:842-891 | after a turn on a running entry its session is open and shows the turn's usage if there is one |
| TokenAccounting.TurnsChargeOnce | src/orchestrator/tick.rs:706-891 | successive turns of one worker add the sum of the turns' charges |
| TokenAccounting.TokensAreConserved | src/orchestrator/tick.rs:541-840 | for any number of turns of each of several issues, in any interleaving with each other and with calm holds of anybody else, the totals grow by exactly the sum of the turns' charges |
| TokenAccounting.AbsentEntryOvercharges | src/orchestrator/tick.rs:546-559 | a turn whose entry is gone adds every cumulative report in full and its usage on top |
| TokenAccounting.AbsentEntryOverchargesExactly | src/orchestrator/tick.rs:546-559 | that is never less than the turn's charge, and equal to it if and only if nothing was reported, or the reports sum to the last one and no usage comes with the result |
| TokenAccounting.EvictionVanishes | src/orchestrator/tick.rs:194-249 | a stall exit or an inactive release does to the accounts what the vanishing of the entry does |
| TokenAccounting.VanishedTurnCharge | src/orchestrator/tick.rs:541-580 | a turn that loses its entry after some events is charged the last report among them, every later report in full, and its usage on top |
| TokenAccounting.VanishedWithinReport | src/orchestrator/tick.rs:546-579 | losing the entry between the two lock holds of a report is the same as losing it after the report |
| TokenAccounting.VanishedBeforeCharge | src/orchestrator/tick.rs:815-840 | losing it between the check and the charge leaves the turn at its cost |
| TokenAccounting.VanishedAfterCharge | src/orchestrator/tick.rs:825-891 | and so does losing it between the charge and the closing update |
| TokenAccounting.VanishedTurnExactly | src/orchestrator/tick.rs:811-840 | such a turn is never charged less than its cost, and exactly that if and only if nothing was reported, or the last report before the loss and all after it sum to the last report and no usage comes with the result |
| Orchestrator.Orchestrator.StepStart | src/orchestrator/tick.rs:505-540 | the event's lock hold is the accounting step that opens a session or resets its last report |
| Orchestrator.Orchestrator.ReadReport | src/orchestrator/tick.rs:546-563 | the deltas read are those of the accounting step |
| Orchestrator.Orchestrator.WriteReport | src/orchestrator/tick.rs:565-579 | the deltas are added and the report recorded as in the accounting step, whatever happened to the entry since they were read |
| Orchestrator.Orchestrator.CheckCounted | src/orchestrator/tick.rs:815-823 | reports whether the turn's reports were counted |
| Orchestrator.Orchestrator.ChargeUsage | src/orchestrator/tick.rs:825-840 | charges the usage figure exactly when nothing was counted |
| Orchestrator.Orchestrator.CloseTurn | src/orchestrator/tick.rs:842-891 | the closing update is the accounting step that adds nothing |
| Worker.TurnsArePaidFor | src/orchestrator/tick.rs:959-977 | turns survived are at most three per observed change, one per empty refresh, and the stagnation counter, which stays at most two |
| Worker.RunIsBounded | src/orchestrator/tick.rs:979-990 | a run takes at most `max_turns` turns (one for a limit of 0); with its own entry in place at most 3(k+1)+e; and no turn begins at or past the cap of the refreshed state |
| Worker.IssueStateExactly | src/orchestrator/tick.rs:959-977 | the state compared with follows the tracker exactly while the entry is there |
| Worker.StopIsExplained | src/orchestrator/tick.rs:706-990 | each survived turn was clean, saw no done, stagnant or capped state and had turns left, and each reason is the one reported exactly if its own condition and none before it holds at the last turn |
| Worker.RunTurns | src/orchestrator/tick.rs:706-991 | the loop terminates, goes on after exactly the turns it may go on after, and stops at the first other one for exactly the reason that applies |
| AcpTurn.FirstGrantIsFirst | src/agent/acp/permission.rs:87-113 | a permission request is answered with the first option of the decided kind, and refused exactly when there is none |
| AcpTurn.AllowsExactly | src/agent/acp/permission.rs:29-56 | a tool is turned down exactly if it is not a reading one in plan mode, or execution by default |
| AcpTurn.DecideExactly | src/agent/acp/permission.rs:87-113 | a request is refused while cancelling, otherwise answered with the first option that fits the mode, and refused if there is none |
| AcpTurn.ReplyExactly | src/agent/backend/acp.rs:407-439 | each event of a notification is forwarded in order, a request gets one answer, anything else none |
| AcpTurn.LastEmittedExactly | src/agent/backend/acp.rs:420-424 | the last text of a log is that of its last text event |
| AcpTurn.CancelIsFinal | src/agent/backend/acp.rs:381-391 | in a disciplined log the cancel notification goes out at most once, and after it every permission is refused |
| AcpTurn.KillFollowsCancel | src/agent/backend/acp.rs:449-454 | a kill comes only after the cancel notification |
| AcpTurn.ResultIsLast | src/agent/backend/acp.rs:400-460 | no action but the last is a result |
| AcpTurn.ResultHasLastText | src/agent/backend/acp.rs:400-404 | a finished turn's result carries the last text emitted before it |
| AcpTurn.SuccessExcludesCancel | src/agent/backend/acp.rs:465-472 | a success is delivered only if no cancel notification was sent |
| AcpTurn.UnfinishedTurnIsSafe | src/agent/backend/acp.rs:381-439 | before the turn ends no result is delivered and nothing is killed, over every sequence of updates and cancellations |
| AcpTurn.FinishedTurnIsSafe | src/agent/backend/acp.rs:399-461 | a finished turn delivers exactly one result, the one its last update calls for; cancel was sent iff the cell was seen set; a kill happened iff the wait after it timed out; every update had its reply in order |
| AcpTurn.OutcomeExactly | src/agent/backend/acp.rs:400-471 | for each outcome and each error, the inputs under which a turn ends with it, in both directions: success if and only if the agent ended the turn and it was never cancelled |
| AcpTurn.ProcessOneTurn | src/agent/backend/acp.rs:353-463 | the loop reads up to the first ending update, does exactly what those logs say, and its last action is the result the inputs call for |
| FieldCache.FirstMatchMeaning | src/tracker/github/mutations.rs:200-202 | the field chosen is the first whose name matches ignoring case |
| FieldCache.UncachedAnswers | src/tracker/github/mutations.rs:200-246 | the lookup gives the id of the first matching field and then the id of its last matching option, or the error that says what is missing |
| FieldCache.Tabulate | src/tracker/github/mutations.rs:215-220 | the option table maps each lower-cased name to the id of its last option, and holds no other name |
| FieldCache.StatusResolver.Resolve | src/tracker/github/mutations.rs:148-247 | a call answers as the lookup without a cache whatever other calls cached between its two holds of the lock, keeps the cache true, and changes it only under its own key and only on success |
| FieldCache.ResolveAll | src/tracker/github/mutations.rs:148-247 | any sequence of calls against an unchanging response, hits or misses, among calls of others, is answered so, as without a cache |
| FrontMatter.LinesLoseNothing | src/workflow/parser.rs:23 | splitting into lines loses no character |
| FrontMatter.LinesExactly | src/workflow/parser.rs:23 | each line ends at its newline, and only the last may have none |
| FrontMatter.FenceExactly | src/workflow/parser.rs:24-25 | a fence is three dashes and any number of carriage returns and newlines |
| FrontMatter.TrimExactly | src/workflow/parser.rs:44 | trimming takes white space off both ends and leaves none there |
| FrontMatter.OpeningExactly | src/workflow/parser.rs:5-16 | a file is fenced exactly if it is white space, three dashes with either line end, and the text that is split |
| FrontMatter.SplitAtFence | src/workflow/parser.rs:21-35 | the scan over offsets finds the split that goes line by line |
| FrontMatter.SplitIsLossless | src/workflow/parser.rs:21-35 | front matter, fence line and body concatenate to the text, the front matter is whole lines none of which is a fence, and there is no split exactly when no line is a fence |
| FrontMatter.SplitUndoesPrint | src/workflow/parser.rs:21-35 | printing fence-free whole lines and a body around a fence and splitting again recovers both |
| FrontMatter.Parse | src/workflow/parser.rs:4-46 | the parse follows the split and, for any reading of YAML, its two errors |
| FrontMatter.ParseUndoesPrint | src/workflow/parser.rs:4-46 | a file written as fence, front matter, fence and body parses to what its front matter reads as and its trimmed body |
| FrontMatter.UnclosedIffNoFence | src/workflow/parser.rs:31-32 | the unclosed error arises exactly when an opened file has no fence line after the opening |
| ShellEscape.EscapeIsOnePass | src/agent/cli/mod.rs:41-59 | the seventeen chained replacements equal one pass over the characters |
| ShellEscape.OnePassIsUndone | src/agent/cli/mod.rs:41-59 | the pass is inverted by a decoder |
| ShellEscape.EscapeRoundTrip | src/agent/cli/mod.rs:41-59 | decoding the escaped text gives the original, for every text |
| ShellEscape.SurvivesQuoteRemovalExactly | src/agent/cli/mod.rs:41-59 | quote removal alone gives the text back if and only if it holds no newline |
| ShellEscape.ReadsBackInsideQuotesExactly | src/agent/cli/mod.rs:398-400 | between double quotes the escaped text never ends the quotes or expands, and reads as the original if and only if its special characters are backslashes, double quotes, dollar signs and backticks |
| ShellEscape.ReadsBackAsArgumentExactly | src/agent/cli/mod.rs:247-259 | without quotes it is sure to be one argument equal to the original if and only if the text is not empty and holds no blank, tab, newline or brace, no leading number sign, and no tilde at the start or, in a text that begins like an assignment, behind the equals sign or a colon in the value |
| UrlEncoding.Utf8RoundTrip | src/server/mod.rs:871 | decoding the UTF-8 bytes gives the characters back |
| UrlEncoding.UnreservedExactly | src/server/mod.rs:867 | the characters kept are the 66 of section 2.3 of RFC 3986, by their codes |
| UrlEncoding.EncodeByteExactly | src/server/mod.rs:872 | a byte becomes a percent sign and two upper-case digits (section 2.1 of RFC 3986) |
| UrlEncoding.UrlEncode | src/server/mod.rs:864-877 | percent-decoding the result gives the UTF-8 bytes of the text (sections 2.1 and 2.3 of RFC 3986), unreserved characters are kept and every other one is escaped |
| BranchName.WordsExactly | src/tracker/github.rs:18-26 | a title is its words with gaps around them: no letter or digit in a gap, and a gap between each two words |
| BranchName.JoinExactly | src/tracker/github.rs:22-25 | joining puts one dash between each two words and nothing around them |
| BranchName.NameExactly | src/tracker/github.rs:28-37 | the name is the number and the joined words, or, beyond 60 characters, the longest part of the first 60 that does not end in a dash |
| BranchName.BuildBranchName | src/tracker/github.rs:14-38 | for any lower-casing the loop, its trimming and its cut build the number and the maximal alphanumeric runs of the lower-cased title joined by single dashes |
| BranchName.NameIsClean | src/tracker/github.rs:14-38 | for every non-negative number the name starts with it, is at most 60 long, has no doubled or trailing dash, and for a lower-case title uses only `[a-z0-9-]` |

## Left out

- Claims.ClaimsArePartitioned: excludes deletes that race with a snapshot; `PartitionExactly` shows that the exclusion is exact.
- Ownership.ExclusiveOwnership: excludes the three kinds of steps that `OwnershipExactly` proves to be the exact exclusion.
- Ownership.WorkspacesAreExclusive: says nothing of the workspace removal that the control thread performs itself after a stall exit.
- Backoff.BackoffIsRespected: asks for the issue to be in one place when it is queued; `BackoffExactly` proves that condition exact.
- TokenAccounting.TokensAreConserved: the entries stay in `running` during the turns (`VanishedTurnExactly` and `AbsentEntryOverchargesExactly` say what happens otherwise); a later entry of the same issue that takes over the events of an outlived worker is not followed; totals are unbounded, so u64 overflow is not modelled.
- Worker.RunTurns: what the loop meets outside itself is an observation per turn; errors before the first turn, the result value and the teardown after the loop are not modelled.
- AcpTurn.ProcessOneTurn: a cancel notification that fails to send counts as sent, as in the source; full or closed event channels and the total turn timeout around the loop are not modelled.
- Orchestrator.Orchestrator.DispatchEligible: what others do at a release is a function of the state; cancellation cells they set meanwhile are not part of it.
- ShellEscape.ReadsBackAsArgumentExactly: a brace counts as active wherever it stands and a tilde in each place named, although a shell expands only some of them.
- Lower-casing of state, field and option names is modelled on the ASCII letters; every other character is kept.
- An attempt number wraps around as a release build's `u32` does; panics, in a debug build or anywhere else, are not modelled.
- Stall timers: any id may be declared stalled at any time during a tick. Clock readings are whole milliseconds.
- `seconds_running`, session identifiers, messages and time stamps: they influence none of the modelled decisions but the stall timer.
- Events of a turn that returned an error, which may still arrive while the next worker runs.
- HTTP, GraphQL transport with its retries and paging, `ensure_project_id`, routing, HTML rendering and the dashboard: input and output.
- Processes, signals, hooks, git and the file system: outcomes of a run; only the wrapper's decision to delete the workspace is kept.
- JSON, YAML and Liquid parsing themselves, prompt templates and adapter commands: library behaviour or straight-line formatting.
- Start-up clean-up and the file watcher; a reload is a step that may happen at any time.
