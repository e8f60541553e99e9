# Verified models of Sudarshan's shared state and scheduling

These Dafny modules model the parts of the system whose correctness depends on several operations together, and prove what they promise over every input, run or interleaving.

| modules | what they model |
|---|---|
| `LeaseStore`, `LeaseHistory`, `LeaseRecord` | the fenced-lease scripts of the Redis control plane, what every sequence of calls with arbitrary clocks keeps, and what it stores and answers |
| `RunQueue`, `Scheduler`, `SchedulerSafety`, `SchedulerRetries`, `Fleet`, `FleetHolders`, `FleetOutcomes` | the scheduler's run table and event log, the scheduler on top of table and control plane, one database under every interleaving, and any number of schedulers that share a control plane |
| `BudgetLedger`, `BudgetRecord`, `IngestionLedger`, `IngestionRecord` | the budget scripts, the two forms of the ingestion ledger with the simulation between them, and what every sequence of calls leaves in both |
| `DagSnapshot` | optimistic patching of a shared DAG snapshot |
| `TokenQuota`, `QuotaRuns`, `UserQuota` | the two-bucket token quota: the limiter, its single database updates, every interleaving of them, and what the requests of one user hold in a UTC day or minute |
| `PartitionBounds`, `CoveragePartitions` | the longest-processing-time partitioner with its array heap, and its load bounds |
| `EvidenceForest`, `EvidenceOrder`, `ChunkPacking`, `EvidenceStructure`, `EvidenceResult` | the forest walk and its order, the optimal chunk packing of the evidence compiler, and what the chunks hold |
| `ContextPack`, `ContextRecord` | ranking and budgeted selection of memory context, and the result said of the candidates |
| `DependencyWorklist`, `ArtifactStream` | the dependency worklist and the hash input of the client artifact digest |
| `Options`, `Sorting`, `SetSums` | an option type, one stable sort, sums over finite maps |

Two shapes recur. Code that updates state in place is a class whose methods are tied, in their `ensures`, to a function on values; theorems are about that function. The modules named `...Record` and `...Result` say what that function stores, answers or returns without it: from the calls and answers of a run, or from the input alone. Concurrency is a state machine: a `Run` is a sequence of states and actions, one action per script, SQL statement or document update, and every theorem about a run holds at each of its states. Clocks, fresh tokens and results of executions are parameters of the actions, so they are arbitrary.

## Where the code does less than it seems to promise

Each of these is stated as the exact condition, or with a concrete run, next to the theorem that holds.

- A token can record two outcomes: exactly when, after the first, a caller presents the empty owner and the current token while the status is `running` (`LeaseHistory.OneOutcomeIff`). The scheduler never transitions to `running`, so it never does.
- `pending` is terminal in the run table but can be claimed again through the control plane, so the fleet agrees on every terminal status but this one (`FleetOutcomes.BindingIffShared`).
- The retry update has no guard: once a lease has run out, a stale worker revives a cancelled run (`SchedulerSafety.StaleRetryRevivesCancelled`). Exactly the retries take a run out of a terminal status, and exactly they and terminal writes under the row's own token overwrite a cancellation (`TerminalSurvivesIff`, `CancelledSurvivesIff`).
- A shared lease that is refused still uses up one local attempt: the counter is the number of successful local claims on top of the inserted attempt, granted or refused (`Scheduler.LocalRunScheduler.ClaimBoth`, `SchedulerRetries.AttemptCountsClaims`).
- A reservation of cost zero lets a commit exceed the cost limit. Reservations of at least r and commits of at most c keep every run within the limit if and only if r > 0 or c = 0 (`BudgetLedger.CostBoundsKeepLimitIff`), and the limit holds in every run whose commits stay within their reservations (`BudgetLedger.CostLimitHolds`).
- A charge of a blank id is NOT_REGISTERED in process and a ValueError behind the control plane; on every other call the two forms of the ingestion ledger answer alike. A granted charge of a padded id echoes the id stripped in process and as given behind the control plane (`IngestionLedger.StepSimulates`).
- `createTransformation` takes `reservedAt` before the quota's own clock: a reservation leaves a bucket if and only if `reservedAt` names that bucket's window (`QuotaRuns.ReservationLeftIff`); one that straddles a window boundary stays for good (`QuotaRuns.StraddlingReservationStays`).
- Outputs are not bounded by the reservation: the quota holds in every run if and only if they are, or the configuration admits nothing (`QuotaRuns.OutputsKeepLimitsIff`).
- The comment of `assignWeightedPartitions` promises that no partition is empty; that holds if and only if there are at least as many files as partitions (`CoveragePartitions.AssignFiles`).
- A context item cut to the budget records the level of the last candidate scanned, not the level of its own content (`ContextPack.RecordedLevel`).
- A context item that is flagged as untrusted loses its warning when it is cut to the budget, and only then (`ContextPack.WarnedIffWhole`).
- The blocks on or below a cycle of parent links, and only they, are in no chunk, without an error (`EvidenceStructure.UncitedIffLoops`).
- A block that only has an artifact and no content makes the compilation fail, but only if its parent chain reaches a root (`EvidenceStructure.AcceptedIff`).

## Model

| member | source | states |
|---|---|---|
| `LeaseStore.RedisControlPlane.constructor` | api/control_plane.py:203-278 | an empty store has no resource under any key and no queue |
| `LeaseStore.RedisControlPlane.AddEvent` | api/control_plane.py:212 | the event is appended to the stream of one key |
| `LeaseStore.RedisControlPlane.Admit` | api/control_plane.py:203-215 | admission creates the hash once, replays an equal request hash with the stored status, refuses a different one, queues the key only on creation, and touches no other key |
| `LeaseStore.RedisControlPlane.Claim` | api/control_plane.py:227-243 | a claim is refused when missing, shared-terminal or leased beyond now; otherwise it takes the next fencing token and counts an attempt |
| `LeaseStore.RedisControlPlane.Renew` | api/control_plane.py:245-254 | only the running holder with the current token extends the lease |
| `LeaseStore.RedisControlPlane.Transition` | api/control_plane.py:256-266 | only the running holder records a result, and it gives up the lease; which result is stored is `LeaseRecord.StoredIsRecorded` |
| `LeaseStore.RedisControlPlane.ScheduleRetry` | api/control_plane.py:268-278 | only the running holder schedules a retry, and it gives up the lease |
| `LeaseHistory.RunExists` | api/control_plane.py:203-278 | every sequence of calls is a run of the scripts, so the theorems below are about all of them |
| `LeaseHistory.ConsistentStep` | api/control_plane.py:227-278 | each script keeps attempt, token, counter and stream in step |
| `LeaseHistory.AlwaysConsistent` | api/control_plane.py:203-278 | always: attempt = fencing token = number of started events, and the last event carries the current status |
| `LeaseHistory.FenceGrows` | api/control_plane.py:236 | the fence counter never falls |
| `LeaseHistory.TokensIncrease` | api/control_plane.py:236-242 | tokens handed out for one resource strictly increase |
| `LeaseHistory.FenceIsLastToken` | api/control_plane.py:236-242 | the counter is the last token handed out |
| `LeaseHistory.OnlyNewestToken` | api/control_plane.py:245-278 | a renew, transition or retry takes effect only with the newest token ever handed out, whatever the clocks say |
| `LeaseHistory.SettledReleases` | api/control_plane.py:262-277 | after an outcome nobody owns the resource until the next claim |
| `LeaseHistory.EffectiveAfterOutcomeIff` | api/control_plane.py:245-278 | after an outcome a renew, transition or retry takes effect if and only if it presents the empty owner and the current token while the status is running |
| `LeaseHistory.SettledIsStale` | api/control_plane.py:245-278 | so in a disciplined run the token can do nothing more |
| `LeaseHistory.SettledUntilClaim` | api/control_plane.py:256-278 | an outcome stays recorded until the next successful claim |
| `LeaseHistory.SameToken` | api/control_plane.py:236 | without a claim the token stays the same |
| `LeaseHistory.OutcomeBefore` | api/control_plane.py:256-278 | a settled token has recorded an outcome since its claim |
| `LeaseHistory.SecondOutcomeNeedsClaim` | api/control_plane.py:256-278 | a second outcome that does not reopen the resource carries a later token |
| `LeaseHistory.OneOutcomeIff` | api/control_plane.py:256-278 | every token of a run records at most one outcome if and only if no transition or retry reopens a settled resource in the way above |
| `LeaseHistory.OneOutcomePerToken` | api/control_plane.py:256-278 | so each token records at most one, when nobody transitions to running or nobody uses the empty owner |
| `LeaseHistory.UndisciplinedCounterexample` | api/control_plane.py:256-266 | a run in which one token records two outcomes |
| `LeaseHistory.TerminalForever` | api/control_plane.py:230-232 | a resource in one of the five terminal statuses never changes again, result included |
| `LeaseHistory.StoredExpiryIsPromised` | api/control_plane.py:237-253 | until the holder settles, the stored expiry is the last one it was given |
| `LeaseHistory.ClaimRespectsLease` | api/control_plane.py:234-235 | no claim succeeds before the promised expiry unless the holder has settled |
| `LeaseHistory.DisciplinedNeverReopens` | api/control_plane.py:245-278 | a disciplined run never reopens a settled resource |
| `LeaseHistory.CurrentWindow` | api/control_plane.py:233-254 | unless a settled resource is reopened, the newest token's window ends at its promise, or in the past once settled |
| `LeaseHistory.OldWindowFixed` | api/control_plane.py:245-250 | a later claim freezes the windows of all older tokens |
| `LeaseHistory.WindowsDisjoint` | api/control_plane.py:233-254 | with one non-decreasing clock, and unless a settled resource is reopened, the lease windows of different tokens never overlap |
| `LeaseRecord.StoredIsRecorded` | api/control_plane.py:203-278 | after every sequence of calls each stored field is what the calls and answers say: request hash and payload of the first admission, status and owner of the last claim or outcome, result of the last transition granted, error and time of the last retry granted, expiry of the last claim or renewal, attempt, token and fence the number of claims, one event for each admission, claim and outcome |
| `LeaseRecord.AnsweredFromRecord` | api/control_plane.py:203-278 | every call is answered from that record: granted exactly when no other answer is due, and otherwise which one |
| `LeaseRecord.ResultOfFinish` | api/control_plane.py:256-266 | a resource in one of the five terminal statuses keeps the result of the transition that finished it |
| `LeaseRecord.TruncatedIsPrefix` | api/control_plane.py:1170 | a stored error is the error given, cut at 2000 characters |
| `RunQueue.MaxOfDense` | api/scheduler.py:258-262 | in a dense log the largest sequence is the number of events |
| `RunQueue.LoggedIsDense` | api/scheduler.py:248-271 | recording an event keeps the sequence numbers exactly 1..n |
| `RunQueue.CursorReadsSuffix` | api/scheduler.py:941-951 | reading after a cursor returns exactly the later events, in order |
| `RunQueue.CursorBeyond` | api/scheduler.py:941-951 | a cursor at or past the end reads nothing |
| `RunQueue.CursorReadsAll` | api/scheduler.py:941-951 | a cursor that is not positive reads everything |
| `RunQueue.PollingDeliversOnce` | api/scheduler.py:941-961 | a reader that polls a growing log with its last cursor sees every event once and in order |
| `RunQueue.RunDatabase.RecordEvent` | api/scheduler.py:248-271 | one event is appended to the log of one run, its number one more than their count, its message cut at 2000 characters |
| `RunQueue.RunDatabase.Insert` | api/scheduler.py:327-398 | a new run gets a queued row and an admitted event; an existing one is left alone, with a conflict if its request hash differs |
| `RunQueue.RunDatabase.Claim` | api/scheduler.py:502-542 | a queued run, or a running one whose lease is over, becomes running with one more attempt and a new token; any other run is left alone |
| `RunQueue.RunDatabase.Requeue` | api/scheduler.py:544-556 | only a running row goes back to queued |
| `RunQueue.RunDatabase.Renew` | api/scheduler.py:573-587 | succeeds exactly on a running row |
| `RunQueue.RunDatabase.SetTerminal` | api/scheduler.py:637-672 | the guarded row update, and the completed event even when the guard matches no row |
| `RunQueue.RunDatabase.ScheduleRetry` | api/scheduler.py:699-709 | the retry update applies whatever the row holds |
| `RunQueue.RunDatabase.ReleaseRetry` | api/scheduler.py:675-690 | exactly a retrying row is requeued |
| `RunQueue.RunDatabase.Cancel` | api/scheduler.py:963-976 | exactly a queued or retrying row is cancelled, with its event |
| `RunQueue.RunDatabase.RecoverExpiredLeases` | api/scheduler.py:228-246 | exactly expired running rows and due retrying rows are requeued; every other row is unchanged |
| `RunQueue.RunDatabase.Events` | api/scheduler.py:941-961 | returns the events above the cursor: the suffix of the log |
| `Scheduler.JudgeFacts` | api/scheduler.py:818-850 | an ended execution is retried only below the attempt limit; otherwise it gets the terminal status it returned, completed for any other, cancelled or failed; the dead letter marks exactly retryable failures out of attempts |
| `Scheduler.LocalRunScheduler.ClaimBoth` | api/scheduler.py:791-797 | a worker starts if and only if the row is claimable and, with a control plane, the shared claim succeeds; a refused one requeues the row with its attempt still counted; the shared resource moves as the claim script says |
| `Scheduler.LocalRunScheduler.SetTerminal` | api/scheduler.py:613-673 | with a shared lease the local row is written only if the shared transition won, and then carries the shared status |
| `Scheduler.LocalRunScheduler.ScheduleRetry` | api/scheduler.py:692-713 | with a shared lease the local retry is written only if the shared retry won |
| `Scheduler.LocalRunScheduler.Conclude` | api/scheduler.py:818-850 | field by field, from the ending alone: a retryable failure below the attempt limit makes the row and the shared resource retrying with that error and time; otherwise, under the row's own token, both carry the terminal status returned, completed for any other, cancelled after a cancel request, failed after an exception, with the ending's error and skill result; the row is retrying if and only if the failure is retryable and attempts are left; nothing is written after the lease was lost, and no other row ever |
| `Scheduler.FinishIsTwoFleetSteps` | api/scheduler.py:624-657 | finishing is the shared win followed by the local write of the fleet protocol |
| `SchedulerSafety.NobodyHolds` | api/scheduler.py:515-520 | while leases are kept alive a run is claimable only when no worker holds it |
| `SchedulerSafety.ExclusiveStep` | api/scheduler.py:502-713 | every action keeps at most one worker on the run, holding the running row under its own token |
| `SchedulerSafety.AlwaysExclusive` | api/scheduler.py:502-713 | so it is in every reachable state |
| `SchedulerSafety.AtMostOneExecution` | api/scheduler.py:791-855 | however often a run is dispatched, at most one execution is in progress |
| `SchedulerSafety.TerminalAbsorbs` | api/scheduler.py:637-657 | a terminal row never changes again while leases are kept alive |
| `SchedulerSafety.CancelledNeverStarts` | api/scheduler.py:963-976 | a run whose cancel took effect never starts again |
| `SchedulerSafety.StaleRetryRevivesCancelled` | api/scheduler.py:699-708 | without the heartbeat a stale worker's unguarded retry revives a cancelled run |
| `SchedulerSafety.TerminalSurvivesStepIff` | api/scheduler.py:699-708 | with or without heartbeats, an action takes a terminal row out of the terminal statuses if and only if it is a retry |
| `SchedulerSafety.TerminalSurvivesIff` | api/scheduler.py:699-708 | a terminal run stays terminal over a stretch of actions if and only if none of them is a retry |
| `SchedulerSafety.CancelledSurvivesStepIff` | api/scheduler.py:637-708 | a cancelled row is overwritten exactly by a retry, or by a terminal write with another status under the token the row still carries |
| `SchedulerSafety.CancelledSurvivesIff` | api/scheduler.py:637-708 | a cancelled run stays cancelled over a stretch of actions if and only if none of them overwrites it so |
| `SchedulerRetries.AttemptGrows` | api/scheduler.py:522-533 | no statement lowers the attempt counter |
| `SchedulerRetries.RetriedStep` | api/scheduler.py:838-841 | each retry belongs to a fresh attempt number below the limit |
| `SchedulerRetries.ClaimsStep` | api/scheduler.py:522-533 | workers past their claim carry distinct attempt numbers |
| `SchedulerRetries.AlwaysDistinct` | api/scheduler.py:502-713 | so it is in every reachable state, heartbeat or not |
| `SchedulerRetries.AttemptCountsClaims` | api/scheduler.py:522-571 | in every run the attempt counter is the inserted attempt plus the number of successful local claims, whether the shared lease was granted or refused |
| `SchedulerRetries.RetriesBounded` | api/scheduler.py:838-841 | across every crash, recovery and takeover a run enters retrying at most max_attempts - 1 times |
| `Fleet.AgreesStep` | api/scheduler.py:613-657 | each shared call, local statement, win, write or crash keeps all terminal outcomes equal to the shared status |
| `Fleet.AlwaysAgrees` | api/scheduler.py:613-657 | so it is in every reachable state of any number of schedulers |
| `Fleet.OutcomesStay` | api/scheduler.py:613-657 | outcomes written are never unwritten |
| `FleetHolders.OneHolderStep` | api/scheduler.py:558-571 | each action keeps at most one thread of all schedulers executing, under the lease that is stored, if it finds no lapsed lease at a claim and presents nobody else's lease |
| `FleetHolders.AlwaysOneHolder` | api/scheduler.py:558-657 | so it is in every reachable state of such runs |
| `FleetHolders.OneExecutionAcrossFleet` | api/scheduler.py:791-855 | at most one execution is in progress across all schedulers and databases while leases are kept alive |
| `FleetHolders.SecondHolderIff` | api/control_plane.py:233-242 | a claim beside a holder makes a second one if and only if it finds the stored lease lapsed |
| `FleetOutcomes.Agreement` | api/scheduler.py:613-673 | two shared-terminal outcomes written on any databases at any times are equal, and equal the shared status from then on |
| `FleetOutcomes.BindingIffShared` | api/scheduler.py:33 | every outcome with a given terminal status is the shared status from then on, in all runs, if and only if the status is one of the shared five, that is, not pending |
| `FleetOutcomes.PendingMayBeOvertaken` | api/scheduler.py:400-420 | two schedulers that both discovered the run finish it as pending and as succeeded |
| `PartitionBounds.LoadsSumToTotal` | deepseek-harness/scripts/coverage-partitions.ts:310-317 | the bucket sums add up to the weight of all files |
| `PartitionBounds.GreedyBound` | deepseek-harness/scripts/coverage-partitions.ts:310-317 | the bucket a file goes to was no heavier than any other |
| `PartitionBounds.GrahamByTotal` | deepseek-harness/scripts/coverage-partitions.ts:297-320 | m·load ≤ total + (m−1)·heaviest file, for every bucket |
| `PartitionBounds.GrahamByOptimum` | deepseek-harness/scripts/coverage-partitions.ts:297-320 | m·load ≤ (2m−1)·t for the cost t of any other assignment of the same files |
| `PartitionBounds.LastFileFits` | deepseek-harness/scripts/coverage-partitions.ts:303-305 | heaviest first, a file heavier than a third of t does not push its bucket above t |
| `PartitionBounds.HeaviestFirstBound` | deepseek-harness/scripts/coverage-partitions.ts:289-320 | 3m·load ≤ (4m−1)·t for the cost t of any other assignment |
| `PartitionBounds.LoadsDifferByOneFile` | deepseek-harness/scripts/coverage-partitions.ts:310-317 | any two bucket sums differ by at most the heaviest file |
| `PartitionBounds.EmptyBucketsFirst` | deepseek-harness/scripts/coverage-partitions.ts:363-371 | while one bucket is empty no other receives a second file, even of weight zero |
| `PartitionBounds.NoBucketEmpty` | deepseek-harness/scripts/coverage-partitions.ts:289-296 | with at least m files no bucket is empty |
| `CoveragePartitions.RootIsMinimum` | deepseek-harness/scripts/coverage-partitions.ts:322-351 | in an ordered heap no bucket is below the root by sum, then file count |
| `CoveragePartitions.SmallestAround` | deepseek-harness/scripts/coverage-partitions.ts:329-342 | the position chosen is the least of a node and its children |
| `CoveragePartitions.SiftDown` | deepseek-harness/scripts/coverage-partitions.ts:323-351 | the in-place loop turns a heap broken at one place into an ordered heap holding the same indices |
| `CoveragePartitions.SwapKeepsOrder` | deepseek-harness/scripts/coverage-partitions.ts:344-349 | one swap moves the broken place down one level |
| `CoveragePartitions.RootMayBreak` | deepseek-harness/scripts/coverage-partitions.ts:315-316 | adding a file to the root bucket can break the order at the root only |
| `CoveragePartitions.GreedyStep` | deepseek-harness/scripts/coverage-partitions.ts:310-316 | taking the root places the file into a global minimum bucket |
| `CoveragePartitions.PlaceFile` | deepseek-harness/scripts/coverage-partitions.ts:310-317 | one loop step keeps heap, buckets and assignment in agreement |
| `CoveragePartitions.AssignWeightedPartitions` | deepseek-harness/scripts/coverage-partitions.ts:297-320 | the result is the greedy assignment of the sorted files; with no partitions and some files it fails |
| `CoveragePartitions.PlacedWeight` | deepseek-harness/scripts/coverage-partitions.ts:373-376 | a partition's weight is its bucket sum |
| `CoveragePartitions.WeightIsMilliseconds` | deepseek-harness/scripts/coverage-partitions.ts:373-376 | a partition weighs its recorded milliseconds, an unrecorded file counting as one |
| `CoveragePartitions.OrderIs` | deepseek-harness/scripts/coverage-partitions.ts:303-305 | the sort takes the files with more recorded milliseconds first, an unrecorded file counting as one, ties by collation key |
| `CoveragePartitions.OrderIsHeaviestFirst` | deepseek-harness/scripts/coverage-partitions.ts:303-305 | the sort takes files heaviest first |
| `CoveragePartitions.PartitionsConserveFiles` | deepseek-harness/scripts/coverage-partitions.ts:309-319 | the partitions together are a permutation of the files |
| `CoveragePartitions.PartitionsWithinLptBound` | deepseek-harness/scripts/coverage-partitions.ts:289-320 | the heaviest partition is within the LPT bound of every other assignment |
| `CoveragePartitions.LptBoundIs` | deepseek-harness/scripts/coverage-partitions.ts:289-296 | the bound in the usual form: at most 4/3 - 1/(3m) times the cost of the other distribution |
| `CoveragePartitions.PartitionsBalanced` | deepseek-harness/scripts/coverage-partitions.ts:310-317 | two partitions differ by at most the heaviest file |
| `CoveragePartitions.PartitionsFilled` | deepseek-harness/scripts/coverage-partitions.ts:295 | with at least as many files as partitions, none is empty |
| `CoveragePartitions.SelectSplits` | deepseek-harness/scripts/coverage-partitions.ts:392-393 | the two project lists split a partition's files |
| `CoveragePartitions.ProjectListsConserveFiles` | deepseek-harness/scripts/coverage-partitions.ts:388-394 | every file is in exactly one project list of one partition |
| `CoveragePartitions.ProjectListsAt` | deepseek-harness/scripts/coverage-partitions.ts:388-394 | partition k writes its process-bound files in one list and all its others in the other, each as often as it holds it |
| `CoveragePartitions.FirstEmpty` | deepseek-harness/scripts/coverage-partitions.ts:486-494 | finds the first empty partition, or none |
| `CoveragePartitions.AssignFiles` | deepseek-harness/scripts/coverage-partitions.ts:486-532 | partitions come by descending milliseconds and hold all files, the heaviest is within the LPT bound of every other distribution of the files over as many lists, and the run proceeds if and only if there are at least as many files as partitions |
| `CoveragePartitions.AssignmentOf` | deepseek-harness/scripts/coverage-partitions.ts:309-319 | every distribution of the files over lists is an assignment with the same loads |
| `CoveragePartitions.HeaviestWithinLptBound` | deepseek-harness/scripts/coverage-partitions.ts:289-320 | the heaviest partition is within the LPT bound of every other distribution of the files |
| `CoveragePartitions.GuardDecides` | deepseek-harness/scripts/coverage-partitions.ts:486-494 | the guard passes if and only if there are at least as many files as partitions |
| `BudgetLedger.FailureChangesNothing` | api/control_plane.py:309-364 | a script that returns an error leaves the ledger as it was |
| `BudgetLedger.BudgetStore.Register` | api/control_plane.py:286-307 | registration is idempotent for the same policy and refuses another |
| `BudgetLedger.BudgetStore.Reserve` | api/control_plane.py:309-329 | the checks in script order, then all five reserved counters and the reservation move together |
| `BudgetLedger.BudgetStore.ReturnReserved` | api/control_plane.py:342-346 | exactly the reservation's amounts leave the reserved counters |
| `BudgetLedger.BudgetStore.Commit` | api/control_plane.py:331-353 | a reservation of the same run is replaced by usage within it |
| `BudgetLedger.BudgetStore.Release` | api/control_plane.py:355-364 | a reservation is given back whole |
| `BudgetLedger.BudgetStore.constructor` | api/control_plane.py:286-307 | an empty ledger |
| `BudgetLedger.ReserveConservesIffFresh` | api/control_plane.py:322-327 | a successful reserve keeps reserved counters equal to the live reservations if and only if it overwrites no live reservation that holds something |
| `BudgetLedger.ConservedStep` | api/control_plane.py:286-364 | every script with a fresh id keeps that equality |
| `BudgetLedger.AlwaysConserved` | api/control_plane.py:286-364 | reserved counters equal the sum of live reservations in every run with fresh ids |
| `BudgetLedger.UsedIsCommitted` | api/control_plane.py:347-350 | used counters equal the sum of committed usage |
| `BudgetLedger.LimitsHold` | api/control_plane.py:316-321 | used + reserved ≤ max for tokens, tool calls and wall time, and active concurrency within its limit, always |
| `BudgetLedger.CostLimitHolds` | api/control_plane.py:319-350 | used + reserved ≤ max for cost too, always, in every run whose accepted commits stay within their reservations |
| `BudgetLedger.PositiveReservationsSuffice` | api/control_plane.py:341 | which the script ensures by itself when every reservation has a positive cost |
| `BudgetLedger.CommitCostGrowth` | api/control_plane.py:341 | a commit keeps used + reserved cost from growing if and only if its cost is within the reservation's, which the script checks only for positive reservations |
| `BudgetLedger.CostStep` | api/control_plane.py:319-364 | a script keeps every cost limit if its commit stays within the reservation |
| `BudgetLedger.CommitKeepsCostIff` | api/control_plane.py:341 | accepted commits of cost c against reservations of cost r keep all conserved ledgers within their cost limits if and only if r > 0 or c = 0 |
| `BudgetLedger.CostBoundsKeepLimitIff` | api/control_plane.py:319-350 | reservations of at least r and commits of at most c keep every run within its cost limits if and only if r > 0 or c = 0 |
| `BudgetLedger.FreeReservationOverspends` | api/control_plane.py:341 | a run from the empty ledger in which a reservation of cost zero lets a commit of any positive cost pass the limit |
| `BudgetLedger.LiveWasReserved` | api/control_plane.py:327-363 | a live reservation was made by a successful reserve and not settled since |
| `BudgetLedger.SettlesOnce` | api/control_plane.py:331-364 | a reservation settles at most once |
| `BudgetLedger.LiveUntilSettled` | api/control_plane.py:327-362 | it stays live until it settles |
| `BudgetRecord.RunIsRecorded` | api/control_plane.py:286-364 | for every run of calls, ids used again included: the stored policy is the first registered one, used the usage committed, reserved what was reserved less what the settled reservations held |
| `BudgetRecord.IdIsRecorded` | api/control_plane.py:327-363 | a reservation is stored exactly while its last granted reserve is unsettled, with the run, node and amounts of that reserve |
| `BudgetRecord.AnsweredFromRecord` | api/control_plane.py:286-364 | every call is answered from that record: a reserve is granted if and only if the run is registered and none of the five sums passes its limit, a commit if and only if the reservation is live, of that run and not exceeded, and otherwise with the first code due |
| `IngestionLedger.StripIdempotent` | ingestion_pipelines/runtime.py:128 | stripping an id twice changes nothing more |
| `IngestionLedger.PaddingIsIgnored` | ingestion_pipelines/runtime.py:145-193 | padding an id changes no counter in either form, and no answer beyond the id echoed |
| `IngestionLedger.LocalController.Register` | ingestion_pipelines/runtime.py:127-143 | the in-process form: equal limits are accepted again, different ones conflict |
| `IngestionLedger.LocalController.Charge` | ingestion_pipelines/runtime.py:145-193 | the in-process form: checks in order, then all counters move together |
| `IngestionLedger.RedisLedger.Register` | api/control_plane.py:366-391 | the script form of register |
| `IngestionLedger.RedisLedger.Charge` | api/control_plane.py:393-427 | the script form of charge: the key is built from the stripped id, and an empty one is a ValueError |
| `IngestionLedger.SumOfAdd` | api/control_plane.py:424 | the running total moves as the sum of the stage tokens does |
| `IngestionLedger.UpdateKeepsRelated` | ingestion_pipelines/runtime.py:190-192 | writing one key on both sides keeps the forms related |
| `IngestionLedger.RegisterSimulates` | ingestion_pipelines/runtime.py:127-143 | from related states register answers alike and stays related |
| `IngestionLedger.ChecksAgree` | ingestion_pipelines/runtime.py:180-189 | the checks of the two forms agree, the running total standing for the sum of the stage tokens |
| `IngestionLedger.ChargeSimulates` | ingestion_pipelines/runtime.py:156-193 | from related states charge stays related, and answers alike unless the id is blank |
| `IngestionLedger.StepSimulates` | ingestion_pipelines/runtime.py:127-193 | from related states every call keeps them related; they answer alike, up to the id echoed, if and only if it is not a well-formed charge of a blank id; the echo differs exactly on a charge granted for a padded id |
| `IngestionLedger.AlwaysRelated` | ingestion_pipelines/runtime.py:127-193 | same keys and counters, running total = sum of stage tokens, after every sequence of calls |
| `IngestionLedger.SameAnswers` | ingestion_pipelines/runtime.py:127-193 | in every run a call is answered alike if and only if it does not charge a blank id |
| `IngestionLedger.BlankIdDiverges` | ingestion_pipelines/runtime.py:160-170 | a blank id is not registered in process and a ValueError behind the control plane |
| `IngestionLedger.LimitsHold` | api/control_plane.py:408-421 | every stage, total and fan-out limit holds in every run |
| `IngestionLedger.RejectedLocally` | ingestion_pipelines/runtime.py:166-189 | a rejected call changes nothing in process |
| `IngestionLedger.RejectedRemotely` | api/control_plane.py:393-421 | a rejected call changes nothing in the store |
| `IngestionRecord.SpacesAre` | ingestion_pipelines/runtime.py:128 | the 29 code points stripped from an id |
| `IngestionRecord.StripIs` | ingestion_pipelines/runtime.py:128 | stripping takes the white space off both ends, all of it and nothing else |
| `IngestionRecord.KeyIsRecorded` | ingestion_pipelines/runtime.py:127-193 | for every run of calls: limits are the first granted, units, tokens, total and fan-out the sums of the granted charges |
| `IngestionRecord.AnsweredFromRecord` | ingestion_pipelines/runtime.py:127-193 | every call is answered from that record: a charge is granted if and only if the key is registered and its stage, the total and the fan-out stay within the limits, with the new counters as its snapshot, and otherwise with the first code due |
| `DagSnapshot.StatusSummarises` | api/control_plane.py:436-449 | the status, on the stored statuses of the nodes: waiting if and only if one waits; failed if and only if none waits and one is failed or blocked; succeeded if and only if all succeeded; cancelled if and only if all succeeded or were cancelled, and one was; running and queued likewise |
| `DagSnapshot.FoldedJoins` | api/control_plane.py:1050-1055 | patching with a sequence is patching with its parts in turn |
| `DagSnapshot.FoldedMeaning` | api/control_plane.py:1050-1055 | after a fold the revision counts the patches and the status summarises the nodes as below |
| `DagSnapshot.LastPatchWins` | api/control_plane.py:1050-1051 | each node is what the last patch naming it says |
| `DagSnapshot.NothingLostStep` | api/control_plane.py:1037-1062 | a write prepared under an unchanged version is the patch of the stored value |
| `DagSnapshot.AlwaysNothingLost` | api/control_plane.py:1037-1062 | so in every interleaving of watch, read and exec |
| `DagSnapshot.NoLostUpdate` | api/control_plane.py:1020-1067 | stored nodes = fold of the executed patches in revision order, revision = 1 + their number, and the status summarises the nodes |
| `DagSnapshot.HistoryIsSuccesses` | api/control_plane.py:1057-1062 | the executed patches are exactly those whose callers got a revision, each once |
| `DagSnapshot.RevisionIsPosition` | api/control_plane.py:1054-1060 | a caller's revision is its place in that order |
| `DagSnapshot.EightAttempts` | api/control_plane.py:1037-1067 | under every interleaving a client gives up after exactly eight disturbed attempts, or because there is no snapshot |
| `DagSnapshot.SnapshotStore.Put` | api/control_plane.py:1001-1018 | creates the snapshot, only when there is none: the nodes given, revision 1, and the status that summarises them |
| `DagSnapshot.SnapshotStore.Interfere` | api/control_plane.py:1037-1062 | what other clients do between watch and exec |
| `DagSnapshot.SnapshotStore.Patch` | api/control_plane.py:1020-1067 | lands once, on top of everything before it, at the first undisturbed of eight attempts, and conflicts exactly when all eight are disturbed; what it stores holds every node of the patch, and its status summarises the nodes |
| `TokenQuota.Reservation` | backend-node/src/rate-limit.js:69 | the reservation is the configured one, or zero if that is negative |
| `TokenQuota.SameBucketIff` | backend-node/src/rate-limit.js:4-13 | two requests share a bucket if and only if their users and kinds agree and their times agree on division by 86 400 000 for a day, by 60 000 for a minute |
| `TokenQuota.RateLimiter.Reserve` | backend-node/src/rate-limit.js:29-57 | charges the bucket if and only if tokens, and in the minute requests, fit |
| `TokenQuota.RateLimiter.Increment` | backend-node/src/rate-limit.js:92-96 | an update of a missing bucket does nothing |
| `TokenQuota.RateLimiter.ReserveQuota` | backend-node/src/rate-limit.js:67-86 | allowed if and only if input, output, reserved and the new tokens stay within the minute's and the day's limit and the minute has a request left; a refused request leaves every counter as it was |
| `TokenQuota.RateLimiter.FinalizeQuota` | backend-node/src/rate-limit.js:88-98 | both buckets trade the reservation for the output |
| `TokenQuota.RateLimiter.ReleaseQuota` | backend-node/src/rate-limit.js:100-108 | both buckets give back input, reservation and request |
| `TokenQuota.ReleaseUndoesIffSameWindows` | backend-node/src/rate-limit.js:67-108 | a release right after an allowed reserve brings every counter back if and only if it names the two windows charged |
| `TokenQuota.ReserveMoves` | backend-node/src/rate-limit.js:45-57 | a reserve update moves a bucket exactly by what the request now holds |
| `TokenQuota.RollbackMoves` | backend-node/src/rate-limit.js:81-82 | so does each half of the rollback |
| `TokenQuota.ReleaseMoves` | backend-node/src/rate-limit.js:100-108 | so does each half of a release |
| `TokenQuota.FinalizeMoves` | backend-node/src/rate-limit.js:88-98 | so does settling |
| `TokenQuota.BalancedStep` | backend-node/src/rate-limit.js:67-108 | every database update keeps each counter equal to the sum of what the requests hold |
| `QuotaRuns.AlwaysBalanced` | backend-node/src/rate-limit.js:67-108 | so it is in every interleaving, half-finished rollbacks included |
| `TokenQuota.LeavesIffSameWindows` | backend-node/src/rate-limit.js:88-108 | a finalize, or either half of a release, keeps the books balanced if and only if `reservedAt` names the window the request reserved in, for each bucket it touches |
| `TokenQuota.IncKeepsLimits` | backend-node/src/rate-limit.js:45-57 | an increment that fits, or adds nothing, keeps every bucket within its limit |
| `TokenQuota.WithinLimitsStep` | backend-node/src/rate-limit.js:45-108 | no update takes a bucket over its limit when outputs stay within reservations |
| `QuotaRuns.SumsWithinLimits` | backend-node/src/rate-limit.js:45-108 | so in every interleaving, whatever the windows |
| `QuotaRuns.BalancedIsNatural` | backend-node/src/rate-limit.js:67-108 | while the books balance no counter is below zero |
| `QuotaRuns.CountersNatural` | backend-node/src/rate-limit.js:67-108 | no counter ever drops below zero when `reservedAt` lies in the windows of the reserve step |
| `QuotaRuns.QuotaHolds` | backend-node/src/tasks.js:247-311 | input + output + reserved ≤ limit in both buckets, requests ≤ limit in the minute, and no counter below zero, always |
| `UserQuota.DayQuotaHolds` | backend-node/src/rate-limit.js:67-108 | in every run, all requests of one user made in [86 400 000·d, 86 400 000·(d+1)) together hold at most `tokensPerDay` |
| `UserQuota.MinuteQuotaHolds` | backend-node/src/rate-limit.js:67-108 | in every run, all requests of one user made in [60 000·m, 60 000·(m+1)) together hold at most `tokensPerMinute` |
| `UserQuota.MinuteRequestsHold` | backend-node/src/rate-limit.js:67-108 | and are at most `requestsPerMinute` |
| `UserQuota.RequestStays` | backend-node/src/tasks.js:248-249 | a stored request keeps the user, clock and input it was made with |
| `QuotaRuns.SettledBucketsHoldCharges` | backend-node/src/tasks.js:140-169 | once all requests are done nothing is reserved and each bucket holds exactly the finalized requests |
| `QuotaRuns.RefusedNetsToZero` | backend-node/src/tasks.js:247-305 | a rejected or released request has left no trace in any bucket |
| `QuotaRuns.LeavingStays` | backend-node/src/tasks.js:150-163 | a request that started to leave its buckets never returns |
| `QuotaRuns.SettledAtMostOnce` | backend-node/src/tasks.js:150-163 | a reservation is settled at most once under repeated finalize calls |
| `QuotaRuns.SettledOnce` | backend-node/src/tasks.js:140-169 | and exactly once, by the action its final state names |
| `QuotaRuns.NetsAddUp` | backend-node/src/rate-limit.js:67-108 | a bucket is what one request and what all others left in it |
| `QuotaRuns.OwnNetIsKept` | backend-node/src/rate-limit.js:67-108 | what a request left in a bucket it reserves in, for every run and every `reservedAt` |
| `QuotaRuns.StraddlingReservationStays` | backend-node/src/tasks.js:248-249 | a request settled in another minute than it reserved in: in every later state its whole reservation is still in the minute bucket |
| `QuotaRuns.ReservationLeftIff` | backend-node/src/tasks.js:140-169 | in every run, a finalized or released reservation has left each of its buckets if and only if `reservedAt` names that bucket |
| `QuotaRuns.FinalizeKeepsLimitsIff` | backend-node/src/tasks.js:146-152 | a finalize keeps all states within their limits if and only if its output is at most the reservation |
| `QuotaRuns.LongOutputOverspends` | backend-node/src/tasks.js:146-152 | a run from empty buckets that ends over the limit, for every larger output and every configuration that admits anything |
| `QuotaRuns.NobodyAdmitted` | backend-node/src/rate-limit.js:45-57 | a configuration without room for one reservation never admits a request, whatever `reservedAt`, and its books balance |
| `QuotaRuns.OutputsKeepLimitsIff` | backend-node/src/tasks.js:140-152 | outputs up to a bound keep every run within its limits if and only if the bound is at most the reservation, or nothing is ever admitted |
| `EvidenceForest.LocationOrder` | ingestion_pipelines/structure.py:23-27 | the location key is a total order: only blocks with the same id are equal in it |
| `EvidenceForest.LocationLeqIs` | ingestion_pipelines/structure.py:23-27 | the location key on the fields of a block: page, or slide where the page is missing or 0, then start, then id |
| `EvidenceForest.DepthUnique` | ingestion_pipelines/structure.py:166-172 | a block has one depth |
| `EvidenceForest.ChainLength` | ingestion_pipelines/structure.py:103-106 | a parent chain that reaches a root visits no block twice |
| `EvidenceForest.DepthBound` | ingestion_pipelines/structure.py:103-106 | so it is shorter than the number of blocks |
| `EvidenceForest.RootedIffNoLoop` | ingestion_pipelines/structure.py:103-113 | when all parents are present, a parent chain reaches a root if and only if it does not run into a cycle |
| `EvidenceForest.WithParentOnce` | ingestion_pipelines/structure.py:166-172 | each block is listed under its own parent only |
| `EvidenceForest.WithParentSorted` | ingestion_pipelines/structure.py:168-170 | children are listed in location order |
| `EvidenceForest.SplitRoots` | ingestion_pipelines/structure.py:166-172 | the loop groups blocks by parent and collects the roots, in order |
| `EvidenceForest.RootedEnds` | ingestion_pipelines/structure.py:176-180 | below a block that reaches a root there is no cycle |
| `EvidenceForest.Descendants` | ingestion_pipelines/structure.py:176-180 | the recursion ends from every root and returns the block followed by its children's walks in location order |
| `EvidenceForest.WalkCount` | ingestion_pipelines/structure.py:176-180 | a walk lists a block as often as its ancestor at that depth is among the blocks walked |
| `EvidenceForest.VisitedOnceIffRooted` | ingestion_pipelines/structure.py:176-183 | the walks visit a block exactly once if its parent chain reaches a root, otherwise never |
| `EvidenceForest.VisitsAllIffRooted` | ingestion_pipelines/structure.py:218-219 | all blocks are visited if and only if every parent chain reaches a root |
| `EvidenceForest.WalkParentsFirst` | ingestion_pipelines/structure.py:176-180 | a block is listed only after its parent |
| `EvidenceOrder.SiblingsInOrder` | ingestion_pipelines/structure.py:168-180 | in a walk, blocks with the same parent come in location order |
| `EvidenceOrder.SubtreesTogether` | ingestion_pipelines/structure.py:176-180 | a walk is depth first: between a block and one below it stand only blocks below it |
| `ChunkPacking.ContentSnoc` | ingestion_pipelines/structure.py:205 | appending a block adds its rendered length and one separator |
| `ChunkPacking.PackSplits` | ingestion_pipelines/structure.py:187-216 | the packing splits the blocks into chunks that fit or hold one block |
| `ChunkPacking.FitsPiece` | ingestion_pipelines/structure.py:187-191 | a run of blocks out of an admissible chunk is admissible |
| `ChunkPacking.DropFront` | ingestion_pipelines/structure.py:187-216 | dropping blocks at the front never needs more chunks |
| `ChunkPacking.CutWhereOthersCut` | ingestion_pipelines/structure.py:190 | where the packing closes a chunk no other split has a longer first chunk |
| `ChunkPacking.PackingOptimal` | ingestion_pipelines/structure.py:182-216 | no contiguous split into admissible chunks has fewer chunks |
| `ChunkPacking.PackGreedy` | ingestion_pipelines/structure.py:190 | a chunk is closed only before a block that no longer fits |
| `ChunkPacking.ContentLength` | ingestion_pipelines/structure.py:236 | a content is as long as the modalities and texts of its blocks, three characters for each and one line break between any two |
| `ChunkPacking.ContentSpells` | ingestion_pipelines/structure.py:236 | at its offset the content spells each block: its modality in brackets, a blank, its text |
| `ChunkPacking.FitsIff` | ingestion_pipelines/structure.py:187-190 | a chunk is admissible if and only if it holds one block, or those lengths and line breaks fit |
| `EvidenceStructure.IndexSize` | ingestion_pipelines/structure.py:68-70 | the dictionary is as large as the list exactly if no id repeats |
| `EvidenceStructure.BuildIndex` | ingestion_pipelines/structure.py:68-70 | finds repeated ids |
| `EvidenceStructure.CheckLinks` | ingestion_pipelines/structure.py:103-122 | finds the first dangling parent or reference, parents first |
| `EvidenceStructure.Validate` | ingestion_pipelines/structure.py:56-122 | the error cases in the order of the code |
| `EvidenceStructure.PackRoot` | ingestion_pipelines/structure.py:184-216 | the loop fails at the first block without content, and otherwise produces the greedy packing, numbered on, later chunks naming the first; the running length is that of the joined content |
| `EvidenceStructure.NumberedAt` | ingestion_pipelines/structure.py:191-215 | each chunk has the next index, and all but the first of a root name the first |
| `EvidenceStructure.ChunkRoots` | ingestion_pipelines/structure.py:182-216 | all roots are walked and packed in location order |
| `EvidenceStructure.ChunksCiteWalk` | ingestion_pipelines/structure.py:218 | the cited ids are the walk, in order |
| `EvidenceStructure.Compile` | ingestion_pipelines/structure.py:44-225 | an error for an input that fails a check or has a visited block without content; otherwise the packed walks, complete if and only if every parent chain reaches a root; what the chunks hold is said of the blocks given in `EvidenceResult` |
| `EvidenceStructure.AcceptedLinked` | ingestion_pipelines/structure.py:103-106 | an input that passes the checks has all parents among its blocks |
| `EvidenceStructure.AcceptedIff` | ingestion_pipelines/structure.py:56-188 | an input is accepted if and only if it passes the checks and every block whose parent chain reaches a root has content |
| `EvidenceStructure.UncitedIffLoops` | ingestion_pipelines/structure.py:166-219 | in an input that passes the checks, the blocks in no chunk are exactly those on or below a cycle of parents |
| `EvidenceStructure.CitedOnceIffRooted` | ingestion_pipelines/structure.py:218-219 | a block is in exactly one chunk if its parent chain reaches a root, otherwise in none |
| `EvidenceStructure.CompleteIffRooted` | ingestion_pipelines/structure.py:218-219 | `source_map_complete` as computed means that every parent chain reaches a root |
| `EvidenceStructure.PackingsFewest` | ingestion_pipelines/structure.py:182-216 | for any choice of one admissible split per root, the compilation has no more chunks |
| `EvidenceStructure.CompiledFewest` | ingestion_pipelines/structure.py:182-216 | the whole compilation has the fewest chunks |
| `EvidenceStructure.CompiledWellFormed` | ingestion_pipelines/structure.py:187-216 | every chunk carries its position and holds one block or at most the allowed characters |
| `EvidenceResult.CheckIs` | ingestion_pipelines/structure.py:56-122 | which input fails which check, on the fields of the blocks |
| `EvidenceResult.ChunkSpellsBlocks` | ingestion_pipelines/structure.py:188-236 | the content of a chunk is, block by block in the order of its ids, the bracketed modality, a blank and the text of the block given, one line break between any two, and nothing else |
| `EvidenceResult.ChunkFields` | ingestion_pipelines/structure.py:237-251 | a chunk carries its number, an id of number and evidence ids, and a quarter of its characters, rounded up and at least one, as its estimate |
| `EvidenceResult.ChunksNameFirst` | ingestion_pipelines/structure.py:182-215 | a chunk without parent starts with a root, no other chunk holds one, and the chunks up to the next root name it as their parent |
| `EvidenceResult.ClosedWhenFull` | ingestion_pipelines/structure.py:190 | a further chunk of a root begins with a block that no longer fits into the chunk before |
| `EvidenceResult.CitedInLocationOrder` | ingestion_pipelines/structure.py:23-27 | roots, and blocks with the same parent, are cited by ascending page or slide, then start, then id |
| `EvidenceResult.CitedDepthFirst` | ingestion_pipelines/structure.py:176-218 | between a block and one below it only blocks below it are cited |
| `ContextRecord.LayerIs` | memory/context_builder.py:241-248 | which layer is shown for each level requested, and the level recorded with it |
| `ContextRecord.ScanIsFates` | memory/context_builder.py:157-184 | each candidate is a duplicate, irrelevant or kept, by its own content and the kept ones before it; the scan ranks the kept ones with score, flag, level and content, and counts the others and the fallbacks |
| `ContextRecord.RankedByScore` | memory/context_builder.py:186 | the kept candidates are ranked by descending score, equal scores in input order |
| `ContextRecord.SelectIsGreedy` | memory/context_builder.py:188-219 | an entry is taken if and only if the item limit is not reached and its line fits beside those taken before, the first one always |
| `ContextRecord.PackIsRead` | memory/context_builder.py:192-220 | each line is the warning of a flagged item, its metadata in brackets and its content, or its cut form, and stands in the text in that order with an empty line between |
| `ContextRecord.BuiltIs` | memory/context_builder.py:129-238 | the whole result from the candidates: items, text, and every count of the trace |
| `ContextPack.Build` | memory/context_builder.py:129-238 | scan, rank and select; a budget below one token is an error |
| `ContextPack.ScanCandidates` | memory/context_builder.py:157-184 | the scan loop |
| `ContextPack.SelectEntries` | memory/context_builder.py:188-219 | the selection loop |
| `ContextPack.ScanKeeps` | memory/context_builder.py:157-184 | entries are distinct up to case, come from their candidates, and every candidate is ranked, a duplicate or dropped |
| `ContextPack.ScanCovers` | memory/context_builder.py:157-184 | every candidate is ranked, repeats one ranked before it up to case, is empty, or is irrelevant to the query and unscored |
| `ContextPack.RankedFacts` | memory/context_builder.py:186 | ranking is by descending score with ties in input order, and loses nothing |
| `ContextPack.SelectKeeps` | memory/context_builder.py:188-219 | what selection keeps after any prefix of the ranking |
| `ContextPack.TextWithinBudget` | memory/context_builder.py:198-220 | the text exceeds token_budget × chars_per_token by at most two characters per separator |
| `ContextPack.EveryCandidateCounted` | memory/context_builder.py:225-235 | candidates = selected + duplicates + dropped |
| `ContextPack.CutStandsAlone` | memory/context_builder.py:201-219 | an item that loses content to the cut fills the budget alone |
| `ContextPack.SelectedOrderedAndDistinct` | memory/context_builder.py:186-219 | the selection keeps the ranking and is distinct up to case, even when the first item is cut |
| `ContextPack.NothingElseFits` | memory/context_builder.py:188-200 | no ranked entry left out would still fit beside the selection |
| `ContextPack.RecordedLevel` | memory/context_builder.py:180-214 | the recorded context level is that of the content if and only if the item was not cut or the last candidate uses the same level |
| `ContextPack.WarnedIffWhole` | memory/context_builder.py:193-215 | the line of a flagged item starts with the untrusted-source warning if and only if the item was not cut to the budget |
| `ContextPack.CutRecordsWrongLevel` | memory/context_builder.py:212 | an item whose recorded level is wrong |
| `DependencyWorklist.InstalledOnce` | deepseek-harness/scripts/benchmark-next-package-dependency.ts:149-155 | the install record lists dependencies, optional dependencies and non-optional peers, each once |
| `DependencyWorklist.ReachableStep` | deepseek-harness/scripts/benchmark-next-package-dependency.ts:149-157 | what a reachable package depends on is reachable if it has a manifest |
| `DependencyWorklist.ReachedInClosed` | deepseek-harness/scripts/benchmark-next-package-dependency.ts:140-158 | every closed set holds all reachable packages |
| `DependencyWorklist.ReachableIffPath` | deepseek-harness/scripts/benchmark-next-package-dependency.ts:140-158 | a package is reachable if and only if a path of packages with a manifest leads to it from the target, each a dependency, optional dependency or non-optional peer of the one before |
| `DependencyWorklist.InvSkip` | deepseek-harness/scripts/benchmark-next-package-dependency.ts:144-147 | skipping duplicates and unknown packages forgets nothing |
| `DependencyWorklist.InvExpand` | deepseek-harness/scripts/benchmark-next-package-dependency.ts:148-157 | expanding a package forgets nothing |
| `DependencyWorklist.Discover` | deepseek-harness/scripts/benchmark-next-package-dependency.ts:140-158 | ends despite duplicates, expands no package twice, and reaches exactly the reachable packages, the least closed set |
| `DependencyWorklist.DiscoverCandidates` | deepseek-harness/scripts/benchmark-next-package-dependency.ts:134-165 | the sorted candidates are exactly the reachable release packages outside the policy with a peer other than Cordis, each once |
| `ArtifactStream.DigitsAreDecimal` | deepseek-harness/scripts/client-build-environment.ts:339 | a length is written in decimal, without leading zeros |
| `ArtifactStream.ParseOfDigits` | deepseek-harness/scripts/client-build-environment.ts:339 | decimal lengths read back as the number written |
| `ArtifactStream.DigitsOfParse` | deepseek-harness/scripts/client-build-environment.ts:339 | only canonical decimals are read |
| `ArtifactStream.DecodeOfField` | deepseek-harness/scripts/client-build-environment.ts:339-342 | a length-prefixed field reads back, whatever follows |
| `ArtifactStream.FieldOfDecode` | deepseek-harness/scripts/client-build-environment.ts:339-342 | what was read, written again, is the input |
| `ArtifactStream.EncodeCons` | deepseek-harness/scripts/client-build-environment.ts:337-343 | a stream starts with length, colon and bytes of the first path, then of its content |
| `ArtifactStream.DecodeOfEncode` | deepseek-harness/scripts/client-build-environment.ts:337-343 | decoding inverts encoding |
| `ArtifactStream.EncodeOfDecode` | deepseek-harness/scripts/client-build-environment.ts:337-343 | encoding inverts decoding |
| `ArtifactStream.DecodesIffEncoded` | deepseek-harness/scripts/client-build-environment.ts:337-343 | the decoder accepts exactly the encodings |
| `ArtifactStream.EncodeInjective` | deepseek-harness/scripts/client-build-environment.ts:337-343 | equal streams mean equal artifact lists |
| `ArtifactStream.PathLeqIs` | deepseek-harness/scripts/client-build-environment.ts:333 | a path comes first that is the beginning of the other, or has the smaller unit where they first differ |
| `ArtifactStream.ByPathOrder` | deepseek-harness/scripts/client-build-environment.ts:333 | the order of paths by UTF-16 units is total, and strict on a listing of distinct paths |
| `ArtifactStream.FeedFiles` | deepseek-harness/scripts/client-build-environment.ts:336-343 | the loop feeds the encoding of the files |
| `ArtifactStream.ArtifactDigest` | deepseek-harness/scripts/client-build-environment.ts:329-344 | the digest input is the encoding of the files sorted by path; no files is an error |
| `ArtifactStream.DigestInPathOrder` | deepseek-harness/scripts/client-build-environment.ts:329-344 | the hash input lists all files by ascending path |
| `ArtifactStream.SameDigestIffSameArtifacts` | deepseek-harness/scripts/client-build-environment.ts:319-324 | two builds have the same digest if and only if they produced the same artifacts, in whatever order they were listed |

## Left out

- Redis, SQLite, MongoDB and file-system mechanics: a script, an immediate transaction and a single document update are each one atomic step; WATCH/EXEC succeeds if and only if the key is unchanged since the watch.
- Numbers: counters are unbounded integers and times, weights and scores exact reals, where the code uses floats and Redis number strings.
- Hashes, JSON, UUIDs and case folding: hashes are taken to be injective, tokens fresh, folding and whitespace collapsing arbitrary functions; locale collation is an integer key.
- UTF-8 encoding of artifact paths: a function that tells the listed paths apart, as it does well-formed ones.
- Trimming of event streams, consumer groups, reclaiming of queue messages, `publish_progress`, release-cache claims and preparation records.
- Telemetry columns (`started_at`, `queue_wait_ms`, `attempt_id`, `created_at`, `updated_at`), metrics and status projections.
- Timed-out executions: the child thread keeps running after the worker gave up, and is not counted as an execution in progress.
- Expiry of rate-limit buckets and of control-plane keys.
- Evidence relationships other than the parent links used by the walk (temporal, sequence and reference edges), and heading paths: filters and de-duplicated appends.
- Recursion depth: `descendants` is modelled without Python's recursion limit.
- Provenance dictionaries, injection phrases and display metadata of context items: abstract functions of the item.
- `mapConcurrent`, `run_optional_stage_with_retry`, `IngestionStageCache`, `clientBuildProcessEnvironment`, `projectCanonicalStatus`: single-function facts.
- `dag_scheduler.py`, HTTP routes, authentication, provider clients, extractors, object stores, the sandbox and the user interfaces.
- RunQueue.RunDatabase.Claim: the row is read back in the same step; in the code the SELECT follows the COMMIT.
- RunQueue.RunDatabase.SetTerminal: shown without `updated_at`.
- BudgetLedger.BudgetStore.Release: the run is read from the reservation before the script in the code; here both are one step.
- QuotaRuns.QuotaHolds: assumes what the code does not check, that an output is at most its reservation and `reservedAt` lies in the windows of the reserve step; `OutputsKeepLimitsIff` and `ReservationLeftIff` give what happens without them.
- SchedulerSafety.AtMostOneExecution: assumes that a running worker's heartbeat keeps its lease alive; `TerminalSurvivesIff` and `CancelledSurvivesIff` need no such assumption.
- FleetOutcomes.Agreement: excludes `pending` and local cancellation, which the code does not synchronise.
- LeaseHistory.WindowsDisjoint: assumes one non-decreasing clock, and that no call reopens a settled resource (`NeverReopened`), as in every disciplined run; fencing itself assumes no clock.
- FleetHolders.OneExecutionAcrossFleet: assumes that no claim finds the lease of an executing thread lapsed, and that settling calls carry the caller's own lease; `SecondHolderIff` says what a claim does otherwise.
- BudgetLedger.CostLimitHolds: assumes that accepted commits stay within their reservations, which the script checks for positive reservations only; `CostBoundsKeepLimitIff` is the exact condition.
- BudgetLedger.BudgetStore.Commit: run keys are identities, so a padded run id is not modelled; the code strips it for the budget key but compares it unstripped with the one the reservation stores, and answers RUN_MISMATCH.
