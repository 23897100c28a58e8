# A verified model of the task-execution engine

The engine under `backend/app/executor` works off the development tasks of a project: a loop scans the
queue, picks the first runnable task an approval covers, leases it, executes it and finalizes it. All
coordination goes through six SQLite tables: resource locks, task leases, executions, runs, approvals
and tasks. This project models those tables and the code that reads and writes them, and proves what the
engine's design promises of them, or exactly when it keeps such a promise.

## How the model is built

- `Schema` holds the tables, as a value `Db` and as the fields of a class `Database`. Every service
  method is a Dafny method that modifies a `Database` and is proved against a function on `Db`; the laws
  are lemmas about these functions and about sequences of steps built from them.
- A transaction is one method call; ROLLBACK is `Restore` to a snapshot. Partial unique indexes, UNIQUE,
  CHECK and foreign-key constraints are guards of the inserts and updates, and are proved as invariants.
- Lock ids, lock tokens and worker ids come from a supply of fresh numbers in place of uuids.
- Time is one number a transaction. The code mixes `datetime('now')`, `datetime('now','localtime')` and
  Python's local time; the model assumes they agree.
- `normalize_resource_key` is a function parameter that may fail.
- The loop is observed pass by pass. A `Turn` says what the outside contributes to one pass: the time, a
  stop request, a pause and how it ends, an exception in the loop body, the outcome of the execution, and
  arbitrary changes other processes make to the tables before the pass, during the pause, and between the
  scan and the claim.
- Operations that are a single SQL statement, such as renewing a lock or setting a heartbeat, are methods
  proved equal to a function of the table. The rows below name the lemmas that say what these functions do.

| module | contents |
|---|---|
| `Schema`, `Text`, `KeyOrder` | tables, SQL updates and row counts; numerals and blanks; the fixed order of lock keys |
| `ResourceLocks`, `LockProtocol`, `LockTerms`, `LockHistory` | the lock operations; all their interleavings: exclusion, frozen rows, fencing; when a lock is had, for how long, and when it may be taken over; the engine's transactions as such interleavings |
| `Leases`, `LeaseProtocol` | claims and releases of leases; their histories |
| `ParallelScheduler`, `GroupClaims`, `FileLocks`, `GroupLaws` | planning, claiming and releasing task groups, and their laws |
| `Cleanup`, `TaskWorker` | the finalizer; the life of one task in a worker |
| `Approvals`, `ApprovalProtocol` | the approval service; its SELECTs and UPDATEs interleaved freely |
| `Runs`, `Recovery`, `RunProtocol` | the run table, the startup sweep, all histories of runs |
| `TaskScheduler`, `DependencyLaws` | dependencies, the runnable tasks, and the diagnosis of the others; what each kind of entry in the dependencies column means |
| `LoopController`, `LoopPasses`, `LoopConsumption` | the loop; a pass of it in detail; what it remembers of a consumption |
| `LoopSafety`, `LoopRecords`, `LoopOutcome` | what holds in every run of it; what of it is on record; how its end is recorded |
| `LoopFailures` | what the failure budget counts |
| `LoopProgress`, `LoopClosure` | when the loop drains a project; what it executes of an arbitrary queue |

`dafny verify dfyconfig.toml` checks everything.

## Where the code does not keep what it or its documentation promises

Each of these is a lemma with the exact condition or a concrete history.

- A runnable task whose prompt column is empty is never executed: composing its prompt raises, and the
  handler blocks it and releases its lease (`LoopSafety.PromptlessIsBlocked`).
- A task that has ever had a lease row can never be claimed by a group again, because the group claim
  inserts where the worker's claim updates (`LeaseProtocol.EverLeasedNeverGrouped`, by
  `GroupClaims.ClaimExact`).
- An approval's status does not make it single-use. An approve in flight can turn a consumed or rejected
  approval back to approved (`ApprovalProtocol.ConsumedCanReadApproved`), and exactly that can
  (`ApprovalProtocol.ConsumedStatusFinalExactly`, `ApprovalProtocol.RejectionFinalExactly`).
  What makes it single-use is that a consumption is recorded once and for all (`ApprovalProtocol.SingleUse`).
- The scope filter passes everything when there is no approval, "backward compatible", but nothing is
  executed then, and the first attempt on a task with a prompt ends the run
  (`LoopSafety.NoApprovalNoExecution`).
- An approval that is consumed for an execution that fails is gone, but only a success is reported as a
  consumption: the next attempt, even on a task the approval lists, is refused and ends the run
  (`TaskWorker.ConsumptionReportedExactly`, `LoopConsumption.FailureCostsTheRun`).
- The budget for consecutive failures counts failures that are not consecutive, most of them twice
  (`LoopFailures.FailuresTallied`, `LoopFailures.HalfTheFailures`), and tasks lost to another worker
  (`LoopPasses.LostClaimCounts`); `LoopFailures.BudgetAgreesExactly` says when it counts what its name says.
  Its default is 5 in the code and 2 in the module's documentation.
- A finalizer stamps the heartbeat of its run with the time at which it started. A late stamp makes a run
  that was just taken over stealable again (`RunProtocol.LateStampBreaksSpacing`), and only a stamp older
  than a takeover does (`RunProtocol.StampHarmlessExactly`).
- `finalize_run` calls its statuses terminal, but a finished run can be set live again as soon as its
  project is free (`Runs.UpdateExact`).
- A finalizer that outlives its claim discharges the lease of the worker that has claimed the task since
  (`LeaseProtocol.ForeignDischargeExactly`, `LeaseProtocol.ForeignDischargeReached`).
- What a worker reports and what the finalizer stores of the same error differ for some messages, and for
  others when the exception is not one of the engine's own (`TaskWorker.ReportAgreesExactly`,
  `TaskWorker.ReportsDiffer`). The task row and the execution row differ after a timeout
  (`TaskWorker.StoredRowsAgreeExactly`).
- A recovery that read a stale heartbeat expires the lease of the run's task even when the takeover then
  loses its race (`Runs.LeaseLostExactly`), and it blocks a run that has finished meanwhile
  (`Runs.FinishedOverwrittenExactly`).
- The queue diagnosis reports runnable tasks as blocked when a descriptive field is missing
  (`TaskScheduler.RunnableReportedBlocked`).

## Model

| member | source | states |
|---|---|---|
| ResourceLocks.NormalizeRequests | backend/app/migrations/005_executor_resource_locks.py:241-256 | every key is normalized in request order; one that cannot be fails the request |
| ResourceLocks.ExpireStale | backend/app/migrations/005_executor_resource_locks.py:274-290 | the loop over the keys expires exactly the stale active rows of the requested keys |
| ResourceLocks.InsertLocks | backend/app/migrations/005_executor_resource_locks.py:292-315 | the inserts all pass exactly when references resolve and the keys are well typed, pairwise distinct and not held by an unexpired row; then there is one new row per key |
| ResourceLocks.NextInsert | backend/app/migrations/005_executor_resource_locks.py:119-133 | one insert passes the table's constraints exactly when the request up to and including it is grantable |
| ResourceLocks.AcquireResourceLocks | backend/app/migrations/005_executor_resource_locks.py:217-322 | exact success condition over all requests; on success the stale rows of the keys are expired and the new rows follow in the fixed order |
| ResourceLocks.Acquire | backend/app/executor/resource_lock_manager.py:181-210 | the same condition; all locks or, after the rollback, no change at all |
| ResourceLocks.TakeoverExpiredLock | backend/app/migrations/005_executor_resource_locks.py:400-443 | succeeds exactly on one active row whose heartbeat is too old; new token and holder, same expiry |
| ResourceLocks.CleanupExpired | backend/app/executor/resource_lock_manager.py:381-402 | expires exactly the active rows past their expiry; the count is zero exactly when nothing changed |
| KeyOrder.SortForgetsOrder | backend/app/migrations/005_executor_resource_locks.py:258-264 | sorting permuted requests without duplicate keys gives the same list |
| LockProtocol.StepKeeps | backend/app/migrations/005_executor_resource_locks.py:217-443 | every operation keeps one active row per key, no active row released, unique ids and tokens; rows that left the active state are frozen |
| LockProtocol.RunKeeps | backend/app/migrations/005_executor_resource_locks.py:118-133 | the same over every sequence of acquire, renew, release, batch release, takeover, worker renewal, clean-up and forced release |
| LockProtocol.VerdictExact | backend/app/migrations/005_executor_resource_locks.py:325-443 | renew and release report success exactly when an active row has the id, the token and the worker; takeover exactly when an active row has the id and a heartbeat older than the timeout |
| LockProtocol.EffectExact | backend/app/migrations/005_executor_resource_locks.py:325-443 | a renewed lock is held exactly until its new term ends, a released one is free and dated, one taken over goes to the new holder under a new token with a new heartbeat for the rest of its term; no other column and no other row changes |
| LockProtocol.BulkExact | backend/app/executor/resource_lock_manager.py:253-436 | column by column: worker renewal, batch release, forced release, release of orphans and clean-up change exactly the active rows they are for; the clean-up takes no lock that is still held |
| LockProtocol.LeavingIsDying | backend/app/migrations/005_executor_resource_locks.py:420-437 | a token that left its active row, by takeover, release or expiry, is on no active row |
| LockProtocol.DeadStays | backend/app/migrations/005_executor_resource_locks.py:293-315 | a superseded token is never issued or revived again |
| LockProtocol.Fencing | backend/app/migrations/005_executor_resource_locks.py:325-376 | whatever happens after a token left its row, every renew or release presenting it is refused and changes nothing |
| LockProtocol.SupersededIsDead | backend/app/migrations/005_executor_resource_locks.py:353-443 | a successful takeover or release makes the token found on the row dead |
| LockProtocol.GrantEndsPrevious | backend/app/migrations/005_executor_resource_locks.py:274-315 | a key is granted again only after the earlier holder's row had expired, and that row is terminal |
| LockProtocol.GrantIsExact | backend/app/migrations/005_executor_resource_locks.py:266-317 | after a grant every requested key has exactly one active row, a new one of the requester from now until its term ends; an active row in the way has expired; all other rows are as before |
| LockProtocol.RequestOrderIrrelevant | backend/app/migrations/005_executor_resource_locks.py:258-264 | verdict and resulting table are the same for every order of the request |
| LockTerms.GrantableExactly | backend/app/migrations/005_executor_resource_locks.py:217-322 | in the columns of the table: a request is granted exactly when it is not empty, its references resolve, each resource is of a known scope and kind, has a name and is on no unexpired active row, and none is asked for twice |
| LockTerms.HeartbeatProtects | backend/app/migrations/005_executor_resource_locks.py:400-443 | a lock granted, renewed, renewed by its worker or taken over can be taken over, by anybody and for any timeout, exactly when more than the timeout has passed since |
| LockTerms.HeldForItsTerm | backend/app/executor/resource_lock_manager.py:181-231 | a lock granted or renewed is refused to everybody exactly until its term is over, 300 seconds when none or zero is given |
| LockTerms.GrantedInOrder | backend/app/migrations/005_executor_resource_locks.py:258-264 | the locks of one request are inserted in lexicographic order of scope, scope key, kind and name |
| LockTerms.ReferencesKept | backend/app/migrations/005_executor_resource_locks.py:105-118 | no operation leaves a lock of a project, task, execution or run that does not exist |
| LockTerms.ReferencesSuffice | backend/app/migrations/005_executor_resource_locks.py:105-118 | nor is a request or a takeover refused for references that exist |
| LockHistory.GroupClaimIsRun | backend/app/executor/parallel_scheduler.py:191-276 | what a group claim does to the lock table is a sequence of lock operations, so all laws of such sequences hold across it |
| LockHistory.GroupReleaseIsRun | backend/app/executor/parallel_scheduler.py:296-303 | likewise the release of a group |
| LockHistory.FinalizerIsRun | backend/app/executor/cleanup.py:251-295 | likewise the locks a finalizer releases, by token or by execution |
| LockHistory.SweepIsRun | backend/app/executor/parallel_recovery_manager.py:64-139 | likewise the startup sweep |
| LockHistory.FencingAcrossRestart | backend/app/executor/parallel_recovery_manager.py:114-131 | after a restart the token of a lock whose run is not alive, or that had expired, opens nothing, whatever follows |
| Leases.CollectorClaim | backend/app/executor/result_collector.py:80-124 | the UPSERT succeeds exactly on a pending task without a valid lease; one lease row per task afterwards |
| Leases.SchedulerClaim | backend/app/executor/task_scheduler.py:324-369 | the plain insert succeeds exactly on a pending task without any lease row |
| Leases.ReleaseLease | backend/app/executor/result_collector.py:126-133 | releases the task's active lease, whoever holds it, and no other |
| Leases.ClaimExcludesUntilExpiry | backend/app/executor/result_collector.py:92-133 | a claim keeps every other claim out exactly until it expires, its release lets them in at once; other tasks are unaffected |
| Leases.ClaimLastsItsTerm | backend/app/executor/task_scheduler.py:324-369 | a scheduler's claim without a term, or with none, keeps others out for exactly an hour |
| LeaseProtocol.ClaimsSeparated | backend/app/executor/result_collector.py:92-133 | over every history of claims, group claims, releases by task id, recoveries and sweeps, two claims of one task are separated by the expiry of the first or a discharge in between |
| LeaseProtocol.ForeignDischargeExactly | backend/app/executor/cleanup.py:297-318 | a finalizer, which releases by task id, discharges another worker's lease exactly when the lease is active and the last claim of the task was another worker's |
| LeaseProtocol.ForeignDischargeReached | backend/app/executor/cleanup.py:297-318 | a history of two claims of one task after which the first worker's finalizer does so |
| LeaseProtocol.InTermIsHarmless | backend/app/executor/cleanup.py:297-318 | it never does so while its own claim has neither run out nor been discharged |
| LeaseProtocol.EverLeasedNeverGrouped | backend/app/executor/parallel_scheduler.py:235-238 | after any history no group can be claimed with a task that has ever had a lease row |
| ParallelScheduler.Enroll | backend/app/executor/parallel_scheduler.py:205-246 | lease and execution of one task of a group, exactly for a pending task without any lease row |
| ParallelScheduler.LookUpTokens | backend/app/executor/parallel_scheduler.py:265-274 | the tokens collected are those of the lock ids, in the same order |
| ParallelScheduler.ClaimNext | backend/app/executor/parallel_scheduler.py:204-274 | one round of the claim, or a failure |
| ParallelScheduler.ClaimTaskGroup | backend/app/executor/parallel_scheduler.py:172-294 | all rounds succeed, or every table is as it was |
| GroupClaims.ClaimExact | backend/app/executor/parallel_scheduler.py:191-294 | a group is claimed exactly when its tasks are distinct, pending and without any lease row and their keys are pairwise distinct across the group and not held by an unexpired lock |
| GroupClaims.ClaimRecords | backend/app/executor/parallel_scheduler.py:205-246 | each task has its own lease, worker and running execution; earlier leases and executions are untouched |
| GroupClaims.ClaimLocks | backend/app/executor/parallel_scheduler.py:248-286 | each key is locked for its own task; lock_tokens[i] is the token of lock_ids[i]; of the old rows only stale ones of claimed keys changed |
| FileLocks.ClaimLocksFiles | backend/app/executor/resource_lock_manager.py:101-179 | every file of every task of a claimed group is locked as a file of its own project under its normalized name, with the name as written, for the task's execution and worker, for 300 seconds |
| FileLocks.ClaimsExcludeExactly | backend/app/executor/parallel_scheduler.py:172-294 | after a claim another group can be claimed exactly when it could be before, shares no task with the first and, within one project, no file: groups of different projects never exclude each other by their files |
| FileLocks.LockedFileRefuses | backend/app/executor/parallel_scheduler.py:248-263 | until those locks run out no group of the project with one of the files can be claimed |
| ParallelScheduler.ReleaseTaskGroup | backend/app/executor/parallel_scheduler.py:296-322 | the locks of the executions and the active leases of their tasks are released, and nothing else |
| ParallelScheduler.ResourcesConflict | backend/app/executor/parallel_scheduler.py:103-133 | conflict exactly when a key is shared, unless normalization fails first |
| FileLocks.VerdictExactly | backend/app/executor/parallel_scheduler.py:103-133 | file by file: two tasks conflict when one has names for all its files and a file of the other, before any without a name, has one of these names; they are compatible when all files have names and none is shared |
| ParallelScheduler.FindNonConflictingPair | backend/app/executor/parallel_scheduler.py:87-101 | the lexicographically first compatible pair; none exactly when every pair conflicts |
| ParallelScheduler.FindParallelTasks | backend/app/executor/parallel_scheduler.py:67-85 | that pair, or the first task when every pair conflicts |
| GroupLaws.CompatiblePairClaimable | backend/app/executor/parallel_scheduler.py:87-294 | a planned pair is claimable exactly when no file is named twice in a task, no lease row exists, no foreign lock is on its keys and references resolve |
| GroupLaws.RejectedPairNotClaimable | backend/app/executor/parallel_scheduler.py:103-133 | a pair the planner rejects or cannot normalize is never claimable |
| GroupLaws.ReleaseFreesLocks | backend/app/executor/parallel_scheduler.py:276-303 | claim, then release: every key of the group is free, other rows are untouched but for the stale rows the claim expired |
| GroupLaws.ReleaseFreesTasks | backend/app/executor/parallel_scheduler.py:305-322 | claim, then release: each task is claimable by the UPSERT again, but in no group; other leases are untouched |
| GroupLaws.ClaimKeepsTasks | backend/app/executor/parallel_scheduler.py:205-246 | without a release a claimed task is kept from workers for exactly an hour, and from groups for good |
| GroupLaws.FinalizeOneWorker | backend/app/executor/cleanup.py:251-295 | with the ids and tokens of the whole group, exactly the locks of the finalized worker are released, and a repetition releases none |
| GroupLaws.ReleaseIsIdempotent | backend/app/executor/cleanup.py:263-287 | releasing the same locks twice is releasing them once |
| Cleanup.ReleaseResourceLocks | backend/app/executor/cleanup.py:251-295 | exactly the listed active rows whose token and worker match, or without tokens all of the execution; the result is their number |
| Cleanup.FinalizeExecution | backend/app/executor/cleanup.py:49-173 | the state of all tables after the steps of the finalizer |
| Cleanup.LocksFinalizedExactly | backend/app/executor/cleanup.py:251-295 | row by row: without ids, or with a different number of tokens, exactly the active locks of the execution are released; else exactly the active ones of the worker whose id and token stand in one place; every other row is unchanged |
| TaskWorker.ExecuteAndFinalize | backend/app/executor/task_worker.py:192-478 | every exit path finalizes with its exit status and reports in its own words |
| TaskWorker.RunTask | backend/app/executor/task_worker.py:122-478 | tables and result of claim, consumption, execution and finalizing |
| TaskWorker.LeaseDischarged | backend/app/executor/task_worker.py:122-478 | after a claim no exit leaves an active lease or an active lock of its execution; the task is still pending exactly when the consumption was refused, and then nothing was executed or consumed |
| TaskWorker.ExecutionConsumes | backend/app/executor/task_worker.py:135-158 | an execution that needs an approval consumes exactly the latest valid one, which admits the task, and records time, run and task; any other leaves the approvals alone |
| TaskWorker.ConsumptionReportedExactly | backend/app/executor/task_worker.py:433-478 | a consumption is reported, with the list of the approval that was taken, exactly when the execution succeeded |
| TaskWorker.OutcomesExact | backend/app/executor/task_worker.py:192-478 | for every outcome the status in the task table, the one in the execution table and the one reported |
| TaskWorker.ReportAgreesExactly | backend/app/executor/task_worker.py:450-475 | over every executed task and every way out: the reported status and the stored one agree exactly when no error was raised, or one of the engine's own whose message speaks of safety or a timeout or of none of test, exit_code and merge, or another exception whose message speaks of none of safety, timeout, test and exit_code |
| TaskWorker.ReportsDiffer | backend/app/executor/task_worker.py:839-912 | both kinds of disagreement at one input each |
| TaskWorker.StoredRowsAgreeExactly | backend/app/executor/cleanup.py:219-249 | the task row and the execution row of an executed task agree exactly unless an error of the engine's own speaks of a timeout and not of safety |
| Approvals.RequestApproval | backend/app/executor/execution_approval_service.py:65-182 | appends one requested, unconfirmed, single-use row with its expiry |
| Approvals.RequestAnswersExactly | backend/app/executor/execution_approval_service.py:65-182 | a request answers to its own token in its own project exactly until it expires, unconfirmed until it is approved |
| Approvals.Approve | backend/app/executor/execution_approval_service.py:184-288 | succeeds exactly when an unexpired request bears the token; then only that row changes, to approved |
| Approvals.Reject | backend/app/executor/execution_approval_service.py:290-358 | succeeds exactly when a request bears the token, expired or not; then only that row changes, to rejected |
| Approvals.ConsumeApproval | backend/app/executor/execution_approval_service.py:460-586 | takes the latest valid approval if it admits the task and records run, task and time |
| Approvals.ConsumptionExactly | backend/app/executor/execution_approval_service.py:460-586 | in the columns of the table: granted exactly when the approval created last, of those given, unexpired, unconsumed and single-use for the project, lists the task or nothing |
| Approvals.ConsumptionRecorded | backend/app/executor/execution_approval_service.py:540-575 | a granted consumption records run, task and time on that row alone, which can never be used again; a refused one changes nothing |
| Approvals.LaterApprovalDecides | backend/app/executor/execution_approval_service.py:476-520 | of two approvals the one requested later is taken, whatever the earlier one lists |
| Approvals.QueryExactly | backend/app/executor/execution_approval_service.py:360-458 | the validity query asks that same approval whether its risk was confirmed and whether it lists all the tasks |
| Approvals.ApprovedValidExactly | backend/app/executor/execution_approval_service.py:379-418 | an approved request is valid exactly for its project and until its expiry, for exactly the listed tasks; never before approval or after consumption |
| Approvals.ExpiryExact | backend/app/executor/execution_approval_service.py:588-620 | the batch expiry lapses exactly the requests and approvals beyond their expiry that were not consumed; it takes away nothing that could still be used and is idempotent |
| Approvals.QueryAgreesWithConsumption | backend/app/executor/execution_approval_service.py:360-586 | the one-task query and the consumption agree except on an empty list of allowed tasks |
| ApprovalProtocol.ConsumeIsTwoSteps | backend/app/executor/execution_approval_service.py:489-552 | select and guarded update in a row are consume_approval |
| ApprovalProtocol.ApproveIsTwoSteps | backend/app/executor/execution_approval_service.py:209-255 | select and update in a row are approve |
| ApprovalProtocol.RejectIsTwoSteps | backend/app/executor/execution_approval_service.py:311-334 | select and update in a row are reject |
| ApprovalProtocol.RunKeeps | backend/app/executor/execution_approval_service.py:184-620 | under every interleaving the grants and the recorded consumptions correspond one to one, and a recorded consumption never changes |
| ApprovalProtocol.SingleUse | backend/app/executor/execution_approval_service.py:525-552 | under every interleaving an approval is consumed at most once, its run, task and time stay as recorded, and no validity query returns it again |
| ApprovalProtocol.ConsumableExactly | backend/app/executor/execution_approval_service.py:209-255 | with every SELECT returning a latest matching row, an approval can still be consumed in some continuation exactly when it is or can become approved and can be or has been selected |
| ApprovalProtocol.RejectionFinalExactly | backend/app/executor/execution_approval_service.py:328-334 | a rejection is final exactly when no earlier approve is in flight or no consumption can follow |
| ApprovalProtocol.ConsumedStatusFinalExactly | backend/app/executor/execution_approval_service.py:234-255 | a consumed approval reads consumed in every continuation exactly when no approve or reject that selected it is in flight |
| ApprovalProtocol.RaceIsReachable | backend/app/executor/execution_approval_service.py:209-255 | two approvals of one request can be under way at once |
| ApprovalProtocol.ConsumedCanReadApproved | backend/app/executor/execution_approval_service.py:234-255 | from there a consumed approval can read approved again |
| Runs.CreateStartingRun | backend/app/executor/run_store.py:36-75 | succeeds exactly when the project exists and each of its runs is idle, completed, blocked or failed |
| Runs.NewRunExact | backend/app/executor/run_store.py:36-75 | a new run is the one live run of its project, starts from zero, and can be taken over exactly when the timeout has passed |
| Runs.GetActiveRun | backend/app/executor/run_store.py:85-100 | the live run with the greatest id, or none exactly when there is none |
| Runs.UpdateExact | backend/app/executor/run_store.py:136-177 | references aside, an update is refused exactly when it would make a run live whose project has another live run; a finished run can be made live again; the given columns are set, no other column and no other run changes |
| Runs.UpdateKeepsReferences | backend/app/executor/run_store.py:136-177 | no update makes a run point to a task that does not exist |
| Runs.HeartbeatExact | backend/app/executor/run_store.py:179-192 | a heartbeat protects its run from takeover exactly for the timeout, and no other run |
| Runs.TakeoverExpiredRun | backend/app/executor/run_store.py:247-308 | takes the latest live run of the project whose heartbeat is too old; none exactly when there is none |
| Runs.AttemptRecovery | backend/app/executor/recovery_manager.py:146-249 | the transactions of an attempt in their order, on any snapshot, with other processes acting in between |
| Runs.AttemptExact | backend/app/executor/recovery_manager.py:146-249 | undisturbed, an attempt on a live run does nothing within the timeout of its heartbeat; later it blocks the run if its task is completed or blocked, else expires the task's active lease and restarts the run without a task |
| Runs.ResumedExactly | backend/app/executor/recovery_manager.py:200-236 | whatever others do in between, a run is resumed only while live with a heartbeat too old at that time, and then bears the new worker and that time |
| Runs.LeaseLostExactly | backend/app/executor/recovery_manager.py:195-236 | an attempt that takes nothing over has expired a lease exactly when the task may be resumed, its lease was active and the run is no longer stealable at the takeover |
| Runs.FinishedOverwrittenExactly | backend/app/executor/recovery_manager.py:171-193 | a finished run is overwritten as blocked exactly when the snapshot is stale and its task is completed or blocked |
| Runs.LateRecoveries | backend/app/executor/recovery_manager.py:160-236 | both at one input |
| RunProtocol.OneLiveAlways | backend/app/migrations/004_fix_executor_runs_active_index.py:62-69 | at most one live run a project over every history of creations, updates, heartbeats, takeovers, recoveries, sweeps and stamps |
| RunProtocol.TakeoversSpaced | backend/app/executor/run_store.py:280-292 | two takeovers of a run, by either path, are further apart than the timeout of the second, if no finalizer stamp is older than a takeover of its run |
| RunProtocol.TimelyWithoutStamps | backend/app/executor/recovery_manager.py:207-222 | histories without finalizer stamps meet that condition |
| RunProtocol.StampHarmlessExactly | backend/app/executor/cleanup.py:382-402 | that condition is exact: a stamp leaves takeovers spaced in every continuation exactly when it is not older than a takeover of its run |
| RunProtocol.LateStampBreaksSpacing | backend/app/executor/cleanup.py:84-143 | a late stamp lets a second takeover follow after 20 seconds with a timeout of 120 |
| Recovery.RecoverOnStartup | backend/app/executor/parallel_recovery_manager.py:64-139 | the four bulk updates in their order |
| Recovery.SweepExact | backend/app/executor/parallel_recovery_manager.py:64-139 | the active locks afterwards are exactly the unexpired ones of runs with a heartbeat of the last 300 seconds; the others have expired or are released, stale live runs are blocked, leases past their expiry released, and nothing else changes |
| Recovery.SweepIdempotent | backend/app/executor/parallel_recovery_manager.py:64-139 | a second sweep at the same instant changes nothing |
| Recovery.SweepKeepsConstraints | backend/app/executor/parallel_recovery_manager.py:90-134 | lock exclusivity and one live run a project survive the sweep |
| Recovery.SweepFreesDeadRuns | backend/app/executor/parallel_recovery_manager.py:114-131 | after the sweep a well-formed request is refused only for keys that unexpired locks of living runs hold |
| TaskScheduler.NormalizeDependencies | backend/app/executor/task_scheduler.py:64-127 | the loop computes the reference of every element that is not ignored, in order |
| TaskScheduler.SpellingsOfAnId | backend/app/executor/task_scheduler.py:91-111 | a number, its decimal string and a padded decimal string name the same task |
| DependencyLaws.TitleEntry | backend/app/executor/task_scheduler.py:91-127 | a title in the dependencies column, padded or not: the task is runnable exactly when it is without the entry and exactly one task of its project bears the title, which is completed |
| DependencyLaws.NumberEntry | backend/app/executor/task_scheduler.py:91-111 | a number or digits, padded or not: runnable exactly when it is without the entry and the task of that id is completed |
| DependencyLaws.UnusableEntry | backend/app/executor/task_scheduler.py:121-127 | a boolean, fraction, list or object: never runnable |
| DependencyLaws.BlankEntry | backend/app/executor/task_scheduler.py:86-105 | a null or a blank string might as well be missing |
| DependencyLaws.NoEntries | backend/app/executor/task_scheduler.py:145-238 | without dependencies: runnable exactly if pending, ready, not manual, with files, of an open project and under no unexpired lease |
| TaskScheduler.CheckDependencies | backend/app/executor/task_scheduler.py:240-281 | true exactly when every reference is satisfied: a completed id, or a title borne by exactly one task of the project, which is completed |
| TaskScheduler.IsRunnable | backend/app/executor/task_scheduler.py:219-238 | dependencies, no valid lease, files, not manual |
| TaskScheduler.Ordered | backend/app/executor/task_scheduler.py:174-186 | a listing of exactly the given tasks by descending priority, then sort order, then id |
| TaskScheduler.ListingUnique | backend/app/executor/task_scheduler.py:185-185 | there is only one such listing |
| TaskScheduler.FindRunnableTasks | backend/app/executor/task_scheduler.py:145-217 | sorting the candidates and then filtering them gives the ordered listing of the runnable tasks |
| LoopPasses.ListedByUrgency | backend/app/executor/task_scheduler.py:174-186 | runnable tasks are listed by higher priority, then lower sort order, then lower id |
| TaskScheduler.DiagnoseDependencies | backend/app/executor/task_scheduler.py:438-466 | the second implementation finds no reason exactly when the first is satisfied, and every reason it gives applies |
| TaskScheduler.BlockedReasons | backend/app/executor/task_scheduler.py:425-489 | no reason exactly for an unblocked task |
| TaskScheduler.BlockedTasks | backend/app/executor/task_scheduler.py:412-498 | exactly the pending tasks of the project that are not unblocked |
| TaskScheduler.UnblockedMeansRunnable | backend/app/executor/task_scheduler.py:412-498 | in an open project a pending task not reported blocked is runnable exactly when its file list parses to something |
| TaskScheduler.RunnableReportedBlocked | backend/app/executor/task_scheduler.py:481-491 | a runnable task is reported blocked exactly when its prompt or another descriptive field is missing |
| LoopController.CheckRunBudget | backend/app/executor/budget_guard.py:83-111 | within budget exactly below all three limits |
| LoopController.Controller.Start | backend/app/executor/loop_controller.py:101-162 | reports a live run or creates one; resets the approval tracking, but not the set of counted tasks |
| LoopController.Controller.FilterByApprovalScope | backend/app/executor/loop_controller.py:447-523 | the cached scope, else the live approval's list, else everything |
| LoopController.Controller.HandleNoRunnable | backend/app/executor/loop_controller.py:582-643 | the run ends completed when the project has no task or only completed ones, else blocked |
| LoopController.Controller.ExecuteTask | backend/app/executor/loop_controller.py:710-787 | runs the worker, with the approval service as long as none was consumed, and caches the scope of a reported consumption; a task without a prompt is given up by the exception handler |
| LoopController.Controller.HandleTaskResult | backend/app/executor/loop_controller.py:789-842 | each task counts once; failures in a row; heartbeat |
| LoopController.Controller.OnePass | backend/app/executor/loop_controller.py:296-421 | the state after one pass, with its pause, its exits and everything the outside may contribute |
| LoopController.Controller.RunLoop | backend/app/executor/loop_controller.py:285-437 | the while loop is the repetition of the pass until it ends, also by the exception handler around it |
| LoopSafety.ChoicesExact | backend/app/executor/loop_controller.py:337-348 | the choices of a pass are exactly the runnable tasks in scope, in queue order |
| LoopPasses.MostUrgentFirst | backend/app/executor/loop_controller.py:337-348 | what a pass consumes an approval for, executes and accounts for is the most urgent of the runnable tasks in scope |
| LoopPasses.PassEndsExactly | backend/app/executor/loop_controller.py:296-437 | every end a pass can come to, with its status and reason, and when: stop, budget, exceptions, nothing to run |
| LoopPasses.LostClaimCounts | backend/app/executor/loop_controller.py:789-842 | a chosen task that another worker has claimed is not executed and costs no approval, but counts as a failure |
| LoopPasses.PhasesShown | backend/app/executor/loop_controller.py:285-400 | the run's row shows scanning, executing with the task, and paused, and nothing else in it changes but count and heartbeat |
| LoopPasses.PassProtects | backend/app/executor/loop_controller.py:837-842 | after a pass the run cannot be taken over before the timeout has passed |
| LoopPasses.DeadLoopRecovers | backend/app/executor/recovery_manager.py:146-249 | if the loop dies with a task claimed, a recovery does nothing until the timeout after the scan; then it restarts the run without a task, and the task can be claimed again |
| LoopSafety.ScopeSafety | backend/app/executor/loop_controller.py:388-410 | over every run and whatever other processes do: each executed task was just consumed for by an approval that admits it, or lies in the scope cached from a consumption of this run |
| LoopRecords.ApprovedOnRecord | backend/app/executor/task_worker.py:129-161 | over every run each execution has its row for its task and this worker, and an approval row shows a consumption by this run that covers the task |
| LoopSafety.RefusalEndsRun | backend/app/executor/loop_controller.py:388-410 | a pass ends its run for a refused consumption exactly when none was consumed yet, the task has a prompt and can be claimed, and no live approval admits it; nothing is executed then |
| LoopConsumption.RememberedExactly | backend/app/executor/loop_controller.py:755-765 | after a success the run remembers exactly the approved tasks, or with no list the task itself; after any other outcome nothing, though the approval is consumed |
| LoopConsumption.FailureCostsTheRun | backend/app/executor/loop_controller.py:735-765 | when the first execution does not succeed and no other approval is live, the next attempt executes nothing and ends the run exactly when its task has a prompt |
| LoopSafety.NoApprovalNoExecution | backend/app/executor/loop_controller.py:496-500 | without a live approval nothing is executed although the filter lets everything pass: the first attempt ends the run exactly when its task has a prompt |
| LoopSafety.PromptlessIsBlocked | backend/app/executor/loop_controller.py:723-787 | a chosen task without a prompt is blocked without execution or consumption, its active lease is released, and the run counts it as blocked and as failed |
| LoopSafety.LoopEnds | backend/app/executor/loop_controller.py:321-330 | every run ends after as many passes as the budget has tasks left, and one more |
| LoopOutcome.OutcomeRecorded | backend/app/executor/loop_controller.py:292-429 | while the loop goes on its run is live; once it has ended the run's row bears the status and reason it ended with; one live run a project throughout |
| LoopOutcome.PassConsistent | backend/app/executor/loop_controller.py:292-429 | a pass keeps the run's row in step with the loop, and a pass that ends the loop dates the row with its time |
| LoopSafety.DependencyOrder | backend/app/executor/loop_controller.py:337-413 | whenever a task is executed, all it depends on was completed at the start or by an earlier execution |
| DependencyLaws.TitledFirst | backend/app/executor/task_scheduler.py:240-281 | over every run: a task that names another by its title is executed only after that one, the only bearer in the project, was completed |
| LoopSafety.KnotNeverRuns | backend/app/executor/task_scheduler.py:219-281 | no task of a set of unfinished tasks that each depend on a member, so of any cycle, is ever executed or completed |
| LoopSafety.PromptlessNeverRuns | backend/app/executor/loop_controller.py:723-787 | over every run no task without a prompt is executed or becomes completed |
| LoopSafety.OutcomesCounted | backend/app/executor/loop_controller.py:789-842 | by how much one execution raises each counter of the run: once by the finalizer, once by the loop unless it counted the task before |
| LoopFailures.FailuresTallied | backend/app/executor/loop_controller.py:789-842 | over every run the counter the budget looks at rises by the executions left failed plus the tasks first accounted for as failing; the controller's own count is the present streak |
| LoopFailures.UndisturbedOnce | backend/app/executor/loop_controller.py:789-842 | a run nobody disturbs accounts for no task twice |
| LoopFailures.BudgetAgreesExactly | backend/app/executor/budget_guard.py:106-109 | from every start: the limit counts failures in a row, whatever it is, if and only if the executions left failed and the failures before the last success are together as many as the failures of tasks accounted for before |
| LoopFailures.UndisturbedAgreesExactly | backend/app/executor/budget_guard.py:106-109 | in an undisturbed run on a fresh controller that is: no execution was left failed and no failure came before the last success |
| LoopFailures.HalfTheFailures | backend/app/executor/budget_guard.py:106-109 | a run of plain failures with enough ready tasks is paused after half as many as the limit allows |
| LoopFailures.FiveAllowedThreeEnd | backend/app/executor/budget_guard.py:26-26 | with the default limit of five, three failures end the run |
| LoopProgress.SomeChoice | backend/app/executor/loop_controller.py:337-348 | as long as an acyclic, covered queue has unfinished tasks, a pass has something to choose |
| LoopProgress.NothingEligibleEnds | backend/app/executor/loop_controller.py:342-345 | a scan without eligible tasks ends the run: completed exactly when no task is unfinished, else blocked |
| LoopProgress.PassCompletesOne | backend/app/executor/loop_controller.py:347-416 | a smooth pass completes one unfinished task and leaves a drainable queue with the scope cached |
| LoopProgress.Drains | backend/app/executor/loop_controller.py:296-421 | from every drainable state with n unfinished tasks and room for m: all completed after n executions exactly when n < m, else paused for the budget after m |
| LoopProgress.FreshRunDrains | backend/app/executor/loop_controller.py:285-429 | a run just started on an acyclic, approved project with n tasks within the budget ends completed/all_completed after exactly n executions, one of each task, in an order that respects the dependencies |
| LoopClosure.ExecutesTheReach | backend/app/executor/loop_controller.py:296-421 | over an arbitrary queue, cyclic, ambiguous, partly out of scope or not ready, with room in the budget: an undisturbed run of successes executes exactly the least set of tasks closed under what can run, and ends completed if that leaves none unfinished, else blocked |

## Left out

- Git, worktrees and merging; model calls, subprocesses, toolchains, tests and the safety checker: in `run_task` they are an arbitrary `Outcome`.
- Routes, frontend, prompts, encryption, notifications and log tables.
- The clocks: one time per transaction, as said above; differences between UTC and local time are not modelled.
- `normalize_path` itself, which depends on the operating system; everything is proved for every normalizer that maps a kind and a raw key to one name or a failure.
- Threads. A pause is modelled as one stretch in which others act, with a heartbeat at its end; how long it lasts is not.
- Exceptions other than those of the scan, of the preparation of commands and of a missing prompt; database errors in the loop's bookkeeping and in a worker: the writes of a claimed task succeed.
- More than one run on one controller at a time. The web API shares one controller among all projects (`backend/app/api/executor.py:118-127`), so starting a second project resets the approval fields of a loop that is still running; the laws of the loop assume that nothing else writes the controller's fields.
- Other processes acting between a worker's claim and the end of its finalizer (a reclaim of an expired lease in particular), and between SELECT and UPDATE of a consumption within the loop; the latter race is in `ApprovalProtocol`.
- `tasks_repaired`, `tasks_skipped`, `current_step`, budgets for repairs and calls, result texts, error texts and the audit columns.
- Cascading deletes: rows of tasks, projects, executions and runs are not deleted.
- Text beyond ASCII, numerals too long for a 64-bit column, file lists with elements that are not strings, dependency lists that are not lists, and JSON in approval rows that does not parse.
- Columns that may be NULL are modelled where the code distinguishes it (expiry, heartbeat, project of a run); priority and sort order are numbers.
- Ties of `created_at` between approvals: SQLite leaves the order open. The service methods let the later row win; the interleaving model lets a SELECT return any of the latest matching rows.
- Worker ids of group claims are eight hexadecimal digits and could collide; in the model they are distinct.
- `_check_force_serial` and `_consume_approval_if_needed`, which nothing calls; resource declarations other than files.
- The V2 control plane, the bug life cycle, confirmation tokens, the worker pool and the start decision.
- RunProtocol.TakeoversSpaced: asks of finalizer stamps that none is older than a takeover of its run, because the statement without it is false (`RunProtocol.LateStampBreaksSpacing`); `RunProtocol.StampHarmlessExactly` shows that nothing weaker will do, and runs without stamps need no condition.
- LoopSafety.LoopEnds: other processes leave the run table alone, because the budget is read from the run's row.
- LoopFailures.FailuresTallied: other processes leave the run table alone; a finalizer of another run would raise the same counter.
- LoopClosure.ExecutesTheReach: every task that could run but for its dependencies has a prompt and no active lease; what becomes of the others is in `LoopSafety.PromptlessIsBlocked` and `LoopSafety.PromptlessNeverRuns`, and a lease that runs out during the run is not followed.
- LoopRecords.ApprovedOnRecord: other processes keep recorded consumptions and the task and worker of execution rows, as all operations modelled here do.
