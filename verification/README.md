# GoDelayQ, verified

A Dafny model of the parts of GoDelayQ that carry state across calls, with proofs about whole runs.

- **Scheduler** (`jobs.dfy`, `scheduler_model.dfy`, `scheduler_safety.dfy`, `scheduler_theorems.dfy`,
  `scheduler_retries.dfy`, `scheduler_outcomes.dfy`, `scheduler_late_writes.dfy`, `scheduler_instances.dfy`,
  `scheduler.dfy`): a job moves between heap, the hand of the scheduling loop, two queues, workers and the store while
  callers schedule, pause, resume, cancel, stop and restart. The life cycle is a labelled transition system of atomic
  steps with an inductive invariant; the class `Scheduler` is proved to take exactly those steps. What each step does
  field by field, calls that work in two halves, and runs on which something goes wrong, have modules of their own.
  `workers.dfy` is the separate protocol that resizes the worker pool.
- **Heap** (`heap.dfy`): the 4-ary heap with its ID index and the pruned search for the earliest allowed due job.
- **Retry, retention** (`retry.dfy`, `store.dfy`): compounding backoff in 64-bit arithmetic, and history retention that
  does not depend on map order.
- **Batch writer** (`batch.dfy`): a flush that runs outside the lock, one retry, counted drops.
- **Configuration reload** (`watch.dfy`, `texts.dfy`, `config_diff.dfy`, `reload.dfy`): generation-numbered debounce,
  classified difference, ordered apply with rollback.
- **Executor profiles** (`registry.dfy`, `applier.dfy`): a two-source registry and the handler table that follows it.
- **Event history and argv** (`history.dfy`, `args.dfy`, `submission.dfy`): bounded windows that refine the event
  stream, argument templates, and what accepting a submission guarantees at execution.
- `ordering.dfy` has Go's string order and sorting.

Each component is a datatype of states with step functions, a class whose methods change the state the way the source
does and are proved to follow those steps, and lemmas about single steps and whole runs.

## What the proofs assume of callers

- An ID is not reused while its job is alive.
- API calls are atomic; the section below says what their two halves do when they are apart.
- Restore runs only inside Start, and Start only when the previous generation is gone.
- While the scheduler is up a handler reports cancellation only if its context was cancelled; `FinishKeepsInvIff`
  says what happens otherwise.
- Store writes succeed.

## Properties that do not hold, and exactly when they do

Each comes with its exact condition and with an input on which it fails.

- A cancelled running job can come back: `CancelledComesBackIff`, `CancelledRoundComesBack`, `CancelledIsSavedAtStop`.
  So can a paused one that is cancelled while Resume is between its check and its push: `LateResumeIsResumeIff`,
  `CancelledPausedComesBack`.
- A start before the previous generation is gone puts a job in two places: `StartKeepsInvIff`, `EarlyStartDoubles`.
- A handler that reports an interruption nobody asked for orphans its job: `FinishKeepsInvIff`,
  `UnaskedInterruptionLosesJob`.
- Pause, UpdatePending, ForcePause, Cancel and a worker that starts a job write the store after they have changed heap
  or executions, and Schedule pushes after it has written the store. In between the invariant may fail for that one job.
  Whatever admissible events happen meanwhile, the second half makes it hold exactly when it fits where it lands:
  `SplitCallKeepsInvIff`, call by call
  `LatePauseRepairsInvIff`, `LateUpdateKeepsInvIff`, `LateForcePauseKeepsInvIff`, `LateDeleteKeepsInvIff`,
  `LateRunningRepairsInvIff` and `LatePushKeepsInvIff`. Inputs on which it is left inconsistent: `LatePauseBreaks`,
  `LateUpdateBreaks`, `LateForcePauseBreaks`, `LateDeleteBreaks`, `LateRunningOrphans`, `LatePushDoubles`.
- Two concurrent Resume calls of one paused job push it twice: `LateResumeFreshIff`, `TwoResumesPushTwice`.
- A reload can end degraded although no landing point ever refuses a rollback, when the process was started with more
  than 4096 workers: `OversizedWorkersCannotBeRestored`, `OversizedWorkersDegrade`. Restoring the old file afterwards
  repairs nothing (`AppliedFileIsUnchanged`); reloading the same candidate does (`RepairTakesTheCandidate`).
- Undoing a command reload does not bring back a stored profile it displaced: `ConfigUndoIff`, `DisplacedIsNotUndone`. The
  chain never runs that undo: `CommandsNeverUndone`.
- A configuration command whose name is written with surrounding white space makes the whole profile store refuse to
  apply when the store has a profile of the trimmed name: `StoreRefusedIffPadded`, `PaddedNameBlocksTheStore`. The
  comment in the source promises a degraded entry.
- A template such as `{a b}` passes the brace check at load time and never renders: `CheckedTemplateRendersIff`,
  `SpacedNameNeverRenders`.
- A submission can be accepted and then fail to render: `AcceptedRendersIff`. Beside such templates there are two
  causes: a placeholder's argument is optional, has no default and was left out (`OmittedOptionalBlocks`), or its
  pattern admits a brace and the value has one (`BraceInValueBlocks`).
- The k-th backoff is base times 4^k, not 2^k as the documentation of the policy suggests: `CompoundedBackoff`. Without a
  maximum it overflows: `UnclampedBackoffIff`, `MinuteOverflowsAt14`.

Check everything with `dafny verify dfyconfig.toml`.

## Model

| member | source | states |
|---|---|---|
| `SchedulerSafety.StepKeepsInv` | core/scheduler.go:408-1897 | Every atomic step (API call, pop, dispatch, take, begin, finish, stop, start with restore, crash) keeps the invariant: one place per job, unfinished snapshots accounted for, marks only on cancelled executions, queues within capacity |
| `SchedulerTheorems.ReachableStatesAreSafe` | core/scheduler.go:408-1897 | In every reachable state a job is in at most one of heap, hand of the loop, queues, taken and running; while up, an unfinished snapshot has its job in exactly one; a stored paused job waits nowhere and runs only under a forced-pause mark |
| `SchedulerTheorems.RunKeepsInv` | core/scheduler.go:408-1897 | The invariant over whole runs of admissible events, restarts and crashes included |
| `SchedulerTheorems.PushSitesAreFresh` | core/scheduler.go:554-631 | Resume, retry, next cron round and restore push only IDs that are not in the heap, which is what the heap index needs |
| `SchedulerTheorems.BlockedMeansExecutorQueueFull` | core/scheduler.go:1445-1473 | If jobs are due but the pre-check allows none, all due jobs are executor jobs and the executor queue is exactly full |
| `SchedulerSafety.NeverPutBack` | core/scheduler.go:1529-1543 | A popped executor job always finds room: the put-back branch of dispatchExec is dead |
| `SchedulerSafety.FinishKeepsInvIff` | core/scheduler.go:1667-1690 | A finish keeps the invariant exactly when the handler does not report, while the scheduler is up, a cancellation nobody asked for; that would orphan its running snapshot |
| `SchedulerTheorems.RestoreIsExact` | core/scheduler.go:1063-1178 | After any run that ended in a crash or a completed stop, Start leaves in the heap exactly the stored unfinished jobs the guard does not hold (and those already there), each once; held ones end up paused and no snapshot is lost |
| `SchedulerTheorems.OthersAreSpared` | core/store.go:192-222 | No step about another job, and no retention pass, removes or alters an unfinished or paused snapshot |
| `SchedulerTheorems.LivesOnIff` | core/scheduler.go:408-1897 | A job stored as unfinished or paused stays so under a step exactly when the step is not one of three: a cancellation that finds it, a start without a handler, or its finish as a success without a next round or a failure without a further retry |
| `SchedulerTheorems.NeverLost` | core/scheduler.go:1766-1799 | Over any run, retries, cron rounds, interruptions, crashes and restarts included, a job stays stored as unfinished or paused throughout exactly when no event of the run settles it |
| `SchedulerTheorems.ResumeOutcome` | core/scheduler.go:589-631 | Resume makes a paused job pending exactly when its handler is gone and its cron expression has a next instant; it is then in the heap once; otherwise it stays paused |
| `SchedulerTheorems.StartKeepsInvIff` | core/scheduler.go:1282-1335 | From a sound stopped state Start keeps the invariant exactly when no worker of the previous generation holds a job it has taken and not started, or runs one that is stored as unfinished |
| `SchedulerTheorems.StartWhileDrainingDoubles` | core/scheduler.go:1282-1335 | If Start runs while a handler of the previous generation is still in flight, restore puts a second copy of its job in the heap |
| `SchedulerTheorems.MarkedJobParks` | core/scheduler.go:708-736 | Whatever the handler of a marked job returns, even during shutdown, the job is stored as paused with retry count and round unspent, nothing is pushed and the mark is consumed |
| `SchedulerTheorems.PausedSurvivesStep` | core/scheduler.go:535-736 | Only Resume or Cancel of that job takes a stored paused job out of paused |
| `SchedulerTheorems.PausedUntilReleased` | core/scheduler.go:535-736 | The same over whole runs, crashes and restarts included |
| `SchedulerTheorems.CancelledComesBackIff` | core/scheduler.go:1766-1897 | A job cancelled while running comes back exactly when it is marked for a forced pause, or its handler ignored the cancellation and a cron round follows, or it was interrupted after Stop |
| `SchedulerRetries.AtMostMaxRetriesPlusOne` | core/scheduler.go:1860-1897 | A scheduled one-shot job that is not scheduled again, resumed or restarted runs its handler at most MaxRetries + 1 times in any run |
| `SchedulerRetries.RunKeepsBudget` | core/scheduler.go:1860-1897 | The retry count of every waiting or running copy accounts for the handler runs so far, over whole runs |
| `SchedulerRetries.PermanentFailureEnds` | core/scheduler.go:1860-1897 | After a permanent failure no copy of the job is held and any snapshot left is terminal |
| `SchedulerRetries.GoneStaysGone` | core/scheduler.go:408-1897 | A job that is held nowhere and has no unfinished or paused snapshot stays so under every step, unless it is scheduled anew |
| `SchedulerRetries.NeverAfterPermanentFailure` | core/scheduler.go:1860-1897 | After a permanent failure the handler never runs again in any run, restarts and crashes included, unless the caller schedules the job anew |
| `Schedulers.Scheduler.constructor` | core/scheduler.go:143-178 | A new scheduler over a heap and a store, in the initial state of the model |
| `Schedulers.Scheduler.RegisterHandlerClass` | core/scheduler.go:316-334 | A key gets its class, no other key changes |
| `Schedulers.Scheduler.UnregisterHandler` | core/scheduler.go:348-358 | A key falls back to the default class, no other key changes |
| `Schedulers.Scheduler.Schedule` | core/scheduler.go:408-462 | Stamps class and next cron instant, stores and pushes as the model does; the job is then in one place; refused exactly for a cron expression without a next instant |
| `Schedulers.Scheduler.Enqueue` | core/scheduler.go:408-462 | The push shared by Schedule, Resume and the finish paths is the model step |
| `Schedulers.Scheduler.Cancel` | core/scheduler.go:479-525 | Removes the job from the heap, cancels a running one, deletes the snapshot; found exactly when it waits, runs or is stored as paused |
| `Schedulers.Scheduler.CancelRunning` | core/scheduler.go:466-475 | Marks exactly this execution as cancelled |
| `Schedulers.Scheduler.Pause` | core/scheduler.go:535-582 | Moves a waiting job from the heap to a paused snapshot; a running job is refused, a stored paused one accepted without change |
| `Schedulers.Scheduler.ForcePause` | core/scheduler.go:640-687 | Pauses a waiting job, or marks, stores as paused and cancels a running one; the result says which jobs were found |
| `Schedulers.Scheduler.MarkAndCancel` | core/scheduler.go:640-687 | The running job is marked and cancelled, and its snapshot, if still there, stored as paused |
| `Schedulers.Scheduler.Resume` | core/scheduler.go:589-631 | Error cases, and on success the job is pending and in exactly one place |
| `Schedulers.Scheduler.UpdatePending` | core/scheduler.go:814-854 | Replaces the heap entry and the snapshot of a waiting job; done exactly when it waits, apply accepts it and the edited job names one in the heap |
| `Schedulers.Scheduler.Start` | core/scheduler.go:1282-1335 | Builds new queues and restores; does nothing when already running |
| `Schedulers.Scheduler.Restore` | core/scheduler.go:1063-1118 | Visiting the snapshots in any order completes exactly the restore of the model |
| `Schedulers.Scheduler.RestoreSnapshot` | core/scheduler.go:1073-1115 | One snapshot: pushed as pending, held as paused, or skipped |
| `Schedulers.Scheduler.Stop` | core/scheduler.go:1395-1416 | Cancels every running execution and marks the scheduler as down |
| `Schedulers.Scheduler.PopDue` | core/scheduler.go:1445-1473 | Takes the earliest due dispatchable job; none exactly when no due job is dispatchable |
| `Schedulers.Scheduler.Dispatch` | core/scheduler.go:1508-1543 | Hands the popped job to its queue; reports false when the default queue is full |
| `Schedulers.Scheduler.TakeJob` | core/scheduler.go:1342-1366 | A worker takes the head of its queue |
| `Schedulers.Scheduler.BeginJob` | core/scheduler.go:1565-1660 | Registers the execution as running, or records a failure when no handler is registered |
| `Schedulers.Scheduler.FinishJob` | core/scheduler.go:1660-1718 | The worker leaves and the ending of the model is applied |
| `Schedulers.Scheduler.Conclusion` | core/scheduler.go:1660-1718 | Chooses between success, interruption and failure as the model does |
| `Schedulers.Scheduler.ParkForcedPause` | core/scheduler.go:708-736 | Parks exactly a marked job and consumes the mark |
| `Schedulers.Scheduler.HandleInterrupted` | core/scheduler.go:1766-1799 | Marked: parked; shutting down: stored as pending; otherwise nothing is stored |
| `Schedulers.Scheduler.HandleSuccess` | core/scheduler.go:1802-1847 | Marked: parked; cron: next round; otherwise stored as succeeded |
| `Schedulers.Scheduler.HandleFailure` | core/scheduler.go:1860-1897 | Marked: parked; permanent or out of retries: stored as failed; otherwise a retry copy is pushed |
| `SchedulerSafety.StepKeepsOk` | core/scheduler.go:408-1897 | What the invariant says of one job is kept by every admissible step, whatever holds of the other jobs |
| `SchedulerLateWrites.SplitCallKeepsInvIff` | core/scheduler.go:432-1657 | A Cancel, Pause, ForcePause, UpdatePending, Schedule or start of a handler makes its first half in a sound state, any admissible events follow, then it makes its second half: the invariant holds (and a push finds its ID free) exactly when the second half fits where it lands |
| `SchedulerLateWrites.HalvesCompose` | core/scheduler.go:432-1657 | With nothing in between, the two halves are the atomic step of that call |
| `SchedulerLateWrites.RunKeepsInvBut` | core/scheduler.go:408-1897 | While a call about one job is under way, every admissible run keeps the invariant of all other jobs |
| `SchedulerLateWrites.LateUpdateKeepsInvIff` | core/scheduler.go:839-848 | The store write that ends UpdatePending, landing after other steps, fits exactly when the job has not been started meanwhile (while up: still waits in exactly one place) |
| `SchedulerLateWrites.LateForcePauseKeepsInvIff` | core/scheduler.go:647-684 | The store write of ForcePause with the cancellation after it, once the job is marked, fits exactly when the job does not wait and runs under its mark if it runs at all |
| `SchedulerLateWrites.LatePauseRepairsInvIff` | core/scheduler.go:536-561 | The store write of Pause, after the job has left the heap, fits exactly when the job does not wait by then and runs only cancelled under a mark |
| `SchedulerLateWrites.LateRunningRepairsInvIff` | core/scheduler.go:1616-1657 | The running snapshot a worker writes after registering its execution fits exactly when the job is then in one place (while down, at most one), unmarked and, while up, not cancelled |
| `SchedulerLateWrites.LateDeleteKeepsInvIff` | core/scheduler.go:482-516 | The deletion that ends Cancel, once the job has left the heap or its execution is cancelled, fits exactly when the job does not wait by then, any execution of it has been cancelled, and a mark has its execution |
| `SchedulerLateWrites.LatePushKeepsInvIff` | core/scheduler.go:432-443 | The push that ends Schedule, once the job is stored, finds its ID free and fits exactly when the job is still held nowhere and still stored as unfinished |
| `SchedulerLateWrites.LateResumeFreshIff` | core/scheduler.go:589-631 | The push of Resume, made some time after its check, finds the ID free and keeps the invariant exactly when the job is still held nowhere |
| `SchedulerLateWrites.LateResumeIsResumeIff` | core/scheduler.go:589-631 | That push is what a Resume at that moment would do exactly when the job is still stored as paused with the same content and does not run |
| `SchedulerLateWrites.PutKeepsInvIff` | core/scheduler.go:408-462 | Storing a snapshot of any status makes or keeps the invariant true exactly when that status fits where the job is |
| `SchedulerInstances.CancelledRoundComesBack` | core/scheduler.go:1802-1847 | A run from an empty store: a running cron job is cancelled, its handler completes, and the next round is queued |
| `SchedulerInstances.CancelledIsSavedAtStop` | core/scheduler.go:1766-1799 | A run from an empty store: a running job is cancelled, the scheduler stops, and the interrupted handler is stored as pending |
| `SchedulerInstances.CancelledPausedComesBack` | core/scheduler.go:589-631 | A paused job is cancelled between the check and the push of Resume: it was stored nowhere and is pending and in the heap again |
| `SchedulerInstances.UnaskedInterruptionLosesJob` | core/scheduler.go:1667-1690 | A reachable job whose handler reports an interruption nobody asked for keeps a running snapshot and is held nowhere |
| `SchedulerInstances.EarlyStartDoubles` | core/scheduler.go:1282-1335 | A reachable state, stopped with a handler in flight, from which Start puts a second copy of the job in the heap |
| `SchedulerInstances.LateUpdateBreaks` | core/scheduler.go:839-848 | A waiting job reaches its handler before the late write of UpdatePending, which leaves a pending snapshot beside it |
| `SchedulerInstances.LatePauseBreaks` | core/scheduler.go:536-561 | A job taken out of the heap by Pause, pushed again by a restart, and then stored as paused while it waits |
| `SchedulerInstances.LateForcePauseBreaks` | core/scheduler.go:647-684 | A marked job that parks, is resumed, and is then stored as paused by the late write while it waits |
| `SchedulerInstances.LateDeleteBreaks` | core/scheduler.go:482-516 | A cancelled cron job whose handler completes and queues the next round, which the late deletion leaves without a snapshot |
| `SchedulerInstances.LateRunningOrphans` | core/scheduler.go:1616-1657 | A job cancelled between registration and the running write: the snapshot is back and, once the handler returns, belongs to no job |
| `SchedulerInstances.LatePushDoubles` | core/scheduler.go:432-443 | A stored job restored by a start before Schedule pushes it: it is in the heap already, and the second push breaks the index |
| `SchedulerInstances.TwoResumesPushTwice` | core/scheduler.go:589-631 | Two Resume calls that both passed the check: after the first push the heap holds the job, and the second push breaks the index |
| `SchedulerOutcomes.RetryOutcome` | core/scheduler.go:1860-1897 | A failure that is uncancelled, unmarked and not permanent, with retries left: the copy in the heap is due at the instant of the policy, with one retry more, twice the delay, no cron schedule and the settings of the job, and is stored so |
| `SchedulerOutcomes.RetryIsBackedOff` | core/scheduler.go:1870-1890 | With the exponential policy the k-th retry waits min(max, base*4^k) and at most a fifth more, and its copy is on course for the next |
| `SchedulerOutcomes.RoundOutcome` | core/scheduler.go:1815-1840 | A completed cron job: the next round is due at the next instant, retries and delay started over, with the settings of the job |
| `SchedulerOutcomes.EndOutcome` | core/scheduler.go:1660-1897 | Every other ending: nothing is pushed, and the job is stored as succeeded, failed, paused or (interrupted by a stop) pending, or not at all |
| `SchedulerOutcomes.ScheduledOutcome` | core/scheduler.go:409-443 | A new job waits as given, due at its own time or the next cron instant, and is stored as it waits |
| `SchedulerOutcomes.ResumedOutcome` | core/scheduler.go:589-631 | A resumed job is the stored one, pending again |
| `SchedulerOutcomes.PausedOutcome` | core/scheduler.go:535-582 | A paused job leaves the heap and is stored as it was, but paused |
| `SchedulerOutcomes.ForcePausedOutcome` | core/scheduler.go:640-687 | A running job is marked, cancelled and stored as paused; no other execution is touched |
| `SchedulerOutcomes.CancelledOutcome` | core/scheduler.go:479-525 | The waiting job, the snapshot and the execution are gone or cancelled; nothing else moves |
| `SchedulerOutcomes.UpdatedOutcome` | core/scheduler.go:814-854 | The edited job waits and is stored, pending |
| `SchedulerOutcomes.StartedOutcome` | core/scheduler.go:1063-1335 | A restored job waits as it was stored, with its class; a held one is stored as paused; every other one stays |
| `SchedulerOutcomes.StoppedOutcome` | core/scheduler.go:1395-1416 | Every execution is cancelled and nothing leaves its place |
| `SchedulerOutcomes.PoppedOutcome` | core/scheduler.go:1445-1473 | A popped job comes as it waited, and is due |
| `SchedulerOutcomes.DispatchedOutcome` | core/scheduler.go:1508-1543 | A job goes to the end of the queue of its pool; the loop blocks exactly on a full default queue |
| `SchedulerOutcomes.TakenOutcome` | core/scheduler.go:1342-1366 | A worker takes the job at the front |
| `SchedulerOutcomes.BegunOutcome` | core/scheduler.go:1565-1660 | The taken job runs as it came, cancelled at once after a stop; without a handler it has failed |
| `SchedulerOutcomes.CrashOutcome` | core/scheduler.go:1063-1118 | A crash leaves the store and nothing else |
| `SchedulerOutcomes.FirstInFirstOut` | core/scheduler.go:1342-1543 | Over any run of one generation the workers of a pool receive the jobs in the order in which the loop sent them |
| `SchedulerOutcomes.NeverEarly` | core/scheduler.go:1445-1473 | Over any run a job reaches the queues and its handler only when the loop's clock has reached its time, retries, rounds, resumed and restored jobs included |
| `Workers.AccountingHolds` | core/scheduler.go:1232-1384 | Over every interleaving of resizes, retirements, stops and starts: workers alive = target + owed retirements, never negative, exactly the target at zero balance; the reported queue capacity is that of the channel in use |
| `Workers.ResizeKeepsBalanceIff` | core/scheduler.go:1232-1279 | A resize keeps the accounting exactly when the sizes fit in 32 bits |
| `Workers.StartIsBalancedIff` | core/scheduler.go:1282-1335 | A start is accounted for exactly when the worker count fits and no worker of the previous generation is left |
| `Workers.ResizeReaches` | core/scheduler.go:1232-1384 | A fitting resize of a running pool to n: growth at once, shrinking owed, and exactly n alive once the owed retirements are taken |
| `Workers.SettingsTakeEffect` | core/scheduler.go:182-1335 | Settings made while stopped give the workers and the queue places of the next start; while running they change nothing |
| `Workers.RetirementsConverge` | core/scheduler.go:1374-1384 | As many loop tops as retirements are owed leave exactly the target |
| `Workers.WorkerPool.ResizeWorkers` | core/scheduler.go:1232-1279 | Refuses n <= 0; grows at once, shrinks by owing retirements |
| `Workers.WorkerPool.ShouldRetire` | core/scheduler.go:1374-1384 | Consumes one owed retirement or none, and says which |
| `Workers.WorkerPool.SetConcurrency` | core/scheduler.go:182-198 | Only while stopped; not positive means the default |
| `Workers.WorkerPool.SetQueueCapacity` | core/scheduler.go:202-214 | Only while stopped; negative means zero |
| `Workers.WorkerPool.Start` | core/scheduler.go:1282-1335 | A new generation starts with the configured workers and channel, owing nothing |
| `Workers.WorkerPool.Stop` | core/scheduler.go:1395-1416 | The generation ends |
| `Workers.WorkerPool.RuntimeQueueCapacity` | core/scheduler.go:1967-1997 | The reported capacity is that of the channel while running |
| `QuaternaryHeaps.EachDueVisitsOnce` | core/heap.go:138-146 | The pruned recursion visits every due index of its subtree exactly once and nothing else |
| `QuaternaryHeaps.DueIndicesVisitedOnce` | core/heap.go:138-146 | From the root it visits exactly the due indices |
| `QuaternaryHeaps.PushKeepsIndexExactIff` | core/heap.go:58-64 | Pushing keeps the ID index exact exactly when the ID is not stored |
| `QuaternaryHeaps.RootIsEarliest` | core/heap.go:69-76 | 4-ary heap order puts a minimum at the root |
| `QuaternaryHeaps.DrainIsSorted` | core/heap.go:69-76 | Successive pops come out in non-decreasing trigger time, each ID once, and lose nothing else |
| `QuaternaryHeaps.QuaternaryHeap.constructor` | core/heap.go:31-36 | Empty |
| `QuaternaryHeaps.QuaternaryHeap.Len` | core/heap.go:39-43 | The number of stored IDs |
| `QuaternaryHeaps.QuaternaryHeap.Swap` | core/heap.go:51-55 | Exchanges two positions and keeps index and contents |
| `QuaternaryHeaps.QuaternaryHeap.PushItem` | core/heap.go:58-64 | Adds the job under its ID |
| `QuaternaryHeaps.QuaternaryHeap.PopIfDue` | core/heap.go:69-76 | None exactly when nothing is due, else removes one with minimal trigger time |
| `QuaternaryHeaps.QuaternaryHeap.EarliestDue` | core/heap.go:105-115 | The position the pruned search settles on is a minimum over all due and allowed jobs; -1 exactly when there is none |
| `QuaternaryHeaps.QuaternaryHeap.PopIfDueWhere` | core/heap.go:89-122 | None exactly when no job is both due and allowed, else removes exactly one with minimal trigger time among those |
| `QuaternaryHeaps.QuaternaryHeap.HasDue` | core/heap.go:127-134 | Something is due |
| `QuaternaryHeaps.QuaternaryHeap.Peek` | core/heap.go:149-156 | An earliest job |
| `QuaternaryHeaps.QuaternaryHeap.Get` | core/heap.go:159-167 | Lookup by ID |
| `QuaternaryHeaps.QuaternaryHeap.Remove` | core/heap.go:170-178 | Removes by ID, none exactly when absent |
| `QuaternaryHeaps.QuaternaryHeap.Update` | core/heap.go:183-193 | Replaces the job of that ID, with any new time, exactly when stored |
| `QuaternaryHeaps.QuaternaryHeap.RemoveAt` | core/heap.go:205-217 | Removes the job at a position and restores the order |
| `QuaternaryHeaps.QuaternaryHeap.SiftRange` | core/heap.go:220-226 | Restores heap order around one position |
| `QuaternaryHeaps.QuaternaryHeap.SiftUp` | core/heap.go:229-238 | Restores order upwards, contents unchanged |
| `QuaternaryHeaps.QuaternaryHeap.SiftDown` | core/heap.go:241-264 | Restores order downwards, contents unchanged |
| `Retry.RetriesDouble` | core/job.go:215-234 | After k retry copies the count is k and the base delay has doubled k times while it fits |
| `Retry.CompoundedBackoff` | core/retry.go:44-53 | The k-th delay before jitter is min(MaxDelay, base*4^k) when MaxDelay > 0 and base*4^k otherwise, while base*4^k fits in int64 |
| `Retry.UnclampedBackoffIff` | core/retry.go:44-53 | Without a maximum the delay is base*4^k exactly when that fits in int64 |
| `Retry.MinuteOverflowsAt14` | core/retry.go:44-53 | A base delay of one minute: without a maximum the delay after 14 retries is not base*4^14 |
| `Retry.JitterIsShare` | core/retry.go:44-53 | The jitter is the drawn share of a fifth of the delay, in whole nanoseconds |
| `Retry.JitterWithinFifth` | core/retry.go:44-53 | Jitter only delays, by at most a fifth of the delay |
| `Stores.WriteKeepsUnfinished` | core/store.go:140-164 | A write never touches another unfinished snapshot, never invents or alters one, and stores what it is given unless that is terminal |
| `Stores.KeptIsRetained` | core/store.go:192-222 | What trimming leaves: unaltered, all unfinished snapshots, finished ones within the age and at most `limit` of them; a finished one is dropped exactly for age or because that many stay with a later update, or the same and a smaller ID |
| `Stores.LatestIsKept` | core/store.go:140-164 | The finished snapshot just written stays when it is the latest, within the age, and any may stay |
| `Stores.SurplusIsRanked` | core/store.go:192-222 | Dropping what lies past the limit in the sorted list keeps exactly the terminal snapshots of rank below the limit (newest first, then by ID) |
| `Stores.NothingSurplus` | core/store.go:192-222 | With no surplus the age pass alone gives the retained snapshots |
| `Stores.KeptTwice` | core/store.go:192-222 | Trimming again at the same instant changes nothing |
| `Stores.JSONFileStore.constructor` | core/store.go:86-116 | A store over the snapshots read from disk, with its retention |
| `Stores.JSONFileStore.SetHistoryRetention` | core/store.go:134-138 | Zero means the default limit |
| `Stores.JSONFileStore.Save` | core/store.go:140-148 | Stores; after a terminal write exactly what the age and the count allow, newest first, is left |
| `Stores.JSONFileStore.Update` | core/store.go:150-157 | The same for a snapshot |
| `Stores.JSONFileStore.Delete` | core/store.go:166-172 | Removes the snapshot |
| `Stores.JSONFileStore.TrimTerminal` | core/store.go:192-222 | The two passes leave exactly what the ranking keeps, in any map order |
| `Stores.JSONFileStore.DropExpired` | core/store.go:192-210 | The age pass and the list it collects |
| `Stores.JSONFileStore.DropAll` | core/store.go:211-222 | Removes exactly the surplus |
| `Stores.JSONFileStore.LoadAll` | core/store.go:175-184 | All snapshots |
| `Batches.Conservation` | store/sqlite/batch.go:96-246 | Under every interleaving of appends, flushes and closing: committed + queued + dropped = append calls + items committed by a flush that straddles the seal |
| `Batches.CommittedInOrder` | store/sqlite/batch.go:153-224 | If a failed flush commits nothing: committed items appear in acceptance order, none twice, every item is handed to the flush at most twice, and retried marks form a prefix of the queue |
| `Batches.AppendsQueue` | store/sqlite/batch.go:96-105 | Appends within capacity to an open writer are queued in order and none is dropped |
| `Batches.BurstIsCommitted` | store/sqlite/batch.go:96-224 | A burst within capacity, then a flush: exactly these items are committed in order; after one failure the next flush commits them, after two all are dropped and counted |
| `Batches.ClosingRefuses` | store/sqlite/batch.go:230-246 | Once closing nothing is accepted; sealing counts what is queued as dropped |
| `Batches.FreshIsOrderly` | store/sqlite/batch.go:66-92 | A new writer satisfies the order invariant |
| `Batches.FailureDropsPrefix` | store/sqlite/batch.go:206-224 | A failure drops exactly the already retried prefix of the batch and marks the rest |
| `Batches.Batcher.constructor` | store/sqlite/batch.go:66-92 | An empty writer |
| `Batches.Batcher.Append` | store/sqlite/batch.go:96-105 | Accepted exactly when open and below capacity, and then queued at the end; otherwise counted as dropped |
| `Batches.Batcher.BeginFlush` | store/sqlite/batch.go:153-170 | The batch is the whole queue; none when closed or empty |
| `Batches.Batcher.EndFlush` | store/sqlite/batch.go:170-199 | Success removes and logs the batch; failure gives up retried items and marks the others |
| `Batches.Batcher.RecordFailure` | store/sqlite/batch.go:206-224 | Drops and counts exactly the retried items of the batch |
| `Batches.Batcher.BeginClose` | store/sqlite/batch.go:230-235 | Appends are refused from here on |
| `Batches.Batcher.Seal` | store/sqlite/batch.go:236-246 | What is still queued is counted as dropped |
| `Watches.StepKeepsInv` | core/watch.go:331-497 | Every schedule, fire, claim, trigger, state write and close keeps: a slot is armed or its own callback is in flight, generations are unique, claimed at most once and never when superseded |
| `Watches.DebounceIsSound` | core/watch.go:331-412 | After any interleaving: until the table is cleared every unclaimed event has a slot that is armed or in flight with its generation; each generation is claimed at most once; WatcherError is the latest marked text |
| `Watches.PendingEventIsDelivered` | core/watch.go:355-450 | From every reachable open state, letting the pending callback run reaches the reload function and settles the event |
| `Watches.ScheduledIsArmed` | core/watch.go:331-367 | From every reachable open state a change event leaves its path armed and pending; an armed timer is kept, an expired one superseded, other paths stay |
| `Watches.EveryEventIsDelivered` | core/watch.go:331-450 | After any run that ends in a change event while open, its timer running its course raises the number of reloads and settles the event |
| `Watches.ClosedSchedulesNothing` | core/watch.go:331-340 | Once closed an event arms nothing |
| `Watches.SupersededClaimsNothing` | core/watch.go:375-383 | A superseded callback neither claims, nor triggers, nor removes the newer slot |
| `Watches.NothingAfterClose` | core/watch.go:407-497 | Once closed only callbacks that had already passed the check call the reload function; once the table is cleared none can even claim |
| `Watches.ConfigWatcher.constructor` | core/watch.go:109-151 | An open watcher with an empty table |
| `Watches.ConfigWatcher.Schedule` | core/watch.go:331-353 | An armed timer is pushed back; an expired one is replaced by a new generation; nothing when closed |
| `Watches.ConfigWatcher.Arm` | core/watch.go:355-367 | The target gets an armed slot with a new generation number |
| `Watches.ConfigWatcher.Claim` | core/watch.go:375-383 | Succeeds exactly for the generation in the table, at most once per generation, never after the table is cleared |
| `Watches.ConfigWatcher.CheckTrigger` | core/watch.go:407-412 | Goes on exactly when not closed |
| `Watches.ConfigWatcher.StoreState` | core/watch.go:462-476 | Keeps the reload result but never its watcher error or path |
| `Watches.ConfigWatcher.MarkWatcherError` | core/watch.go:556-571 | Changes the watcher error only |
| `Watches.ConfigWatcher.StopTimers` | core/watch.go:390-397 | Empties the table |
| `Watches.ConfigWatcher.Close` | core/watch.go:483-497 | Closed before the table is cleared |
| `ConfigDiffs.SplitOfJoin` | core/config_reload.go:321-386 | Splitting inverts joining for every entry name, fallback names and sub-fields included |
| `ConfigDiffs.SplitIffJoined` | core/config_reload.go:372-386 | A path splits into (name, field) exactly when it is a join of those two segments |
| `ConfigDiffs.PathsApart` | core/config_reload.go:303-329 | Different entries or fields never share a path |
| `ConfigDiffs.FallbackNamesApart` | core/config_reload.go:321-329 | Two index fallbacks never collide; a fallback meets a named entry only if that is literally called "#i" |
| `ConfigDiffs.RejectedIff` | core/config_reload.go:186-209 | A change is in the reject class exactly when it touches a credential or a permission field of an entry on both sides |
| `ConfigDiffs.HotIff` | core/config_reload.go:186-209 | A change is hot exactly for a listed path, a leaf of an entry that is added or removed, or an ordinary field of one that stays |
| `ConfigDiffs.EntryIffLeaf` | core/config_reload.go:462-474 | An entry is there exactly when one of its leaves is |
| `ConfigDiffs.DiffCarriesValues` | core/config_reload.go:427-458 | Every listed key carries the value of either side, and they differ |
| `ConfigDiffs.Diff` | core/config_reload.go:427-458 | The lists hold, sorted and with both values, exactly the differing paths of their class |
| `ConfigDiffs.SortedLeafPaths` | core/config_reload.go:488-501 | The union of both sides, ascending |
| `ConfigDiffs.DiffPartitions` | core/config_reload.go:427-458 | Hot, restart and reject are sorted, disjoint and together exactly the differing paths; Commands is the command part of Hot |
| `ConfigDiffs.NoChangesIffSame` | core/config_reload.go:410-412 | No list has an entry exactly when both configurations are the same |
| `ConfigDiffs.PermissionChanges` | core/config_reload.go:462-474 | A changed permission field is rejected exactly when its entry is on both sides, and a hot command change exactly otherwise |
| `Reloads.HotKeyHasOneStep` | cmd/server/reload.go:135-145 | Every hot path is claimed by exactly one reload step |
| `Reloads.NothingUnmatched` | cmd/server/reload.go:613-692 | No hot path of any difference is left without a step |
| `Reloads.AllOrNothing` | cmd/server/reload.go:374-607 | ok: applied and every landing point are the candidate; rejected, unchanged, failed: nothing moved; degraded exactly when the values in effect are no longer those of the applied configuration |
| `Reloads.DegradedIff` | cmd/server/reload.go:580-607 | Degraded exactly when a step is refused and one applied before it refuses to be put back |
| `Reloads.VerdictIs` | cmd/server/reload.go:374-607 | Exactly when a reload does nothing, is rejected, finds no change or succeeds: stopped; unreadable or a change that voids it; equal; no needed landing point missing and none refusing |
| `Reloads.OkReports` | cmd/server/reload.go:551-594 | On ok a path is reported as applied exactly for a hot change whose section runs, as ignored exactly for one whose section does not or that waits for a restart |
| `Reloads.OthersReport` | cmd/server/reload.go:374-607 | Any other verdict reports nothing as applied, and a rejected file exactly the paths that void it |
| `Reloads.ValuesLand` | cmd/server/reload.go:613-692 | After ok every landing point holds the values of the file at its own paths |
| `Reloads.OnlyStuckKeepTheNew` | cmd/server/reload.go:580-607 | A degraded reload leaves the new values exactly at the applied steps that refused to be put back |
| `Reloads.OversizedWorkersCannotBeRestored` | cmd/server/reload.go:72-80 | With landing points that never refuse a rollback, degraded still happens in exactly one way: started with more than 4096 workers, brought down by the file, commands refused |
| `Reloads.OversizedWorkersDegrade` | cmd/server/reload.go:72-80 | The input: started with 5000 workers, a file with 10 and a new command entry that is refused; the result is degraded and the values in effect are mixed |
| `Reloads.CommandsNeverUndone` | cmd/server/reload.go:661-667 | Whatever a reload reports, unless it is ok the command table is the one from before: the commands step is never rolled back |
| `Reloads.OkReportsEveryKeyOnce` | cmd/server/reload.go:590-594 | On ok every changed path is in exactly one of applied and ignored, and reading the same file again is unchanged |
| `Reloads.RunStaysInEffect` | cmd/server/reload.go:374-508 | Over any run without a degraded result every landing point holds its part of the applied configuration |
| `Reloads.AppliedFileIsUnchanged` | cmd/server/reload.go:450-459 | Reading back the applied configuration is unchanged even when the values in effect are mixed |
| `Reloads.RepairTakesTheCandidate` | cmd/server/reload.go:477-507 | A successful reload of the same candidate repairs everything a degraded one left behind |
| `Reloads.Reloader.constructor` | cmd/server/reload.go:209-261 | A chain over the landing points that exist |
| `Reloads.Reloader.BindDebounce` | cmd/server/reload.go:265-275 | Adds the debounce landing point |
| `Reloads.Reloader.Stop` | cmd/server/reload.go:286-290 | Later reloads do nothing |
| `Reloads.Reloader.RunStep` | cmd/server/reload.go:653-660 | One landing point takes its part or, refusing, stays |
| `Reloads.BuildPlan` | cmd/server/reload.go:613-692 | The plan is the table order of the steps that claim a hot key; the unmatched keys are those no step claims |
| `Reloads.Reloader.Forward` | cmd/server/reload.go:551-588 | Applies the plan up to the first refusal |
| `Reloads.Reloader.Rollback` | cmd/server/reload.go:599-604 | Puts applied steps back, last first, and counts refusals |
| `Reloads.Reloader.ApplyChange` | cmd/server/reload.go:520-607 | Both checks before anything moves, then apply or roll back, as the model says |
| `Reloads.Reloader.Reload` | cmd/server/reload.go:374-508 | The verdict, the sorted key lists and the new state are those of the model |
| `Reloads.Except` | cmd/server/reload.go:804-813 | Keeps order and exactly what was not ignored |
| `Registries.OverlaidAt` | executor/registry.go:199-350 | Entry by entry: a key of the batch is the batch's unless a config entry holds it against the store; every other key is as before |
| `Registries.StoreKeepsTable` | executor/registry.go:199-264 | After ApplyStore keys and entries agree and every degraded profile is held by a live config profile, once |
| `Registries.ConfigKeepsTable` | executor/registry.go:286-350 | The same after ApplyConfig |
| `Registries.StoreTakes` | executor/registry.go:199-264 | Key by key against the old table: config entries stay, the batch takes its other keys, store entries outside it go, built-in ones stay; degraded are exactly the batch profiles a config entry holds down, with their reason |
| `Registries.ConfigTakes` | executor/registry.go:286-350 | Key by key: the batch takes its keys, config entries outside it go, all others stay; degraded are exactly the earlier ones whose key is in the batch and those it displaces |
| `Registries.StoreTwice` | executor/registry.go:188-264 | The same store batch again changes nothing |
| `Registries.ConfigTwice` | executor/registry.go:319-350 | The same config batch again changes nothing, degraded profiles included |
| `Registries.ConfigUndoIff` | executor/registry.go:286-350 | Applying the old config profiles after new ones restores the live table exactly when the new ones displaced no entry of another source |
| `Registries.DisplacedIsNotUndone` | executor/registry.go:286-350 | A store profile displaced by a config profile of its key is gone after the config is undone |
| `Registries.AdhocNeverReturns` | executor/registry.go:237-245 | A built-in profile that has given way never returns |
| `Registries.MergeStore` | executor/registry.go:211-259 | The loop over the batch computes the overlay and the degraded list, or refuses exactly a repeated key or an unmarked clash |
| `Registries.StartTableAt` | executor/registry.go:134-177 | Exactly the declared and the built-in keys; where both claim one the declared profile has it |
| `Registries.Registry.constructor` | executor/registry.go:107-179 | The table at startup: config profiles, then the built-in ones that find their key free; empty when disabled |
| `Registries.Registry.ApplyStore` | executor/registry.go:199-264 | Succeeds exactly when enabled and the batch is not refused; then the batch has taken its keys and nothing else moved, else untouched |
| `Registries.Registry.ApplyConfig` | executor/registry.go:286-350 | Succeeds exactly when enabled and the keys are distinct; then the batch has taken its keys and only config entries have gone, else untouched |
| `Registries.Registry.List` | executor/registry.go:503-536 | Exactly one row for each live entry, with its source and whether it can be edited, and one for each degraded profile, in key order |
| `Appliers.RunKeepsAgreement` | executor/applier.go:173-387 | Over any run of calls: executor handlers are exactly the live profiles, each built from its own; the config part is what is on record; other handlers are never touched |
| `Appliers.ApplyKeepsInv` | executor/applier.go:173-227 | One successful Apply keeps that agreement |
| `Appliers.ConfigKeepsInv` | executor/applier.go:313-387 | One successful ApplyConfig keeps that agreement |
| `Appliers.ApplyTwice` | executor/applier.go:164-227 | The same Apply again leaves everything as it is |
| `Appliers.ConfigTwice` | executor/applier.go:313-387 | The same ApplyConfig again leaves everything as it is |
| `Appliers.AgreeingAddsNothing` | executor/applier.go:240-276 | From an agreeing state a sync adds and removes no handler |
| `Appliers.StoreRefusedIffPadded` | executor/merge_profiles.go:46-82 | A store with distinct names is refused exactly when a config command written with white space around its name meets a stored profile of the trimmed name |
| `Appliers.PaddedNameBlocksTheStore` | executor/merge_profiles.go:51-57 | A concrete instance of that refusal |
| `Appliers.MergedAre` | executor/merge_profiles.go:46-82 | The merged entries are exactly the valid records, under the trimmed name, marked when a command is written with exactly that name |
| `Appliers.LoadableIff` | executor/profile.go:239-269 | A list loads exactly when the trimmed names are valid and distinct and every command passes the strict checks |
| `Appliers.ApplyMeans` | executor/applier.go:173-276 | A successful Apply: the table has taken the merged entries, other handlers stay, and the reported keys are the handlers that are new and those that are gone |
| `Appliers.ConfigMeans` | executor/applier.go:313-387 | The same for ApplyConfig and the commands |
| `Appliers.MergeStoreProfiles` | executor/merge_profiles.go:46-82 | Every record becomes an entry marked by the names as written, or a warning |
| `Appliers.LoadProfiles` | executor/profile.go:239-269 | All profiles, or none when one is invalid or a trimmed name repeats |
| `Appliers.Applier.constructor` | executor/applier.go:91-115 | Starts from an agreeing state |
| `Appliers.Applier.RegisterAll` | executor/applier.go:248-263 | Registers each given key afresh and reports the new ones |
| `Appliers.Applier.RemoveGone` | executor/applier.go:265-272 | Removes exactly the executor handlers that are no longer live |
| `Appliers.Applier.SyncHandlers` | executor/applier.go:240-276 | The handler table and the sorted lists of added and removed keys |
| `Appliers.Applier.SplitKeys` | executor/applier.go:202-217 | The live keys by source |
| `Appliers.Applier.Apply` | executor/applier.go:173-227 | Table, handlers and counts as the model says; a failed call changes nothing |
| `Appliers.Applier.ApplyConfig` | executor/applier.go:313-387 | Table, handlers, counts and the command list as the model says; a failed call changes nothing |
| `Histories.WindowIsSuffix` | api/history.go:83-102 | The window of a tracked job is a non-empty suffix of all its events, at most 100; with no more than 2000 jobs written it is exactly the last 100 |
| `Histories.RecencyIs` | api/history.go:83-93 | The recency list has every job of the stream once |
| `Histories.RecencyOrdered` | api/history.go:83-93 | It is ordered by last event, latest first |
| `Histories.TrackedIff` | api/history.go:83-115 | A job is tracked exactly when it has an event and fewer than 2000 other jobs have had one since its last |
| `Histories.TrackedNext` | api/history.go:83-115 | Moving to the front, or pushing and evicting the last, keeps exactly the 2000 most recently written jobs |
| `Histories.WindowNext` | api/history.go:95-102 | Appending and cutting one window follows the stream |
| `Histories.EventHistory.constructor` | api/history.go:49-65 | Empty |
| `Histories.EventHistory.Record` | api/history.go:68-103 | Global window, job windows, order of jobs and total remain those of the stream, one event longer |
| `Histories.EventHistory.Touch` | api/history.go:83-93 | The list of tracked jobs after a write |
| `Histories.EventHistory.EvictOldest` | api/history.go:106-115 | The last job goes with its window and its share of the total |
| `Histories.EventHistory.Append` | api/history.go:95-102 | Window and total after one event |
| `Histories.EventHistory.Events` | api/history.go:120-133 | The last events of a tracked job up to the limit, a suffix of all its events; empty for any other |
| `Histories.EventHistory.Recent` | api/history.go:137-145 | The last events of the stream up to the limit and 500 |
| `Histories.EventHistory.Stats` | api/history.go:162-173 | The number of tracked jobs and of their events |
| `Histories.EventHistory.Clear` | api/history.go:176-188 | Everything goes and the number of events is returned |
| `Histories.Tail` | api/history.go:196-203 | The last n items |
| `Arguments.RenderArgItem` | executor/args.go:634-655 | The loop of first-occurrence replacements succeeds exactly when every placeholder has a brace-free value and no brace is left; the result is the simultaneous substitution |
| `Arguments.OneReplacement` | executor/args.go:636-649 | One replacement at the first occurrence is one placeholder of the simultaneous substitution |
| `Arguments.PlaceholderIsReplaced` | executor/args.go:634-655 | Text without an opening brace stays, and a name in braces becomes its value, wherever it stands |
| `Arguments.SurvivingBraces` | executor/args.go:651-654 | With brace-free values a brace survives exactly when the template has a stray closing brace |
| `Arguments.BalancedIff` | executor/profile.go:732-752 | Balanced means that at every point none or one brace is open, and none at the end |
| `Arguments.CheckBraces` | executor/profile.go:732-752 | Accepts exactly the templates with paired, unnested braces |
| `Arguments.CheckedTemplateRendersIff` | executor/profile.go:704-752 | A checked template with usable values renders exactly when every placeholder is written out in full |
| `Arguments.SpacedNameNeverRenders` | executor/profile.go:704-752 | The template "{a b}" passes the check and renders with no values at all |
| `Arguments.RenderValues` | executor/args.go:617-628 | Defaults overridden by the payload |
| `Arguments.ValueOf` | executor/args.go:617-628 | With distinct names a value is the payload's or else the non-empty default |
| `Arguments.Render` | executor/args.go:571-613 | Succeeds exactly when every template renders; the argv is the runtime and its script, or the program and its fixed arguments, then one element per template with no brace left, then the positional values |
| `Submissions.LoadedTimeoutIs` | executor/profile.go:981-1010 | A profile loads exactly when its timeout, or the default, is positive and within the global limit, and keeps it unchanged |
| `Submissions.FillValues` | executor/args.go:247-278 | Accepts exactly when every given value is declared and allowed and nothing required is missing, whatever the order of the payload |
| `Submissions.TakePositional` | executor/args.go:302-325 | Accepts exactly an absent list, or a declared one of allowed strings within the maximum |
| `Submissions.AcceptsIff` | executor/args.go:247-344 | Accepted exactly when every value is a string of at most 256 characters, without control characters, of a declared argument whose pattern it meets, and no option unless allowed; and nothing required is missing |
| `Submissions.PositionalIsNoOption` | executor/args.go:302-325 | An accepted positional value meets its pattern and the length, has no control character and is no option |
| `Submissions.AcceptedValueUsable` | executor/args.go:328-344 | A declared placeholder of an accepted submission is usable exactly when its value, submitted or else the non-empty default, exists and has no brace |
| `Submissions.AcceptedRendersIff` | executor/args.go:571-655 | For a loaded profile and an accepted submission a template renders exactly when each placeholder is written out in full and its value, submitted or else the default, exists and has no brace |
| `Submissions.BraceFreeFillsIff` | executor/args.go:571-655 | With patterns that admit no brace this fails only for an unclosed placeholder or an optional argument without a default that was left out |
| `Submissions.BraceInValueBlocks` | executor/args.go:571-655 | The input: a pattern that admits anything, the value "{" and the template "{a}" are checked and accepted and never render |
| `Submissions.OmittedOptionalBlocks` | executor/args.go:571-655 | The input: the template "{a}" with an optional argument that was left out is checked and accepted and does not render |
| `Submissions.TimeoutWithin` | executor/args.go:536-562 | The timeout of an execution is positive and within the global limit |
| `Submissions.AcceptedTimeoutTakesEffect` | executor/args.go:511-562 | An accepted timeout request is the one that takes effect; without one the timeout of the profile is |

## Left out

- Schedulers.Scheduler.UpdatePending: one atomic step, like every API call; the source releases its locks between the heap change and the store write. `scheduler_late_writes.dfy` says exactly when the late half of one such call is harmless after any run of atomic steps; two split calls interleaved with each other are not modelled.
- Schedulers.Scheduler.FinishJob: the end of a handler and the deferred removal of its cancel entry are one step; split, a rescheduled copy of the same ID could lose its entry.
- Schedulers.Scheduler.Start: runs with no worker of the previous generation left; StartKeepsInvIff says exactly when less is enough, and StartWhileDrainingDoubles what happens otherwise.
- Schedulers.Scheduler.Stop: does not wait for the workers; that they have left is the condition `Quiet` of the next start.
- Schedulers.Scheduler.RestoreSnapshot: a guard that holds a job always stores it as paused; other statuses a guard may answer are not modelled.
- Schedulers.Scheduler.Schedule: a generated ID is taken as given by the caller, and reuse of a live ID is excluded as the source requires (PushKeepsIndexExactIff shows why).
- SetGroup, RetagGroup, PauseByHandlerKey, Suspend and the start, stop and wake-up signals between the loop and its callers.
- Payload, name, group, timeout, attempts and execution metadata of a job; RetryDelay across cron rounds is set to zero and not carried.
- Stores.JSONFileStore.constructor: reading and parsing the file is the parameter `onDisk`.
- Stores.JSONFileStore.Save: writes succeed and are durable at once; the periodic flush to disk is not modelled.
- Retry.CompoundedBackoff: the power of two and the jitter are exact; floating-point rounding is not modelled. Beyond 2^62 the conversion is an arbitrary number.
- Cron expressions, clocks, random numbers and generated IDs are parameters; published events and logging are left out.
- Watches.ConfigWatcher.Schedule: window lengths are not modelled; a timer may expire at any moment, and one more callback of an expired generation may follow. The reload function is one event and its panic path is MarkWatcherError.
- File-system events, resolving the watched file and waiting for the event loop to end.
- ConfigDiffs.Diff: starts from two maps of leaf path to value; flattening the configuration by reflection, and duplicate command names overwriting each other there, are not modelled. Equal leaves are equal values.
- Reloads.Reloader.Reload: reading and parsing the file, normalising it and environment overrides are the parameter `file`; every leaf of a read configuration has a class. Log lines, error texts and timestamps are left out.
- Reloads.Reloader.RunStep: a setter is atomic on its own refusal, and whether it refuses is a parameter.
- Registries.Registry.constructor: the validated config profiles and the built-in ones are parameters; the list of skipped built-in profiles is not kept.
- Registries.Registry.ApplyStore: probing a profile and a nil profile are left out, and an item is always of the store.
- Appliers.Applier.constructor: takes a registry and a handler table that agree, as the registration at startup leaves them.
- Appliers.LoadProfiles: whether the fields other than the name pass validation is given with each command, once for each path mode.
- Appliers.Applier.Apply: reading the profile file is the parameter `list`; what a handler does when it runs is not modelled.
- Histories.EventHistory.Record: the subscription to the event bus is left out.
- Submissions.FillValues: decoding JSON, regular expressions, environment, headers, body and HTTP parameters are left out; a pattern is a predicate and a value is a string, a number as written, or neither. A missing submission is left out.
- Batches.Batcher.EndFlush: the flush function either commits its whole batch or nothing; the timer loop that calls Flush is an arbitrary sequence of events.
- HTTP handlers, authentication, SQL, process launching, HTTP execution, the web interface and the command line.
