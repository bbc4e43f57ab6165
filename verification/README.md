# PARQONAUT in Dafny

A model of the parts of PARQONAUT whose correctness is spread over many steps or many functions, with
proofs about all inputs, all reachable states or all interleavings. Seven components share no state and
live in separate modules:

| module | models |
|---|---|
| `JobQueue`, `Heartbeat`, `JobStore` | the durable job queue: rows, atomic store statements, histories of any number of workers, the heartbeat that keeps a lease, the store object and the job runner |
| `RepairPlan`, `RepairOrder` | the dependency relation of a repair plan, layered dependencies in place, Kahn's algorithm with a sorted ready list |
| `RepairExecution` | the executor that applies the ordered operations to a working set of files |
| `WriterLock` | the remote lock object and the local lock file as one interleaving protocol with crashes |
| `ScanReport`, `DatasetInference`, `ScanBuilder` | the report validator and redaction, dataset inference, and both report builders |
| `Locations`, `Overlap`, `Listing`, `Inventory`, `InventoryExclusion` | which objects lie under a dataset, batch overlap, page-by-page listing, the remote inventory |
| `Relay` | relays through bounded channels sharing a lock-free peak counter |
| `BatchLifecycle`, `BatchExecutor` | the transition relation of dataset states, crash recovery of the run journal, run status; the states the executor writes, over crashes and resumes |

`Common`, `Text`, `Sorting` and `Paths` hold option and result types, the order of strings, stable
sorting, and paths read by components.

`dafny verify dfyconfig.toml` checks the whole project.

How the models are built:

- The job queue, the lock and the relay are state machines. A history lists the events and the states
  around them; a legal history makes only enabled steps, in any interleaving. Each store method is one
  atomic step; `request_cancel_job` is a read and a guarded update, with anything in between.
- Objects that change (store, lock service, workspace, journal, dataset state, peak counter) are classes.
  Loops that update variables are loops. Code made of expressions is functions.
- Times are integers. The store compares RFC 3339 texts in UTC from one formatter; that their text order is
  time order (section 5.1 of RFC 3339) is an assumption of the model.
- Parquet transforms, inspection results, the digest of a schema signature and the outcome of job work are
  parameters, so the results hold for every behaviour of them that meets the stated conditions.
- `usize` counters that only count are unbounded; the `as i32` cast of the attempt limit is modelled.

Where the code does not do what one would expect, the model follows the code and says exactly when:

- Completion is guarded by the status only. A worker whose lease ran out can finish the attempt of another,
  exactly when a job may be attempted twice (`JobQueue.LateOwnerCanFinishAnothersAttempt`).
- The heartbeat stops after the beat that sees a cancel, while a repair job works on: if it works past that
  lease, another worker is handed the job (`Heartbeat.HeartbeatPunctualIff`, `Heartbeat.CancelledJobIsHandedOut`).
- A local lock file whose creator died before writing its owner is never reclaimed, though
  `docs/resume-recovery.md` lets a run reacquire its stale lock after a crash (`WriterLock.CrashOrphans`,
  `WriterLock.OrphanedForever`).
- A merge into a dataset that already holds merged parts, such as the output of an earlier repair, is written
  over them (`RepairExecution.MergeOverwritesEarlierParts`), and so are two merges of one plan
  (`RepairExecution.TwoMergesLoseParts`); `RepairExecution.Accounting` says in general what is lost.
- The executor does not follow the transition relation of `state.rs`, which nothing else in the program uses
  either: no success it records is a transition (`BatchExecutor.SuccessIsNoTransition`,
  `BatchExecutor.LegalMoveIff`). `BatchLifecycle.SuccessWasEarned` and `BatchLifecycle.SettledForever` are facts
  about that relation; `BatchExecutor.SuccessFollowsValidation` and `BatchExecutor.TerminalForever` are what
  holds of the records.
- A failed verification or an operation that is not allowed is never recorded as such, though
  `docs/batch-execution.md` lists blocked among the recorded classes: an operation without authorisation is
  skipped, a failed verification only goes into the manifest, and no error that maps to either state is ever
  built on the way (`BatchExecutor.NeverVerifying`, `BatchExecutor.MovesAreExactly`).
- Only a repair that ran is tried again. A storage failure while the source is scanned before it is permanent
  (`BatchExecutor.RetriesFollowRepairs`).
- A cancelled dataset is never resumed, though the relation would allow it and `docs/resume-recovery.md` says
  incomplete datasets remain resumable (`BatchExecutor.TerminalForever`).
- Two anchors can share a dataset id (`DatasetInference.AnchorIdsCollide`), which the validator does not mind.
- The S3 overlap test rejects prefixes that share nothing exactly when, without their outer slashes, one begins
  the other but is not followed by a slash, or the two have different numbers of leading slashes
  (`Overlap.OverlapIsConservative`); for a batch that is exactly what it costs (`Overlap.AcceptedIffDisjoint`).
- The inventory holds a file of the program's own directory exactly when the current version id is not a
  clean path (`InventoryExclusion.NothingExcludedIffClean`). Its order is by raw key, not by relative key as
  its module comment says.
- A page limit of zero never gets past the first page (`Listing.ZeroLimitNeverProgresses`); any other limit
  gets to the end exactly when no URI is repeated over more than a page (`Listing.ListingEndsIff`).
- A run interrupted with a dataset in flight can be reported as neither completed nor resumable
  (`BatchExecutor.StatusIff` says when, `BatchExecutor.CrashHasNoStatus` is such a crash), and a run whose
  unfinished datasets were cancelled as completed (`BatchLifecycle.CompletedButUnfinished`,
  `BatchExecutor.CancelledIsCompleted`).

## Model

| member | source | states |
|---|---|---|
| `JobQueue.Apply` | crates/paraclete-store/src/sqlite_store.rs:520-812 | A statement changes each row as a function of that row alone, drops none, and only an insert adds one. |
| `JobQueue.ExtendKeepsLegal` | crates/paraclete-store/src/sqlite_store.rs:520-812 | Any enabled statement continues a legal history. |
| `JobQueue.RowsStay` | crates/paraclete-store/src/sqlite_store.rs:520-812 | In every history rows are kept, submission times never change, attempts never go down, a terminal status is final. |
| `JobQueue.ReachableRowsOk` | crates/paraclete-store/src/sqlite_store.rs:520-812 | Every reachable row: queued means attempts below the limit, running means at least one and at most the limit, worker, heartbeat and lease are set exactly when running, the completion time exactly when terminal. |
| `JobQueue.LifecycleCount` | crates/paraclete-store/src/sqlite_store.rs:557-812 | The number of status changes of a job is fixed by its status and attempts, and it has entered a terminal status exactly once if it is terminal and never otherwise. |
| `JobQueue.LifecycleBound` | crates/paraclete-store/src/sqlite_store.rs:557-812 | At most twice the attempt limit status changes and at most one terminal entry, with any stale workers and racing cancels. |
| `JobQueue.CancelRequestSticks` | crates/paraclete-store/src/sqlite_store.rs:655-786 | A cancel request on a row survives lease expiry, requeue and new claims until the row is terminal, and is visible whenever the row is running. |
| `JobQueue.CancelClearedOnlyAtTheEnd` | crates/paraclete-store/src/sqlite_store.rs:683-812 | The flag is cleared exactly by a success or cancel completion of a running row, which makes it terminal. |
| `JobQueue.FlagIff` | crates/paraclete-store/src/sqlite_store.rs:520-812 | The cancel flag is on a row exactly when a cancel was requested while the job was running, in this or an earlier attempt, and it has not succeeded or been cancelled as a running job since; so never on a new job. |
| `JobQueue.AttemptsAreClaims` | crates/paraclete-store/src/sqlite_store.rs:557-593 | A job was attempted as often as it was claimed. |
| `JobQueue.QueuedRowTells` | crates/paraclete-store/src/sqlite_store.rs:520-669 | A queued row is as submitted, or a note says it was requeued; every other column is empty. |
| `JobQueue.RunningRowTells` | crates/paraclete-store/src/sqlite_store.rs:557-614 | A running row names the worker and time of its last claim, and the lease and heartbeat its worker set last, over every history. |
| `JobQueue.TerminalRowTells` | crates/paraclete-store/src/sqlite_store.rs:617-812 | A terminal row was written by one event, which could end the job in the state it was in and did so as the row says, and has not been touched since. |
| `JobQueue.StaleCancelIsHarmless` | crates/paraclete-store/src/sqlite_store.rs:730-776 | A cancel decided on a read of any age leaves a table whose job is terminal unchanged. |
| `JobQueue.RecoveryIsExact` | crates/paraclete-store/src/sqlite_store.rs:617-673 | In every history a recovery requeues or fails every running row whose lease end is past, by however much, takes it from its worker and keeps its attempts and cancel request; every other row is unchanged. |
| `JobQueue.NoExpiredLeaseLeft` | crates/paraclete-store/src/sqlite_store.rs:617-673 | After a recovery no running row has a lease that ended before its time. |
| `JobQueue.RecoveryGivesUpLast` | crates/paraclete-store/src/sqlite_store.rs:633-669 | A job whose lease ran out is failed exactly when that attempt was the last allowed one, and requeued otherwise, its cancel request kept. |
| `JobQueue.HeldStep` | crates/paraclete-store/src/sqlite_store.rs:596-632 | No single event other than its completion takes a running row from its owner while the clock is within the lease. |
| `JobQueue.OwnerKeepsLease` | crates/paraclete-service/src/worker.rs:58-119 | From claim on, a punctual owner still has the row in the same attempt and the clock is within the lease it last set. |
| `JobQueue.DeadlineNotPassed` | crates/paraclete-service/src/worker.rs:95-119 | Between two actions of a punctual owner the clock is within the lease. |
| `JobQueue.AtMostOneExecutor` | crates/paraclete-store/src/sqlite_store.rs:557-632 | If the clock never goes back and the owner renews or finishes in time, then from claim to completion no recovery changes the job and no claim hands it out, in every interleaving. |
| `JobQueue.LateOwnerCanFinishAnothersAttempt` | crates/paraclete-store/src/sqlite_store.rs:683-812 | For any job and two workers: a legal history in which the first, having claimed the job, finishes an attempt the second holds exists if and only if a job may be attempted twice. |
| `JobQueue.LateFinish` | crates/paraclete-store/src/sqlite_store.rs:683-708 | That history: claim, expiry, claim by another, completion by the first. |
| `JobQueue.OneWorkerPerAttempt` | crates/paraclete-store/src/sqlite_store.rs:557-614 | While a row runs in the same attempt its worker does not change. |
| `JobQueue.OnTimeFinishIsOwn` | crates/paraclete-service/src/worker.rs:95-144 | A completion made within the lease its worker last set finishes only an attempt that worker holds, or finds the job finished and changes nothing, whatever other workers do. |
| `Heartbeat.PunctualIff` | crates/paraclete-service/src/worker.rs:95-119 | A worker is punctual exactly when no two beats, nor the last beat and the end of the job, are more than a lease apart. |
| `Heartbeat.HeartbeatIsPunctual` | crates/paraclete-service/src/worker.rs:95-119 | A heartbeat that no cancel stops is punctual if interval and delay stay within the lease. |
| `Heartbeat.HeartbeatPunctualIff` | crates/paraclete-service/src/worker.rs:95-119 | Stopped by a cancel or not: punctual exactly when the delays stayed within the lease and the job ends within the lease of the last beat. |
| `Heartbeat.CancelledJobIsHandedOut` | crates/paraclete-service/src/worker.rs:95-119 | A legal history in which a cancelled job, renewed once more by the beat that saw the cancel and then no more, is handed to another worker while the first still runs it. |
| `JobQueue.BypassesByOneJob` | crates/paraclete-store/src/sqlite_store.rs:557-593 | A job overtakes another at most as often as it was attempted. |
| `JobQueue.OnlyNotYoungerBypass` | crates/paraclete-store/src/sqlite_store.rs:557-593 | Only a job that was not submitted later can be claimed while another is queued. |
| `JobQueue.BoundedBypass` | crates/paraclete-store/src/sqlite_store.rs:557-673 | Claims made past a queued job number at most the attempt limit times the jobs not younger than it. |
| `JobQueue.BoundedBypassInOrder` | crates/paraclete-store/src/sqlite_store.rs:520-673 | With strictly increasing submission times: at most the attempt limit times the jobs already there when it was submitted. |
| `JobStore.Store.constructor` | crates/paraclete-store/src/sqlite_store.rs:520-543 | The empty table has the empty history. |
| `JobStore.Store.InsertApplicationJob` | crates/paraclete-store/src/sqlite_store.rs:520-543 | Adds exactly one queued row, or rejects an id already there and changes nothing. |
| `JobStore.Store.OldestQueued` | crates/paraclete-store/src/sqlite_store.rs:557-593 | Finds a queued row with the least submission time, or that none is queued. |
| `JobStore.Store.ClaimNextQueued` | crates/paraclete-store/src/sqlite_store.rs:557-593 | Claims an oldest queued row, raises its attempts by one and sets worker and lease; nothing else changes; none exactly when no row is queued. |
| `JobStore.Store.RenewLease` | crates/paraclete-store/src/sqlite_store.rs:596-614 | Moves the lease exactly when the row is running under that worker. |
| `JobStore.Store.RecoverStale` | crates/paraclete-store/src/sqlite_store.rs:617-673 | Takes exactly the running rows whose lease end is past from their workers, requeues them or fails them by their attempts, leaves every other row alone, and counts the requeued and the failed rows. |
| `JobStore.Store.RecoverRows` | crates/paraclete-store/src/sqlite_store.rs:634-670 | The loop over the selected rows, with its two counters. |
| `JobStore.Store.Complete` | crates/paraclete-store/src/sqlite_store.rs:683-812 | Succeeds exactly on a running row, whoever owns it, and gives each kind of completion its columns; a failure keeps the cancel flag. |
| `JobStore.Store.RequestCancel` | crates/paraclete-store/src/sqlite_store.rs:730-776 | With nothing between read and update: missing and finished jobs are reported and unchanged, a queued job is cancelled, a running one carries the visible request, an already cancelled one stays; no other row changes. |
| `JobStore.Store.ApplyCancel` | crates/paraclete-store/src/sqlite_store.rs:735-776 | The update, any time after the read, succeeds exactly when the status is still the one read, and never changes a terminal row. |
| `JobStore.Store.JobCancelRequested` | crates/paraclete-store/src/sqlite_store.rs:778-786 | True exactly for a running row with the flag set. |
| `JobStore.Store.Beat` | crates/paraclete-service/src/worker.rs:95-119 | The heartbeat loop renews at every beat of a job that is not cancelled, exactly once of one whose cancel it sees, and never once its flag is set or the job is not its own; the lease is that of its last renewal. |
| `JobStore.Store.RunClaimedJob` | crates/paraclete-service/src/worker.rs:152-262 | Ends in exactly one terminal status: scans ignore cancels, the other kinds are cancelled when the flag was set before or seen after the work, and a failed job carries the label of its failure. |
| `RepairPlan.GreedyIsTopological` | crates/parqonaut-repair/src/deps.rs:62-80 | Always taking the least ready operation until all are taken gives a topological order. |
| `RepairPlan.GreedyIsLeast` | crates/parqonaut-repair/src/deps.rs:62-75 | It comes before every other topological order in dictionary order of ids. |
| `RepairPlan.TopologicalIsAcyclic` | crates/parqonaut-repair/src/deps.rs:38-82 | A plan with a topological order has no closed walk of dependencies. |
| `RepairPlan.StuckHasCycle` | crates/parqonaut-repair/src/deps.rs:77-80 | If something waits and nothing is ready, there is a dependency cycle. |
| `RepairPlan.GreedyDecides` | crates/parqonaut-repair/src/deps.rs:38-82 | A greedy order that ends stuck lists everything exactly when the plan is acyclic, and is then the least topological order. |
| `RepairPlan.LeastTopologicalIsUnique` | crates/parqonaut-repair/src/deps.rs:56-75 | There is at most one least topological order. |
| `RepairPlan.LeastTopologicalIgnoresListing` | crates/parqonaut-repair/src/deps.rs:56-75 | It is the same for every listing of the same operations. |
| `RepairOrder.RecordDependencies` | crates/parqonaut-repair/src/deps.rs:44-53 | Records one dependent per listed dependency, or finds the first unknown one. |
| `RepairOrder.AddOperation` | crates/parqonaut-repair/src/deps.rs:43-54 | One operation more: the graph of the listing so far, or the first unknown dependency. |
| `RepairOrder.BuildGraph` | crates/parqonaut-repair/src/deps.rs:39-60 | Counters and dependents agree with the listed dependencies, or the first unknown dependency is named. |
| `RepairOrder.InitiallyReady` | crates/parqonaut-repair/src/deps.rs:56-57 | Exactly the operations without dependencies, once each. |
| `RepairOrder.ReadyList` | crates/parqonaut-repair/src/deps.rs:56-75 | With distinct ids the ready list holds exactly the operations all of whose dependencies are emitted. |
| `RepairOrder.Release` | crates/parqonaut-repair/src/deps.rs:65-72 | Lowers each counter by the number of times it is served and keeps waiting and emitted operations in balance with the counters. |
| `RepairOrder.Emit` | crates/parqonaut-repair/src/deps.rs:62-75 | One turn keeps the loop invariant: what is emitted is a greedy order. |
| `RepairOrder.SortByDependencies` | crates/parqonaut-repair/src/deps.rs:38-82 | Succeeds exactly for distinct ids and known, acyclic dependencies; then permutes the operations into the least of all topological orders; an unknown dependency is reported exactly when there is one, and it is the first. |
| `RepairOrder.AssignedMeaning` | crates/parqonaut-repair/src/deps.rs:8-35 | Layered dependencies: sorted by layer and id, each operation depending on exactly the operations of lower layers, ids kept. |
| `RepairOrder.AssignedIsStaged` | crates/parqonaut-repair/src/deps.rs:8-35 | By kind of action: schema changes go first and do not wait for each other, then splits, row group sizes, compression, statistics, merges, repartitioning; each operation depends on exactly those that go before it, which are the first ones listed; nothing but the dependencies of an operation changes. |
| `RepairOrder.SortInPlace` | crates/parqonaut-repair/src/deps.rs:9-25 | Sorts the array in place by layer, then id. |
| `RepairOrder.LinkLayers` | crates/parqonaut-repair/src/deps.rs:27-34 | Rewrites the dependency list of every array element. |
| `RepairOrder.AssignDependencies` | crates/parqonaut-repair/src/deps.rs:8-35 | The array afterwards is layered and staged by kind of action, and holds the same operations but for their dependencies. |
| `RepairOrder.LayeredOrderIsLeast` | crates/parqonaut-repair/src/deps.rs:8-82 | The order a layered plan is in is its least topological order. |
| `RepairOrder.PlanOrder` | crates/parqonaut-repair/src/deps.rs:8-82 | After assigning dependencies, sorting returns exactly the order left in place; with a repeated id it reports a cycle. |
| `RepairOrder.ResultIgnoresListing` | crates/parqonaut-repair/src/deps.rs:38-82 | Two listings of the same operations sort to the same sequence. |
| `RepairExecution.PartNamesDiffer` | crates/parqonaut-repair/src/execute.rs:281-311 | Generated part names with different numbers differ, past four digits too. |
| `RepairExecution.PadShape` | crates/parqonaut-repair/src/execute.rs:284-309 | A part number has four digits, or as many as it needs, and reads as the number. |
| `RepairExecution.PutContent` | crates/parqonaut-repair/src/execute.rs:281-311 | Writing files loses exactly the rows of the files written over. |
| `RepairExecution.PutMeaning` | crates/parqonaut-repair/src/execute.rs:276-311 | Inputs are replaced by the parts, numbered from zero; every other file stays. |
| `RepairExecution.TakenMeaning` | crates/parqonaut-repair/src/execute.rs:255-260 | A merge takes the inputs that are there, in the order listed. |
| `RepairExecution.EachMeaning` | crates/parqonaut-repair/src/execute.rs:355-418 | Working through a list rewrites each file as often as it is named, changes no other, and fails exactly if one of these rewrites does. |
| `RepairExecution.AppliedMeaning` | crates/parqonaut-repair/src/execute.rs:246-342 | For each kind of action, by the call it makes of the transforms: exactly which files change and to what, or why it fails. |
| `RepairExecution.Accounting` | crates/parqonaut-repair/src/execute.rs:246-342 | For every operation that succeeds: rows after plus rows lost equals rows before plus rows gained, with both named exactly. |
| `RepairExecution.MergeAccounting` | crates/parqonaut-repair/src/execute.rs:254-288 | The same for a merge, inputs missing or named twice included. |
| `RepairExecution.SplitAccounting` | crates/parqonaut-repair/src/execute.rs:289-313 | The same for a split, an input read back from the source included. |
| `RepairExecution.EachKeepsContent` | crates/parqonaut-repair/src/execute.rs:395-418 | Rewriting listed files by a row-conserving transform conserves all rows. |
| `RepairExecution.EachKeepsCount` | crates/parqonaut-repair/src/execute.rs:355-393 | Casting and renaming conserve the number of rows. |
| `RepairExecution.CleanLosesNothing` | crates/parqonaut-repair/src/execute.rs:246-342 | Distinct merge inputs, a split input still there and free names mean nothing is lost or gained. |
| `RepairExecution.RunAccounting` | crates/parqonaut-repair/src/execute.rs:151-223 | Over any run the row count changes by what was gained and lost, so it is conserved if and only if these agree. |
| `RepairExecution.RunConserves` | crates/parqonaut-repair/src/execute.rs:151-223 | A run of clean operations conserves the number of rows. |
| `RepairExecution.RunKeepsRows` | crates/parqonaut-repair/src/execute.rs:151-223 | If none of them changes values, it conserves the rows themselves. |
| `RepairExecution.MergeOverwritesEarlierParts` | crates/parqonaut-repair/src/execute.rs:254-288 | A merge of distinct inputs, into any number of parts, loses exactly the rows of the files its parts are written over; it loses any if and only if a file with a part's name that is not an input has rows, as after an earlier repair. |
| `RepairExecution.TwoMergesLoseParts` | crates/parqonaut-repair/src/execute.rs:254-288 | Of two merges in one plan, the second not taking the parts of the first: as many parts of the first are lost as the second writes, and nothing else. |
| `RepairExecution.Workspace.Names` | crates/parqonaut-repair/src/execute.rs:344-353 | Lists the working set in name order. |
| `RepairExecution.Workspace.TransformEach` | crates/parqonaut-repair/src/execute.rs:355-418 | Transforms the named files in turn and stops at the first failure. |
| `RepairExecution.Workspace.PutAll` | crates/parqonaut-repair/src/execute.rs:281-311 | Inserts the produced parts under their names. |
| `RepairExecution.Workspace.ApplyOperation` | crates/parqonaut-repair/src/execute.rs:246-342 | Does to the working set what the action says, by the transform calls it makes and the names it writes, or fails as it says; none listed means every file. |
| `RepairExecution.Workspace.WorkThrough` | crates/parqonaut-repair/src/execute.rs:163-221 | The loop: the permitted operations are applied in the order given, and executed, skipped and audit lists say so. |
| `RepairExecution.Workspace.RunRepairOperations` | crates/parqonaut-repair/src/execute.rs:151-223 | Works through the operations in the least topological order; an operation is executed exactly when it is safe, or needs review and was authorised, and skipped otherwise; the audit has one record for each, which says why. |
| `WriterLock.StepKeepsConsistent` | crates/parqonaut-storage/src/locking.rs:39-121 | Every operation, error and crash keeps holders, deleters and writers in agreement with the lock object. |
| `WriterLock.AlwaysConsistent` | crates/parqonaut-storage/src/locking.rs:39-121 | That agreement holds in every reachable state with at most one live process per run. |
| `WriterLock.MutualExclusion` | crates/parqonaut-storage/src/locking.rs:39-121 | Over all interleavings with crashes and restarts at most one process holds the lock and the record names its run; for the remote object and for the local file. |
| `WriterLock.DeletesOnlyItsOwn` | crates/parqonaut-storage/src/locking.rs:75-121 | Whoever removes the lock, in reclaiming or releasing, removes one that names its own run. |
| `WriterLock.LockChangesIff` | crates/parqonaut-storage/src/locking.rs:39-121 | In every run a lock comes into being exactly by a create that takes effect, goes exactly by a delete or release that does, and changes otherwise only when its owner is written. |
| `WriterLock.WritesIntoItsOwn` | crates/parqonaut-orchestrator/src/lock.rs:41-46 | The owner is only written into the blank file its process created. |
| `WriterLock.HoldingIff` | crates/parqonaut-storage/src/locking.rs:39-121 | A process comes to hold the lock exactly by creating it or writing itself into it, and ceases to exactly by releasing it or crashing; no other process can make it. |
| `WriterLock.RejectedIff` | crates/parqonaut-storage/src/locking.rs:52-96 | When a process is turned away, as an if-and-only-if. |
| `WriterLock.GoesOnTo` | crates/parqonaut-storage/src/locking.rs:52-96 | Where a process that is not turned away goes on. |
| `WriterLock.ReleasedLockIsFree` | crates/parqonaut-storage/src/locking.rs:98-121 | A release that succeeds leaves no lock, and any process of any run then gets it by its own steps. |
| `WriterLock.SecondProcessOfRunSteals` | crates/parqonaut-storage/src/locking.rs:75-96 | From every state with a second live process of the holder's run, that process alone can become a second holder. |
| `WriterLock.OrphanedForever` | crates/parqonaut-orchestrator/src/lock.rs:31-63 | A lock file left without owner by a crash is never acquired again, in any continuation. |
| `WriterLock.CrashOrphans` | crates/parqonaut-orchestrator/src/lock.rs:41-46 | A legal run from an absent lock, with one process, that a crash between create and owner write ends in such a file. |
| `WriterLock.LockService.constructor` | crates/parqonaut-storage/src/locking.rs:39-50 | Starts with the lock an earlier process left. |
| `WriterLock.LockService.Perform` | crates/parqonaut-storage/src/locking.rs:39-121 | One operation of one process keeps the agreement. |
| `WriterLock.LockService.SpawnProcess` | crates/parqonaut-orchestrator/src/lock.rs:31-40 | A process of a run that has none alive keeps it too. |
| `WriterLock.LockService.ReleaseLock` | crates/parqonaut-storage/src/locking.rs:98-121 | The lock is gone, its process is idle and no other process changes. |
| `WriterLock.LockService.TryCreate` | crates/parqonaut-orchestrator/src/lock.rs:31-63 | Creating and, for a file, writing the owner: holds the lock if there was none, otherwise goes on to read it or is rejected after one retry. |
| `WriterLock.LockService.Reclaim` | crates/parqonaut-storage/src/locking.rs:75-96 | Takes over a lock of the same run and rejects any other without touching it. |
| `WriterLock.LockService.Acquire` | crates/parqonaut-storage/src/locking.rs:39-73 | Undisturbed, a process gets the lock exactly when there is none or it names its run, and otherwise leaves it as it is. |
| `ScanReport.TrimEmptyIffBlank` | crates/paraclete-types/src/validation.rs:88-91 | Trimming leaves nothing exactly when every character is white space. |
| `ScanReport.SpaceIff` | crates/paraclete-types/src/validation.rs:88-91 | Which characters trimming takes for white space, by code point. |
| `ScanReport.CountsAddUp` | crates/paraclete-types/src/validation.rs:116-118 | The three status counts always add up to the number of records, so that check never fires. |
| `ScanReport.CheckRecord` | crates/paraclete-types/src/validation.rs:83-107 | Decides whether the fields of a record fit its status. |
| `ScanReport.CountAssets` | crates/paraclete-types/src/validation.rs:70-118 | Reports a bad record before a wrong counter, and accepts exactly when records and counters are right. |
| `ScanReport.RecordedDecides` | crates/paraclete-types/src/validation.rs:120-130 | The membership map answers with the last record of a path that names a dataset. |
| `ScanReport.CheckMembership` | crates/paraclete-types/src/validation.rs:120-135 | Accepts exactly when every dataset file is claimed for that dataset. |
| `ScanReport.ValidateReport` | crates/paraclete-types/src/validation.rs:46-138 | Accepts exactly the consistent reports and names the first broken invariant in a fixed order. |
| `ScanReport.ApplyRedactionPolicy` | crates/paraclete-types/src/run.rs:239-262 | Hints, probe and payloads go exactly when their own switch is set, messages are cut off after the limit, and nothing else changes. |
| `ScanReport.RedactionKeepsValidity` | crates/paraclete-types/src/run.rs:239-262 | Redacting a valid report gives a valid one if and only if each failed asset keeps a non-blank character within the limit. |
| `ScanReport.RedactionIsIdempotent` | crates/paraclete-types/src/run.rs:239-262 | Redacting twice is redacting once. |
| `DatasetInference.DatasetAnchorKey` | crates/paraclete-core/src/dataset_infer.rs:74-87 | The stack loop leaves exactly the directories up to the last one that is not `key=value`. |
| `DatasetInference.AnchorOfPath` | crates/paraclete-core/src/dataset_infer.rs:74-87 | The anchor of a file below the root is its directories up to the last that is not `key=value`, joined by slashes, whatever the file is called. |
| `DatasetInference.AnchorOutside` | crates/paraclete-core/src/dataset_infer.rs:75 | For a file outside the root they are all its directories. |
| `DatasetInference.SameDirectorySameAnchor` | crates/paraclete-core/src/dataset_infer.rs:74-87 | Files of one directory have one anchor. |
| `DatasetInference.SameAnchorIff` | crates/paraclete-core/src/dataset_infer.rs:74-87 | Two files have one anchor exactly when their directories agree up to trailing partitions. |
| `DatasetInference.AnchorLengthIsUnique` | crates/paraclete-core/src/dataset_infer.rs:74-87 | There is one such place to cut. |
| `DatasetInference.AnchorIdsCollide` | crates/paraclete-core/src/dataset_infer.rs:89-95 | Two anchors share an id exactly when one is empty and the other is `default`. |
| `DatasetInference.HiveSegmentIff` | crates/paraclete-core/src/dataset_infer.rs:23-27 | A name is a partition segment exactly when it is a non-empty key of letters, digits and underscores, an equals sign and a non-empty value. |
| `DatasetInference.KeyCharIff` | crates/paraclete-core/src/dataset_infer.rs:25 | The characters of a partition key, by their codes. |
| `DatasetInference.SegmentsOfNext` | crates/paraclete-core/src/dataset_infer.rs:30-47 | The partitions of a path are its `key=value` components in order, and no others. |
| `DatasetInference.PartNamedIff` | crates/paraclete-core/src/dataset_infer.rs:101-105 | A part file is named `part-` or `part_`, anything, and `.parquet` or `.pq`, in any case. |
| `DatasetInference.SignatureIgnoresColumnOrder` | crates/paraclete-core/src/dataset_infer.rs:50-55 | Schemas with the same columns in any order have the same signature. |
| `DatasetInference.SignatureIff` | crates/paraclete-core/src/dataset_infer.rs:50-55 | Schemas whose texts do not hold the separators have one signature exactly when they list the same columns. |
| `DatasetInference.GroupBy` | crates/paraclete-core/src/dataset_infer.rs:113-131 | Sorted-map grouping: keys strictly increasing, every path under its own key, each as often as given. |
| `DatasetInference.GroupMembers` | crates/paraclete-core/src/dataset_infer.rs:113-131 | A path is in a group exactly when it was given and has that key. |
| `DatasetInference.SeveralGroups` | crates/paraclete-core/src/dataset_infer.rs:133 | More than one signature group exactly when two inspected files disagree. |
| `DatasetInference.SplitBySchema` | crates/paraclete-core/src/dataset_infer.rs:138-151 | One dataset per signature; together they hold the inspected files of the bucket. |
| `DatasetInference.BucketDatasets` | crates/paraclete-core/src/dataset_infer.rs:120-170 | A bucket is split exactly when its schemas differ and not all files are inspected part files; either way nothing is lost. |
| `DatasetInference.BuiltTells` | crates/paraclete-core/src/dataset_infer.rs:176-208 | A dataset lists its files with their partitions, is partitioned exactly when one of them is, and has the schema of the first file that has one. |
| `DatasetInference.InferDatasets` | crates/paraclete-core/src/dataset_infer.rs:108-174 | Every dataset is a whole bucket or a schema slice of one with its id, kind, layout and sorted files; alike files are never apart; the datasets hold each inspected path as often as given; they are sorted by id. |
| `DatasetInference.ExactlyOneDataset` | crates/paraclete-core/src/dataset_infer.rs:108-174 | Every inspected path is a file of exactly one dataset. |
| `DatasetInference.FilesAreTheInspected` | crates/paraclete-core/src/dataset_infer.rs:108-174 | The files of all datasets are exactly the inspected paths. |
| `DatasetInference.SameDirectorySameDataset` | crates/paraclete-core/src/dataset_infer.rs:108-174 | In a scan two inspected files of one directory with the same columns are in one dataset. |
| `DatasetInference.MixedSchemasTogetherIff` | crates/paraclete-core/src/dataset_infer.rs:120-170 | Two files with one anchor and different schemas, all files inspected, are in one dataset exactly when every file with that anchor is named as a part file. |
| `DatasetInference.OneDatasetOneAnchor` | crates/paraclete-core/src/dataset_infer.rs:89-174 | Files of one dataset have one anchor, and the id of the dataset says which. |
| `DatasetInference.DatasetTells` | crates/paraclete-core/src/dataset_infer.rs:30-47 | Each file of a dataset is listed with the partitions of its path below the root. |
| `ScanBuilder.OnlyPluginErrorsAreBlank` | crates/paraclete-core/src/error.rs:7-24 | The engine's own errors never print as blank text. |
| `ScanBuilder.FailureKinds` | crates/paraclete-core/src/failure_map.rs:7-16 | Which kind of failure each error is recorded as, as if-and-only-ifs. |
| `ScanBuilder.LocalRecordTells` | crates/paraclete-core/src/scan_engine.rs:53-147 | What the record of a local asset says, by its format and what its inspection came to. |
| `ScanBuilder.RemoteRecordTells` | crates/parqonaut-repair/src/storage_scan.rs:183-211 | The same for a remote object: only Parquet is opened and any failure is one of reading. |
| `ScanBuilder.InspectLocal` | crates/paraclete-core/src/scan_engine.rs:50-147 | One record per asset in order, and an inspection map of exactly the inspected Parquet paths, with the spelling of the first and the inspection of the last file of a path. |
| `ScanBuilder.InspectRemote` | crates/parqonaut-repair/src/storage_scan.rs:179-211 | The same for remote objects, of which only Parquet ones are opened. |
| `ScanBuilder.OkPaths` | crates/paraclete-core/src/scan_engine.rs:164 | The paths of the inspection map, in order, each once. |
| `ScanBuilder.IndexFiles` | crates/paraclete-core/src/scan_engine.rs:169-172 | Every dataset file is indexed, and every entry comes from a file of the dataset it names. |
| `ScanBuilder.IndexIsExact` | crates/paraclete-core/src/scan_engine.rs:169-172 | Looked up by any spelling, a file's path gives its own dataset. |
| `ScanBuilder.LinkRecords` | crates/paraclete-core/src/scan_engine.rs:173-181 | Fills in the dataset of exactly the inspected Parquet records. |
| `ScanBuilder.FileIsClaimed` | crates/paraclete-core/src/scan_engine.rs:164-181 | Every dataset file is claimed, last of all, by a record for that dataset. |
| `ScanBuilder.ReportVerdict` | crates/paraclete-core/src/scan_engine.rs:209-260 | The validator's verdict on an assembled report depends only on blank error texts. |
| `ScanBuilder.Assemble` | crates/paraclete-core/src/scan_engine.rs:164-262 | Infer, link, count, validate: valid exactly when no failure text is blank; the scan id is the request's, the findings are those of the rules in stable order of their codes. |
| `ScanBuilder.ScanLocal` | crates/paraclete-core/src/scan_engine.rs:40-262 | For all plans and inspection outcomes the local report validates if and only if no failed asset has a blank text; its records are the sorted assets with their outcome and dataset, its datasets partition the inspected paths, its findings are the given ones in stable order. |
| `ScanBuilder.ScanRemote` | crates/parqonaut-repair/src/storage_scan.rs:163-318 | The same for the remote builder. |
| `ScanBuilder.EngineErrorsAreReadable` | crates/paraclete-core/src/error.rs:7-24 | Inspections that fail with the engine's own errors leave readable records. |
| `Paths.PathOrder` | crates/paraclete-core/src/scan_engine.rs:43 | Paths sort by components; spellings of one path tie. |
| `Paths.KeyLessIff` | crates/paraclete-core/src/scan_engine.rs:43 | A path comes before another exactly when, at the first component where they differ, it is at its end or has the smaller one. |
| `Paths.ComponentLessIff` | crates/paraclete-core/src/scan_engine.rs:43 | The order of components: root, current directory, parent directory, names in text order. |
| `Text.LessIff` | crates/parqonaut-repair/src/deps.rs:24 | A text comes before another exactly when, at the first character where they differ, it is at its end or has the smaller code point. |
| `Sorting.SortIsStable` | crates/paraclete-core/src/scan_engine.rs:43 | Sorting keeps elements that tie in their order. |
| `Locations.LocalKeyLocates` | crates/parqonaut-storage/src/inventory.rs:169-176 | The relative key of a local object, appended to the dataset's path, names the object's path again. |
| `Locations.LocalKeysTellApart` | crates/parqonaut-storage/src/inventory.rs:169-176 | Below a dataset with a path of its own, objects with the same key are the same path. |
| `Overlap.OverlapIsSound` | crates/parqonaut-repair/src/execute_storage.rs:208-227 | Two locations with a common object, by the inventory's own membership test, are reported as overlapping. |
| `Overlap.LocalOverlapIsExact` | crates/parqonaut-repair/src/fingerprint.rs:106-108 | Local locations overlap exactly when they share an object. |
| `Overlap.PrefixesShareIff` | crates/parqonaut-storage/src/inventory.rs:177-190 | When two S3 prefixes really share an object. |
| `Overlap.OverlapIsConservative` | crates/parqonaut-repair/src/execute_storage.rs:208-227 | For any two locations: rejected without a shared object exactly when they are S3 prefixes of one bucket, neither empty, one beginning the other without outer slashes, and followed by something else than a slash or with another number of leading slashes. |
| `Overlap.OverlapIff` | crates/parqonaut-repair/src/execute_storage.rs:208-227 | The test answers whether an object is shared or the locations are confusable in that way, never both. |
| `Overlap.ParsedOverlapIsExactIff` | crates/parqonaut-storage/src/location.rs:223 | For prefixes as a parsed URI has them the test is exact if and only if the buckets differ, a prefix is empty, or neither runs on into the other without a slash. |
| `Overlap.RejectedForNothing` | crates/parqonaut-repair/src/execute_storage.rs:216-227 | `out` beside `out2`, and `/out` beside `out`, are confusable. |
| `Overlap.CrossOverlap` | crates/parqonaut-orchestrator/src/overlap.rs:42-63 | Finds an overlapping pair of sides of two datasets, or that none of the four overlaps. |
| `Overlap.ValidateBatchOverlap` | crates/parqonaut-orchestrator/src/overlap.rs:18-40 | A rejection names locations that overlap. |
| `Overlap.AcceptedIff` | crates/parqonaut-orchestrator/src/overlap.rs:18-40 | Accepts exactly when no two locations of the batch overlap. |
| `Overlap.AcceptedBatchIsDisjoint` | crates/parqonaut-orchestrator/src/overlap.rs:18-63 | In an accepted batch every object lies under at most one source or output. |
| `Overlap.AcceptedIffDisjoint` | crates/parqonaut-orchestrator/src/overlap.rs:18-63 | A batch of any locations is accepted exactly when that holds and no two of its locations are confusable. |
| `Overlap.LocalBatchIsExact` | crates/parqonaut-orchestrator/src/overlap.rs:18-63 | For local datasets, accepted exactly when that holds. |
| `Listing.Resume` | crates/parqonaut-storage/src/local.rs:150-158 | Resumes after the first entry the token names, or at the end for an unknown token. |
| `Listing.Collect` | crates/parqonaut-storage/src/local.rs:170-178 | Splits a page into objects, in order, and prefixes. |
| `Listing.ObjectsMeaning` | crates/parqonaut-storage/src/local.rs:170-178 | A recursive listing reports every entry as an object, any other its files, and its directories as prefixes. |
| `Listing.List` | crates/parqonaut-storage/src/local.rs:147-185 | The page of the sorted entries from there, up to the limit, with its truncation flag and token. |
| `Listing.ListAll` | crates/parqonaut-storage/src/local.rs:147-168 | For distinct URIs and a limit of at least one, following the tokens ends and yields the whole sorted listing, nothing skipped or repeated. |
| `Listing.TokenResumes` | crates/parqonaut-storage/src/local.rs:150-168 | A page resumes exactly where the one before stopped. |
| `Listing.ZeroLimitNeverProgresses` | crates/parqonaut-storage/src/local.rs:160-168 | A limit of zero asks for the same empty page for ever. |
| `Listing.AsksByToken` | crates/parqonaut-storage/src/local.rs:150-168 | Which request the token of a page leads to. |
| `Listing.StaysBefore` | crates/parqonaut-storage/src/local.rs:150-168 | No number of requests gets past a URI repeated over more than a page. |
| `Listing.ListingEndsIff` | crates/parqonaut-storage/src/local.rs:150-168 | For any limit of at least one: following the tokens of a sorted listing ends if and only if no URI is repeated over more than a page, the last entry aside. |
| `Inventory.MergePages` | crates/parqonaut-storage/src/inventory.rs:51-63 | The objects of all pages in order. |
| `Inventory.Retain` | crates/parqonaut-storage/src/inventory.rs:65-70 | Keeps exactly the objects that pass. |
| `Inventory.Dedup` | crates/parqonaut-storage/src/inventory.rs:83 | Of a sorted list leaves strictly increasing keys, every key once. |
| `Inventory.BuildInventory` | crates/parqonaut-storage/src/inventory.rs:47-86 | Strictly increasing by raw key, only listed objects, every listed key. |
| `Inventory.InventoryIsCanonical` | crates/parqonaut-storage/src/inventory.rs:47-86 | Any split, order and repetition of the same objects gives the same inventory, one entry for each listed object. |
| `Inventory.ListedBySortKey` | crates/parqonaut-storage/src/inventory.rs:159-193 | Metadata that is the same for a location makes raw keys tell listed objects apart. |
| `Inventory.PagesDoNotMatter` | crates/parqonaut-storage/src/inventory.rs:47-86 | Two listings of one dataset with the same objects, in any pages, have the same inventory. |
| `Inventory.ListRemoteInventory` | crates/parqonaut-storage/src/inventory.rs:47-129 | The above for the program's own keys, exclusions and published fallback. |
| `Inventory.ExcludedIff` | crates/parqonaut-storage/src/inventory.rs:133-150 | A key is excluded exactly when it is nothing but slashes, ends as a lock or a manifest of the program, or has a segment of its own directories, leading slashes or not. |
| `InventoryExclusion.ExcludedParquet` | crates/parqonaut-storage/src/inventory.rs:133-150 | A Parquet key is excluded exactly for one of its segments. |
| `InventoryExclusion.PublishedKey` | crates/parqonaut-storage/src/inventory.rs:40-44 | What the logical key of a file under a version's data directory is, for every version id. |
| `InventoryExclusion.SingleComponentIsClean` | crates/parqonaut-storage/src/inventory.rs:40-44 | A version id without a slash is clean. |
| `InventoryExclusion.CleanFallbackIsCovered` | crates/parqonaut-storage/src/inventory.rs:88-129 | For a clean version every file the fallback would add is in the inventory already. |
| `InventoryExclusion.UncleanVersionLeaks` | crates/parqonaut-storage/src/inventory.rs:76-80 | For any other version one object suffices to put an excluded entry into the inventory. |
| `InventoryExclusion.NothingExcludedIffClean` | crates/parqonaut-storage/src/inventory.rs:65-80 | No inventory entry has an excluded logical key if and only if the current version is clean. |
| `InventoryExclusion.NothingExcludedWithoutVersion` | crates/parqonaut-storage/src/inventory.rs:93-111 | Without a committed version, and for local datasets, none has. |
| `InventoryExclusion.InInventoryIff` | crates/parqonaut-storage/src/inventory.rs:47-86 | An object is in the inventory exactly when it is listed, if a location has one metadata. |
| `InventoryExclusion.OutsideNeverListed` | crates/parqonaut-storage/src/inventory.rs:65-70 | Nothing outside the dataset is in its inventory. |
| `InventoryExclusion.OrdinaryObjectListed` | crates/parqonaut-storage/src/inventory.rs:65-86 | Outside the directory of versions the inventory holds exactly the objects whose own key is not excluded. |
| `InventoryExclusion.VersionedObjectListed` | crates/parqonaut-storage/src/inventory.rs:40-86 | Of a version's data it holds exactly the objects whose name under the data directory is not excluded. |
| `Relay.ChannelStep` | crates/parqonaut-columnar/src/channel.rs:46-62 | Every step keeps received plus queued equal to what was sent, and the queue within capacity. |
| `Relay.SystemStep` | crates/parqonaut-columnar/src/channel.rs:16-62 | Every step of any relay keeps all relays and the counter in order and never lowers the counter. |
| `Relay.AlwaysOk` | crates/parqonaut-columnar/src/channel.rs:16-62 | So does every run. |
| `Relay.ConsumerSeesPrefix` | crates/parqonaut-columnar/src/channel.rs:37-63 | In every interleaving a consumer has seen a prefix of the input, perhaps followed by one cancellation and nothing more; the queue is within capacity, four if zero was asked for. |
| `Relay.NothingLost` | crates/parqonaut-columnar/src/channel.rs:46-62 | A stream that ends while its consumer listens delivered everything, or a prefix and the cancellation. |
| `Relay.CancelIsSent` | crates/parqonaut-columnar/src/channel.rs:46-62 | A relay that decided to cancel sends no more of its input, and when it is done with its consumer listening it has sent the cancellation. |
| `Relay.OnlyCancelledSendIt` | crates/parqonaut-columnar/src/channel.rs:46-62 | Only such a relay sends one. |
| `Relay.NeverStuck` | crates/parqonaut-columnar/src/channel.rs:37-63 | In every reachable state a relay that is not done can go on, or its consumer can take something. |
| `Relay.DeliversAll` | crates/parqonaut-columnar/src/channel.rs:37-63 | For every input and capacity, zero included, some run delivers all of it and ends. |
| `Relay.ChannelFillsUp` | crates/parqonaut-columnar/src/channel.rs:37-45 | The capacity, four if zero was asked for, is reached by some run, so the bound on the queue is tight. |
| `Relay.SendsAreSampled` | crates/parqonaut-columnar/src/channel.rs:46-62 | What a send puts into the channel, and that it is followed by a sample exactly when there is a counter. |
| `Relay.DepthsAreSampled` | crates/parqonaut-columnar/src/channel.rs:16-29 | The recorded depths are exactly the lengths of queues sampled so far. |
| `Relay.StillRecording` | crates/parqonaut-columnar/src/channel.rs:16-29 | A recording call returns only when the counter has reached its depth, stale loads and spurious failures included. |
| `Relay.PeakIsMonotone` | crates/parqonaut-columnar/src/channel.rs:16-29 | The counter never goes down. |
| `Relay.PeakIsMaximum` | crates/parqonaut-columnar/src/channel.rs:16-29 | It never exceeds the largest capacity, and once all calls have returned it is the largest recorded depth. |
| `Relay.BackpressureStats.constructor` | crates/parqonaut-columnar/src/channel.rs:10-13 | Starts at zero. |
| `Relay.BackpressureStats.RecordDepth` | crates/parqonaut-columnar/src/channel.rs:16-29 | Uninterrupted, and after any number of spurious failures, the counter is the larger of its old value and the depth. |
| `BatchLifecycle.LastChange` | crates/parqonaut-orchestrator/src/state.rs:65-96 | A trace that has left its first state has a last change, and is its trace up to there with one state more. |
| `BatchLifecycle.EnteredFrom` | crates/parqonaut-orchestrator/src/state.rs:73-96 | The relation read by target: from which states each state can be entered. |
| `BatchLifecycle.StatesDivide` | crates/parqonaut-orchestrator/src/state.rs:27-63 | Every state is waiting, in flight or terminal and only one of these; the settled ones are those with no arrow out; recovery changes exactly those in flight. |
| `BatchLifecycle.SuccessWasEarned` | crates/parqonaut-orchestrator/src/state.rs:55-96 | On every trace along the transition relation and crash recovery, success is reached through running, repair complete and verifying, in that order, last. |
| `BatchLifecycle.SettledForever` | crates/parqonaut-orchestrator/src/state.rs:27-96 | The five settled states are never left. |
| `BatchLifecycle.CancelledIsNotSettled` | crates/parqonaut-orchestrator/src/state.rs:28-95 | Cancelled is terminal and can still be resumed. |
| `BatchLifecycle.DatasetRun.constructor` | crates/parqonaut-orchestrator/src/state.rs:6-19 | A dataset starts pending. |
| `BatchLifecycle.DatasetRun.ApplyTransition` | crates/parqonaut-orchestrator/src/state.rs:65-102 | Moves exactly along the relation, and otherwise names the pair and changes nothing. |
| `BatchLifecycle.DatasetRun.Recover` | crates/parqonaut-orchestrator/src/state.rs:55-63 | Recovery extends the trace and leaves nothing in flight. |
| `BatchLifecycle.Journal.constructor` | crates/parqonaut-orchestrator/src/run.rs:267-280 | An empty journal. |
| `BatchLifecycle.Journal.Upsert` | crates/parqonaut-orchestrator/src/run.rs:276 | Replaces the record of that dataset or appends it. |
| `BatchLifecycle.Journal.RecoverJournalStates` | crates/parqonaut-orchestrator/src/run.rs:267-280 | Recovers every record in place and nothing else. |
| `BatchLifecycle.RecoverySettles` | crates/parqonaut-orchestrator/src/run.rs:267-280 | Recovery is idempotent, leaves no record in flight, changes no settled record, and changes a record exactly when it was in flight, into a recoverable failure that names the state it was in. |
| `BatchLifecycle.CompleteIff` | crates/parqonaut-orchestrator/src/run.rs:282-290 | A run is complete exactly when every planned dataset has a terminal record. |
| `BatchLifecycle.StatusGap` | crates/parqonaut-orchestrator/src/run.rs:308-316 | For every plan and journal: completed and resumable never hold together; neither holds exactly for an uncancelled run with enough records, none waiting, and a planned dataset in flight or without record. |
| `BatchLifecycle.RecoveredStatusIff` | crates/parqonaut-orchestrator/src/run.rs:267-316 | After recovery exactly one of them holds, except for an uncancelled run with enough records, none waiting, and a planned dataset without one. |
| `BatchLifecycle.RecoveredRunHasStatus` | crates/parqonaut-orchestrator/src/run.rs:267-316 | For every plan, repeated ids included: only a record of a dataset outside the plan can bring that exception about. |
| `BatchLifecycle.CompletedButUnfinished` | crates/parqonaut-orchestrator/src/run.rs:282-316 | For every plan and journal: a run is completed with an unfinished dataset exactly when all are terminal and one was cancelled. |
| `BatchExecutor.LifeStep` | crates/parqonaut-orchestrator/src/executor/mod.rs:157-382 | Every step of the executor, crash and resume keeps what holds of a life, and a terminal record as it is. |
| `BatchExecutor.AlwaysOk` | crates/parqonaut-orchestrator/src/executor/mod.rs:157-582 | So does every life of a run. |
| `BatchExecutor.TerminalForever` | crates/parqonaut-orchestrator/src/executor/mod.rs:161-171 | Over every life of a run, with crashes, resumes and lost writes, a terminal record is never left, a cancelled one included. |
| `BatchExecutor.NeverVerifying` | crates/parqonaut-orchestrator/src/executor/mod.rs:274-657 | No record is ever pending, repair complete, verifying, verification failed or blocked. |
| `BatchExecutor.RetriesFollowRepairs` | crates/parqonaut-orchestrator/src/executor/mod.rs:335-357 | Whatever is tried again is a repair that ran and failed recoverably; no failure before it is retried. |
| `BatchExecutor.LostWriteIsLost` | crates/parqonaut-orchestrator/src/executor/mod.rs:698-702 | A write that fails leaves the record as it was. |
| `BatchExecutor.LeavesBeforeStart` | crates/parqonaut-orchestrator/src/executor/mod.rs:156-160 | A run cancelled before its datasets are scheduled returns with no record, or the recovered one. |
| `BatchExecutor.AttemptsBounded` | crates/parqonaut-orchestrator/src/executor/mod.rs:270-336 | The attempts on record never exceed the allowed ones by more than one for each resume. |
| `BatchExecutor.AttemptsAreCounted` | crates/parqonaut-orchestrator/src/executor/mod.rs:271-379 | If no write is lost and every record can be read back, the record counts exactly the attempts begun, over all crashes and resumes. |
| `BatchExecutor.MoveStep` | crates/parqonaut-orchestrator/src/executor/mod.rs:274-582 | Without lost writes every change of a record is one of the executor's moves. |
| `BatchExecutor.MovesAreExactly` | crates/parqonaut-orchestrator/src/executor/mod.rs:274-582 | The executor and recovery change a state into another exactly along the listed moves: each of them happens in some run, and no other does. |
| `BatchExecutor.LegalMoveIff` | crates/parqonaut-orchestrator/src/executor/mod.rs:274-582 | Which of the moves that happen are transitions of the relation in state.rs, as an if-and-only-if. |
| `BatchExecutor.SuccessIsNoTransition` | crates/parqonaut-orchestrator/src/executor/mod.rs:542-552 | Running to succeeded happens and is not a transition of the relation, and no other way to succeed is. |
| `BatchExecutor.SuccessFollowsValidation` | crates/parqonaut-orchestrator/src/executor/mod.rs:299-311 | In every life without lost writes, however often resumed, success comes right after validated, or after validated and running. |
| `BatchExecutor.StatusIff` | crates/parqonaut-orchestrator/src/run.rs:282-316 | At any time in the life of a run of any datasets: completed exactly when all records are terminal; neither completed nor resumable exactly when it was not cancelled, all have records, none failed recoverably or was cancelled, and one is validated or running. |
| `BatchExecutor.CrashHasNoStatus` | crates/parqonaut-orchestrator/src/run.rs:308-316 | A crash in the middle of a repair, which a run reaches, leaves a run reported as neither. |
| `BatchExecutor.CancelledIsCompleted` | crates/parqonaut-orchestrator/src/run.rs:282-316 | A run cancelled before its repair, which a run reaches, is reported as completed with its dataset unfinished. |
| `BatchExecutor.Executor.constructor` | crates/parqonaut-orchestrator/src/executor/mod.rs:272 | One attempt more than retries, within 32 bits. |
| `BatchExecutor.Executor.Perform` | crates/parqonaut-orchestrator/src/executor/mod.rs:274-582 | One step extends the life of the run. |
| `BatchExecutor.Executor.ExecuteOnce` | crates/parqonaut-orchestrator/src/executor/mod.rs:389-582 | One attempt ends in a recorded success or in its failure. |
| `BatchExecutor.Executor.Turn` | crates/parqonaut-orchestrator/src/executor/mod.rs:297-379 | One turn of the loop goes on exactly for a recoverable failure with attempts left, and otherwise records the final state. |
| `BatchExecutor.Executor.ExecuteWithRetries` | crates/parqonaut-orchestrator/src/executor/mod.rs:260-381 | The loop attempts until an attempt is final, the attempts are used up or the run is cancelled, and records exactly that with the number of attempts. |

## Left out

- `RepairOrder.SortByDependencies`: does not model the panic a debug build makes when a repeated id drives an unsigned counter below zero; the counters are integers, as in a release build that reports a cycle.
- `JobStore.Store.RunClaimedJob`: does not model other events between its own; those are covered by the histories of `JobQueue`.
- `JobStore.Store.Beat`: does not model other events between its own; those are covered by `Heartbeat`, over histories with any events in between.
- `WriterLock.LockService.Acquire`: does not model other processes moving in between; those are covered by the runs of the protocol.
- `WriterLock.MutualExclusion`: does not model a torn write of the owner, nor run ids that are blank or padded, which the trimmed owner text of a lock file cannot tell apart.
- `Relay.BackpressureStats.RecordDepth`: does not model concurrent calls; those are covered by the runs of the protocol. The number of spurious failures is finite but arbitrary.
- `Listing.ListAll`: is for a limit of at least one and distinct URIs; `Listing.ZeroLimitNeverProgresses` and `Listing.ListingEndsIff` say when following tokens ends otherwise.
- `Inventory.ListRemoteInventory`: starts from the pages a backend returned until one was not truncated; a backend that never stops is not modelled.
- `BatchExecutor.StatusIff`: is for plans with distinct ids, which the configuration check provides, and one record at most for each dataset, as the journal's key provides.
- `BatchExecutor.SuccessFollowsValidation`: is for lives in which no journal write failed; after a failed write, which is only logged, the next one can follow any state.
- `BatchExecutor.TerminalForever`: is for one process at a time on a run and one task per dataset; two concurrent resumes of one run are not modelled.
- `ScanBuilder.ScanLocal`: takes the findings of the rules as given, and leaves out severity counts, format and dataset summaries, which the validator does not read.
- `ScanBuilder.ScanRemote`: takes the findings of the rules as given, and leaves out severity counts, format and dataset summaries, which the validator does not read.
- `Locations.RelativeObjectKey`: spells the relative key of a local path by its components joined with slashes, not by the slice of the original text; `Locations.LocalKeyLocates` shows that this names the same path.
- `DatasetInference.InferDatasets`: leaves out the notes it returns for findings and the byte length read from the file system.
- The PostgreSQL store: its recovery selects and then updates under isolation settings that decide the outcome.
- The background loop around the job runner, its sleeping, metrics and audit.
- Publication, verification outcomes and their effect on publishing; memory and S3 backends; fault injection.
- Parquet and Arrow reading and writing, digests, UUIDs, URL parsing, temporary file names, symbolic links and directory walks.
- HTTP, CLI, OpenAPI, metrics, tokens and plan comparison: plumbing, or settled by reading one branch.
- Construction of individual findings: long records with easy properties.
