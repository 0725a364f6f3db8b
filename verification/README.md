# TLSTM: proofs about a software transactional memory

A Dafny model of the transactional memory TLSTM, of the SwissTM protocol it is built on, and of the
data structures around them, with proofs of what they are for.

| files | what they model |
|---|---|
| Words | machine words, masked writes, the word log, and the sequential meaning of a run of operations |
| SwissState, SwissInvariant, SwissLocal, SwissReads, SwissCommit, SwissDecide, SwissRuns | the SwissTM protocol as a step machine, and its inductive invariant |
| SwissTheorems, SwissVersions, SwissProgress | opacity, strict serializability, validation shortcuts, lock ownership, absence of deadlock |
| SwissCalls, SwissAlone, SwissGreedy, SwissSolo | operations are the calls asked for; the exact outcome of each call, and of a whole transaction, that runs alone |
| SwissMachine | the same steps on shared memory and descriptors updated in place |
| TaskState, TaskProofs, TaskRuns, TaskTheorems, TaskMachine | the speculative tasks of one program-thread: chains of write-log entries, validation against past writers, completion in serial order |
| TaskCalls, TaskExact, TaskProgress | operations are the calls asked for; exactly when a task restarts, completes or commits; a run to the commit from everywhere |
| RbShape, RbBalance, RbTree | the red-black tree with parent pointers and no sentinel |
| Reclaim, MemoryManager, Epoch, EpochProgress | deferred frees, when memory may be given back, and that it is |
| Regions, Logs | byte regions over masked words; the chunked and the linked log |
| BarrierState, BarrierProofs, BarrierMachine, Powers | the logarithmic barrier |

`dafny verify dfyconfig.toml` checks the whole project.

How the model reads the code:

- Memory is sequentially consistent. In SwissTM every shared load, store, compare-and-swap and
  fetch-and-increment is one step, and steps of any number of threads interleave freely. A run is a
  sequence of steps; a reachable state is one a run leads to from the initial tables. The map from
  words to stripes is arbitrary.
- Timestamps are unbounded. A restart is a rollback after which the transaction starts again. The
  words of a stripe may be written back in any order. A read-only commit is placed at valid_ts.
- History (decided transactions, the memory of each timestamp, operations so far, commit timestamps
  of freed pointers, episodes of the barrier) is kept beside the state and never read by a step.
- For tasks there is one program-thread with the tasks of one transaction in flight, full-word writes,
  and each read, write, completion and rollback is one step. The branch that waits for a past writer is a
  step that is enabled when the chain allows it. What ValidateCommit finds against other
  program-threads, and when they ask for an abort, are parameters of the steps.
- On heap objects (tree nodes, pointer buffers, log chunks and nodes) the methods do the stores of the
  code, and their contracts relate the linked structure to a tree or a sequence kept as ghost state.
- In the chain of freed_in_tx the code leaves stale links at both ends; the model keeps them, and the
  proofs show that no list ever follows one.
- A critical section of the barrier is one step; proceedCond may also wake a thread without a signal.

## Model

| member | source | states |
|---|---|---|
| Words.MergeOfMasks | src/stm/transaction_mixinv_swisstm.h:1208-1232 | merging a second masked write into a log entry and applying the entry once equals applying both writes in order |
| Words.ThroughInsert | src/stm/transaction_mixinv_swisstm.h:1208-1232 | inserting into the word log changes what is seen at that one address, by the masked write, and nowhere else |
| Words.ApplyThroughBuffer | src/stm/transaction_mixinv_swisstm.h:1208-1236 | the word log written back at the end of any sequence of operations leaves what the operations leave when each write takes effect at once |
| SwissTheorems.Opacity | src/stm/transaction_mixinv_swisstm.h:1258-1407 | in every reachable state, all reads of a live transaction, also of one that will abort, are those of a sequential execution after the committed transactions up to its current valid_ts |
| SwissTheorems.ReadOfSnapshot | src/stm/transaction_mixinv_swisstm.h:1258-1326 | each value returned is the committed word at valid_ts overlaid with the transaction's own earlier writes |
| SwissTheorems.Serializability | src/stm/transaction_mixinv_swisstm.h:787-984 | replaying all decided transactions in timestamp order (read-only ones at valid_ts) reproduces every read, and memory wherever no commit is halfway through its write-back |
| SwissTheorems.FinalMemory | src/stm/transaction_mixinv_swisstm.h:870-984 | when no commit is halfway, memory is exactly the result of that replay |
| SwissTheorems.OrderIsStrict | src/stm/transaction_mixinv_swisstm.h:787-984 | the serial order has every decided transaction exactly once, and a transaction that began after another was decided comes after it |
| SwissTheorems.ReplayHistory | src/stm/transaction_mixinv_swisstm.h:870-984 | the memory of each timestamp is the result of running the transactions up to it one after another |
| SwissRuns.StepKeeps | src/stm/transaction_mixinv_swisstm.h:787-1641 | every atomic step of every thread, in any interleaving, keeps the inductive invariant |
| SwissRuns.ReachableInv | src/stm/transaction_mixinv_swisstm.h:619-668 | every state a run leads to from the initial tables has the invariant |
| SwissRuns.StepExtends | src/stm/transaction_mixinv_swisstm.h:870-984 | decided transactions are never taken back or reordered: every step extends their list |
| SwissReads.KeepReadAgain | src/stm/transaction_mixinv_swisstm.h:1297-1325 | logging a read whose value was loaded between two loads of the same version keeps the invariant, by which all reads of a live transaction belong to its snapshot |
| SwissReads.KeepLockVersion | src/stm/transaction_mixinv_swisstm.h:1112-1133 | recording the version of a stripe just locked, and extending first if it is newer than valid_ts, keeps the invariant |
| SwissReads.ExtendedReady | src/stm/transaction_mixinv_swisstm.h:1345-1407 | after a successful extension, for which the clock is loaded before the entries are checked one by one, all operations so far are legal at the new timestamp |
| SwissDecide.KeepTakeTsInc | src/stm/transaction_mixinv_swisstm.h:879-907 | taking the next clock value, with validation skipped when it is valid_ts + 1, keeps the invariant |
| SwissDecide.KeepTakeTsGV4 | src/stm/common/timestamp.h:51-60 | winning and losing the compare-and-swap of the clock both keep the invariant, by which a pending commit is later than every version and snapshot that it could invalidate |
| SwissDecide.OwnFresh | src/stm/transaction_mixinv_swisstm.h:1361-1383 | an entry found read-locked by the committer itself has not changed since it was read, and no other pending commit will write it before |
| SwissDecide.KeepDecide | src/stm/transaction_mixinv_swisstm.h:907-919 | deciding a transaction whose whole read log has passed keeps the invariant, by which the history replays all decided transactions |
| SwissCommit.OnlyOwner | src/stm/transaction_mixinv_swisstm.h:1112-1132 | no two unreleased write-log entries, of any threads, are for the same stripe |
| SwissCommit.KeepReleaseRead | src/stm/transaction_mixinv_swisstm.h:935-938 | publishing the version before the write lock is released keeps the invariant |
| SwissCommit.KeepRestoreReads | src/stm/transaction_mixinv_swisstm.h:986-991 | giving back the recorded versions keeps the invariant |
| SwissVersions.ValidationSound | src/stm/transaction_mixinv_swisstm.h:907-919 | an entry that counts as validated, because it was compared, was under an own read lock, or was skipped, has not been written by any transaction up to the commit timestamp |
| SwissVersions.TimestampsShared | src/stm/common/timestamp.h:51-60 | two commits share a timestamp only with the GV4 clock, and then neither wrote a stripe the other read or wrote |
| SwissVersions.LockOwnership | src/stm/transaction_mixinv_swisstm.h:1044-1157 | a write lock points to entry k of thread t if and only if that entry is for this stripe and unreleased; its read lock is set if and only if the owner is at that point of its commit |
| SwissVersions.UndecidedLeavesNoTrace | src/stm/transaction_mixinv_swisstm.h:986-1028 | no step of a transaction that is not decided changes memory or the version of any stripe |
| SwissVersions.VersionsAdvance | src/stm/transaction_mixinv_swisstm.h:924-938 | versions never decrease, and they increase only to the timestamp of the commit that publishes the stripe |
| SwissVersions.IdleHoldsNothing | src/stm/transaction_mixinv_swisstm.h:994-1028 | between transactions a thread owns no write lock |
| SwissProgress.GreedyTimestampsDistinct | src/stm/transaction_mixinv_swisstm.h:1564-1590 | nonzero greedy timestamps are distinct |
| SwissProgress.NoCycle | src/stm/transaction_mixinv_swisstm.h:1523-1562 | the graph of readers waiting for committers and writers waiting for weaker owners has no cycle |
| SwissProgress.WaitsEnd | src/stm/transaction_mixinv_swisstm.h:1290-1304 | following whom it waits for, every thread leads to one that waits for nobody |
| SwissProgress.FinishAlone | src/stm/transaction_mixinv_swisstm.h:787-1157 | a thread that waits for nobody finishes its call by its own steps |
| SwissProgress.Progress | src/stm/transaction_mixinv_swisstm.h:1523-1589 | from every reachable state every thread is, or waits through others for, a thread that can finish its call by its own steps |
| SwissCalls.OperationsAreCalls | src/stm/transaction_mixinv_swisstm.h:1159-1181 | in every run the operations of a live or decided transaction are exactly the calls of ReadWord and WriteWord its thread was asked to make since it began: same kinds, addresses, values and masks, in order; only a call in progress has none yet |
| SwissCalls.DecidedAreCalls | src/stm/transaction_mixinv_swisstm.h:870-984 | the n-th decided transaction has performed exactly the calls asked of the n-th transaction decided in the run |
| SwissAlone.BeginAlone | src/stm/transaction_mixinv_swisstm.h:787-828 | TxStart run alone: valid_ts is the clock, all logs are empty, the contention manager is reset |
| SwissAlone.ReadAlone | src/stm/transaction_mixinv_swisstm.h:1258-1326 | ReadWord run alone returns the own buffered word or the word in memory, and logs it; it fails exactly if the stripe is newer than valid_ts and some logged version has changed; it waits exactly while another thread has the read lock set |
| SwissAlone.WriteAlone | src/stm/transaction_mixinv_swisstm.h:1044-1181 | WriteWord run alone: the word is buffered, a clear stripe is locked and counted; it rolls back exactly if another thread has the stripe and is not weaker, or a needed extension fails; it waits exactly for a weaker owner |
| SwissAlone.ExtendAlone | src/stm/transaction_mixinv_swisstm.h:1345-1407 | Extend run alone fails exactly if the lock word of some read-log entry differs from the logged version; otherwise valid_ts is the clock and the interrupted call is finished |
| SwissAlone.CommitAlone | src/stm/transaction_mixinv_swisstm.h:870-984 | TxTryCommit run alone commits exactly if every entry read carries its logged version or is locked by the transaction, or the check is skipped as the clock is valid_ts: one more record with its operations, its words in memory, its stripes at the new version; otherwise only the clock has moved |
| SwissAlone.AbortAlone | src/stm/transaction_mixinv_swisstm.h:994-1028 | TxAbort run alone clears exactly the locks of the transaction and its logs |
| SwissAlone.ShouldAbortWrite | src/stm/transaction_mixinv_swisstm.h:1523-1562 | ShouldAbortWrite lets exactly the stronger writer go on, and flags the owner; any other goes to its roll-back |
| SwissAlone.AloneEnds | src/stm/transaction_mixinv_swisstm.h:787-1641 | a thread that waits for nobody finishes the call it is in, from any point of it, and in one and the same state whichever words it writes back first |
| SwissGreedy.GreedyAfterThreshold | src/stm/transaction_mixinv_swisstm.h:1577-1589 | in every reachable state a live transaction has a greedy timestamp, or is drawing or storing one, exactly if it has established more than CM_ACCESS_THRESHOLD stripes |
| SwissSolo.TransactionAlone | src/stm/transaction_mixinv_swisstm.h:787-984 | from every reachable state an idle thread whose words nobody has locked makes any calls and commits by its own steps: they are decided as one transaction, with the reads and the memory of a sequential execution |
| SwissMachine.Stm.LoadClock | src/stm/transaction_mixinv_swisstm.h:811-812 | in place, with the invariant kept: valid_ts is the clock at the start |
| SwissMachine.Stm.StoreGreedy | src/stm/transaction_mixinv_swisstm.h:1564-1575 | in place, with the invariant kept: the contention manager is reset |
| SwissMachine.Stm.ClearAbortFlag | src/stm/transaction_mixinv_swisstm.h:825-826 | in place, with the invariant kept: the abort flag is cleared |
| SwissMachine.Stm.LoadLockToRead | src/stm/transaction_mixinv_swisstm.h:1262-1266 | in place, with the invariant kept: an own stripe is told from any other |
| SwissMachine.Stm.LoadOwn | src/stm/transaction_mixinv_swisstm.h:1266-1277 | in place, with the invariant kept: an own stripe is read through the write log |
| SwissMachine.Stm.LoadVersion | src/stm/transaction_mixinv_swisstm.h:1287-1295 | in place, with the invariant kept: the reader spins while the read lock is set |
| SwissMachine.Stm.LoadValue | src/stm/transaction_mixinv_swisstm.h:1297 | in place, with the invariant kept: the word is loaded |
| SwissMachine.Stm.LoadVersionAgain | src/stm/transaction_mixinv_swisstm.h:1298-1323 | in place, with the invariant kept: a changed version means another round; otherwise the read is logged, and extended if its version is newer than valid_ts |
| SwissMachine.Stm.LoadLockToWrite | src/stm/transaction_mixinv_swisstm.h:1052-1062 | in place, with the invariant kept: own, held by another, or clear |
| SwissMachine.Stm.CheckAborted | src/stm/transaction_mixinv_swisstm.h:1523-1530 | in place, with the invariant kept: a writer without greedy timestamp, or told to abort, gives up |
| SwissMachine.Stm.LoadOwner | src/stm/transaction_mixinv_swisstm.h:1532-1536 | in place, with the invariant kept: the present owner is looked up |
| SwissMachine.Stm.CompareRank | src/stm/transaction_mixinv_swisstm.h:1555-1562 | in place, with the invariant kept: only a stronger writer goes on |
| SwissMachine.Stm.FlagOwner | src/stm/transaction_mixinv_swisstm.h:1538-1547 | in place, with the invariant kept: the weaker owner is told to abort |
| SwissMachine.Stm.Reload | src/stm/transaction_mixinv_swisstm.h:1098-1102 | in place, with the invariant kept: the writer goes on to the compare-and-swap |
| SwissMachine.Stm.CasWriteLock | src/stm/transaction_mixinv_swisstm.h:1105-1112 | in place, with the invariant kept: the lock is taken if it is clear, with a new write-log entry |
| SwissMachine.Stm.LoadLockAgain | src/stm/transaction_mixinv_swisstm.h:1145-1152 | in place, with the invariant kept: after losing the race the entry is dropped and the lock loaded again |
| SwissMachine.Stm.LoadLockedVersion | src/stm/transaction_mixinv_swisstm.h:1113-1133 | in place, with the invariant kept: the version of the locked stripe is recorded, and extended to if it is newer than valid_ts |
| SwissMachine.Stm.TakeTicket | src/stm/transaction_mixinv_swisstm.h:1577-1589 | in place, with the invariant kept: a greedy timestamp is drawn in the second phase |
| SwissMachine.Stm.StoreTicket | src/stm/transaction_mixinv_swisstm.h:1585 | in place, with the invariant kept: and stored |
| SwissMachine.Stm.LoadClockToExtend | src/stm/transaction_mixinv_swisstm.h:1385-1386 | in place, with the invariant kept: the clock is loaded before the read log is checked |
| SwissMachine.Stm.CheckEntry | src/stm/transaction_mixinv_swisstm.h:1345-1389 | in place, with the invariant kept: one entry is compared; after the last valid_ts moves |
| SwissMachine.Stm.StartCommit | src/stm/transaction_mixinv_swisstm.h:870-875 | in place, with the invariant kept: a read-only transaction is done, at valid_ts |
| SwissMachine.Stm.SetReadLock | src/stm/transaction_mixinv_swisstm.h:875-879 | in place, with the invariant kept: one read lock is set |
| SwissMachine.Stm.IncrementCommitTs | src/stm/transaction_mixinv_swisstm.h:844-850 | in place, with the invariant kept: fetch-and-increment, or the load of GV4 |
| SwissMachine.Stm.CheckEntryToCommit | src/stm/transaction_mixinv_swisstm.h:1361-1383 | in place, with the invariant kept: one entry is compared; after the last the transaction is decided |
| SwissMachine.Stm.CheckOwnLock | src/stm/transaction_mixinv_swisstm.h:1369-1378 | in place, with the invariant kept: a read-locked entry passes only if the lock is the transaction's own |
| SwissMachine.Stm.WriteBackWord | src/stm/transaction_mixinv_swisstm.h:924-933 | in place, with the invariant kept: one word goes to memory |
| SwissMachine.Stm.PublishVersion | src/stm/transaction_mixinv_swisstm.h:935-936 | in place, with the invariant kept: the version is released |
| SwissMachine.Stm.ReleaseWriteLock | src/stm/transaction_mixinv_swisstm.h:937 | in place, with the invariant kept: then the write lock |
| SwissMachine.Stm.RestoreVersion | src/stm/transaction_mixinv_swisstm.h:986-991 | in place, with the invariant kept: one read lock gets its old version back |
| SwissMachine.Stm.DropWriteLock | src/stm/transaction_mixinv_swisstm.h:1009-1013 | in place, with the invariant kept: one write lock is cleared |
| SwissMachine.Stm.GiveUp | src/stm/transaction_mixinv_swisstm.h:1447-1454 | in place, with the invariant kept: the transaction goes to its rollback |
| SwissMachine.Stm.CasClock | src/stm/common/timestamp.h:51-60 | in place, with the invariant kept: the compare-and-swap of the clock, whose loser adopts what it finds |
| TaskTheorems.SpeculationRefinesProgramOrder | src/stm/transaction_mixinv.h:1083-1342 | for any interleaving, restarts and roll-backs, the committed tasks have read, and left in memory, what running them one after another in serial order would |
| TaskTheorems.CompletedTaskIsSequential | src/stm/transaction_mixinv.h:1107-1158 | a completed task of a transaction that can still commit has read what the tasks before it leave behind |
| TaskTheorems.ChainDiscipline | src/stm/transaction_mixinv.h:1553-1691 | along old_entry serials go strictly down without skipping a writer, and every entry but the top belongs to a completed task |
| TaskTheorems.RollbackCuts | src/stm/transaction_mixinv.h:1434-1443 | RollbackTransaction(s) leaves of every chain exactly its entries with serial below s |
| TaskTheorems.CommitReleases | src/stm/transaction_mixinv.h:1266-1285 | after the write-back of task k exactly the stripes whose top entry is at or below k are free |
| TaskTheorems.ReleasedIsFinal | src/stm/transaction_mixinv.h:1266-1285 | a stripe that is released within the write-back loop already holds its final words: no later task wrote it |
| TaskTheorems.TaskStepKeeps | src/stm/transaction_mixinv.h:1015-2221 | every step of every task keeps the invariant of chains, phases and reads |
| TaskProofs.PassedIsCurrent | src/stm/transaction_mixinv.h:1148-1158 | if ValidateTLS passes, or is skipped because last_completed_writer <= last_writer, no task between the logged writer and this one has written any stripe it read or locked |
| TaskProofs.LookIsAfter | src/stm/transaction_mixinv.h:1970-1981 | the word found by walking the chain is what the past task left behind |
| TaskRuns.KeepReadPast | src/stm/transaction_mixinv.h:1905-1982 | reading from the entry of a past task, with the extension it may need, keeps the invariant |
| TaskRuns.CommitRefines | src/stm/transaction_mixinv.h:1266-1288 | write-back in serial order gives the memory of running all tasks in order |
| TaskRuns.KeepRolledBack | src/stm/transaction_mixinv.h:1434-1467 | rolling back from a serial on keeps the invariant |
| TaskCalls.WriteDoes | src/stm/transaction_mixinv.h:1496-1725 | a write is logged once and as asked for, or only flags the later task that has the stripe, or restarts its task |
| TaskCalls.OperationsAreCalls | src/stm/transaction_mixinv.h:1083-1342 | in every run the committed operations are, task by task in program order, exactly the calls each task was asked to make in its last attempt; and so are those of running and completed tasks |
| TaskExact.ValidIffUndisturbed | src/stm/transaction_mixinv.h:2095-2129 | ValidateTLS passes exactly if no task between a source and the reader has written what was read |
| TaskExact.PassesIffUndisturbed | src/stm/transaction_mixinv.h:1148-1158 | skipping the validation when no writer has completed since gives the same verdict |
| TaskExact.ReadsExactly | src/stm/transaction_mixinv.h:1823-2038 | ReadWord restarts its task exactly if the word is that of a past task, a writer has completed since, and what was read has been written; otherwise it returns what the last past writer left behind |
| TaskExact.WritesExactly | src/stm/transaction_mixinv.h:1496-1725 | WriteWord restarts its task exactly if it was told to, the stripe is that of a past task still running, or what was read has been written; it waits for a later task, and otherwise logs the word |
| TaskExact.CompletesExactly | src/stm/transaction_mixinv.h:1083-1187 | a committing task whose turn has come completes exactly if it was not told to give up a stripe and nothing it read has been written; it is then last_completed_task, and last_completed_writer exactly if it wrote something |
| TaskExact.CommitsExactly | src/stm/transaction_mixinv.h:1107-1299 | the commit task commits exactly if nobody was told to abort, nothing it read has been written and no other program-thread conflicts; then all tasks are done and memory is what they leave |
| TaskProgress.CanCommit | src/stm/transaction_mixinv.h:1083-1475 | from every reachable state in flight, and for any calls its tasks may make, a run ends the transaction with its n tasks, in program order, appended to what is done |
| TaskProgress.CanRun | src/stm/transaction_mixinv.h:1015-1299 | between transactions any program of tasks can be run to its commit without a restart, a roll-back or a conflict |
| TaskMachine.ProgramThread.FirstBefore | src/stm/transaction_mixinv.h:2099-2103 | the chain walk finds the first entry of a task before i |
| TaskMachine.ProgramThread.WordAt | src/stm/transaction_mixinv.h:1905-1982 | the chain walk finds the first entry that has the word, or memory |
| TaskMachine.ProgramThread.ValidateTLS | src/stm/transaction_mixinv.h:2095-2129 | true exactly if every task read still comes from the last writer before the task, and no stripe read from committed memory has one |
| TaskMachine.ProgramThread.DropLocks | src/stm/transaction_mixinv.h:1408-1416 | each lock of a log points to the entry below again |
| TaskMachine.ProgramThread.RestartTask | src/stm/transaction_mixinv.h:1354-1432 | a task drops its locks and logs |
| TaskMachine.ProgramThread.ExtendTLS | src/stm/transaction_mixinv.h:2199-2221 | last_writer moves to the last completed writer if validation passes, and the task restarts if not |
| TaskMachine.ProgramThread.RollbackTransaction | src/stm/transaction_mixinv.h:1434-1467 | locks, logs, counters and flags of all tasks from a serial on |
| TaskMachine.ProgramThread.WriteWords | src/stm/transaction_mixinv.h:1271-1277 | the words of one task go to memory |
| TaskMachine.ProgramThread.ReleaseLocks | src/stm/transaction_mixinv.h:1279-1283 | entries still on top release their stripe |
| TaskMachine.ProgramThread.WriteBack | src/stm/transaction_mixinv.h:1266-1285 | memory and locks after all tasks in serial order |
| TaskMachine.ProgramThread.TxStart | src/stm/transaction_mixinv.h:1015-1073 | in place, with the invariant kept: last_writer is what has been completed |
| TaskMachine.ProgramThread.ReadWord | src/stm/transaction_mixinv.h:1823-2038 | in place, with the invariant kept: the value returned is the one logged |
| TaskMachine.ProgramThread.WriteWord | src/stm/transaction_mixinv.h:1496-1725 | in place, with the invariant kept: a new entry is stacked on the chain of a completed past writer, or the task aborts |
| TaskMachine.ProgramThread.TxComplete | src/stm/transaction_mixinv.h:1083-1187 | in place, with the invariant kept: in serial order, after validation, an intermediate task completes |
| TaskMachine.ProgramThread.TxCommit | src/stm/transaction_mixinv.h:1114-1299 | in place, with the invariant kept: the last task validates, writes back and completes, restarts, or rolls back |
| TaskMachine.ProgramThread.TxAgain | src/stm/transaction_mixinv.h:2316-2348 | in place, with the invariant kept: a task restarts for a reason of its own |
| TaskMachine.ProgramThread.TxAbortAll | src/stm/transaction_mixinv.h:1114-1126 | in place, with the invariant kept: the commit task rolls the transaction back |
| TaskMachine.ProgramThread.ReadyToAbort | src/stm/transaction_mixinv.h:1469-1470 | in place, with the invariant kept: the commit task is told |
| TaskMachine.ProgramThread.PassOn | src/stm/transaction_mixinv.h:1472-1475 | in place, with the invariant kept: the task lets the others go on |
| TaskMachine.ProgramThread.WakeUp | src/stm/transaction_mixinv.h:1189-1201 | in place, with the invariant kept: a waiting task sees that the transaction aborts |
| TaskMachine.ProgramThread.TxFinish | src/stm/transaction_mixinv.h:1083-1084 | in place, with the invariant kept: a task gets to its commit |
| TaskMachine.ProgramThread.NextTransaction | src/stm/transaction_mixinv.h:1015-1023 | in place, with the invariant kept: the tasks of the next transaction |
| RbTree.Tree.RotateLeft | src/mubench/rbtree.c:181-205 | the stores of a left rotation give exactly the rotated memory |
| RbTree.Tree.RotateRight | src/mubench/rbtree.c:237-259 | the stores of a right rotation give exactly the rotated memory |
| RbTree.Tree.FixAfterInsertion | src/mubench/rbtree.c:419-471 | the loop ends with a red-black tree of the same contents |
| RbTree.Tree.Lookup | src/mubench/rbtree.c:124-138 | the node of the key, or null if no pair has it |
| RbTree.Tree.Insert | src/mubench/rbtree.c:539-592 | adds exactly the new pair, or changes nothing and returns the node that has the key; red-black and parent-link invariants hold again |
| RbTree.Tree.FixAfterDeletion | src/mubench/rbtree.c:725-790 | from a tree short of one black at a node, possibly a phantom leaf, to a red-black tree of the same contents, with a termination measure |
| RbTree.Tree.Successor | src/mubench/rbtree.c:669-689 | the next node in order, and null exactly at the end |
| RbTree.Tree.DeleteNode | src/mubench/rbtree.c:871-928 | removes exactly the pair of the node, copying the successor if there are two children, and restores all invariants |
| RbTree.Tree.FirstEntry | src/mubench/rbtree.c:1006-1016 | the node of the first pair |
| RbTree.Tree.Visit | src/mubench/rbtree.c:1137-1162 | firstEntry and repeated successor visit every pair once, in strictly increasing order, and end |
| RbTree.Tree.VerifyRedBlack | src/mubench/rbtree.c:1069-1112 | on a red-black tree the black height, with null counted as 1 |
| RbTree.Tree.InsertKey | src/mubench/rbtree.c:1272-1281 | true if the key was there; otherwise exactly its pair is added |
| RbTree.Tree.DeleteKey | src/mubench/rbtree.c:1304-1317 | true if the key was there; exactly its pair is removed |
| RbTree.Tree.Get | src/mubench/rbtree.c:1378-1386 | the value of the key, or 0 |
| RbShape.RotateLSees | src/mubench/rbtree.c:181-205 | after a left rotation memory holds the turned tree with all parent links right |
| RbShape.RotateRSees | src/mubench/rbtree.c:237-259 | after a right rotation memory holds the turned tree with all parent links right |
| RbBalance.TurnKeeps | src/mubench/rbtree.c:181-259 | rotations keep the in-order sequence |
| RbBalance.Recolor | src/mubench/rbtree.c:430-435 | a red uncle: the red-red edge moves two levels up, black heights and contents stay |
| RbBalance.LiftL | src/mubench/rbtree.c:436-446 | a black uncle: one rotation gives a black grandparent position, no red-red edge there, and the same contents and black height |
| RbBalance.RedSiblingL | src/mubench/rbtree.c:731-736 | a red sibling is turned into a black one |
| RbBalance.BlackNephews | src/mubench/rbtree.c:738-741 | with two black nephews the missing black moves up |
| RbBalance.OuterNephewL | src/mubench/rbtree.c:749-754 | with a red outer nephew one rotation leaves no black missing, and the same contents |
| RbBalance.CopiedContents | src/mubench/rbtree.c:878-883 | copying the successor into the node and removing the successor removes exactly the pair of the node |
| RbBalance.LogarithmicDepth | src/mubench/rbtree.c:1069-1112 | a red-black tree of n nodes has at most 2 log2(n + 1) levels |
| Reclaim.Conservation | src/stm/memory/memory_impl.h:199-256 | over any run of TxFree, TxCommit, TxAbort and FreeDominated, the pointers freed by committed transactions are, as a multiset, those in the committed part of the chain, in freed_logically and given back; those of aborted ones are nowhere |
| Reclaim.CommitKeeps | src/stm/memory/memory_impl.h:212-227 | a commit adds exactly the pointers its transaction freed |
| Reclaim.AbortKeeps | src/stm/memory/memory_impl.h:231-240 | an abort forgets the pointers of the transaction and no others |
| Reclaim.DominatedKeeps | src/stm/memory/memory_impl.h:361-414 | FreeDominated moves pointers from freed_logically to the allocator and loses none |
| Reclaim.CommitOrdered | src/stm/memory/memory_impl.h:216-222 | freed_logically stays sorted by commit timestamp, although only the first buffer of each commit has one |
| Reclaim.DominatedIsOld | src/stm/memory/memory_impl.h:382-392 | everything from the first dominated buffer on was freed by commits up to the minimum |
| MemoryManagers.MemoryManager.GetCleanPtrBuffer | src/stm/memory/memory_impl.h:264-280 | in place, on linked buffers: a buffer that is in no list, cleared and unlinked |
| MemoryManagers.MemoryManager.PutReusable | src/stm/memory/memory_impl.h:282-291 | in place, on linked buffers: the buffers go to the front of a well-formed doubly linked list |
| MemoryManagers.MemoryManager.PutFreedLogically | src/stm/memory/memory_impl.h:293-302 | in place, on linked buffers: the full buffers of the chain go to the front of freed_logically, and the chain is left with its last buffer |
| MemoryManagers.MemoryManager.TxFree | src/stm/memory/memory_impl.h:348-359 | in place, on linked buffers: the pointer is appended, and a full buffer followed by a clean one |
| MemoryManagers.MemoryManager.TxAbort | src/stm/memory/memory_impl.h:231-240 | in place, on linked buffers: the chain is cut to its first buffer, rolled back |
| MemoryManagers.MemoryManager.TxCommit | src/stm/memory/memory_impl.h:212-227 | in place, on linked buffers: the chain moves to freed_logically with the timestamp on its first buffer |
| MemoryManagers.MemoryManager.FreeDominated | src/stm/memory/memory_impl.h:361-414 | in place, on linked buffers: nothing if the minimum has not moved; otherwise exactly the dominated buffers are given back, and their buffers are reusable |
| MemoryManagers.PutFront | src/stm/memory/memory_impl.h:282-302 | linking a run of buffers in front of a list gives a well-formed doubly linked list, whatever stale links its ends had |
| Epoch.EpochSafety | src/stm/transaction_mixinv_swisstm.h:1607-1641 | whenever a pointer is given back, every executing transaction has a valid_ts later than the commit that freed it |
| Epoch.SortedByTimestamp | src/stm/memory/memory_impl.h:199-228 | in every reachable state freed_logically is sorted and no entry is later than the thread's last commit |
| Epoch.EpochStep | src/stm/transaction_mixinv_swisstm.h:1607-1641 | every step of starting, observing, committing, scanning and freeing keeps the epoch invariant |
| EpochProgress.EveryTwentiethStart | src/stm/transaction_mixinv_swisstm.h:1607-1618 | in every run last_observed_ts is one less than the valid_ts of the last start that is a multiple of 20, counted since the thread registered |
| EpochProgress.ScanAlone | src/stm/transaction_mixinv_swisstm.h:1618-1644 | UpdateMinimumObservedTs run alone publishes the least last_observed_ts of the registered threads: a lower bound, and attained |
| EpochProgress.ReclaimAlone | src/stm/memory/memory_impl.h:361-414 | FreeDominated run alone uses the published minimum if it has moved and a new one if not; nothing at or behind a buffer dated up to it stays in freed_logically, and exactly that is given back |
| EpochProgress.LeftBehind | src/stm/memory/memory_impl.h:366-376 | a buffer dated up to the least last_observed_ts stays exactly if another thread had published an older minimum and the date is later than that |
| EpochProgress.StaleMinimum | src/stm/memory/memory_impl.h:366-376 | such a buffer |
| EpochProgress.CanBeGivenBack | src/stm/memory/memory_impl.h:212-414 | from every reachable state there is a run that returns to the allocator everything that committed transactions of a thread have freed |
| Regions.Transaction.ReadRegion | src/stm/read_write.h:445-514 | for any alignment and n >= 1, exactly the bytes [src, src+n) as seen through the write log |
| Regions.Transaction.WriteRegion | src/stm/read_write.h:851-930 | for any alignment and n >= 1, bytes [dest, dest+n) become those of the source and no other byte changes, whatever the unset bytes of the word buffers hold |
| Regions.Transaction.Memmove | src/stm/read_write.h:1000-1006 | correct also when the regions overlap |
| Regions.ByteOfMask | src/stm/transaction_mixinv_swisstm.h:1226-1232 | a masked write replaces the bytes whose mask is full and keeps those whose mask is zero |
| Regions.AppliedSeen | src/stm/transaction_mixinv_swisstm.h:924-933 | applying the write log to memory leaves the bytes the transaction has seen |
| Logs.ChunkedLog.Insert | src/stm/common/log.h:102-117 | appends one element, over the end of a chunk if need be, reusing chunks left from a longer log |
| Logs.ChunkedLog.DeleteLast | src/stm/common/log.h:209-216 | takes the last element away, over the start of a chunk if need be |
| Logs.ChunkedLog.Remove | src/stm/common/log.h:198-206 | takes the last element away and returns it |
| Logs.ChunkedLog.Clear | src/stm/common/log.h:219-222 | empties the log and keeps its chunks |
| Logs.ChunkedLog.Empty | src/stm/common/log.h:97-99 | true exactly for the empty log |
| Logs.ChunkedLog.Iterate | src/stm/common/log.h:237-249 | begin, hasNext and next yield every element once, in order |
| Logs.LinkedLog.AllocateFree | src/stm/common/log.h:522-535 | a new free list of n nodes |
| Logs.LinkedLog.Insert | src/stm/common/log.h:515-586 | appends one element; a node moves from the free list, which grows only when it is empty |
| Logs.LinkedLog.DeleteLast | src/stm/common/log.h:545-560 | the last node moves to the free list |
| Logs.LinkedLog.Remove | src/stm/common/log.h:538-542 | returns the last element, and its node moves to the free list |
| Logs.LinkedLog.Clear | src/stm/common/log.h:589-595 | all nodes move to the free list at once |
| Logs.LinkedLog.Empty | src/stm/common/log.h:510-512 | true exactly for the empty log |
| Logs.LinkedLog.Iterate | src/stm/common/log.h:608-617 | yields every element once, in order |
| BarrierProofs.BarrierSafety | src/mubench/thread.c:260-307 | for any power-of-two number of threads and any number of episodes, nobody leaves an episode before everybody has entered it |
| BarrierProofs.NobodyStuck | src/mubench/thread.c:260-307 | once everybody has entered an episode, somebody inside can move until everybody has left it |
| BarrierProofs.EverybodyLeaves | src/mubench/thread.c:260-307 | without spurious wakeups the threads inside take a bounded number of steps, and when none can move all have left |
| BarrierProofs.SignalsReach | src/mubench/thread.c:273-306 | no signal is lost: the thread that a signal on proceedAllCond is meant for is asleep when it is sent, and the count is 1 exactly when the partner waits for one on proceedCond |
| BarrierProofs.StepKeeps | src/mubench/thread.c:260-307 | every critical section, and every spurious wakeup on proceedCond, keeps the invariant of each pair and its count |
| BarrierProofs.Meet | src/mubench/thread.c:272-273 | at each level a thread has exactly one partner, and they share one node |
| BarrierMachine.DivPow2 | src/mubench/thread.c:272-273 | threadId / i and threadId % i are the position in the tournament and whether the thread leads |
| BarrierMachine.ThreadsPow2 | src/mubench/thread.c:295-301 | numThread / i is the number of nodes of a level |
| BarrierMachine.IndexApart | src/mubench/thread.c:272 | every node of every level has its own index |
| BarrierMachine.Barrier.constructor | src/mubench/thread.c:239-251 | in place, refining the tournament: all counts 0 |
| BarrierMachine.Barrier.Enter | src/mubench/thread.c:260-269 | in place, refining the tournament: numThread < 2 returns at once |
| BarrierMachine.Barrier.Arrive | src/mubench/thread.c:272-297 | in place, refining the tournament: index and the test of threadId % i pick the node and the role; the count, the signal and the wait follow |
| BarrierMachine.Barrier.Recheck | src/mubench/thread.c:276-279 | in place, refining the tournament: the count is looked at again |
| BarrierMachine.Barrier.Resume | src/mubench/thread.c:287-299 | in place, refining the tournament: the second thread goes on in the second loop |
| BarrierMachine.Barrier.Release | src/mubench/thread.c:299-306 | in place, refining the tournament: the node is reset and its second thread released |
| BarrierMachine.Barrier.WakePartner | src/mubench/thread.c:284-304 | in place, refining the tournament: the one thread that can wait on the condition is woken |

## Left out

- Weak memory, fences, cache alignment, signals, setjmp and longjmp, thread creation, statistics, performance counters, build flags and the bindings for other compilers.
- Clock overflow: MAXIMUM_TS, StartSynchronization, RestartCommitTS, and timestamps truncated to `unsigned` in Extend, CMStrongerThan and UpdateMinimumObservedTs.
- Stack protection, local writes, privatization (quiescence and tree), signaling, adaptive locking, waiting after successive aborts, and SIMPLE_GREEDY.
- LockMemoryBlock: freed memory is locked stripe by stripe with the operations modelled here.
- SwissMachine.Stm.LoadLockedVersion: records old_version when the version is loaded; the code stores it in the entry after a successful extension, and does not read it before.
- TaskTheorems.SpeculationRefinesProgramOrder: the tasks of a transaction start after the transaction before has committed. The comment at src/stm/transaction_mixinv.h:1189 hints at tasks of two transactions in flight; the code of RollbackTransaction does not support that yet (src/stm/transaction_mixinv.h:1445-1447).
- The asynchronous validator thread, serializability across program-threads, version numbers and contention management of the task-level code, and partial masks along a chain: the validator can miss an entry that is being logged, so nothing is claimed of it.
- TaskMachine.ProgramThread.ReadWord: the wait for a past writer re-reads the chain when it ends, while the code keeps the entry it found before the wait.
- Entries of write logs are identified by task and stripe, and owners by task number instead of serial modulo the number of task slots.
- RbTree.Tree.Lookup: compares keys as integers; a key difference that does not fit in `int` is not modelled.
- RbTree.Tree.VerifyRedBlack: states its result on red-black trees only; the code prints unequal black heights and wrong parent links but returns a height all the same.
- The transactional twins (TM...) of the tree operations are the same algorithm; allocation failure, insert without a node, rbtree_update and predecessor are left out.
- The allocation side of the memory manager (alloced_in_tx): after a transaction fills a buffer, alloced_in_tx_old keeps a link into reusable, so its rollback is not the mirror image of the freeing side.
- MemoryManagers.MemoryManager.FreeDominated: takes the two minimum timestamps it is given as parameters; Epoch models how they are computed. The size of a buffer is a parameter.
- EpochProgress.ReclaimAlone: uses the published minimum without a scan when it differs from last_minimum_ts, as the code does, so buffers between that minimum and the least last_observed_ts stay until the next call; LeftBehind is the exact condition.
- Epoch.EpochSafety: commits are any timestamps from valid_ts to the clock, and the registration of threads is a step of its own.
- Regions.Transaction.ReadRegion: for n = 0 the code computes a last word before the first, so n >= 1 is required of the caller, as for write_region and memmove_tx. The unaligned scalar accessors, memset_tx and the string functions are left out.
- Logs.ChunkedLog.Insert: get_next is the same without the store. `get` and `get_size` of the chunked log, `contains`, and VECTOR_LOG are left out: `get` looks for the element after a full first chunk behind the end of it and `get_size` does not end for a log of several chunks.
- Logs.LinkedLog.AllocateFree: makes its nodes one by one instead of as one array.
- BarrierProofs.BarrierSafety: thread counts are powers of two, which the pairing needs; for others the code pairs a thread with nobody. A spurious wakeup on proceedAllCond would let a thread go early, as that wait has no predicate; it is excluded.
- The list benchmark, the alternative transaction manager of src/stm/transaction_mixinv_lsvtlstm.h, and the benchmark drivers.
