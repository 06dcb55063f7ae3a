# SuperCoder: streaming sync and checkpoints, verified

A Dafny model of two protocols of the repository, and proofs about every run of them.

**Streaming sync.** A client cuts the files the server asked for into batches and uploads them; the server
admits batches, indexes them in workers, and a finalizer commits what succeeded to a Merkle tree by
compare-and-swap. The model is a step machine for one session (`SyncProtocol`): admission requests, outbox
dispatchers, any number of concurrent deliveries of every batch and of the finalizer, the TTL janitor, other
writers of the tree, and the faults the code is written against: crashes between any two calls, redelivery,
duplicate and late delivery, lost acknowledgements, refused writes, evicted content. One step is one repository
call, one transaction under the session row lock, or one queue action. The invariants and theorems are in
`SyncInvariants`, `SyncWakeup`, `SyncCommit`, `SyncReceipts`, `SyncOneWriter`, `SyncTheorems`, `SyncConvergence`
and, for the failures that the indexing reports, `SyncReports`; what can still become of a session is in `SyncRuns`,
`SyncDrive`, `SyncWedge` and `SyncProgress`, and what single faults do to it in `SyncFaults`; `SyncRename` and
`SyncStranded` hold two complete runs that end badly.

The code that works step by step is also there in that form: `Ingest` (POST /stream), `OutboxDispatcher`,
`BatchConsumer` (the batch worker) and `FinalizeConsumer` (the finalizer with its compare-and-swap loop), as
methods over mutable stores. Every execution of the two handlers is shown to be a run of the step machine, so
the theorems about runs are theorems about them. `Merkle` is the tree, its root hash and ApplyChanges;
`CommitLog` is any number of finalizers on one key, and `CommitSteps` ties it to the session machine; `Packing`,
`BatchIdentity`, `BatchConfusion` and `Upload` are the client, and `UploadPlan` joins it to the server;
`StringOrder` and `PathOrder` are the sorts both sides rely on.

**Checkpoints.** Before a tool changes a file its prior state is backed up under the current turn; restoring
undoes turns newest-first. `CheckpointHistory` states what that is for and proves it over unbounded histories
with rewinds; `CheckpointUnpruned` says what is left of it when undone turns stay in the store;
`CheckpointStore` is the directory with its manifests, blobs, loops and crash points; `UnifiedDiff` and
`CheckpointNames` are its helpers, and `TextLines` cuts texts at newlines. `Truncate` is the truncation of tool
output.

## What the proofs found

* The finalizer takes an equal root hash for proof that its delta is in the tree (the comment at
  `consumers/finalize_sync_consumer.go:184-193` calls it authoritative). The hash of a directory covers its
  children's hashes but not their names (`services/impl/merkle_service_impl.go:194-198`), so a delta that only
  moves a file passes as already applied: the session ends `done`, nothing is written, and every later full
  sync asks for the same thing again. A directory replaced by a file that holds the hash of its only child
  passes as well (`Merkle.ReplacedDirectoryPassesFastPath`). The model follows the code. `Merkle.FastPathExact`
  says exactly when the test is right, `SyncRename.MovedFileIsLost` is the whole run, and the properties that
  depend on the test (`SyncTheorems.DoneAppliesOnce`, `SyncConvergence.NextDiff`, `CommitLog.NoLostUpdates`) are
  proved as equivalences with its being right.
* A session can be wedged: `SyncWedge.CanFlipIff` and `SyncProgress.CanFinishIff` say exactly when. A worker
  ignores a failing failure-stamp and goes on, so that one refused stamp is enough
  (`SyncFaults.OneRefusalWedges`); so are crashes up to the retry limit, because the archived job keeps its id
  (`SyncFaults.CrashesWedge`), and one lost trigger of the last batch (`SyncFaults.OneLostTriggerWedges`). Nothing
  but expiry ends such a session. The no-lost-wakeup theorem says whose faults can do it.
* The store answers some races, and a put that meets its own first try, as a version mismatch. A finalizer can so
  run out of attempts and fail the session with the delta in the tree (`SyncProgress.HiddenPutFails`), and can
  write more than once (`FinalizeConsumer.CommitLoop`).
* Explicit deletes of an incremental sync are not deduplicated, and admission compares list lengths. The upload
  of a receiving session can be completed if and only if no path was named twice
  (`SyncProgress.CompletableIffDistinct`);
  otherwise it waits until it expires (`SyncTheorems.DuplicateDeletesStall`).
* The restore command drops the error of the prune that follows, so undone turns can stay behind. With nothing
  pruned, all turns up to the one gone back to remain restorable whatever happens later
  (`CheckpointUnpruned.PastIsSafe`); a turn after it is restorable exactly if it did not change what a stale later
  turn has recorded (`CheckpointUnpruned.WriteKeepsPresentIff`). With a part pruned, even the turns before are
  only safe, whatever was recorded, if newer turns went first (`CheckpointUnpruned.PruneOrderMatters`); the code
  removes them in directory order.
* Output that is over the byte limit by its line terminators alone loses them without a notice, and a first line
  exactly as long as the byte limit is dropped although it would fit (`Truncate.TruncateOutput`,
  `Truncate.StopsAtMost`).
* A newline in a path makes batch ids ambiguous, and the server accepts such paths. `BatchConfusion.ConfusableIff`
  says exactly which batches share their id text with a different one; every batch of two files or more does
  (`BatchConfusion.TwoFilesConfuse`).
* All deletes ride with the first batch, where a path that is needed as well is refused; `UploadPlan.ClientPlanIff`
  says exactly when the client's batches go through.
* A session id that is empty, `.` or `..` is not encoded, and then names no directory of its own
  (`CheckpointNames.SanitizeIsOneSegment`).

Paths in the tree are lists of segments. SHA-256 is taken to be collision-free: a hash is the term that was
hashed. A file may hold the very bytes that are hashed for a directory, and then has the directory's hash. A
version token stands for the stored bytes. What calls into foreign systems bring back (Redis,
Postgres, object storage, the indexing pipeline, the network) is a parameter of the step or method.

`dafny verify dfyconfig.toml` checks all of it.

## Model

| member | source | states |
|---|---|---|
| SyncTheorems.NoLostWakeup | services/context-engine/consumers/stream_batch_consumer.go:105-114 | In every run, whatever happens to other batches: a `processing` session whose batches are all terminal has a task of the batch that was the last to leave `pending`, queued or still to be enqueued, none of whose deliveries is through its trigger; unless that very batch's task was archived, its stamp refused, or its trigger lost while it mattered. A `finalizing` session has such a finalize task unless that was archived |
| SyncWedge.CanFlipIff | services/context-engine/consumers/finalizer_trigger.go:62-106 | From any state, reachable or not and with any faults behind it: a processing session with batches can be brought to `finalizing` if and only if each pending batch has a task to come, an unsent claim, or a delivery before its stamp, and, when no batch is pending, some batch has a task to come, an unsent claim, or a delivery before its trigger |
| SyncWedge.NeverFlips | services/context-engine/consumers/stream_batch_consumer.go:105-114 | Where that fails, no run whatever enters finalization |
| SyncFaults.OneRefusalWedges | services/context-engine/consumers/stream_batch_consumer.go:121-128 | Wherever a pending batch waits in the queue only, one refused failure stamp is enough, without a duplicate delivery: the worker goes on, its job is acknowledged, and the session never gets to its finalization |
| SyncFaults.CrashesWedge | services/context-engine/services/impl/outbox_dispatcher_impl.go:235-282 | Likewise for crashes up to the retry limit: the job is archived, its id stays taken, and the session never gets to its finalization |
| SyncFaults.OneLostTriggerWedges | services/context-engine/consumers/stream_batch_consumer.go:105-114 | Likewise for one lost trigger of the last batch: the session is ready, and never gets to its finalization |
| SyncStranded.RefusedStampStrands | services/context-engine/consumers/stream_batch_consumer.go:121-128 | A complete run from the creation of the session: every trigger commits and nothing is archived, and it ends ready to finalize with no task to come and no delivery running, so that no run brings it to its finalization; a refused stamp of the last batch with a duplicate delivery |
| SyncTheorems.NoLostBatch | services/context-engine/repositories/impl/sync_outbox_repository_impl.go:60-141 | In every run a pending batch still has a task that is queued or will be enqueued again, unless its own task was archived or its own stamp refused; `SyncFaults` shows both exceptions real and `SyncWedge` what they do |
| SyncProgress.CanFinishIff | services/context-engine/consumers/stream_batch_consumer.go:92-305 | After any run, with any faults in it, a session can be brought to `done` or `failed` by a finalizer if and only if: it is receiving, its deletes are distinct, and each pending batch has a task to come, an unsent claim or a delivery before its stamp; or it is processing and movable in the sense of SyncWedge; or it is finalizing and the finalize task is to come, claimed or being delivered |
| SyncProgress.CanBeDone | services/context-engine/consumers/stream_batch_consumer.go:92-305 | And to `done` if besides something was processed or a pending batch has both its content and its task left, which completing an upload always brings about |
| SyncProgress.NeverWedged | services/context-engine/repositories/impl/sync_outbox_repository_impl.go:60-141 | Without faults this always holds: from every fault-free state of every run a receiving session with distinct deletes can be brought to `done`; a processing or finalizing one to `done` if something was processed or a pending batch still has its content, and to `all_operations_failed` otherwise; by steps that succeed and evict nothing, without any other writer |
| SyncProgress.CompletableIffDistinct | services/context-engine/services/impl/sync_session_service_ingest.go:236-256 | From every reachable `receiving` state there is a run to `processing` if and only if no path was promised for deletion twice |
| SyncProgress.ToProcessing | services/context-engine/services/impl/sync_session_service_ingest.go:236-256 | Uploading what is missing, the files and then the deletes, completes a session whose deletes are distinct, without any fault |
| SyncProgress.FaultFreeMovable | services/context-engine/consumers/stream_batch_consumer.go:105-114 | Without faults every pending batch has a task to come or an unsent claim, and a processing session is movable |
| SyncDrive.WorkOff | services/context-engine/consumers/stream_batch_consumer.go:116-129 | A batch that has a task to come or an unsent claim can be delivered, stamped and finished: with success and nothing failed if its content is there, else failed; no other batch's task, claim, delivery or content is touched, and the last one so finished flips the session |
| SyncDrive.Drive | services/context-engine/consumers/stream_batch_consumer.go:92-305 | A delivery in any phase before its trigger can be brought through it, by the calls of the handler in their order, with the outcome its phase says, and beside all others |
| SyncTheorems.ContentOutlivesItsUse | services/context-engine/consumers/stream_batch_consumer.go:102-114 | In every run, with any faults: a delivery that has come to deleting content has left a terminal row behind, or its session is gone, or its own stamp was refused |
| SyncTheorems.ExactlyOneFinalizeTask | services/context-engine/consumers/finalizer_trigger.go:62-106 | In every run the session is flipped at most once; `receiving` and `processing` go with no finalize row, task or delivery, `finalizing` with exactly the one row and no pending batch; `done` has the row unless the diff was empty |
| SyncTheorems.RowsLeavePendingOnce | services/context-engine/repositories/impl/sync_batch_repository_impl.go:78-199 | Over any continuation of any state, a terminal row that is still there is the very row it was: no duplicate, late or content-missing delivery turns success into failure or back |
| SyncTheorems.ResultsFrozen | services/context-engine/consumers/finalize_sync_consumer.go:97-132 | From the flip on no row is pending and no row changes in any continuation, and every finalizer works with one and the same delta |
| SyncTheorems.DoneIsSound | services/context-engine/consumers/finalize_sync_consumer.go:82-95 | A session with batches is `done` only if at some instant the stored tree held every processed path at its accepted hash and no processed delete, or an equal root hash was accepted for a delta that changes the set of paths |
| SyncTheorems.DoneAppliesOnce | services/context-engine/consumers/finalize_sync_consumer.go:184-225 | With no other writer, whatever crashes or is redelivered, `done` leaves the tree with the delta applied exactly once, if and only if the delta does not fool the fast path; otherwise the tree is untouched |
| SyncTheorems.OneWriterStore | services/context-engine/consumers/finalize_sync_consumer.go:164-225 | With no other writer the stored tree is at every moment the initial one or that with the whole delta; before the flip, and after `all_operations_failed`, it is the initial one |
| SyncTheorems.DuplicateDeletesStall | services/context-engine/services/impl/sync_session_service_ingest.go:236-256 | If a path is promised for deletion twice (explicit deletes are not deduplicated) the session is `receiving`, expired or collected at every moment of every run |
| SyncTheorems.StepSound | services/context-engine/consumers/stream_batch_consumer.go:92-305 | Every step of every party keeps the whole invariant: rows, outbox, tasks, wakeup, commit and receipts |
| SyncRename.MovedFileIsLost | services/context-engine/consumers/finalize_sync_consumer.go:184-202 | A concrete run for any two names: a full sync of a moved file that reaches `done` with no fault, no failed path and no other writer, while the stored tree never was anything but the old one |
| SyncInvariants.StepKeeps | services/context-engine/consumers/finalizer_trigger.go:71-105 | Rows agree with what /diff promised, outbox rows match batch rows, tasks come from outbox rows, and finalization is entered once and only on terminal rows: kept by every step |
| SyncInvariants.WorkerStamps | services/context-engine/repositories/impl/sync_batch_repository_impl.go:112-123 | Whatever a worker does, the rows keep their manifests and only pending rows change |
| SyncWakeup.StepWakes | services/context-engine/consumers/stream_batch_consumer.go:105-114 | The wakeup invariant, with each batch excused by its own faults only, is kept by every step of every party |
| SyncWakeup.LastStampIsWitness | services/context-engine/consumers/stream_batch_consumer.go:268-305 | The stamp that leaves no row pending makes its own batch the one whose trigger is still to run, unless that batch's task was archived or a stamp of it refused |
| SyncCommit.StepCommits | services/context-engine/consumers/finalize_sync_consumer.go:164-250 | Finalizers in each phase, and finished sessions, carry the evidence for their outcome through every step |
| SyncCommit.FrozenAfterFlip | services/context-engine/consumers/finalize_sync_consumer.go:97-106 | Once finalization was entered no stamp changes a row |
| SyncReceipts.StepReceipts | services/context-engine/services/impl/sync_session_service_ingest.go:198-256 | The merged manifests are the union of the batches' manifests, no batch is empty, nothing gets past `receiving` before the counts agree and nothing stays when they do: kept by every step |
| SyncReceipts.Coverage | services/context-engine/services/impl/sync_session_service_ingest.go:236-256 | Equal counts mean full coverage: every promised file and delete sits in some batch, and no delete was promised twice |
| SyncOneWriter.StepOneWriter | services/context-engine/consumers/finalize_sync_consumer.go:164-225 | With no other writer, every step keeps the tree at the initial one or the initial one with the delta |
| SyncOneWriter.LoadedTree | services/context-engine/consumers/finalize_sync_consumer.go:166-202 | A reload after a crash finds the initial tree, or the delta already in it |
| SyncProgress.HiddenPutFails | services/context-engine/services/impl/merkle_service_impl.go:656-673 | A put of the last attempt that goes through and is answered as a version mismatch: the session is stamped failed for want of attempts, with the delta in the tree |
| SyncConvergence.NextDiff | services/context-engine/services/sync_session_service.go:18-29 | After a full sync that ended `done` or `all_operations_failed`, with no other writer and an unchanged client, the next diff needs exactly the failed files and deletes exactly the failed deletes, if and only if the finalizer was not fooled by an equal root hash |
| SyncReports.NextDiffIsReported | services/context-engine/consumers/stream_batch_consumer.go:268-305 | What failed is what the indexing reported: under the same conditions the next diff needs exactly the files, and deletes exactly the paths, that every batch which had them reported failed or was given up over, if and only if the finalizer was not fooled |
| SyncReports.FailuresAreReports | services/context-engine/consumers/mark_batch_helpers.go:23-46 | In every run a row is succeeded with certain failures exactly if some delivery of the batch reported just these, as its last call before the stamp that was the first to commit; and rejected, with every file and delete of it failed, exactly if some delivery was the first to give the batch up |
| SyncReports.StampContributes | services/context-engine/consumers/finalize_sync_consumer.go:110-132 | The stamp of an indexed batch adds to the delta exactly its files and deletes that were not reported failed, at the hashes the batch brought |
| SyncReports.GivingUpContributesNothing | services/context-engine/repositories/impl/sync_batch_repository_impl.go:148-199 | A batch that is given up adds nothing to the delta |
| SyncConvergence.FooledDiffRepeats | services/context-engine/consumers/finalize_sync_consumer.go:184-202 | When it was fooled the next diff is the same one again |
| SyncConvergence.CleanSyncReachesClient | services/context-engine/services/impl/sync_session_diff_helpers.go:39-60 | A sync in which nothing failed leaves the tree equal to the client's, if and only if it was not the case that the client's tree has the stored root hash over different paths |
| SyncConvergence.FailedIsTheRest | services/context-engine/consumers/finalize_sync_consumer.go:97-132 | The files every accepting batch reported failed are exactly the accepted ones that are not processed; likewise deletes |
| SyncConvergence.DiffAfterMerge | services/context-engine/services/impl/sync_session_diff_helpers.go:42-60 | Merging part of a diff into the tree takes exactly that part out of the next diff |
| SyncConvergence.ComputeIncrementalNeed | services/context-engine/services/impl/sync_session_diff_helpers.go:66-76 | The incremental loop returns each submitted path the tree lacks or has differently, once, sorted by text |
| SyncConvergence.ComputeDiff | services/context-engine/services/impl/sync_session_diff_helpers.go:42-60 | The full diff returns what is needed and every tree path the client lacks, each once, both lists sorted by text |
| PathOrder.SortPathsSorts | services/context-engine/services/impl/sync_session_diff_helpers.go:57-58 | Sorting paths by their texts keeps each as often as it was there and puts them in order |
| Merkle.FlattenRebuild | services/context-engine/services/impl/merkle_service_impl.go:291-362 | Flattening a rebuilt directory tree gives back the leaves it was built from |
| Merkle.RebuildSorted | services/context-engine/services/impl/merkle_service_impl.go:186-188 | Every directory of a rebuilt tree lists its children in path order |
| Merkle.ApplyChangesIsMerge | services/context-engine/services/merkle_service.go:63-72 | ApplyChanges on a rebuilt tree is the merge of leaf maps: updates win over old leaves, deletes win over updates |
| Merkle.MergeReflects | services/context-engine/services/merkle_service.go:63-72 | The merged tree holds the delta, a tree that holds it is not changed by merging, and merging twice is merging once |
| Merkle.RootHashDetermines | services/context-engine/services/impl/merkle_service_impl.go:181-199 | Over one set of paths, two trees have the same root hash exactly when they are the same |
| Merkle.FastPathExact | services/context-engine/consumers/finalize_sync_consumer.go:184-202 | The equal-hash test accepts every tree that already holds the delta, never a missing one, and when it accepts it is right exactly if the delta keeps the tree's set of paths |
| Merkle.RenamePassesFastPath | services/context-engine/services/impl/merkle_service_impl.go:194-198 | It does accept wrongly: the hash covers no names, so moving a file leaves the root hash alone |
| Merkle.ReplacedDirectoryPassesFastPath | services/context-engine/services/impl/merkle_service_impl.go:194-198 | Neither does it tell a directory from a file whose bytes are the hash of its only child: replacing one by the other passes as well |
| Merkle.KeepsPathsIsSameKeys | services/context-engine/services/merkle_service.go:63-72 | Bringing no new path and deleting no present one is the same as leaving the set of paths alone |
| CommitLog.NoLostUpdates | services/context-engine/consumers/finalize_sync_consumer.go:164-225 | For any number of finalizers and any interleaving with crashes, redeliveries and lost acknowledgements: the tree is at all times the initial one with the committed deltas in commit order (fast-path exits counted as commits), if and only if no finalizer was fooled |
| CommitLog.PathKeepingCommitsAreSafe | services/context-engine/consumers/finalize_sync_consumer.go:184-202 | Commits that keep the set of paths are never fooled |
| CommitLog.MoveKeepsSerial | services/context-engine/services/impl/merkle_service_impl.go:554-570 | Every move keeps the log serial: each commit starts where the one before ended and is atomic |
| CommitLog.SaveIsAtomic | services/context-engine/services/impl/merkle_service_impl.go:601-639 | A conditional save either leaves the tree alone or puts the delta onto the tree as it is at that moment |
| CommitSteps.StepIsPlay | services/context-engine/consumers/finalize_sync_consumer.go:164-250 | Every step of a finalizer of the session machine is no, one or two moves of the commit log, with the same tree and the same agents after it |
| BatchConsumer.Handle | services/context-engine/consumers/stream_batch_consumer.go:92-305 | One delivery is a run of the session machine; it fails exactly in the listed cases and then leaves content, session and outbox alone. A pending row ends succeeded with just the failures the indexing reported, or rejected with everything failed for the reason that there was (content missing or undecodable, session past `processing`, the indexing's own error, or a result that could not be stored to the last), or as it was; no other row changes; when the writes go through the content is gone and the trigger run |
| BatchConsumer.RunTask | services/context-engine/consumers/stream_batch_consumer.go:224-266 | The queue's retry loop: at most four deliveries; content is in place as long as no delivery succeeded; a batch whose indexing always fails retryably is delivered exactly four times and ends rejected for the last reason |
| BatchConsumer.LoadAndIndex | services/context-engine/consumers/stream_batch_consumer.go:148-173 | Session gone: nothing is stamped; session past `processing`: stamped failed for that reason; transient load error: returned; otherwise the row is what the indexing leaves |
| BatchConsumer.IndexAndStamp | services/context-engine/consumers/stream_batch_consumer.go:191-305 | A successful indexing stores in the pending row exactly the failures it reported; a terminal error, a retryable one on the last attempt, or a result refused on the last attempt stores everything as failed for that reason; an error comes out exactly when the queue will retry |
| BatchConsumer.FailAndFinish | services/context-engine/consumers/stream_batch_consumer.go:208-222 | Stamp a pending row rejected, with everything in it failed for the reason, as far as that commits; then delete content and trigger, whatever the stamp's answer |
| BatchConsumer.FinishBatch | services/context-engine/consumers/stream_batch_consumer.go:102-114 | Content deletion is best effort, the trigger always follows, and after a committed trigger the session is not left ready |
| BatchConsumer.MarkBatchProcessed | services/context-engine/consumers/mark_batch_helpers.go:23-46 | Stores the reported failures in a pending row; a non-applied update is silent success; only a database error is returned |
| BatchConsumer.MarkBatchTerminallyFailed | services/context-engine/consumers/mark_batch_helpers.go:54-77 | Likewise for the failure stamp |
| BatchConsumer.Backend.MarkBatchSucceeded | services/context-engine/repositories/impl/sync_batch_repository_impl.go:78-146 | Guarded by `pending`: the row becomes succeeded, with the failed files and deletes that were given, its manifest and all other rows unchanged; tells whether a row matched |
| BatchConsumer.Backend.MarkBatchFailed | services/context-engine/repositories/impl/sync_batch_repository_impl.go:148-199 | Guarded by `pending`: the row becomes rejected, every accepted file failed for the given reason and every accepted delete failed, its manifest and all other rows unchanged |
| BatchConsumer.Backend.FlipToFinalizing | services/context-engine/repositories/impl/sync_session_repository_impl.go:165-179 | Flips exactly a `processing` session |
| BatchConsumer.Backend.InsertOutboxIfNotExists | services/context-engine/repositories/impl/sync_outbox_repository_impl.go:35-53 | Inserts a pending row unless there is one |
| BatchConsumer.Backend.TryEnqueue | services/context-engine/consumers/finalizer_trigger.go:62-121 | Flip and finalize row together, exactly when the session is processing with no pending batch and the transaction commits |
| BatchConsumer.LocalStepIsWork | services/context-engine/consumers/stream_batch_consumer.go:92-305 | A call of the handler is a step of the session machine |
| BatchConsumer.ExecutionIsRun | services/context-engine/consumers/stream_batch_consumer.go:92-305 | Every execution of the handler is a run of the machine, with the same end for the queue |
| FinalizeConsumer.Handle | services/context-engine/consumers/finalize_sync_consumer.go:64-255 | One delivery, with rivals storing trees in between, is a run of the machine; a session that is not finalizing is left alone; at most one write of its own, and none if the session is stamped failed, plus one for each put that went through and was answered as a mismatch; every write puts the rows' delta onto exactly the tree it replaces; the session is stamped done only with the delta written or taken as present, and failed for nothing to apply, for attempts that all came late, or for storage found dead, as was the case |
| FinalizeConsumer.CommitLoop | services/context-engine/consumers/finalize_sync_consumer.go:164-225 | At most five rounds; however it ends, at most one write took place, and none if it gave up, plus one for each put that was answered as a mismatch; it gives up for want of attempts only if every round met a rival between load and save or a mismatch reported without one, and for dead storage only if one found it so |
| FinalizeConsumer.TryCommit | services/context-engine/consumers/finalize_sync_consumer.go:166-224 | One round: load, apply, stop on an equal root hash, else save against the loaded version; each end only for what the round met |
| FinalizeConsumer.LoadRound | services/context-engine/consumers/finalize_sync_consumer.go:166-202 | Permanent and transient load errors, the fast-path exit, or on to the save |
| FinalizeConsumer.SaveRound | services/context-engine/consumers/finalize_sync_consumer.go:204-224 | Conflict, permanent error, other error and success of the save; a mismatch may be answered on an unchanged tree, with the put done or not |
| FinalizeConsumer.CommitAndMark | services/context-engine/consumers/finalize_sync_consumer.go:227-250 | `done` after a commit, `failed` after an exhausted loop or a permanent error, with the reason of each, an error otherwise |
| FinalizeConsumer.ProcessedSets | services/context-engine/consumers/finalize_sync_consumer.go:108-132 | The loops rebuild exactly the delta the terminal rows stand for, in whatever order rows and paths are visited |
| FinalizeConsumer.LoadTerminalResults | services/context-engine/repositories/impl/sync_batch_repository_impl.go:201-249 | Every non-pending row and nothing else |
| FinalizeConsumer.AddProcessedFiles | services/context-engine/consumers/finalize_sync_consumer.go:110-116 | A row's files that did not fail, laid over those before |
| FinalizeConsumer.AddProcessedDeletes | services/context-engine/consumers/finalize_sync_consumer.go:117-131 | A row's deletes that did not fail |
| FinalizeConsumer.Backend.MarkDone | services/context-engine/repositories/impl/sync_session_repository_impl.go:102-125 | Only a finalizing session becomes done; matching no row is no error |
| FinalizeConsumer.Backend.MarkFailed | services/context-engine/repositories/impl/sync_session_repository_impl.go:127-144 | Any session that is not terminal becomes failed, for the given reason |
| FinalizeConsumer.Backend.LoadTreeWithVersion | services/context-engine/services/impl/merkle_service_impl.go:540-552 | The stored tree and a version that stands for its content |
| FinalizeConsumer.Backend.SaveTreeIfUnchanged | services/context-engine/services/impl/merkle_service_impl.go:554-673 | Stores exactly if the stored version is the expected one and the put is done; a mismatch is answered when the versions differ, and also when the store reports a race or the put meets its own first try |
| FinalizeConsumer.OwnStepIsFinal | services/context-engine/consumers/finalize_sync_consumer.go:64-255 | A call of the finalizer is a step of the session machine |
| FinalizeConsumer.ExecutionIsRun | services/context-engine/consumers/finalize_sync_consumer.go:64-255 | Every execution of the finalizer, rivals included, is a run of the machine |
| Ingest.Backend.IngestBatch | services/context-engine/services/impl/sync_session_service_ingest.go:55-279 | The answer to every request, by the first test that fails: session gone; not receiving; id known (a duplicate); first bad entry with its reason; id not that of the entries; Redis down; transaction refused; a delete received before; commit not acknowledged; else queued. The database changes only as a whole and only for a well-formed request, and a row is inserted only once its content is there |
| Ingest.Backend.AdmitInTransaction | services/context-engine/services/impl/sync_session_service_ingest.go:168-258 | All or nothing, applied exactly when the session is receiving, the id is new and no delete was received before: the pending row, the merged manifests, the outbox row, and `processing` exactly when the counts agree; each refusal has its own answer |
| Ingest.Backend.CrossBatchDeleteDedup | services/context-engine/services/impl/sync_session_service_ingest.go:290-310 | True exactly if no delete of the batch was received before |
| Ingest.AdmitIsStep | services/context-engine/services/impl/sync_session_service_ingest.go:168-258 | It is the admission step of the session machine |
| Ingest.ValidateBatchEntries | services/context-engine/services/impl/sync_session_service_ingest.go:335-381 | Accepts exactly the non-empty batches whose every entry is promised with its hash and intact, with no path twice; otherwise the reason is what is wrong with the first bad entry, by the first test that it fails |
| Ingest.ValidatedIsAdmissible | services/context-engine/services/impl/sync_session_service_ingest.go:125-139 | The manifests of a validated batch agree with what was promised, name no path twice, and carry every entry |
| Ingest.BuildManifests | services/context-engine/services/impl/sync_session_service_ingest.go:125-139 | The manifests as the entries say, later entries winning, the deletes sorted by text |
| OutboxDispatcher.OutboxTable.DrainRound | services/context-engine/services/impl/outbox_dispatcher_impl.go:180-229 | Every claimed row ends enqueued with its task in the queue or its archive, or pending, or left for the reaper; no other row moves; the queue gains only tasks of claimed rows whose ids were free, with no retries counted, and keeps the others as they were |
| OutboxDispatcher.OutboxTable.EnqueueAll | services/context-engine/services/impl/outbox_dispatcher_impl.go:193-206 | Claimed rows are split by the answer of the enqueue; acknowledged tasks are in the queue or its archive |
| OutboxDispatcher.OutboxTable.EnqueueOne | services/context-engine/services/impl/outbox_dispatcher_impl.go:235-282 | A task id that is taken, by a job in the queue or an archived one, is success and changes nothing; a free one enters the queue with no retries counted |
| OutboxDispatcher.OutboxTable.ClaimPending | services/context-engine/repositories/impl/sync_outbox_repository_impl.go:60-84 | Up to the limit, pending rows and only those become `enqueuing`; fewer only if none is left |
| OutboxDispatcher.OutboxTable.MarkEnqueued | services/context-engine/repositories/impl/sync_outbox_repository_impl.go:86-109 | Moves exactly the listed rows that are still `enqueuing` |
| OutboxDispatcher.OutboxTable.ResetToPending | services/context-engine/repositories/impl/sync_outbox_repository_impl.go:111-126 | Likewise, back to pending |
| OutboxDispatcher.OutboxTable.ReapStuck | services/context-engine/repositories/impl/sync_outbox_repository_impl.go:128-141 | Stuck rows become pending again |
| OutboxDispatcher.ReleaseAllIsRelease | services/context-engine/repositories/impl/sync_outbox_repository_impl.go:86-126 | Moving several rows is moving them one by one, as the session machine does |
| CheckpointHistory.RestoreInvertsHistory | crates/git-ops/src/checkpoint.rs:175-242 | After any history of backups, writes, and rewinds that reuse turn numbers, restoring to `t` returns every path to its content at the end of turn `t` |
| CheckpointHistory.BackupKeeps | crates/git-ops/src/checkpoint.rs:145-173 | A backup, also one that the first-wins rule ignores, changes nothing that can be restored |
| CheckpointHistory.WriteKeeps | crates/git-ops/src/checkpoint.rs:109-120 | A change after a backup in its turn keeps every earlier turn restorable |
| CheckpointHistory.RewindKeeps | apps/desktop/src-tauri/src/agent_bridge/commands.rs:2360-2368 | Restoring and pruning re-establishes the store invariant, so that turn numbers can be used again |
| CheckpointHistory.RewoundRestore | crates/git-ops/src/checkpoint.rs:339-358 | What is left after a rewind restores as it did before |
| CheckpointHistory.RestoreForgets | crates/git-ops/src/checkpoint.rs:183-242 | Restoring depends on the present files only where no later turn has an entry |
| CheckpointHistory.RestoreTwice | crates/git-ops/src/checkpoint.rs:175-180 | Restoring again, or further back, gives what restoring at once would have given |
| CheckpointHistory.RestoredTurnIsPrior | crates/git-ops/src/checkpoint.rs:266-313 | Right after restoring to the turn before, each path of a turn is in its recorded prior state |
| CheckpointHistory.OneTurnDown | crates/git-ops/src/checkpoint.rs:194-242 | Newest-first replay: undoing one more turn makes its entries win |
| CheckpointUnpruned.PastIsSafe | apps/desktop/src-tauri/src/agent_bridge/commands.rs:2360-2368 | After going back to a turn without pruning, or with a prune that got only part of the way but newest first, every turn up to that one is restored exactly after any later backups and writes, whether their turn numbers are new or used again |
| CheckpointUnpruned.DiedRestoreIsSafe | crates/git-ops/src/checkpoint.rs:183-242 | After a restore that died and was not run again, every turn up to the one it aimed at is restored exactly after any later backups and writes |
| CheckpointUnpruned.DiedRestoreExactIff | crates/git-ops/src/checkpoint.rs:183-242 | A later turn is restored right after the crash exactly if every path that no still later turn has recorded was left as it was |
| CheckpointUnpruned.PastAfterGoingBackIff | apps/desktop/src-tauri/src/agent_bridge/commands.rs:2360-2368 | However much was pruned: right after going back all turns up to that one are restored exactly, if and only if going back to it once more would change nothing |
| CheckpointUnpruned.PruneOrderMatters | crates/git-ops/src/checkpoint.rs:339-358 | A prune that stops half-way is harmless whatever the turns hold, if and only if with every removed turn all later ones were removed as well; the code removes in directory order |
| CheckpointUnpruned.StaleTurnExactIff | apps/desktop/src-tauri/src/agent_bridge/commands.rs:2360-2368 | A later turn that was undone but not pruned is restored right after going back exactly if the paths recorded above it are the same at its end and at the turn gone back to |
| CheckpointUnpruned.PastStaysExact | crates/git-ops/src/checkpoint.rs:121-173 | A turn that can be restored when it ends can be for ever after, in spite of stale manifests: no later backup or write takes it away |
| CheckpointUnpruned.EndOfTurn | crates/git-ops/src/checkpoint.rs:175-180 | A turn can be restored when it ends exactly if restoring to it would change nothing |
| CheckpointUnpruned.WriteKeepsPresentIff | crates/git-ops/src/checkpoint.rs:121-173 | One write keeps the present restorable exactly if no stale later turn has recorded the path, or the write changes nothing |
| CheckpointUnpruned.PruningIsNeeded | crates/git-ops/src/checkpoint.rs:175-180 | An instance: a write to a path that a stale later turn has recorded, lost by restoring to its own turn |
| CheckpointStore.CheckpointStore.BackupFile | crates/git-ops/src/checkpoint.rs:121-173 | At every crash point the store reads as before or as after, blobs that entries refer to are untouched, and a completed backup records the prior state unless the path is recorded already |
| CheckpointStore.CheckpointStore.Record | crates/git-ops/src/checkpoint.rs:149-173 | A path not yet recorded: blob first, manifest last; when done its prior state is recorded, at every crash point the store reads as before or as after |
| CheckpointStore.CheckpointStore.WriteBlob | crates/git-ops/src/checkpoint.rs:157-164 | The blob is written under a number no entry uses, invisibly at every crash point |
| CheckpointStore.CheckpointStore.WriteManifestAtomic | crates/git-ops/src/checkpoint.rs:98-107 | The rename is the one visible step |
| CheckpointStore.Appended | crates/git-ops/src/checkpoint.rs:167-172 | The new manifest adds exactly the entry, with its blob readable and all others as they were |
| CheckpointStore.Invisible | crates/git-ops/src/checkpoint.rs:157-164 | Blobs without an entry and temporary manifests are invisible |
| CheckpointStore.CheckpointStore.RestoreTo | crates/git-ops/src/checkpoint.rs:183-242 | The newest-first loop gives every path inside the root the oldest entry above the target and touches no other path; the count is the number of entries above the target inside the root; after a crash only such paths differ |
| CheckpointStore.CheckpointStore.UndoEntry | crates/git-ops/src/checkpoint.rs:209-237 | One entry: skipped outside the root, else its path is put back to the recorded state and counted; a crash touches that path only |
| CheckpointStore.CheckpointStore.UndoTurn | crates/git-ops/src/checkpoint.rs:208-238 | The inner loop applies a turn's entries inside the root and no others |
| CheckpointStore.UndoneIsRestored | crates/git-ops/src/checkpoint.rs:183-242 | For paths under the root the loop computes the restore of the history |
| CheckpointStore.RestartedRestore | crates/git-ops/src/checkpoint.rs:183-242 | A restore that died half-way can be run again |
| CheckpointStore.CheckpointStore.DeleteFrom | crates/git-ops/src/checkpoint.rs:339-358 | Removes exactly the turns from the given one on and counts them; if a removal fails, any part of those turns is gone and nothing else |
| CheckpointStore.CheckpointStore.RemoveTurns | crates/git-ops/src/checkpoint.rs:349-358 | The loop, stopped by the first removal that fails: turns below are untouched, and of the others each is as it was, without its manifest, or not there |
| CheckpointStore.CheckpointStore.GoBack | apps/desktop/src-tauri/src/agent_bridge/commands.rs:2360-2368 | Restore, and if it got to its end prune, whose error is dropped: the files are then those of the target turn, and the store is that of a rewind if the prune succeeds and else holds any part of the undone turns; a restore that died leaves the store alone and has changed only what later turns have recorded |
| CheckpointStore.CheckpointStore.List | crates/git-ops/src/checkpoint.rs:316-336 | Exactly the turns with a manifest, ascending, with their paths in order |
| CheckpointStore.CheckpointStore.DiffTurn | crates/git-ops/src/checkpoint.rs:266-313 | The diffs of exactly the entries whose prior bytes differ from the present ones, in order, each with its path on both header lines and the edit readable from its text, or as a binary file; with the number of these files and the sums of inserted and deleted lines |
| CheckpointStore.TurnShownOnce | crates/git-ops/src/checkpoint.rs:266-313 | What the diff of a turn shows determines it, text and numbers |
| CheckpointStore.NothingLeftToShow | crates/git-ops/src/checkpoint.rs:266-313 | Right after restoring to the turn before, the diff of a turn is empty, text and counts |
| CheckpointStore.IsWithinRoot | crates/git-ops/src/checkpoint.rs:247-262 | Lexical containment after resolving dots; climbing above the start is refused |
| CheckpointStore.WithinMeans | crates/git-ops/src/checkpoint.rs:244-246 | For absolute paths without dots, inside means having the root as prefix |
| CheckpointStore.DetourChangesNothing | crates/git-ops/src/checkpoint.rs:249-260 | A detour into a directory and out again, or a dot, changes nothing, wherever it stands |
| CheckpointStore.ClimbsOut | crates/git-ops/src/checkpoint.rs:251-256 | An absolute path is refused whatever the root if at some point it has more parent steps than names, and by counting alone leads somewhere exactly if it has not |
| CheckpointNames.SanitizeSessionId | crates/git-ops/src/checkpoint.rs:57-68 | The loop computes the percent encoding |
| CheckpointNames.SanitizeIsReversible | crates/git-ops/src/checkpoint.rs:54-56 | The encoding can be read back |
| CheckpointNames.SanitizeIsInjective | crates/git-ops/src/checkpoint.rs:54-56 | Distinct ids never collide |
| CheckpointNames.PlainIdsShow | crates/git-ops/src/checkpoint.rs:57-68 | An id is its own directory name exactly if it has nothing but letters, digits, dots, underscores and hyphens |
| CheckpointNames.SanitizeIsOneSegment | crates/git-ops/src/checkpoint.rs:54-56 | The result holds no path separator, and names a directory of its own if and only if the id is not empty, `.` or `..`, which are left as they are |
| CheckpointNames.TurnNameRoundTrip | crates/git-ops/src/checkpoint.rs:74-81 | Every 32-bit turn number is parsed back from its directory name |
| CheckpointNames.FourDigits | crates/git-ops/src/checkpoint.rs:74-76 | Up to turn 9999 the name has exactly four digits |
| CheckpointNames.TurnNamesDiffer | crates/git-ops/src/checkpoint.rs:74-76 | Distinct turns have distinct directories |
| UnifiedDiff.UnifiedFileDiff | crates/git-ops/src/checkpoint.rs:379-425 | Two header lines with the path; what follows, cut at newlines, is a minus sign before each removed line and then a plus sign before each added line, and nothing else; replacing the removed by the added lines between the trimmed ends turns the prior lines into the current ones, no shorter replacement exists, and the counts are those of the lines; or the one line for a binary file |
| UnifiedDiff.SaysOnce | crates/git-ops/src/checkpoint.rs:379-425 | So the two files determine the text and both counts |
| UnifiedDiff.GreedyIsShortest | crates/git-ops/src/checkpoint.rs:392-405 | Greedy prefix, then greedy suffix, is a shortest single replacement |
| UnifiedDiff.CommonPrefix | crates/git-ops/src/checkpoint.rs:392-396 | The longest common prefix |
| UnifiedDiff.CommonSuffix | crates/git-ops/src/checkpoint.rs:397-404 | The longest common suffix outside the prefix; the subtractions never underflow |
| UnifiedDiff.AppendMarked | crates/git-ops/src/checkpoint.rs:407-418 | What is appended, cut at newlines, is exactly each line behind the mark, in order; and they are counted |
| UnifiedDiff.EmptyEdit | crates/git-ops/src/checkpoint.rs:392-418 | The edit is empty exactly when the lines are the same |
| Packing.ChunkIntoBatches | crates/context-sync/src/streamer.rs:891-929 | The batches' files concatenate to the input, each batch meets both caps or is one file, deletes are sent once, and no order-preserving split under the same rule has fewer file batches |
| Packing.FullIsOptimal | crates/context-sync/src/streamer.rs:891-929 | A split whose parts could not take the next file is optimal |
| Packing.GreedyStaysAhead | crates/context-sync/src/streamer.rs:900-915 | Greedy needs no more parts than any split that starts no later |
| Packing.PartFits | crates/context-sync/src/streamer.rs:900-908 | A stretch of a batch that fits is a batch that fits |
| Packing.WalkAndHash | crates/context-sync/src/streamer.rs:787-887 | Takes the entries of exactly the files that the filter includes, that are within the size limit and read as text, in order, exactly if not cancelled, without hard read errors, and within both caps; otherwise returns the error of the first entry that stands in the way |
| Packing.NeededExactlyOnce | crates/context-sync/src/streamer.rs:969-976 | Exactly the needed entries are sent, one per path |
| UploadPlan.ClientPlanIff | crates/context-sync/src/streamer.rs:891-929 | The batches cut from a /diff answer are valid one by one, share nothing and bring everything, if and only if no delete is named twice and none is a needed file of the first batch, with which all deletes ride |
| UploadPlan.PlanCompletes | services/context-engine/services/impl/sync_session_service_ingest.go:55-279 | Such requests, in whatever order, are all admitted, none flips the session early, and the last one brings it to `processing` with exactly their rows |
| UploadPlan.ClientCompletes | crates/context-sync/src/streamer.rs:441-486 | So the client's batches complete the session that /diff created |
| PathOrder.PathOfInjective | services/context-engine/services/impl/sync_session_diff_helpers.go:39-60 | Cutting a path text at its slashes loses nothing |
| BatchIdentity.DeterministicBatchIdText | crates/context-sync/src/streamer.rs:933-943 | The loops build the sorted, joined text |
| BatchIdentity.IdTextIsCanonical | crates/context-sync/src/streamer.rs:931-943 | For newline-free paths, and hashes free of newline and separator, two batches have the same text exactly when they hold the same operations up to order |
| BatchIdentity.ServerAgrees | services/context-engine/services/impl/batch_id.go:29-37 | The server gets the client's text from any order of the entries, whatever their paths hold |
| BatchIdentity.LineDetermines | crates/context-sync/src/streamer.rs:935-940 | A line says its operation, path and hash, even if the path has separators or newlines |
| BatchIdentity.JoinDetermines | crates/context-sync/src/streamer.rs:942 | Joining newline-free lines loses nothing |
| BatchConfusion.SameTextIff | crates/context-sync/src/streamer.rs:931-943 | Two non-empty batches have the same text if and only if their sorted operation lines, cut at newlines, are the same lines |
| BatchConfusion.NewlineConfuses | crates/context-sync/src/streamer.rs:933-943 | For any two files, with different paths or not, one file whose path holds the first line and the second path has the same text |
| BatchConfusion.ConfusableIff | crates/context-sync/src/streamer.rs:933-943 | A batch shares its id text with a batch of other operations if and only if the lines of its text can be grouped in another way into the lines of operations, in order |
| BatchConfusion.TwoFilesConfuse | crates/context-sync/src/streamer.rs:931-943 | So every batch with two files or more has a rival, whether or not its own paths hold newlines |
| BatchConfusion.CleanPartnerIff | crates/context-sync/src/streamer.rs:931-943 | A rival, or the batch itself, is newline-free if and only if each line of the text by itself is that of an operation, in order |
| BatchConfusion.NoCleanPartner | crates/context-sync/src/streamer.rs:931-943 | Two batches that share a text which no newline-free batch has |
| StringOrder.SortForgetsOrder | crates/context-sync/src/streamer.rs:941 | Sorting forgets exactly the order |
| Upload.StreamOneBatch | crates/context-sync/src/streamer.rs:490-592 | At most four posts, only retryable answers before the last; success exactly if a good answer comes in time and before cancellation, with the counts that answer gave; failure is a cancellation found before the next post, or the error that the last answer calls for: expired, bad request, authentication, or HTTP, a retryable one only on the fourth post |
| Upload.BoundedUploadCleanAbort | crates/context-sync/src/streamer.rs:429-486 | In every run at most ten uploads are in flight and no batch is posted more than four times; `Ok` means the server took every batch, and the totals are the sums of what it said about each, whatever the order of completion; `Err` leaves no task running, and its error is that of the first failed result that was joined, which goes back to an answer, the token or a panic, or is the cancellation found while spawning; the parent token is only cancelled from outside |
| Upload.CancelStopsSpawning | crates/context-sync/src/streamer.rs:449-463 | Once the parent token is cancelled no task is spawned any more, except one that was already waiting for its permit |
| Upload.LateSpawn | crates/context-sync/src/streamer.rs:449-463 | That exception occurs: the token is tested before the wait for the permit |
| Upload.StepKeeps | crates/context-sync/src/streamer.rs:452-486 | Every step keeps every batch in exactly one place, every outcome what the server answered for that batch, and the totals right |
| Upload.TotalJoins | crates/context-sync/src/streamer.rs:468-476 | Joining a result adds its outcome to the total, at whatever point it comes |
| Truncate.FloorCharBoundary | crates/agent/src/util.rs:103-112 | The largest character boundary at or below the target, at most three bytes back on valid text |
| Truncate.TruncateStr | crates/agent/src/util.rs:116-118 | The longest prefix of whole characters within the limit |
| Truncate.BoundarySplits | crates/agent/src/util.rs:103-112 | In valid text the boundaries are exactly the places where whole characters end |
| Truncate.BoundaryNear | crates/agent/src/util.rs:103-112 | No position is more than three bytes after a boundary |
| Truncate.TruncateOutput | crates/agent/src/util.rs:122-151 | Over a limit, the first lines are kept, within both limits, and a notice follows from whose words exactly the numbers of kept and all lines and of kept and all bytes can be read, unless the output exceeds the byte limit by its line terminators alone (all lines within the line limit, the first shorter than the byte limit, all together within it): those are lost in silence. No more lines would have fitted if and only if no line may be kept at all or the first line is not exactly as long as the byte limit |
| Truncate.StatesOnce | crates/agent/src/util.rs:134-137 | A notice states its four numbers and no others |
| Truncate.StopsAtEnd | crates/agent/src/util.rs:133-150 | The loop gets through all lines, so that there is no notice, if and only if they are within the line limit, the first is shorter than the byte limit, and all together are within it |
| Truncate.StopsAtMost | crates/agent/src/util.rs:133-150 | Where the loop stops is the largest number of lines that fits, if and only if the first line does not fill the byte limit exactly |
| Truncate.FirstLineDropped | crates/agent/src/util.rs:134 | An input for which it is not: a first line of three bytes within three bytes is not kept |
| Truncate.LinesRejoin | crates/agent/src/util.rs:123-133 | The lines of a text without carriage returns, joined again, are the text without its last newline, if it ends in one |
| Truncate.LinesAreLines | crates/agent/src/util.rs:123-133 | No line holds a newline |
| Truncate.KeptIsShorter | crates/agent/src/util.rs:133-150 | Joining the lines again loses only bytes of line terminators |
| Truncate.LostWithoutNotice | crates/agent/src/util.rs:122-151 | An input that loses its last newline without a notice |
| Truncate.SilentLossIsLastNewline | crates/agent/src/util.rs:122-151 | Without carriage returns, the silent loss is that of a last newline, if and only if it is the one byte over the limit (and the line limits hold) |

## Left out

- SyncTheorems.NoLostWakeup: excepts faults of the batch that was the last to leave `pending`; what exactly a session needs to go on is `SyncWedge.CanFlipIff`.
- SyncTheorems.DoneIsSound: other writers may overwrite the tree later, so it speaks of some instant of the run; sessions are modelled one at a time, other sessions of the repository being other writers.
- SyncProgress.CanFinishIff: that an end can be reached; that a fair scheduler reaches it is not stated.
- SyncProgress.CanBeDone: where nothing was processed and no pending batch has both its content and its task, a delivery that has already fetched its content, or a late request, could still do better than `failed`.
- FinalizeConsumer.CommitLoop: promises one write only as far as no put was answered as a mismatch, because the store can answer so after it has written.
- SyncConvergence.NextDiff: for full diffs; of incremental diffs only the need list is modelled, explicit deletes being arbitrary.
- Merkle.ApplyChangesIsMerge: the tree is rebuilt by recursion on values; the table of directory nodes that the code fills in place is not modelled, nor is a file that shares its full path with a directory beyond putting the file first.
- BatchConsumer.Handle: executes without interference between its calls; interleavings with other deliveries are in the step machine.
- FinalizeConsumer.Handle: interference is limited to other writers of the tree; the rest is in the step machine.
- Ingest.Backend.IngestBatch: the entries of one request; decoding, decompression, the HTTP status codes, and database errors before the transaction (answered as internal errors) are not modelled.
- OutboxDispatcher.OutboxTable.DrainRound: one round; NOTIFY, polling intervals and the claim order by row id are not modelled.
- CheckpointStore.CheckpointStore.RestoreTo: backups are sequential, files are regular, and distinct manifest paths name distinct files; errors of the file system other than a crash are not modelled.
- CheckpointStore.CheckpointStore.DiffTurn: splitting bytes into lines, and whether they are text, is a parameter.
- CheckpointStore.CheckpointStore.RemoveTurns: a removal that fails leaves the turn as it was or without its manifest; one that leaves the manifest but not all blobs is not modelled, because every store here is one whose manifests can be read back.
- CheckpointHistory.RestoreInvertsHistory: turn numbers do not decrease except by a rewind, and every change is preceded by a backup in its turn; changes made by shell commands are not captured by the code either.
- Upload.BoundedUploadCleanAbort: a POST and its answer are one step; backoff times are not modelled.
- Packing.WalkAndHash: the walk itself, ignore rules and hashing are parameters; a file may have grown since its metadata was read, as in the code.
- Polling for completion: the client also returns success on its deadline and on 410, so its success does not mean `done`; only an easy loop is left.
- DiffTrees, LoadTree and SaveTree: not used by the streaming path.
- Full-text, vector and graph stores, the indexing pipeline, embedding and retrieval: foreign services.
- HTTP, gzip, JSON, base64, Postgres, Redis and Asynq internals; timers and TTL durations, which are nondeterministic steps here.
- Ignore rules, the desktop user interface, Git commands, pull requests, the v1 service, metrics and configuration: only easy members, or foreign processes.
