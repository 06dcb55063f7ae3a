/** One streaming sync session as a step machine: /stream admission, the outbox dispatcher, any number
    of concurrent batch workers and finalizers, the Merkle store, the TTL janitor, and every fault the
    code is written against (crashes, redelivery, duplicate delivery, lost acknowledgements).

    One step is one repository call, one transaction under the session row lock, or one queue action. */
module SyncProtocol {
  import opened Merkle

  type BatchId = string

  const MAX_RETRY: nat := 3
  const MAX_CAS_ATTEMPTS: nat := 5

  // ---------------------------------------------------------------------------
  // State
  // ---------------------------------------------------------------------------

  datatype Status = Receiving | Processing | Finalizing | Done | Failed(reason: string) | Expired

  /** `Gone`: the session row was garbage-collected, and its batch and outbox rows with it. */
  datatype Session = Gone | Present(status: Status)

  datatype RowState = Pending | Succeeded | Rejected

  datatype Row = Row(files: Leaves, deletes: seq<Path>, state: RowState,
                     failedFiles: map<Path, string>, failedDeletes: seq<Path>)

  /** A /stream request between its Redis SET and its transaction. */
  datatype Request = Request(id: BatchId, files: Leaves, deletes: seq<Path>)

  datatype Key = Batch(id: BatchId) | Finalize

  datatype OutboxStatus = Unclaimed | Enqueuing | Enqueued

  /** A row held in memory by a dispatcher, and whether it has been handed to the job queue. */
  datatype Claim = Claim(key: Key, sent: bool)

  datatype Phase =
    | Start
    | HaveContent
    | ReadyToIndex
    | StampingOk(failedFiles: map<Path, string>, failedDeletes: seq<Path>)
    | StampingFailed(why: string)
    | Finishing
    | Triggering
    | Returning

  /** A running delivery of a batch task; `retry` is the queue's count when it was delivered. */
  datatype Worker = Worker(id: BatchId, retry: nat, phase: Phase)

  datatype FinalPhase =
    | Begin
    | Admitted
    | Loading(delta: Delta, attempt: nat)
    | Saving(delta: Delta, attempt: nat, seen: Stored)
    | Committed(delta: Delta)
    | GivingUp(because: string)
    | Ending

  datatype State = State(
    // what /diff promised
    expectedFiles: Leaves,
    expectedDeletes: seq<Path>,
    // Postgres
    session: Session,
    receivedFiles: Leaves,
    receivedDeletes: seq<Path>,
    rows: map<BatchId, Row>,
    outbox: map<Key, OutboxStatus>,
    // Redis, request handlers, dispatchers, task queue
    content: set<BatchId>,
    requests: map<nat, Request>,
    claims: map<nat, Claim>,
    queue: map<Key, nat>,
    // running deliveries
    workers: map<nat, Worker>,
    finalizers: map<nat, FinalPhase>,
    // the queue's archive: jobs that failed at their retry limit, whose ids stay taken
    dropped: set<Key>,
    // object storage
    store: Stored,
    // history: jobs ever handed to the queue, batches whose worker went on although the database had refused
    // its stamp, batches whose trigger transaction was lost when it mattered, the batch that was the last to
    // leave `pending`, flips to finalizing, every content the store has had
    handed: set<Key>,
    unmarked: set<BatchId>,
    misfired: set<BatchId>,
    last: BatchId,
    flips: nat,
    past: set<Stored>)

  ghost function Initial(files: Leaves, deletes: seq<Path>, store: Stored): (s: State)
  {
    State(files, deletes,
          Present(if files == map[] && deletes == [] then Done else Receiving),
          map[], [], map[], map[], {}, map[], map[], map[], map[], map[], {}, store,
          {}, {}, {}, "", 0, {store})
  }

  // ---------------------------------------------------------------------------
  // Steps
  // ---------------------------------------------------------------------------

  /** The caller's view of a write: it committed and was acknowledged, it committed but the caller saw
      an error, or it did not commit and the caller saw an error. */
  datatype Reply = Acked | Lost | Refused

  datatype Outcome =
    | Indexed(failedFiles: map<Path, string>, failedDeletes: seq<Path>)
    | TerminalError(why: string)
    | RetryableError(why: string)

  datatype StreamStep =
    | PutContent(r: nat, request: Request)
    | Admit(r: nat)
    | Abandon(r: nat)
    | EvictContent(id: BatchId)

  datatype DispatchStep =
    | TakeClaim(c: nat, key: Key)
    | Send(c: nat, reply: Reply)
    | ConfirmSent(c: nat)
    | ClaimDies(c: nat)
    | Reap(key: Key)

  datatype WorkStep =
    | Deliver(id: BatchId)
    | FetchContent(readable: bool)
    | LoadSession
    | Index(outcome: Outcome)
    | StampOk(reply: Reply)
    | StampFailed(reply: Reply)
    | DropContent(deleted: bool)
    | Trigger(reply: Reply)
    | Return
    | Err
    | Die

  /** `SaveMissed`: the save is answered as a version mismatch whether or not there was one. The store may
      report a race of writers in the same way, and a put that went through but was sent again meets its own
      write. */
  datatype FinalStep =
    | DeliverFinal
    | CheckStatus
    | LoadResults
    | LoadTree
    | SaveTree(reply: Reply)
    | SaveMissed(written: bool)
    | StorageDead
    | MarkSession(reply: Reply)
    | ReturnFinal
    | ErrFinal
    | DieFinal

  datatype WorldStep = OtherWrite(store: Stored) | Expire | Collect

  datatype Step =
    | Stream(stream: StreamStep)
    | Dispatch(dispatch: DispatchStep)
    | Work(w: nat, work: WorkStep)
    | Final(f: nat, final: FinalStep)
    | World(world: WorldStep)

  // ---- repository operations ----

  predicate Distinct(ps: seq<Path>)
  {
    forall i, j :: 0 <= i < j < |ps| ==> ps[i] != ps[j]
  }

  /** All-or-nothing validation of a batch against what /diff promised. */
  predicate ValidRequest(files: Leaves, deletes: seq<Path>, q: Request)
  {
    && (q.files != map[] || q.deletes != [])
    && (forall p :: p in q.files ==> p in files && files[p] == q.files[p])
    && (forall p :: p in q.deletes ==> p in deletes && p !in q.files)
    && Distinct(q.deletes)
  }

  /** A receiving session, a new batch, and no delete that was received before. */
  predicate MayAdmit(session: Session, rows: map<BatchId, Row>, receivedDeletes: seq<Path>, q: Request)
  {
    && session == Present(Receiving)
    && q.id !in rows
    && (forall p :: p in q.deletes ==> p !in receivedDeletes)
  }

  predicate Admissible(s: State, q: Request)
  {
    MayAdmit(s.session, s.rows, s.receivedDeletes, q)
  }

  function NewRow(q: Request): (row: Row)
  {
    Row(q.files, q.deletes, Pending, map[], [])
  }

  /** Only the counts are compared. */
  function SessionOnCounts(expectedFiles: Leaves, expectedDeletes: seq<Path>, files: Leaves,
          deletes: seq<Path>): (session: Session)
  {
    Present(if |files| == |expectedFiles| && |deletes| == |expectedDeletes| then Processing else Receiving)
  }

  /** The outbox transaction of IngestBatch: insert the row, merge the received manifests, insert the
      outbox row, and flip receiving -> processing iff the counts now match. */
  function AdmitRow(s: State, q: Request): (t: State)
  {
    var files := s.receivedFiles + q.files;
    var deletes := s.receivedDeletes + q.deletes;
    s.(receivedFiles := files, receivedDeletes := deletes,
       rows := s.rows[q.id := NewRow(q)],
       outbox := s.outbox[Batch(q.id) := Unclaimed],
       session := SessionOnCounts(s.expectedFiles, s.expectedDeletes, files, deletes))
  }

  predicate PendingIn(s: State, id: BatchId)
  {
    id in s.rows && s.rows[id].state == Pending
  }

  /** MarkBatchSucceeded: a no-op unless the row is still pending. */
  function Succeed(rows: map<BatchId, Row>, id: BatchId, failedFiles: map<Path, string>,
          failedDeletes: seq<Path>): (r: map<BatchId, Row>)
  {
    if id in rows && rows[id].state == Pending
    then rows[id := rows[id].(state := Succeeded, failedFiles := failedFiles, failedDeletes := failedDeletes)]
    else rows
  }

  /** MarkBatchFailed: a no-op unless the row is still pending; every accepted path becomes a failed one. */
  function Reject(rows: map<BatchId, Row>, id: BatchId, why: string): (r: map<BatchId, Row>)
  {
    if id in rows && rows[id].state == Pending
    then
      var row := rows[id];
      rows[id := row.(state := Rejected, failedFiles := map p | p in row.files :: why, failedDeletes := row.deletes)]
    else rows
  }

  predicate AllTerminal(rows: map<BatchId, Row>)
  {
    rows != map[] && forall id :: id in rows ==> rows[id].state != Pending
  }

  /** What TryEnqueue checks under the session lock before it flips the session and inserts the
      finalize row, unless it exists, in the same transaction. */
  predicate Ready(session: Session, rows: map<BatchId, Row>)
  {
    session == Present(Processing) && AllTerminal(rows)
  }

  predicate ReadyToFinalize(s: State)
  {
    Ready(s.session, s.rows)
  }

  predicate Terminal(status: Status)
  {
    status.Done? || status.Failed? || status.Expired?
  }

  function MarkDone(session: Session): (r: Session)
  {
    if session == Present(Finalizing) then Present(Done) else session
  }

  function MarkFailed(session: Session, why: string): (r: Session)
  {
    if session.Present? && !Terminal(session.status) then Present(Failed(why)) else session
  }

  // ---- queue operations ----

  predicate Exhausted(queue: map<Key, nat>, key: Key)
  {
    key in queue && queue[key] >= MAX_RETRY
  }

  /** An id that is in the queue, or in its archive, is taken: enqueueing it again is answered as a success,
      and changes nothing. */
  function EnqueuedIn(queue: map<Key, nat>, archived: set<Key>, key: Key, reply: Reply): (q: map<Key, nat>)
  {
    if reply.Refused? || key in queue || key in archived then queue else queue[key := 0]
  }

  /** A delivery ended without success: retry the job, or archive it at its limit. */
  function Retried(queue: map<Key, nat>, key: Key): (q: map<Key, nat>)
  {
    if key !in queue then queue
    else if queue[key] < MAX_RETRY then queue[key := queue[key] + 1]
    else queue - {key}
  }

  /** How a step leaves the delivery it belongs to: in a phase, over with an error (or dead), or over
      and acknowledged. */
  datatype Next<P> = Goto(phase: P) | Error | Ack

  /** After an error the job is retried or archived, after an acknowledgement it is deleted. */
  function QueueAfter<P>(queue: map<Key, nat>, key: Key, next: Next<P>): (q: map<Key, nat>)
  {
    match next
    case Goto(_) => queue
    case Error => Retried(queue, key)
    case Ack => queue - {key}
  }

  function DroppedAfter<P>(dropped: set<Key>, queue: map<Key, nat>, key: Key, next: Next<P>): (d: set<Key>)
  {
    if next.Error? && Exhausted(queue, key) then dropped + {key} else dropped
  }

  /** The guarded outbox transitions away from `Enqueuing`. */
  function Release(outbox: map<Key, OutboxStatus>, key: Key, next: OutboxStatus): (o: map<Key, OutboxStatus>)
  {
    if key in outbox && outbox[key] == Enqueuing then outbox[key := next] else outbox
  }

  // ---- the processed delta ----

  ghost function ProcessedPaths(rows: map<BatchId, Row>): (ps: set<Path>)
  {
    set id, p | id in rows && rows[id].state != Pending && p in rows[id].files && p !in rows[id].failedFiles :: p
  }

  ghost function ProcessedDeletes(rows: map<BatchId, Row>): (ps: set<Path>)
  {
    set id, p | id in rows && rows[id].state != Pending && p in rows[id].deletes && p !in rows[id].failedDeletes :: p
  }

  /** What the finalizer applies: every path some terminal row accepted and did not fail. */
  ghost function Processed(expected: Leaves, rows: map<BatchId, Row>): (d: Delta)
  {
    Delta(map p | p in ProcessedPaths(rows) && p in expected :: expected[p], ProcessedDeletes(rows))
  }

  ghost function DeltaOf(s: State): (d: Delta)
  {
    Processed(s.expectedFiles, s.rows)
  }

  predicate EmptyDelta(d: Delta)
  {
    d.files == map[] && d.deletes == {}
  }

  // ---- the transition function ----

  ghost predicate Enabled(s: State, step: Step)
  {
    match step
    case Stream(a) => StreamEnabled(s, a)
    case Dispatch(a) => DispatchEnabled(s, a)
    case Work(w, a) => WorkEnabled(s, w, a)
    case Final(f, a) => FinalEnabled(s, f, a)
    case World(a) => WorldEnabled(s, a)
  }

  ghost function Do(s: State, step: Step): (t: State)
    requires Enabled(s, step)
  {
    match step
    case Stream(a) => DoStream(s, a)
    case Dispatch(a) => DoDispatch(s, a)
    case Work(w, a) => DoWork(s, w, a)
    case Final(f, a) => DoFinal(s, f, a)
    case World(a) => DoWorld(s, a)
  }

  ghost predicate StreamEnabled(s: State, a: StreamStep)
  {
    match a
    case PutContent(r, q) => r !in s.requests && ValidRequest(s.expectedFiles, s.expectedDeletes, q)
    case Admit(r) => r in s.requests
    case Abandon(r) => r in s.requests
    case EvictContent(id) => true
  }

  ghost function DoStream(s: State, a: StreamStep): (t: State)
    requires StreamEnabled(s, a)
  {
    match a
    case PutContent(r, q) => s.(content := s.content + {q.id}, requests := s.requests[r := q])
    case Admit(r) =>
      var q := s.requests[r];
      var t := s.(requests := s.requests - {r});
      if Admissible(t, q) then AdmitRow(t, q) else t
    case Abandon(r) => s.(requests := s.requests - {r})
    case EvictContent(id) => s.(content := s.content - {id})
  }

  ghost predicate DispatchEnabled(s: State, a: DispatchStep)
  {
    match a
    case TakeClaim(c, key) => c !in s.claims && key in s.outbox && s.outbox[key] == Unclaimed
    case Send(c, _) => c in s.claims && !s.claims[c].sent
    case ConfirmSent(c) => c in s.claims && s.claims[c].sent
    case ClaimDies(c) => c in s.claims
    case Reap(key) => key in s.outbox && s.outbox[key] == Enqueuing
  }

  /** ClaimPending, the enqueue with MarkEnqueued or ResetToPending behind it, and the reaper. A lost
      acknowledgement leaves the job in the queue and the row back among the unclaimed ones. */
  ghost function DoDispatch(s: State, a: DispatchStep): (t: State)
    requires DispatchEnabled(s, a)
  {
    match a
    case TakeClaim(c, key) => s.(outbox := s.outbox[key := Enqueuing], claims := s.claims[c := Claim(key, false)])
    case Send(c, reply) =>
      var key := s.claims[c].key;
      s.(queue := EnqueuedIn(s.queue, s.dropped, key, reply),
         handed := if reply.Refused? then s.handed else s.handed + {key},
         claims := if reply.Acked? then s.claims[c := Claim(key, true)] else s.claims - {c},
         outbox := if reply.Acked? then s.outbox else Release(s.outbox, key, Unclaimed))
    case ConfirmSent(c) => s.(claims := s.claims - {c}, outbox := Release(s.outbox, s.claims[c].key, Enqueued))
    case ClaimDies(c) => s.(claims := s.claims - {c})
    case Reap(key) => s.(outbox := Release(s.outbox, key, Unclaimed))
  }

  /** The calls a delivery can make next. */
  predicate Allows(phase: Phase, a: WorkStep)
  {
    match a
    case Deliver(_) => false
    case FetchContent(_) => phase.Start?
    case LoadSession => phase.HaveContent?
    case Index(_) => phase.ReadyToIndex?
    case StampOk(_) => phase.StampingOk?
    case StampFailed(_) => phase.StampingFailed?
    case DropContent(_) => phase.Finishing?
    case Trigger(_) => phase.Triggering?
    case Return => phase.Returning?
    case Err => phase.Start? || phase.HaveContent?
    case Die => true
  }

  ghost predicate WorkEnabled(s: State, w: nat, a: WorkStep)
  {
    if a.Deliver? then w !in s.workers && Batch(a.id) in s.queue
    else w in s.workers && Allows(s.workers[w].phase, a)
  }

  /** The retry count says that the queue will not deliver the job again. */
  predicate LastAttempt(retry: nat)
  {
    retry >= MAX_RETRY
  }

  function TaskOf(s: State, w: nat, a: WorkStep): (key: Key)
    requires a.Deliver? || w in s.workers
  {
    Batch(if a.Deliver? then a.id else s.workers[w].id)
  }

  /** The control flow of StreamBatchConsumer.Handle, given what the call finds. */
  function PhaseAfter(session: Session, content: set<BatchId>, worker: Worker, a: WorkStep): (next: Next<Phase>)
    requires Allows(worker.phase, a)
  {
    match a
    case FetchContent(readable) =>
      Goto(if worker.id !in content then StampingFailed("content_missing")
           else if !readable then StampingFailed("decode_error")
           else HaveContent)
    case LoadSession =>
      Goto(match session
           case Gone => Finishing
           case Present(status) =>
             if status.Receiving? || status.Processing? then ReadyToIndex
             else StampingFailed("session_no_longer_updatable"))
    case Index(outcome) =>
      (match outcome
       case Indexed(ff, fd) => Goto(StampingOk(ff, fd))
       case TerminalError(why) => Goto(StampingFailed(why))
       case RetryableError(why) => if LastAttempt(worker.retry) then Goto(StampingFailed(why)) else Error)
    case StampOk(reply) =>
      if reply.Acked? then Goto(Finishing)
      else if LastAttempt(worker.retry) then Goto(StampingFailed("db_merge_exhausted"))
      else Error
    case StampFailed(_) => Goto(Finishing)
    case DropContent(_) => Goto(Triggering)
    case Trigger(_) => Goto(Returning)
    case Return => Ack
    case Err => Error
    case Die => Error
  }

  ghost function NextPhase(s: State, w: nat, a: WorkStep): (next: Next<Phase>)
    requires WorkEnabled(s, w, a)
  {
    if a.Deliver? then Goto(Start) else PhaseAfter(s.session, s.content, s.workers[w], a)
  }

  ghost function WorkersAfter(s: State, w: nat, a: WorkStep): (workers: map<nat, Worker>)
    requires WorkEnabled(s, w, a)
  {
    match NextPhase(s, w, a)
    case Goto(phase) =>
      s.workers[w := if a.Deliver? then Worker(a.id, s.queue[Batch(a.id)], phase) else s.workers[w].(phase := phase)]
    case _ => s.workers - {w}
  }

  /** The rows after the worker's stamp, as far as it committed. */
  function Stamp(rows: map<BatchId, Row>, worker: Worker, a: WorkStep): (r: map<BatchId, Row>)
    requires Allows(worker.phase, a)
  {
    match a
    case StampOk(reply) =>
      if reply.Refused? then rows else Succeed(rows, worker.id, worker.phase.failedFiles, worker.phase.failedDeletes)
    case StampFailed(reply) =>
      if reply.Refused? then rows else Reject(rows, worker.id, worker.phase.why)
    case _ => rows
  }

  ghost function RowsAfter(s: State, w: nat, a: WorkStep): (rows: map<BatchId, Row>)
    requires WorkEnabled(s, w, a)
  {
    if a.Deliver? then s.rows else Stamp(s.rows, s.workers[w], a)
  }

  predicate Triggers(a: WorkStep)
  {
    a.Trigger? && !a.reply.Refused?
  }

  ghost function DoWork(s: State, w: nat, a: WorkStep): (t: State)
    requires WorkEnabled(s, w, a)
  {
    var key := TaskOf(s, w, a);
    var next := NextPhase(s, w, a);
    var flip := Triggers(a) && ReadyToFinalize(s);
    s.(workers := WorkersAfter(s, w, a),
       queue := QueueAfter(s.queue, key, next),
       dropped := DroppedAfter(s.dropped, s.queue, key, next),
       rows := RowsAfter(s, w, a),
       unmarked := if a == StampFailed(Refused) && PendingIn(s, key.id) then s.unmarked + {key.id} else s.unmarked,
       content := if a == DropContent(true) then s.content - {key.id} else s.content,
       session := if flip then Present(Finalizing) else s.session,
       outbox := if flip && Finalize !in s.outbox then s.outbox[Finalize := Unclaimed] else s.outbox,
       flips := if flip then s.flips + 1 else s.flips,
       misfired := if a == Trigger(Refused) && ReadyToFinalize(s) then s.misfired + {key.id} else s.misfired,
       last := if AllTerminal(RowsAfter(s, w, a)) && !AllTerminal(s.rows) then key.id else s.last)
  }

  predicate AllowsFinal(phase: FinalPhase, a: FinalStep)
  {
    match a
    case DeliverFinal => false
    case CheckStatus => phase.Begin?
    case LoadResults => phase.Admitted?
    case LoadTree => phase.Loading?
    case SaveTree(_) => phase.Saving?
    case SaveMissed(_) => phase.Saving?
    case StorageDead => phase.Loading? || phase.Saving?
    case MarkSession(_) => phase.Committed? || phase.GivingUp?
    case ReturnFinal => phase.Ending?
    case ErrFinal => phase.Begin? || phase.Admitted? || phase.Loading?
    case DieFinal => true
  }

  ghost predicate FinalEnabled(s: State, f: nat, a: FinalStep)
  {
    if a.DeliverFinal? then f !in s.finalizers && Finalize in s.queue
    else f in s.finalizers && AllowsFinal(s.finalizers[f], a)
  }

  function NextAttempt(delta: Delta, attempt: nat): (phase: FinalPhase)
  {
    if attempt + 1 < MAX_CAS_ATTEMPTS then Loading(delta, attempt + 1) else GivingUp("merkle_cas_exhausted")
  }

  /** The control flow of FinalizeSyncConsumer.Handle, given what the call finds; `results` is the delta
      that the terminal rows make. */
  ghost function FinalPhaseAfter(session: Session, results: Delta, store: Stored, phase: FinalPhase,
          a: FinalStep): (next: Next<FinalPhase>)
    requires AllowsFinal(phase, a)
  {
    match a
    case CheckStatus => Goto(if session == Present(Finalizing) then Admitted else Ending)
    case LoadResults => Goto(if EmptyDelta(results) then GivingUp("all_operations_failed") else Loading(results, 0))
    case LoadTree =>
      var Loading(delta, attempt) := phase;
      Goto(if FastPath(store, delta) then Committed(delta) else Saving(delta, attempt, store))
    case SaveTree(reply) =>
      var Saving(delta, attempt, seen) := phase;
      if !reply.Acked? then Error
      else Goto(if store == seen then Committed(delta) else NextAttempt(delta, attempt))
    case SaveMissed(_) => Goto(NextAttempt(phase.delta, phase.attempt))
    case StorageDead => Goto(GivingUp("merkle_storage_permanent"))
    case MarkSession(reply) => if reply.Acked? then Goto(Ending) else Error
    case ReturnFinal => Ack
    case ErrFinal => Error
    case DieFinal => Error
  }

  ghost function NextFinal(s: State, f: nat, a: FinalStep): (next: Next<FinalPhase>)
    requires FinalEnabled(s, f, a)
  {
    if a.DeliverFinal? then Goto(Begin)
    else FinalPhaseAfter(s.session, DeltaOf(s), s.store, s.finalizers[f], a)
  }

  ghost function FinalizersAfter(s: State, f: nat, a: FinalStep): (finalizers: map<nat, FinalPhase>)
    requires FinalEnabled(s, f, a)
  {
    match NextFinal(s, f, a)
    case Goto(phase) => s.finalizers[f := phase]
    case _ => s.finalizers - {f}
  }

  /** SaveTreeIfUnchanged: the version token is derived from the stored bytes, so it matches iff the
      stored tree is the one that was loaded. */
  function SavedStore(store: Stored, phase: FinalPhase, a: FinalStep): (st: Stored)
    requires AllowsFinal(phase, a)
  {
    match a
    case SaveTree(reply) =>
      var Saving(delta, _, seen) := phase;
      if !reply.Refused? && store == seen then Saved(Merge(LeavesOf(seen), delta)) else store
    case SaveMissed(written) =>
      var Saving(delta, _, seen) := phase;
      if written && store == seen then Saved(Merge(LeavesOf(seen), delta)) else store
    case _ => store
  }

  ghost function StoreAfter(s: State, f: nat, a: FinalStep): (store: Stored)
    requires FinalEnabled(s, f, a)
  {
    if a.DeliverFinal? then s.store else SavedStore(s.store, s.finalizers[f], a)
  }

  /** The session after MarkDone or MarkFailed, as far as it committed. */
  function MarkedSession(session: Session, phase: FinalPhase, a: FinalStep): (r: Session)
    requires AllowsFinal(phase, a)
  {
    match a
    case MarkSession(reply) =>
      if reply.Refused? then session
      else if phase.Committed? then MarkDone(session)
      else MarkFailed(session, phase.because)
    case _ => session
  }

  ghost function SessionAfter(s: State, f: nat, a: FinalStep): (session: Session)
    requires FinalEnabled(s, f, a)
  {
    if a.DeliverFinal? then s.session else MarkedSession(s.session, s.finalizers[f], a)
  }

  ghost function DoFinal(s: State, f: nat, a: FinalStep): (t: State)
    requires FinalEnabled(s, f, a)
  {
    var next := NextFinal(s, f, a);
    s.(finalizers := FinalizersAfter(s, f, a),
       queue := QueueAfter(s.queue, Finalize, next),
       dropped := DroppedAfter(s.dropped, s.queue, Finalize, next),
       store := StoreAfter(s, f, a),
       past := s.past + {StoreAfter(s, f, a)},
       session := SessionAfter(s, f, a))
  }

  ghost predicate WorldEnabled(s: State, a: WorldStep)
  {
    match a
    case OtherWrite(_) => true
    case Expire => s.session.Present? && !Terminal(s.session.status)
    case Collect => s.session.Present? && Terminal(s.session.status)
  }

  ghost function DoWorld(s: State, a: WorldStep): (t: State)
    requires WorldEnabled(s, a)
  {
    match a
    case OtherWrite(st) => s.(store := st, past := s.past + {st})
    case Expire => s.(session := Present(Expired))
    case Collect => s.(session := Gone, rows := map[], outbox := map[])
  }

  // ---------------------------------------------------------------------------
  // Runs
  // ---------------------------------------------------------------------------

  /** The steps of `trace`, taken one after the other from `s`, are all enabled. */
  ghost predicate Runs(s: State, trace: seq<Step>)
    decreases |trace|
  {
    trace == [] || (Enabled(s, trace[0]) && Runs(Do(s, trace[0]), trace[1..]))
  }

  ghost function After(s: State, trace: seq<Step>): (t: State)
    requires Runs(s, trace)
    decreases |trace|
  {
    if trace == [] then s else After(Do(s, trace[0]), trace[1..])
  }
}
