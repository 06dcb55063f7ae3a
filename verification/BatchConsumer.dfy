/** The per-batch worker as the code runs it: StreamBatchConsumer.Handle, its mark helpers, the repository
    operations under them, and the finalizer trigger (consumers/stream_batch_consumer.go,
    consumers/mark_batch_helpers.go, consumers/finalizer_trigger.go). Every handler execution is shown to be
    a run of the session machine. */
module BatchConsumer {
  import opened Merkle
  import opened SyncProtocol
  import opened SyncInvariants

  datatype Result<T> = Success(value: T) | Failure(error: string)

  // ---------------------------------------------------------------------------
  // What a delivery sees and does, step by step
  // ---------------------------------------------------------------------------

  /** The part of the state a batch delivery touches. */
  datatype Local = Local(session: Session, rows: Rows, outbox: map<Key, OutboxStatus>, content: set<BatchId>)

  datatype Config = Config(local: Local, next: Next<Phase>)

  predicate CanStep(c: Config, a: WorkStep)
  {
    c.next.Goto? && Allows(c.next.phase, a)
  }

  function LocalStep(c: Config, id: BatchId, retry: nat, a: WorkStep): (d: Config)
    requires CanStep(c, a)
  {
    var worker, l := Worker(id, retry, c.next.phase), c.local;
    var flip := Triggers(a) && Ready(l.session, l.rows);
    Config(Local(if flip then Present(Finalizing) else l.session,
                 Stamp(l.rows, worker, a),
                 if flip && Finalize !in l.outbox then l.outbox[Finalize := Unclaimed] else l.outbox,
                 if a == DropContent(true) then l.content - {id} else l.content),
           PhaseAfter(l.session, l.content, worker, a))
  }

  /** The delivery's own steps `trace`, with nobody in between, lead from `c` to `d`. */
  predicate Executes(c: Config, id: BatchId, retry: nat, trace: seq<WorkStep>, d: Config)
    decreases |trace|
  {
    if trace == [] then c == d
    else CanStep(c, trace[0]) && Executes(LocalStep(c, id, retry, trace[0]), id, retry, trace[1..], d)
  }

  lemma ExecutesFrom(c: Config, id: BatchId, retry: nat, a: WorkStep, rest: seq<WorkStep>, d: Config)
    requires CanStep(c, a) && Executes(LocalStep(c, id, retry, a), id, retry, rest, d)
    ensures Executes(c, id, retry, [a] + rest, d)
  {
    assert ([a] + rest)[0] == a && ([a] + rest)[1..] == rest;
  }

  // ---- they are steps of the session machine ----

  function LocalOf(s: State): Local
  {
    Local(s.session, s.rows, s.outbox, s.content)
  }

  function WorkSteps(w: nat, trace: seq<WorkStep>): (steps: seq<Step>)
    ensures |steps| == |trace|
  {
    if trace == [] then [] else [Work(w, trace[0])] + WorkSteps(w, trace[1..])
  }

  lemma LocalStepIsWork(s: State, w: nat, worker: Worker, a: WorkStep)
    requires w in s.workers && s.workers[w] == worker && Allows(worker.phase, a)
    ensures var t, d := DoWork(s, w, a), LocalStep(Config(LocalOf(s), Goto(worker.phase)), worker.id, worker.retry, a);
      && LocalOf(t) == d.local
      && t.queue == QueueAfter(s.queue, Batch(worker.id), d.next)
      && (if d.next.Goto? then w in t.workers && t.workers[w] == worker.(phase := d.next.phase) else w !in t.workers)
  {
  }

  /** Every execution of the handler is a run of the machine, and ends the delivery there as it does here:
      with its job acknowledged, or back in the queue for the next retry (or archived). */
  lemma {:induction false} ExecutionIsRun(s: State, w: nat, worker: Worker, trace: seq<WorkStep>, d: Config)
    requires w in s.workers && s.workers[w] == worker
    requires Executes(Config(LocalOf(s), Goto(worker.phase)), worker.id, worker.retry, trace, d) && !d.next.Goto?
    ensures Runs(s, WorkSteps(w, trace))
    ensures var t := After(s, WorkSteps(w, trace));
      && LocalOf(t) == d.local
      && t.queue == QueueAfter(s.queue, Batch(worker.id), d.next)
      && w !in t.workers
    decreases |trace|
  {
    var a := trace[0];
    LocalStepIsWork(s, w, worker, a);
    var t := DoWork(s, w, a);
    assert WorkSteps(w, trace)[0] == Work(w, a) && WorkSteps(w, trace)[1..] == WorkSteps(w, trace[1..]);
    var next := LocalStep(Config(LocalOf(s), Goto(worker.phase)), worker.id, worker.retry, a).next;
    if next.Goto? {
      ExecutionIsRun(t, w, worker.(phase := next.phase), trace[1..], d);
    } else {
      assert trace[1..] == [];
    }
  }

  // ---------------------------------------------------------------------------
  // The repositories
  // ---------------------------------------------------------------------------

  /** What the handler's calls answer: a transient error of Redis or of the session load, whether the
      content decodes, the pipeline's outcome, and how far each write and the trigger transaction got. */
  datatype Calls = Calls(redisDown: bool, decodes: bool, loadFails: bool, outcome: Outcome,
                         stampOk: Reply, stampFailed: Reply, deleted: bool, trigger: Reply)

  predicate Answered(calls: Calls, a: WorkStep)
  {
    match a
    case FetchContent(readable) => !calls.redisDown && readable == calls.decodes
    case Index(outcome) => outcome == calls.outcome
    case StampOk(reply) => reply == calls.stampOk
    case StampFailed(reply) => reply == calls.stampFailed
    case DropContent(deleted) => deleted == calls.deleted
    case Trigger(reply) => reply == calls.trigger
    case LoadSession => !calls.loadFails
    case Err => calls.redisDown || calls.loadFails
    case Return => true
    case _ => false
  }

  // ---- what a stamp writes ----

  predicate IsPending(rows: Rows, id: BatchId)
  {
    id in rows && rows[id].state == Pending
  }

  /** Only the row of `id` changed, and of that not the manifest. */
  predicate OneResult(was: Rows, now: Rows, id: BatchId)
  {
    && id in was && id in now && now == was[id := now[id]]
    && now[id].files == was[id].files && now[id].deletes == was[id].deletes
  }

  /** A pending row has become succeeded, with the failures that were reported, as far as the write committed. */
  predicate ResultStored(was: Rows, now: Rows, id: BatchId, failedFiles: map<Path, string>, failedDeletes: seq<Path>,
                         reply: Reply)
  {
    if reply.Refused? || !IsPending(was, id) then now == was
    else
      && OneResult(was, now, id) && now[id].state == Succeeded
      && now[id].failedFiles == failedFiles && now[id].failedDeletes == failedDeletes
  }

  /** A pending row has become rejected, with every file and delete of it failed, as far as the write committed. */
  predicate FailureStored(was: Rows, now: Rows, id: BatchId, why: string, reply: Reply)
  {
    if reply.Refused? || !IsPending(was, id) then now == was
    else
      && OneResult(was, now, id) && now[id].state == Rejected
      && now[id].failedFiles.Keys == was[id].files.Keys
      && (forall p :: p in now[id].failedFiles ==> now[id].failedFiles[p] == why)
      && now[id].failedDeletes == was[id].deletes
  }

  class Backend {
    // Postgres: the session row, its batch rows and its outbox rows
    var session: Session
    var rows: Rows
    var outbox: map<Key, OutboxStatus>
    // Redis: the batches whose content is there
    var content: set<BatchId>

    constructor (local: Local)
      ensures View() == local
    {
      session, rows, outbox, content := local.session, local.rows, local.outbox, local.content;
    }

    function View(): Local
      reads this
    {
      Local(session, rows, outbox, content)
    }

    /** UPDATE ... WHERE state = 'pending': `applied` tells whether a row matched. */
    method MarkBatchSucceeded(id: BatchId, failedFiles: map<Path, string>, failedDeletes: seq<Path>, reply: Reply)
        returns (applied: Result<bool>)
      modifies this`rows
      ensures rows == if reply.Refused? then old(rows) else Succeed(old(rows), id, failedFiles, failedDeletes)
      ensures ResultStored(old(rows), rows, id, failedFiles, failedDeletes, reply)
      ensures applied == Success(true) ==>
        && id in rows && rows[id].state == Succeeded
        && rows[id].failedFiles == failedFiles && rows[id].failedDeletes == failedDeletes
      ensures applied.Failure? <==> !reply.Acked?
      ensures applied.Success? ==> (applied.value <==> id in old(rows) && old(rows)[id].state == Pending)
    {
      var matches := id in rows && rows[id].state == Pending;
      if matches && !reply.Refused? {
        rows := rows[id := rows[id].(state := Succeeded, failedFiles := failedFiles, failedDeletes := failedDeletes)];
      }
      applied := if reply.Acked? then Success(matches) else Failure("mark batch succeeded");
    }

    /** The same guard; every accepted path becomes a failed one. */
    method MarkBatchFailed(id: BatchId, reason: string, reply: Reply) returns (applied: Result<bool>)
      modifies this`rows
      ensures rows == if reply.Refused? then old(rows) else Reject(old(rows), id, reason)
      ensures FailureStored(old(rows), rows, id, reason, reply)
      ensures applied.Failure? <==> !reply.Acked?
      ensures applied.Success? ==> (applied.value <==> id in old(rows) && old(rows)[id].state == Pending)
    {
      var matches := id in rows && rows[id].state == Pending;
      if matches && !reply.Refused? {
        var row := rows[id];
        rows := rows[id := row.(state := Rejected, failedFiles := map p | p in row.files :: reason,
                                failedDeletes := row.deletes)];
      }
      applied := if reply.Acked? then Success(matches) else Failure("mark batch failed");
    }

    /** UPDATE ... WHERE status = 'processing'. */
    method FlipToFinalizing() returns (flipped: bool)
      modifies this`session
      ensures flipped <==> old(session) == Present(Processing)
      ensures session == if flipped then Present(Finalizing) else old(session)
    {
      flipped := session == Present(Processing);
      if flipped {
        session := Present(Finalizing);
      }
    }

    /** INSERT ... ON CONFLICT DO NOTHING. */
    method InsertOutboxIfNotExists(key: Key)
      modifies this`outbox
      ensures outbox == if key in old(outbox) then old(outbox) else old(outbox)[key := Unclaimed]
    {
      if key !in outbox {
        outbox := outbox[key := Unclaimed];
      }
    }

    /** The trigger transaction. An error rolls it back (or is a lost acknowledgement) and is swallowed. */
    method TryEnqueue(reply: Reply)
      modifies this`session, this`outbox
      ensures var flip := !reply.Refused? && old(session) == Present(Processing)
          && old(rows) != map[] && (forall id :: id in old(rows) ==> old(rows)[id].state != Pending);
        && session == (if flip then Present(Finalizing) else old(session))
        && outbox == (if flip && Finalize !in old(outbox) then old(outbox)[Finalize := Unclaimed] else old(outbox))
      ensures !reply.Refused? ==> !Ready(session, rows)
    {
      if reply.Refused? {
        return;
      }
      if session != Present(Processing) {
        return;
      }
      if !AllTerminal(rows) {
        return;
      }
      var flipped := FlipToFinalizing();
      if !flipped {
        return;
      }
      InsertOutboxIfNotExists(Finalize);
    }
  }

  // ---------------------------------------------------------------------------
  // The handler
  // ---------------------------------------------------------------------------

  /** A non-applied update is silent success. */
  method MarkBatchProcessed(b: Backend, id: BatchId, failedFiles: map<Path, string>, failedDeletes: seq<Path>,
          reply: Reply)
      returns (r: Result<()>)
    modifies b`rows
    ensures b.rows == if reply.Refused? then old(b.rows) else Succeed(old(b.rows), id, failedFiles, failedDeletes)
    ensures ResultStored(old(b.rows), b.rows, id, failedFiles, failedDeletes, reply)
    ensures r.Failure? <==> !reply.Acked?
  {
    var applied := b.MarkBatchSucceeded(id, failedFiles, failedDeletes, reply);
    r := if applied.Failure? then Failure(applied.error) else Success(());
  }

  method MarkBatchTerminallyFailed(b: Backend, id: BatchId, reason: string, reply: Reply) returns (r: Result<()>)
    modifies b`rows
    ensures b.rows == if reply.Refused? then old(b.rows) else Reject(old(b.rows), id, reason)
    ensures FailureStored(old(b.rows), b.rows, id, reason, reply)
    ensures r.Failure? <==> !reply.Acked?
  {
    var applied := b.MarkBatchFailed(id, reason, reply);
    r := if applied.Failure? then Failure(applied.error) else Success(());
  }

  /** Runs after both the success and the terminal-failure path, never on a retryable error. */
  method FinishBatch(b: Backend, id: BatchId, retry: nat, calls: Calls) returns (ghost trace: seq<WorkStep>)
    modifies b`session, b`outbox, b`content
    ensures Executes(Config(old(b.View()), Goto(Finishing)), id, retry, trace, Config(b.View(), Ack))
    ensures forall a :: a in trace ==> Answered(calls, a)
    ensures b.content == if calls.deleted then old(b.content) - {id} else old(b.content)
    ensures !calls.trigger.Refused? ==> !Ready(b.session, b.rows)
    ensures b.session == old(b.session) || (old(b.session) == Present(Processing) && b.session == Present(Finalizing))
  {
    ghost var c := Config(b.View(), Goto(Finishing));
    if calls.deleted {
      b.content := b.content - {id};
    }
    b.TryEnqueue(calls.trigger);
    ghost var c1 := LocalStep(c, id, retry, DropContent(calls.deleted));
    ghost var c2 := LocalStep(c1, id, retry, Trigger(calls.trigger));
    ExecutesFrom(c2, id, retry, Return, [], Config(b.View(), Ack));
    ExecutesFrom(c1, id, retry, Trigger(calls.trigger), [Return], Config(b.View(), Ack));
    ExecutesFrom(c, id, retry, DropContent(calls.deleted), [Trigger(calls.trigger), Return], Config(b.View(), Ack));
    trace := [DropContent(calls.deleted)] + ([Trigger(calls.trigger)] + ([Return] + []));
  }

  /** Stamp the batch failed, then finish it. */
  method FailAndFinish(b: Backend, id: BatchId, retry: nat, reason: string, calls: Calls)
      returns (ghost trace: seq<WorkStep>)
    modifies b
    ensures Executes(Config(old(b.View()), Goto(StampingFailed(reason))), id, retry, trace, Config(b.View(), Ack))
    ensures forall a :: a in trace ==> Answered(calls, a)
    ensures FailureStored(old(b.rows), b.rows, id, reason, calls.stampFailed)
    ensures b.content == if calls.deleted then old(b.content) - {id} else old(b.content)
    ensures !calls.trigger.Refused? ==> !Ready(b.session, b.rows)
    ensures b.session == old(b.session) || (old(b.session) == Present(Processing) && b.session == Present(Finalizing))
  {
    ghost var c := Config(b.View(), Goto(StampingFailed(reason)));
    var ignored := MarkBatchTerminallyFailed(b, id, reason, calls.stampFailed);
    ghost var rest := FinishBatch(b, id, retry, calls);
    ExecutesFrom(c, id, retry, StampFailed(calls.stampFailed), rest, Config(b.View(), Ack));
    trace := [StampFailed(calls.stampFailed)] + rest;
  }

  predicate Updatable(session: Session)
  {
    session == Present(Receiving) || session == Present(Processing)
  }

  /** Indexing ends in an error the queue will retry. */
  predicate IndexFails(retry: nat, calls: Calls)
  {
    !LastAttempt(retry) && (calls.outcome.RetryableError? || (calls.outcome.Indexed? && !calls.stampOk.Acked?))
  }

  /** A delivery that ends in an error, to be retried. */
  predicate Fails(l: Local, id: BatchId, retry: nat, calls: Calls)
  {
    || calls.redisDown
    || (id in l.content && calls.decodes && (calls.loadFails || (Updatable(l.session) && IndexFails(retry, calls))))
  }

  predicate WritesGoThrough(calls: Calls)
  {
    calls.stampOk.Acked? && calls.stampFailed.Acked? && calls.deleted && !calls.trigger.Refused?
  }

  /** What indexing leaves of the batch's row: the failures that it reported, or everything failed, for the
      reason it gave or because its result could not be stored to the last; or, to be retried, the row as it
      was. */
  predicate IndexLeaves(was: Rows, now: Rows, id: BatchId, retry: nat, calls: Calls)
  {
    match calls.outcome
    case Indexed(failedFiles, failedDeletes) =>
      if calls.stampOk.Refused? && LastAttempt(retry)
      then FailureStored(was, now, id, "db_merge_exhausted", calls.stampFailed)
      else ResultStored(was, now, id, failedFiles, failedDeletes, calls.stampOk)
    case TerminalError(why) => FailureStored(was, now, id, why, calls.stampFailed)
    case RetryableError(why) =>
      if LastAttempt(retry) then FailureStored(was, now, id, why, calls.stampFailed) else now == was
  }

  /** What a delivery leaves of it once the content is decoded. */
  predicate LoadLeaves(l: Local, now: Rows, id: BatchId, retry: nat, calls: Calls)
  {
    if calls.loadFails || l.session.Gone? then now == l.rows
    else if l.session.status.Receiving? || l.session.status.Processing?
    then IndexLeaves(l.rows, now, id, retry, calls)
    else FailureStored(l.rows, now, id, "session_no_longer_updatable", calls.stampFailed)
  }

  /** And from its beginning. */
  predicate DeliveryLeaves(l: Local, now: Rows, id: BatchId, retry: nat, calls: Calls)
  {
    if calls.redisDown then now == l.rows
    else if id !in l.content then FailureStored(l.rows, now, id, "content_missing", calls.stampFailed)
    else if !calls.decodes then FailureStored(l.rows, now, id, "decode_error", calls.stampFailed)
    else LoadLeaves(l, now, id, retry, calls)
  }

  method IndexAndStamp(b: Backend, id: BatchId, retry: nat, calls: Calls)
      returns (r: Result<()>, ghost trace: seq<WorkStep>)
    modifies b
    ensures Executes(Config(old(b.View()), Goto(ReadyToIndex)), id, retry, trace,
                     Config(b.View(), if r.Success? then Ack else Error))
    ensures forall a :: a in trace ==> Answered(calls, a)
    ensures r.Failure? <==> IndexFails(retry, calls)
    ensures r.Failure? ==> b.content == old(b.content) && b.session == old(b.session) && b.outbox == old(b.outbox)
    ensures r.Success? && calls.deleted ==> b.content == old(b.content) - {id}
    ensures r.Success? && !calls.trigger.Refused? ==> !Ready(b.session, b.rows)
    ensures b.session == old(b.session) || (old(b.session) == Present(Processing) && b.session == Present(Finalizing))
    ensures IndexLeaves(old(b.rows), b.rows, id, retry, calls)
    ensures calls.outcome.Indexed? && calls.stampOk.Acked? && IsPending(old(b.rows), id) ==>
      && id in b.rows && b.rows[id].state == Succeeded
      && b.rows[id].failedFiles == calls.outcome.failedFiles && b.rows[id].failedDeletes == calls.outcome.failedDeletes
      && b.rows[id].files == old(b.rows)[id].files && b.rows[id].deletes == old(b.rows)[id].deletes
  {
    ghost var c := Config(b.View(), Goto(ReadyToIndex));
    ghost var rest: seq<WorkStep>;
    ghost var c1 := LocalStep(c, id, retry, Index(calls.outcome));
    match calls.outcome {
      case TerminalError(why) =>
        rest := FailAndFinish(b, id, retry, why, calls);
        ExecutesFrom(c, id, retry, Index(calls.outcome), rest, Config(b.View(), Ack));
        return Success(()), [Index(calls.outcome)] + rest;
      case RetryableError(why) =>
        if LastAttempt(retry) {
          rest := FailAndFinish(b, id, retry, why, calls);
          ExecutesFrom(c, id, retry, Index(calls.outcome), rest, Config(b.View(), Ack));
          return Success(()), [Index(calls.outcome)] + rest;
        }
        ExecutesFrom(c, id, retry, Index(calls.outcome), [], Config(b.View(), Error));
        return Failure("index changed files"), [Index(calls.outcome)] + [];
      case Indexed(failedFiles, failedDeletes) =>
        var marked := MarkBatchProcessed(b, id, failedFiles, failedDeletes, calls.stampOk);
        ghost var c2 := LocalStep(c1, id, retry, StampOk(calls.stampOk));
        if marked.Failure? {
          if LastAttempt(retry) {
            rest := FailAndFinish(b, id, retry, "db_merge_exhausted", calls);
            ExecutesFrom(c1, id, retry, StampOk(calls.stampOk), rest, Config(b.View(), Ack));
            ExecutesFrom(c, id, retry, Index(calls.outcome), [StampOk(calls.stampOk)] + rest, Config(b.View(), Ack));
            return Success(()), [Index(calls.outcome)] + ([StampOk(calls.stampOk)] + rest);
          }
          ExecutesFrom(c1, id, retry, StampOk(calls.stampOk), [], Config(b.View(), Error));
          ExecutesFrom(c, id, retry, Index(calls.outcome), [StampOk(calls.stampOk)] + [], Config(b.View(), Error));
          return Failure("mark batch processed"), [Index(calls.outcome)] + ([StampOk(calls.stampOk)] + []);
        }
        rest := FinishBatch(b, id, retry, calls);
        ExecutesFrom(c1, id, retry, StampOk(calls.stampOk), rest, Config(b.View(), Ack));
        ExecutesFrom(c, id, retry, Index(calls.outcome), [StampOk(calls.stampOk)] + rest, Config(b.View(), Ack));
        return Success(()), [Index(calls.outcome)] + ([StampOk(calls.stampOk)] + rest);
    }
  }

  /** After the content was decoded: load the session, then index if it still takes results. */
  method LoadAndIndex(b: Backend, id: BatchId, retry: nat, calls: Calls)
      returns (r: Result<()>, ghost trace: seq<WorkStep>)
    requires !calls.redisDown
    modifies b
    ensures Executes(Config(old(b.View()), Goto(HaveContent)), id, retry, trace,
                     Config(b.View(), if r.Success? then Ack else Error))
    ensures forall a :: a in trace ==> Answered(calls, a)
    ensures r.Failure? <==> calls.loadFails || (Updatable(old(b.session)) && IndexFails(retry, calls))
    ensures r.Failure? ==> b.content == old(b.content) && b.session == old(b.session) && b.outbox == old(b.outbox)
    ensures r.Success? && calls.deleted ==> b.content == old(b.content) - {id}
    ensures r.Success? && !calls.trigger.Refused? ==> !Ready(b.session, b.rows)
    ensures b.session == old(b.session) || (old(b.session) == Present(Processing) && b.session == Present(Finalizing))
    ensures LoadLeaves(old(b.View()), b.rows, id, retry, calls)
    ensures !calls.loadFails && Updatable(old(b.session)) ==>
      calls.outcome.Indexed? && calls.stampOk.Acked? && IsPending(old(b.rows), id) ==>
      && id in b.rows && b.rows[id].state == Succeeded
      && b.rows[id].failedFiles == calls.outcome.failedFiles && b.rows[id].failedDeletes == calls.outcome.failedDeletes
      && b.rows[id].files == old(b.rows)[id].files && b.rows[id].deletes == old(b.rows)[id].deletes
  {
    ghost var c := Config(b.View(), Goto(HaveContent));
    ghost var rest: seq<WorkStep>;
    if calls.loadFails {
      ExecutesFrom(c, id, retry, WorkStep.Err, [], Config(b.View(), Error));
      return Failure("load session"), [WorkStep.Err] + [];
    }
    if b.session.Gone? {
      rest := FinishBatch(b, id, retry, calls);
      ExecutesFrom(c, id, retry, LoadSession, rest, Config(b.View(), Ack));
      return Success(()), [LoadSession] + rest;
    }
    if !Updatable(b.session) {
      rest := FailAndFinish(b, id, retry, "session_no_longer_updatable", calls);
      ExecutesFrom(c, id, retry, LoadSession, rest, Config(b.View(), Ack));
      return Success(()), [LoadSession] + rest;
    }
    r, rest := IndexAndStamp(b, id, retry, calls);
    ExecutesFrom(c, id, retry, LoadSession, rest, Config(b.View(), if r.Success? then Ack else Error));
    trace := [LoadSession] + rest;
  }

  /** One delivery of a batch task. Its steps are a run of the session machine, and the content discipline
      holds: an error leaves content, session and outbox as they were; on the last attempt only a transient
      Redis or session-load error is returned at all; the row becomes what the content, the session, and the
      outcome of the indexing call for, with just the failures that were reported, and no other row changes; and
      when the writes go through, the content is gone and the trigger has run. */
  method Handle(b: Backend, id: BatchId, retry: nat, calls: Calls) returns (r: Result<()>, ghost trace: seq<WorkStep>)
    modifies b
    ensures Executes(Config(old(b.View()), Goto(Start)), id, retry, trace,
                     Config(b.View(), if r.Success? then Ack else Error))
    ensures forall a :: a in trace ==> Answered(calls, a)
    ensures r.Failure? ==> b.content == old(b.content) && b.session == old(b.session) && b.outbox == old(b.outbox)
    ensures r.Failure? <==> Fails(old(b.View()), id, retry, calls)
    ensures r.Success? && calls.deleted ==> b.content == old(b.content) - {id}
    ensures r.Success? && !calls.trigger.Refused? ==> !Ready(b.session, b.rows)
    ensures b.session == old(b.session) || (old(b.session) == Present(Processing) && b.session == Present(Finalizing))
    ensures DeliveryLeaves(old(b.View()), b.rows, id, retry, calls)
    ensures !calls.redisDown && id in old(b.content) && calls.decodes && !calls.loadFails ==>
      Updatable(old(b.session)) && calls.outcome.Indexed? && calls.stampOk.Acked? && IsPending(old(b.rows), id) ==>
      && id in b.rows && b.rows[id].state == Succeeded
      && b.rows[id].failedFiles == calls.outcome.failedFiles && b.rows[id].failedDeletes == calls.outcome.failedDeletes
      && b.rows[id].files == old(b.rows)[id].files && b.rows[id].deletes == old(b.rows)[id].deletes
    ensures WritesGoThrough(calls) && r.Success? && id in b.rows && old(b.session).Present? ==>
      b.rows[id].state != Pending
  {
    ghost var c := Config(b.View(), Goto(Start));
    ghost var rest: seq<WorkStep>;
    if calls.redisDown {
      ExecutesFrom(c, id, retry, WorkStep.Err, [], Config(b.View(), Error));
      return Failure("redis get"), [WorkStep.Err] + [];
    }
    if id !in b.content {
      rest := FailAndFinish(b, id, retry, "content_missing", calls);
      ExecutesFrom(c, id, retry, FetchContent(calls.decodes), rest, Config(b.View(), Ack));
      return Success(()), [FetchContent(calls.decodes)] + rest;
    }
    if !calls.decodes {
      rest := FailAndFinish(b, id, retry, "decode_error", calls);
      ExecutesFrom(c, id, retry, FetchContent(calls.decodes), rest, Config(b.View(), Ack));
      return Success(()), [FetchContent(calls.decodes)] + rest;
    }
    r, rest := LoadAndIndex(b, id, retry, calls);
    ExecutesFrom(c, id, retry, FetchContent(calls.decodes), rest, Config(b.View(), if r.Success? then Ack else Error));
    trace := [FetchContent(calls.decodes)] + rest;
  }

  /** A delivery whose indexing will fail retryably: nothing before it goes wrong. */
  predicate Retryable(l: Local, id: BatchId, calls: Calls)
  {
    && !calls.redisDown && calls.decodes && !calls.loadFails && calls.outcome.RetryableError?
    && id in l.content
    && Updatable(l.session)
  }

  predicate AlwaysRetryable(l: Local, id: BatchId, calls: seq<Calls>)
  {
    forall i :: 0 <= i < |calls| ==> Retryable(l, id, calls[i]) && WritesGoThrough(calls[i])
  }

  /** The queue's side: deliver the job until it is acknowledged or its retries are used up. A batch whose
      indexing always fails retryably is delivered exactly MAX_RETRY + 1 times, with its content in place
      every time, and ends failed. */
  method RunTask(b: Backend, id: BatchId, calls: seq<Calls>) returns (attempts: nat, acknowledged: bool)
    requires |calls| == MAX_RETRY + 1
    modifies b
    ensures 1 <= attempts <= MAX_RETRY + 1
    ensures !acknowledged ==> attempts == MAX_RETRY + 1 && b.content == old(b.content)
    ensures !acknowledged ==> calls[MAX_RETRY].redisDown || calls[MAX_RETRY].loadFails
    ensures AlwaysRetryable(old(b.View()), id, calls) ==>
      && acknowledged && attempts == MAX_RETRY + 1
      && id !in b.content
      && FailureStored(old(b.rows), b.rows, id, calls[MAX_RETRY].outcome.why, Acked)
  {
    attempts, acknowledged := 0, false;
    while !acknowledged && attempts <= MAX_RETRY
      invariant attempts <= MAX_RETRY + 1
      invariant attempts == 0 ==> !acknowledged
      invariant !acknowledged ==>
        b.content == old(b.content) && b.session == old(b.session) && b.outbox == old(b.outbox)
      invariant !acknowledged && attempts == MAX_RETRY + 1 ==> calls[MAX_RETRY].redisDown || calls[MAX_RETRY].loadFails
      invariant AlwaysRetryable(old(b.View()), id, calls) ==>
        if acknowledged
        then attempts == MAX_RETRY + 1 && id !in b.content
          && FailureStored(old(b.rows), b.rows, id, calls[MAX_RETRY].outcome.why, Acked)
        else b.rows == old(b.rows)
      decreases MAX_RETRY + 1 - attempts
    {
      var r, _ := Handle(b, id, attempts, calls[attempts]);
      acknowledged := r.Success?;
      attempts := attempts + 1;
    }
  }
}
