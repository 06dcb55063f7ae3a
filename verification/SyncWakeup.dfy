/** No lost wakeup: a session that could be finalized always has a job left that will do it, and a pending
    batch always has its job. The invariant holds in every run, faults and all; a batch is excused from it
    only by a fault of its own. */
module SyncWakeup {
  import opened Merkle
  import opened SyncProtocol
  import opened SyncInvariants

  /** The job is still to be handed to the queue (so its outbox row is not yet enqueued), or is in it. */
  ghost predicate Live(handed: set<Key>, queue: map<Key, nat>, key: Key)
  {
    key !in handed || key in queue
  }

  predicate PastStamp(phase: Phase)
  {
    phase.Finishing? || phase.Triggering? || phase.Returning?
  }

  /** A delivery gets past its stamp only with a terminal row, without a session, or on a refused stamp. */
  ghost predicate Stamped(session: Session, rows: Rows, workers: map<nat, Worker>, unmarked: set<BatchId>)
  {
    forall w :: w in workers && PastStamp(workers[w].phase) ==>
      || session.Gone?
      || (workers[w].id in rows && rows[workers[w].id].state != Pending)
      || workers[w].id in unmarked
  }

  /** A pending batch has its job, unless that was archived, or acknowledged after a refused stamp. */
  ghost predicate PendingLive(rows: Rows, handed: set<Key>, queue: map<Key, nat>, dropped: set<Key>,
          unmarked: set<BatchId>)
  {
    forall id :: id in rows && rows[id].state == Pending ==>
      Live(handed, queue, Batch(id)) || Batch(id) in dropped || id in unmarked
  }

  /** A live job of this batch, none of whose deliveries has been through the trigger. */
  ghost predicate StillToTrigger(rows: Rows, handed: set<Key>, queue: map<Key, nat>, workers: map<nat, Worker>,
          id: BatchId)
  {
    && id in rows
    && Live(handed, queue, Batch(id))
    && forall w :: w in workers && workers[w].id == id ==> !workers[w].phase.Returning?
  }

  /** The batch's own job was archived, its stamp refused, or its trigger lost when it mattered. */
  predicate Faulted(dropped: set<Key>, unmarked: set<BatchId>, misfired: set<BatchId>, id: BatchId)
  {
    Batch(id) in dropped || id in unmarked || id in misfired
  }

  ghost predicate Woken(s: State)
  {
    ReadyToFinalize(s) ==>
      || StillToTrigger(s.rows, s.handed, s.queue, s.workers, s.last)
      || Faulted(s.dropped, s.unmarked, s.misfired, s.last)
  }

  /** Likewise for the finalizer: no delivery ends while the session is still finalizing. */
  ghost predicate FinalWoken(session: Session, handed: set<Key>, queue: map<Key, nat>, dropped: set<Key>,
                             finalizers: map<nat, FinalPhase>)
  {
    session == Present(Finalizing) ==>
      && (Live(handed, queue, Finalize) || Finalize in dropped)
      && forall f :: f in finalizers ==> !finalizers[f].Ending?
  }

  ghost predicate Wake(s: State)
  {
    && Stamped(s.session, s.rows, s.workers, s.unmarked)
    && PendingLive(s.rows, s.handed, s.queue, s.dropped, s.unmarked)
    && Woken(s)
    && FinalWoken(s.session, s.handed, s.queue, s.dropped, s.finalizers)
  }

  /** No fault of any batch, and no archived finalize job. */
  ghost predicate FaultFree(s: State)
  {
    s.unmarked == {} && s.dropped == {} && s.misfired == {}
  }

  lemma AdmitWakes(s: State, q: Request)
    requires Invariant(s) && Wake(s) && Admissible(s, q)
    ensures Wake(AdmitRow(s, q))
  {
    var t := AdmitRow(s, q);
    assert t.rows[q.id].state == Pending;
    assert Batch(q.id) in s.handed ==> Known(s.session, s.rows, s.flips, Batch(q.id));
  }

  lemma StreamWakes(s: State, a: StreamStep)
    requires Invariant(s) && Wake(s) && StreamEnabled(s, a)
    ensures Wake(DoStream(s, a))
  {
    if a.Admit? {
      var t := s.(requests := s.requests - {a.r});
      if Admissible(t, s.requests[a.r]) {
        AdmitWakes(t, s.requests[a.r]);
      }
    }
  }

  /** Dispatchers only add to the queue. */
  lemma DispatchWakes(s: State, a: DispatchStep)
    requires Wake(s) && DispatchEnabled(s, a)
    ensures Wake(DoDispatch(s, a))
  {
  }

  lemma WorkKeepsStamped(s: State, w: nat, a: WorkStep)
    requires Stamped(s.session, s.rows, s.workers, s.unmarked) && WorkEnabled(s, w, a)
    requires Known(s.session, s.rows, s.flips, TaskOf(s, w, a))
    ensures var t := DoWork(s, w, a); Stamped(t.session, t.rows, t.workers, t.unmarked)
  {
    WorkerStamps(s, w, a);
    var t := DoWork(s, w, a);
    forall v | v in t.workers && PastStamp(t.workers[v].phase)
      ensures t.session.Gone? || (t.workers[v].id in t.rows && t.rows[t.workers[v].id].state != Pending)
        || t.workers[v].id in t.unmarked
    {
      if v != w {
        assert v in s.workers && t.workers[v] == s.workers[v];
      }
    }
  }

  /** So acknowledging a delivery ends no pending batch's job, unless its stamp was refused. */
  lemma WorkKeepsPendingLive(s: State, w: nat, a: WorkStep)
    requires Stamped(s.session, s.rows, s.workers, s.unmarked) && WorkEnabled(s, w, a)
    requires PendingLive(s.rows, s.handed, s.queue, s.dropped, s.unmarked)
    requires s.session.Gone? ==> s.rows == map[]
    ensures var t := DoWork(s, w, a); PendingLive(t.rows, t.handed, t.queue, t.dropped, t.unmarked)
  {
    WorkerStamps(s, w, a);
  }

  /** A witness stays one until its own job is archived or its own trigger lost. */
  lemma WorkKeepsWitness(s: State, w: nat, a: WorkStep, id: BatchId)
    requires WorkEnabled(s, w, a)
    requires ReadyToFinalize(s) && StillToTrigger(s.rows, s.handed, s.queue, s.workers, id)
    ensures var t := DoWork(s, w, a); ReadyToFinalize(t) ==>
      StillToTrigger(t.rows, t.handed, t.queue, t.workers, id) || Batch(id) in t.dropped || id in t.misfired
  {
    WorkerStamps(s, w, a);
  }

  /** The stamp that leaves no row pending makes its own batch the witness: its job is live, and none of its
      deliveries can be through the trigger, unless one of its stamps was refused. */
  lemma LastStampIsWitness(s: State, w: nat, a: WorkStep)
    requires WorkEnabled(s, w, a)
    requires Stamped(s.session, s.rows, s.workers, s.unmarked)
    requires PendingLive(s.rows, s.handed, s.queue, s.dropped, s.unmarked)
    requires s.session == Present(Processing) && !AllTerminal(s.rows) && AllTerminal(RowsAfter(s, w, a))
    ensures var t, id := DoWork(s, w, a), TaskOf(s, w, a).id;
      StillToTrigger(t.rows, t.handed, t.queue, t.workers, id) || Batch(id) in t.dropped || id in t.unmarked
  {
    WorkerStamps(s, w, a);
    var id := TaskOf(s, w, a).id;
    assert id in s.rows && s.rows[id].state == Pending;
  }

  lemma WorkKeepsWoken(s: State, w: nat, a: WorkStep)
    requires Wake(s) && WorkEnabled(s, w, a)
    ensures Woken(DoWork(s, w, a))
  {
    if ReadyToFinalize(DoWork(s, w, a)) {
      if AllTerminal(s.rows) {
        if StillToTrigger(s.rows, s.handed, s.queue, s.workers, s.last) {
          WorkKeepsWitness(s, w, a, s.last);
        }
      } else {
        LastStampIsWitness(s, w, a);
      }
    }
  }

  lemma WorkKeepsFinalWoken(s: State, w: nat, a: WorkStep)
    requires Invariant(s) && Wake(s) && WorkEnabled(s, w, a)
    ensures var t := DoWork(s, w, a); FinalWoken(t.session, t.handed, t.queue, t.dropped, t.finalizers)
  {
    assert Finalize in s.handed ==> Known(s.session, s.rows, s.flips, Finalize);
  }

  lemma WorkWakes(s: State, w: nat, a: WorkStep)
    requires Invariant(s) && Wake(s) && WorkEnabled(s, w, a)
    ensures Wake(DoWork(s, w, a))
  {
    WorkKeepsStamped(s, w, a);
    WorkKeepsPendingLive(s, w, a);
    WorkKeepsWoken(s, w, a);
    WorkKeepsFinalWoken(s, w, a);
  }

  lemma FinalKeepsBatches(s: State, f: nat, a: FinalStep)
    requires Wake(s) && FinalEnabled(s, f, a)
    ensures var t := DoFinal(s, f, a);
      && Stamped(t.session, t.rows, t.workers, t.unmarked)
      && PendingLive(t.rows, t.handed, t.queue, t.dropped, t.unmarked)
      && Woken(t)
  {
  }

  /** A finalizer that comes to its end has seen the session leave `finalizing`, or made it leave. */
  lemma FinalKeepsFinalWoken(s: State, f: nat, a: FinalStep)
    requires Wake(s) && FinalEnabled(s, f, a)
    ensures var t := DoFinal(s, f, a); FinalWoken(t.session, t.handed, t.queue, t.dropped, t.finalizers)
  {
  }

  lemma FinalWakes(s: State, f: nat, a: FinalStep)
    requires Wake(s) && FinalEnabled(s, f, a)
    ensures Wake(DoFinal(s, f, a))
  {
    FinalKeepsBatches(s, f, a);
    FinalKeepsFinalWoken(s, f, a);
  }

  lemma WorldWakes(s: State, a: WorldStep)
    requires Invariant(s) && Wake(s) && WorldEnabled(s, a)
    ensures Wake(DoWorld(s, a))
  {
  }

  lemma StepWakes(s: State, step: Step)
    requires Invariant(s) && Wake(s) && Enabled(s, step)
    ensures Wake(Do(s, step))
  {
    match step
    case Stream(a) => StreamWakes(s, a);
    case Dispatch(a) => DispatchWakes(s, a);
    case Work(w, a) => WorkWakes(s, w, a);
    case Final(f, a) => FinalWakes(s, f, a);
    case World(a) => WorldWakes(s, a);
  }
}
