/** When a processing session is wedged, exactly. A session can be brought to finalization if and only if every
    pending batch has a job or an unfinished delivery left, and, when no batch is pending any more, some batch has
    a job or a delivery left that is still to trigger. This holds of every state, faults or no faults. */
module SyncWedge {
  import opened Merkle
  import opened SyncProtocol
  import opened SyncRuns
  import opened SyncInvariants
  import opened SyncWakeup
  import opened SyncTheorems
  import opened SyncDrive

  function PendingIds(rows: Rows): (ids: set<BatchId>)
  {
    set id | id in rows && rows[id].state == Pending
  }

  /** A delivery of the batch has not stamped its row yet. */
  ghost predicate BeforeStamp(workers: map<nat, Worker>, id: BatchId)
  {
    exists w :: w in workers && workers[w].id == id && !PastStamp(workers[w].phase)
  }

  /** A delivery of the batch has not been through its trigger yet. */
  ghost predicate BeforeTrigger(workers: map<nat, Worker>, id: BatchId)
  {
    exists w :: w in workers && workers[w].id == id && !workers[w].phase.Returning?
  }

  /** The batch can still be stamped. */
  ghost predicate Saveable(s: State, id: BatchId)
  {
    JobLeft(s, Batch(id)) || BeforeStamp(s.workers, id)
  }

  /** The trigger can still be run on behalf of the batch. */
  ghost predicate Triggerable(s: State, id: BatchId)
  {
    JobLeft(s, Batch(id)) || BeforeTrigger(s.workers, id)
  }

  ghost predicate PendingSaveable(s: State)
  {
    forall id :: PendingIn(s, id) ==> Saveable(s, id)
  }

  ghost predicate SomeTriggerable(s: State)
  {
    exists id :: Triggerable(s, id)
  }

  ghost predicate Movable(s: State)
  {
    s.rows != map[] && PendingSaveable(s) && (AllTerminal(s.rows) ==> SomeTriggerable(s))
  }

  ghost predicate CanFlip(s: State)
  {
    exists more :: Runs(s, more) && After(s, more).session == Present(Finalizing)
  }

  // ---------------------------------------------------------------------------
  // Movable sessions get there
  // ---------------------------------------------------------------------------

  lemma SomePending(rows: Rows) returns (id: BatchId)
    requires rows != map[] && !AllTerminal(rows)
    ensures id in PendingIds(rows)
  {
    id :| id in rows && rows[id].state == Pending;
  }

  lemma WorkedStamps(rows: Rows, content: set<BatchId>, id: BatchId)
    ensures Stamps(rows, Worked(rows, content, id))
  {
    SuccessStamps(rows, id, map[], []);
    FailureStamps(rows, id, "content_missing");
  }

  lemma OutcomeStamps(rows: Rows, content: set<BatchId>, id: BatchId, phase: Phase)
    ensures Stamps(rows, Settled(rows, content, id, phase))
    ensures forall i :: i in rows && i != id ==> Settled(rows, content, id, phase)[i] == rows[i]
    ensures !PastStamp(phase) && id in rows ==> Settled(rows, content, id, phase)[id].state != Pending
  {
    WorkedStamps(rows, content, id);
    match phase {
      case StampingOk(failedFiles, failedDeletes) => SuccessStamps(rows, id, failedFiles, failedDeletes);
      case StampingFailed(why) => FailureStamps(rows, id, why);
      case HaveContent => SuccessStamps(rows, id, map[], []);
      case ReadyToIndex => SuccessStamps(rows, id, map[], []);
      case _ =>
    }
  }

  /** What an outcome of `id` makes of the rows. */
  ghost predicate Settles(rows: Rows, settled: Rows, id: BatchId)
  {
    Stamps(rows, settled) && forall i :: i in rows && i != id ==> settled[i] == rows[i]
  }

  /** One batch is brought through its trigger, by its job if it has one left, else by a delivery. */
  lemma FinishOne(s: State, id: BatchId) returns (t: State)
    requires s.session == Present(Processing) && Triggerable(s, id) && (PendingIn(s, id) ==> Saveable(s, id))
    ensures Leads(s, t) && SamePromise(s, t) && Beside(s, t, Batch(id)) && Settles(s.rows, t.rows, id)
    ensures !PendingIn(t, id)
    ensures t.session == if AllTerminal(t.rows) then Present(Finalizing) else Present(Processing)
    ensures JobLeft(s, Batch(id)) ==> t.rows == Worked(s.rows, s.content, id) && t.content == s.content - {id}
    ensures t.content <= s.content
  {
    if JobLeft(s, Batch(id)) {
      t := WorkOff(s, id);
      OutcomeStamps(s.rows, s.content, id, Start);
    } else if PendingIn(s, id) {
      var w :| w in s.workers && s.workers[w].id == id && !PastStamp(s.workers[w].phase);
      t := Drive(s, w, id, s.workers[w].phase);
      OutcomeStamps(s.rows, s.content, id, s.workers[w].phase);
    } else {
      var w :| w in s.workers && s.workers[w].id == id && !s.workers[w].phase.Returning?;
      t := Drive(s, w, id, s.workers[w].phase);
      OutcomeStamps(s.rows, s.content, id, s.workers[w].phase);
    }
  }

  lemma SaveableBeside(s: State, t: State, id: BatchId, other: BatchId)
    requires Beside(s, t, Batch(id)) && other != id && Saveable(s, other)
    ensures Saveable(t, other)
    ensures JobLeft(s, Batch(other)) ==> JobLeft(t, Batch(other))
  {
    if JobLeft(s, Batch(other)) && Held(s.claims, Batch(other)) {
      var c :| c in s.claims && s.claims[c] == Claim(Batch(other), false);
      assert c in t.claims && t.claims[c] == Claim(Batch(other), false);
    }
    if BeforeStamp(s.workers, other) {
      var w :| w in s.workers && s.workers[w].id == other && !PastStamp(s.workers[w].phase);
      assert w in t.workers && t.workers[w] == s.workers[w];
    }
  }

  lemma StaysMovable(s: State, t: State, id: BatchId)
    requires PendingSaveable(s) && Beside(s, t, Batch(id)) && Settles(s.rows, t.rows, id)
    requires !PendingIn(t, id) && t.rows != map[] && !AllTerminal(t.rows)
    ensures Movable(t)
  {
    forall other | PendingIn(t, other)
      ensures Saveable(t, other)
    {
      assert PendingIn(s, other);
      SaveableBeside(s, t, id, other);
    }
  }

  lemma OneFewer(rows: Rows, settled: Rows, id: BatchId)
    requires Settles(rows, settled, id) && (id in settled ==> settled[id].state != Pending)
    ensures AllTerminal(rows) ==> AllTerminal(settled)
    ensures id in PendingIds(rows) ==> |PendingIds(settled)| < |PendingIds(rows)|
  {
    if id in PendingIds(rows) {
      assert PendingIds(settled) == PendingIds(rows) - {id};
    }
  }

  /** The batch to take next. */
  lemma NextBatch(s: State) returns (id: BatchId)
    requires Movable(s)
    ensures Triggerable(s, id) && (PendingIn(s, id) ==> Saveable(s, id))
    ensures id in PendingIds(s.rows) || AllTerminal(s.rows)
  {
    if AllTerminal(s.rows) {
      id :| Triggerable(s, id);
    } else {
      id := SomePending(s.rows);
      assert PendingIn(s, id);
      if BeforeStamp(s.workers, id) {
        var w :| w in s.workers && s.workers[w].id == id && !PastStamp(s.workers[w].phase);
        assert !s.workers[w].phase.Returning?;
      }
    }
  }

  lemma {:induction false} StampsOn(a: Rows, b: Rows, c: Rows)
    requires Stamps(a, b) && Stamps(b, c)
    ensures Stamps(a, c)
  {
  }

  lemma {:induction false} ToFlip(s: State) returns (t: State)
    requires s.session == Present(Processing) && Movable(s)
    ensures Leads(s, t) && SamePromise(s, t) && t.session == Present(Finalizing) && Stamps(s.rows, t.rows)
    decreases |PendingIds(s.rows)|
  {
    var id := NextBatch(s);
    t := FinishOne(s, id);
    OneFewer(s.rows, t.rows, id);
    if t.session == Present(Processing) {
      StaysMovable(s, t, id);
      var u := ToFlip(t);
      LeadsOn(s, t, u);
      StampsOn(s.rows, t.rows, u.rows);
      t := u;
    }
  }

  // ---------------------------------------------------------------------------
  // The others never do
  // ---------------------------------------------------------------------------

  predicate Over(session: Session)
  {
    session.Gone? || Terminal(session.status)
  }

  predicate Uploading(session: Session)
  {
    session == Present(Receiving) || session == Present(Processing)
  }

  /** The batch is pending and nothing can stamp it any more; or the session is over. */
  ghost predicate Lost(s: State, id: BatchId)
  {
    Over(s.session) || (Uploading(s.session) && PendingIn(s, id) && !Saveable(s, id))
  }

  /** Nothing can trigger any more; or the session is over. */
  ghost predicate Silent(s: State)
  {
    Over(s.session) || (s.session == Present(Processing) && AllTerminal(s.rows) && !SomeTriggerable(s))
  }

  lemma SameJob(s: State, t: State, key: Key)
    requires t.queue == s.queue && t.dropped == s.dropped && t.claims == s.claims
    requires key in t.outbox <==> key in s.outbox
    requires key in s.outbox ==> t.outbox[key] == s.outbox[key]
    ensures JobLeft(t, key) <==> JobLeft(s, key)
  {
  }

  lemma AdmitLoses(s: State, q: Request, id: BatchId)
    requires PendingIn(s, id) && !Saveable(s, id) && Admissible(s, q)
    ensures Lost(AdmitRow(s, q), id)
  {
    var t := AdmitRow(s, q);
    assert q.id != id;
    SameJob(s, t, Batch(id));
  }

  lemma StreamLoses(s: State, a: StreamStep, id: BatchId)
    requires Lost(s, id) && StreamEnabled(s, a)
    ensures Lost(DoStream(s, a), id) && DoStream(s, a).flips == s.flips
  {
    var t := DoStream(s, a);
    if Uploading(s.session) {
      if a.Admit? && Admissible(s.(requests := s.requests - {a.r}), s.requests[a.r]) {
        AdmitLoses(s.(requests := s.requests - {a.r}), s.requests[a.r], id);
      } else {
        SameJob(s, t, Batch(id));
      }
    }
  }

  lemma DispatchMakesNoJob(s: State, a: DispatchStep, key: Key)
    requires DispatchEnabled(s, a) && !JobLeft(s, key)
    ensures !JobLeft(DoDispatch(s, a), key)
  {
    var t := DoDispatch(s, a);
    if key !in s.dropped {
      forall c | c in t.claims
        ensures t.claims[c] != Claim(key, false)
      {
        if c in s.claims {
          assert s.claims[c] != Claim(key, false);
        }
      }
    }
  }

  /** But for the finalize job that comes with the flip. */
  lemma WorkMakesNoJob(s: State, w: nat, a: WorkStep, key: Key)
    requires WorkEnabled(s, w, a) && !JobLeft(s, key) && (key.Finalize? ==> s.session != Present(Processing))
    ensures !JobLeft(DoWork(s, w, a), key)
  {
    var t := DoWork(s, w, a);
    assert t.claims == s.claims && s.dropped <= t.dropped;
  }

  lemma WorkMakesNoDelivery(s: State, w: nat, a: WorkStep, id: BatchId)
    requires WorkEnabled(s, w, a) && Batch(id) !in s.queue
    ensures !BeforeStamp(s.workers, id) ==> !BeforeStamp(DoWork(s, w, a).workers, id)
    ensures !BeforeTrigger(s.workers, id) ==> !BeforeTrigger(DoWork(s, w, a).workers, id)
  {
    var t := DoWork(s, w, a);
    forall v | v in t.workers && t.workers[v].id == id
      ensures v in s.workers && s.workers[v].id == id
      ensures PastStamp(s.workers[v].phase) ==> PastStamp(t.workers[v].phase)
      ensures s.workers[v].phase.Returning? ==> t.workers[v].phase.Returning?
    {
    }
  }

  lemma StampsElsewhere(rows: Rows, worker: Worker, a: WorkStep, id: BatchId)
    requires Allows(worker.phase, a) && (worker.id == id ==> PastStamp(worker.phase)) && id in rows
    ensures id in Stamp(rows, worker, a) && Stamp(rows, worker, a)[id] == rows[id]
  {
  }

  lemma WorkStampsNothing(s: State, w: nat, a: WorkStep, id: BatchId)
    requires WorkEnabled(s, w, a) && PendingIn(s, id) && !BeforeStamp(s.workers, id)
    ensures PendingIn(DoWork(s, w, a), id)
  {
    if !a.Deliver? {
      StampsElsewhere(s.rows, s.workers[w], a, id);
    }
  }

  lemma WorkFlipsNothing(s: State, w: nat, a: WorkStep, id: BatchId)
    requires WorkEnabled(s, w, a) && PendingIn(s, id)
    ensures DoWork(s, w, a).session == s.session && DoWork(s, w, a).flips == s.flips
  {
    assert !AllTerminal(s.rows);
  }

  lemma WorkStaysOver(s: State, w: nat, a: WorkStep)
    requires WorkEnabled(s, w, a) && Over(s.session)
    ensures DoWork(s, w, a).session == s.session && DoWork(s, w, a).flips == s.flips
  {
  }

  lemma WorkLoses(s: State, w: nat, a: WorkStep, id: BatchId)
    requires Lost(s, id) && WorkEnabled(s, w, a)
    ensures Lost(DoWork(s, w, a), id) && DoWork(s, w, a).flips == s.flips
  {
    if Over(s.session) {
      WorkStaysOver(s, w, a);
    } else {
      WorkMakesNoJob(s, w, a, Batch(id));
      WorkMakesNoDelivery(s, w, a, id);
      WorkStampsNothing(s, w, a, id);
      WorkFlipsNothing(s, w, a, id);
    }
  }

  lemma FinalMakesNoJob(s: State, f: nat, a: FinalStep, id: BatchId)
    requires FinalEnabled(s, f, a) && !JobLeft(s, Batch(id))
    ensures !JobLeft(DoFinal(s, f, a), Batch(id))
  {
    var t := DoFinal(s, f, a);
    assert t.claims == s.claims && s.dropped <= t.dropped;
  }

  lemma FinalStaysOver(s: State, f: nat, a: FinalStep)
    requires FinalEnabled(s, f, a)
    ensures var t := DoFinal(s, f, a); t.session == s.session || Over(t.session)
    ensures Over(s.session) ==> Over(DoFinal(s, f, a).session)
  {
  }

  lemma FinalLoses(s: State, f: nat, a: FinalStep, id: BatchId)
    requires Lost(s, id) && FinalEnabled(s, f, a)
    ensures Lost(DoFinal(s, f, a), id) && DoFinal(s, f, a).flips == s.flips
  {
    FinalStaysOver(s, f, a);
    if Uploading(s.session) {
      FinalMakesNoJob(s, f, a, id);
    }
  }

  lemma DispatchLoses(s: State, a: DispatchStep, id: BatchId)
    requires Lost(s, id) && DispatchEnabled(s, a)
    ensures Lost(DoDispatch(s, a), id) && DoDispatch(s, a).flips == s.flips
  {
    if Uploading(s.session) {
      DispatchMakesNoJob(s, a, Batch(id));
    }
  }

  lemma WorldLoses(s: State, a: WorldStep, id: BatchId)
    requires Lost(s, id) && WorldEnabled(s, a)
    ensures Lost(DoWorld(s, a), id) && DoWorld(s, a).flips == s.flips
  {
  }

  /** A batch that is lost stays lost, whatever happens. */
  lemma StepLoses(s: State, step: Step, id: BatchId)
    requires Lost(s, id) && Enabled(s, step)
    ensures Lost(Do(s, step), id) && Do(s, step).flips == s.flips
  {
    match step
    case Stream(a) => StreamLoses(s, a, id);
    case Dispatch(a) => DispatchLoses(s, a, id);
    case Work(w, a) => WorkLoses(s, w, a, id);
    case Final(f, a) => FinalLoses(s, f, a, id);
    case World(a) => WorldLoses(s, a, id);
  }

  lemma {:induction false} RunLoses(s: State, trace: seq<Step>, id: BatchId)
    requires Lost(s, id) && Runs(s, trace)
    ensures Lost(After(s, trace), id) && After(s, trace).flips == s.flips
    decreases |trace|
  {
    if trace != [] {
      StepLoses(s, trace[0], id);
      RunLoses(Do(s, trace[0]), trace[1..], id);
    }
  }

  lemma DispatchSilent(s: State, a: DispatchStep)
    requires Silent(s) && DispatchEnabled(s, a)
    ensures Silent(DoDispatch(s, a)) && DoDispatch(s, a).flips == s.flips
  {
    if !Over(s.session) {
      forall id
        ensures !Triggerable(DoDispatch(s, a), id)
      {
        assert !Triggerable(s, id);
        DispatchMakesNoJob(s, a, Batch(id));
      }
    }
  }

  lemma NoTrigger(s: State, w: nat, a: WorkStep)
    requires WorkEnabled(s, w, a) && !SomeTriggerable(s)
    ensures !a.Trigger? && !a.Deliver? && RowsAfter(s, w, a) == s.rows
  {
    if a.Deliver? {
      assert Triggerable(s, a.id);
    } else {
      assert !Triggerable(s, s.workers[w].id);
      assert s.workers[w].phase.Returning?;
    }
  }

  lemma WorkSilent(s: State, w: nat, a: WorkStep)
    requires Silent(s) && WorkEnabled(s, w, a)
    ensures Silent(DoWork(s, w, a)) && DoWork(s, w, a).flips == s.flips
  {
    if !Over(s.session) {
      NoTrigger(s, w, a);
      forall id
        ensures !Triggerable(DoWork(s, w, a), id)
      {
        assert !Triggerable(s, id);
        WorkMakesNoJob(s, w, a, Batch(id));
        WorkMakesNoDelivery(s, w, a, id);
      }
    }
  }

  lemma FinalSilent(s: State, f: nat, a: FinalStep)
    requires Silent(s) && FinalEnabled(s, f, a)
    ensures Silent(DoFinal(s, f, a)) && DoFinal(s, f, a).flips == s.flips
  {
    FinalStaysOver(s, f, a);
    if !Over(s.session) {
      forall id
        ensures !Triggerable(DoFinal(s, f, a), id)
      {
        assert !Triggerable(s, id);
        FinalMakesNoJob(s, f, a, id);
      }
    }
  }

  lemma StreamAddsNothing(s: State, a: StreamStep)
    requires StreamEnabled(s, a) && s.session != Present(Receiving)
    ensures var t := DoStream(s, a);
      && t.session == s.session && t.rows == s.rows && t.flips == s.flips && t.outbox == s.outbox
      && t.queue == s.queue && t.claims == s.claims && t.workers == s.workers && t.dropped == s.dropped
  {
  }

  lemma StreamSilent(s: State, a: StreamStep)
    requires Silent(s) && StreamEnabled(s, a)
    ensures Silent(DoStream(s, a)) && DoStream(s, a).flips == s.flips
  {
    var t := DoStream(s, a);
    StreamAddsNothing(s, a);
    if !Over(s.session) {
      forall id
        ensures !Triggerable(t, id)
      {
        assert !Triggerable(s, id);
        SameJob(s, t, Batch(id));
      }
    }
  }

  lemma WorldSilent(s: State, a: WorldStep)
    requires Silent(s) && WorldEnabled(s, a)
    ensures Silent(DoWorld(s, a)) && DoWorld(s, a).flips == s.flips
  {
    var t := DoWorld(s, a);
    if a.OtherWrite? && !Over(s.session) {
      forall id
        ensures !Triggerable(t, id)
      {
        assert !Triggerable(s, id);
      }
    }
  }

  lemma StepSilent(s: State, step: Step)
    requires Silent(s) && Enabled(s, step)
    ensures Silent(Do(s, step)) && Do(s, step).flips == s.flips
  {
    match step
    case Stream(a) => StreamSilent(s, a);
    case Dispatch(a) => DispatchSilent(s, a);
    case Work(w, a) => WorkSilent(s, w, a);
    case Final(f, a) => FinalSilent(s, f, a);
    case World(a) => WorldSilent(s, a);
  }

  lemma {:induction false} RunSilent(s: State, trace: seq<Step>)
    requires Silent(s) && Runs(s, trace)
    ensures Silent(After(s, trace)) && After(s, trace).flips == s.flips
    decreases |trace|
  {
    if trace != [] {
      StepSilent(s, trace[0]);
      RunSilent(Do(s, trace[0]), trace[1..]);
    }
  }

  /** A session that is not movable, in whatever way it came to that, never enters finalization. */
  lemma NeverFlips(s: State, trace: seq<Step>)
    requires s.session == Present(Processing) && s.rows != map[] && !Movable(s) && Runs(s, trace)
    ensures After(s, trace).session != Present(Finalizing) && After(s, trace).flips == s.flips
  {
    if id :| PendingIn(s, id) && !Saveable(s, id) {
      RunLoses(s, trace, id);
    } else {
      RunSilent(s, trace);
    }
  }

  /** A processing session with batches can be brought to finalization if and only if it is movable: each
      pending batch has its job left or a delivery before its stamp, and if none is pending some batch has its
      job left or a delivery before its trigger. */
  lemma CanFlipIff(s: State)
    requires s.session == Present(Processing) && s.rows != map[]
    ensures CanFlip(s) <==> Movable(s)
  {
    if Movable(s) {
      var t := ToFlip(s);
      var more :| Runs(s, more) && After(s, more) == t && Alone(more);
    } else if CanFlip(s) {
      var more :| Runs(s, more) && After(s, more).session == Present(Finalizing);
      NeverFlips(s, more);
    }
  }
}
