/** Each of the faults that the wakeup theorems except does wedge a session, and one of it is enough. From every
    state in which a batch waits in the queue, with no other way to a delivery, there is a run with that one
    fault and no other after which the session never gets to its finalization. */
module SyncFaults {
  import opened Merkle
  import opened SyncProtocol
  import opened SyncRuns
  import opened SyncInvariants
  import opened SyncWakeup
  import opened SyncTheorems
  import opened SyncDrive
  import opened SyncWedge

  /** No dispatcher holds the batch's row, and none picks it up again. */
  ghost predicate HandedOver(s: State, id: BatchId)
  {
    !Held(s.claims, Batch(id)) && (Batch(id) in s.outbox ==> s.outbox[Batch(id)] == Enqueued)
  }

  /** No delivery of the batch is under way, but for the one of `w`. */
  predicate OnlyBy(workers: map<nat, Worker>, w: nat, id: BatchId)
  {
    forall v :: v in workers && workers[v].id == id ==> v == w
  }

  predicate NoDelivery(workers: map<nat, Worker>, id: BatchId)
  {
    forall v :: v in workers ==> workers[v].id != id
  }

  /** A pending batch waits in the queue, and there only. */
  ghost predicate Waiting(s: State, id: BatchId)
  {
    && s.session == Present(Processing) && PendingIn(s, id)
    && Batch(id) in s.queue && HandedOver(s, id) && NoDelivery(s.workers, id)
  }

  /** The only delivery of the batch has come to this phase. */
  ghost predicate Sole(s: State, w: nat, id: BatchId, phase: Phase)
  {
    s.session == Present(Processing) && At(s, w, id, phase) && HandedOver(s, id) && OnlyBy(s.workers, w, id)
  }

  lemma DeliverSole(s: State, w: nat, id: BatchId)
    requires Waiting(s, id) && w !in s.workers
    ensures Enabled(s, Work(w, Deliver(id)))
    ensures var t := Do(s, Work(w, Deliver(id)));
      Sole(t, w, id, Start) && PendingIn(t, id) && SamePromise(s, t) && t.queue == s.queue
  {
  }

  /** A call after which the delivery goes on. */
  lemma CallSole(s: State, w: nat, id: BatchId, a: WorkStep)
    requires w in s.workers && Sole(s, w, id, s.workers[w].phase)
    requires WorkEnabled(s, w, a) && !a.Deliver? && NextPhase(s, w, a).Goto?
    requires Triggers(a) ==> !ReadyToFinalize(s)
    ensures var t := DoWork(s, w, a);
      Sole(t, w, id, NextPhase(s, w, a).phase) && t.queue == s.queue && t.dropped == s.dropped
  {
  }

  /** A call that is its last. */
  lemma LastCallSole(s: State, w: nat, id: BatchId, a: WorkStep)
    requires w in s.workers && Sole(s, w, id, s.workers[w].phase)
    requires WorkEnabled(s, w, a) && (a.Return? || a.Die?)
    ensures var t := DoWork(s, w, a);
      && t.session == s.session && t.rows == s.rows && HandedOver(t, id) && NoDelivery(t.workers, id)
      && t.queue == QueueAfter(s.queue, Batch(id), NextPhase(s, w, a))
      && t.dropped == DroppedAfter(s.dropped, s.queue, Batch(id), NextPhase(s, w, a))
      && t.unmarked == s.unmarked && t.misfired == s.misfired
  {
  }

  lemma NothingLeft(s: State, id: BatchId)
    requires HandedOver(s, id) && NoDelivery(s.workers, id) && Batch(id) !in s.queue
    ensures !Saveable(s, id) && !Triggerable(s, id)
  {
  }

  // ---- a refused stamp ----

  lemma FetchUnreadable(s: State, w: nat, id: BatchId) returns (t: State, why: string)
    requires Sole(s, w, id, Start) && PendingIn(s, id)
    ensures Leads(s, t) && Sole(t, w, id, StampingFailed(why)) && PendingIn(t, id) && SamePromise(s, t)
  {
    var a := FetchContent(false);
    CallSole(s, w, id, a);
    Stay(s);
    t := StepOn(s, s, Work(w, a));
    why := t.workers[w].phase.why;
  }

  lemma RefuseStamp(s: State, w: nat, id: BatchId, why: string) returns (t: State)
    requires Sole(s, w, id, StampingFailed(why)) && PendingIn(s, id)
    ensures Leads(s, t) && Sole(t, w, id, Finishing) && PendingIn(t, id)
    ensures t.unmarked == s.unmarked + {id} && t.dropped == s.dropped && t.misfired == s.misfired
  {
    var a := StampFailed(Refused);
    CallSole(s, w, id, a);
    Stay(s);
    t := StepOn(s, s, Work(w, a));
  }

  lemma FinishPending(s: State, w: nat, id: BatchId) returns (t: State)
    requires Sole(s, w, id, Finishing) && PendingIn(s, id)
    ensures Leads(s, t) && SamePromise(s, t) && Sole(t, w, id, Returning) && PendingIn(t, id)
  {
    CallSole(s, w, id, DropContent(true));
    Stay(s);
    var u := StepOn(s, s, Work(w, DropContent(true)));
    assert !AllTerminal(u.rows);
    CallSole(u, w, id, Trigger(Acked));
    t := StepOn(s, u, Work(w, Trigger(Acked)));
  }

  /** The trigger finds the batch pending, and the job is acknowledged. */
  lemma AcknowledgePending(s: State, w: nat, id: BatchId) returns (t: State)
    requires Sole(s, w, id, Finishing) && PendingIn(s, id)
    ensures Leads(s, t) && SamePromise(s, t)
    ensures t.session == Present(Processing) && PendingIn(t, id) && !Saveable(t, id)
  {
    var u := FinishPending(s, w, id);
    LastCallSole(u, w, id, Return);
    t := StepOn(s, u, Work(w, Return));
    NothingLeft(t, id);
  }

  /** One refused failure stamp, and nothing else going wrong: the worker goes on, finds the batch pending at
      its trigger, and is acknowledged. No duplicate delivery is needed. */
  lemma OneRefusalWedges(s: State, id: BatchId) returns (t: State)
    requires Waiting(s, id)
    ensures Leads(s, t) && t.unmarked == s.unmarked + {id} && t.dropped == s.dropped && t.misfired == s.misfired
    ensures t.session == Present(Processing) && PendingIn(t, id) && !CanFlip(t)
  {
    var w := Fresh(s.workers.Keys);
    DeliverSole(s, w, id);
    Stay(s);
    var u := StepOn(s, s, Work(w, Deliver(id)));
    var v, why := FetchUnreadable(u, w, id);
    LeadsOn(s, u, v);
    var x := RefuseStamp(v, w, id, why);
    LeadsOn(s, v, x);
    t := AcknowledgePending(x, w, id);
    LeadsOn(s, x, t);
    CanFlipIff(t);
  }

  // ---- an archived job ----

  lemma DieOnce(s: State, id: BatchId) returns (t: State)
    requires Waiting(s, id)
    ensures Leads(s, t) && t.unmarked == s.unmarked && t.misfired == s.misfired
    ensures t.session == s.session && t.rows == s.rows && HandedOver(t, id) && NoDelivery(t.workers, id)
    ensures t.queue == Retried(s.queue, Batch(id))
    ensures t.dropped == if Exhausted(s.queue, Batch(id)) then s.dropped + {Batch(id)} else s.dropped
  {
    var w := Fresh(s.workers.Keys);
    DeliverSole(s, w, id);
    Stay(s);
    var u := StepOn(s, s, Work(w, Deliver(id)));
    LastCallSole(u, w, id, Die);
    t := StepOn(s, u, Work(w, Die));
    assert t.rows == s.rows;
  }

  /** Four crashes of the batch's deliveries, and nothing else going wrong. */
  lemma {:induction false} CrashesWedge(s: State, id: BatchId) returns (t: State)
    requires Waiting(s, id)
    ensures Leads(s, t) && t.dropped == s.dropped + {Batch(id)} && t.unmarked == s.unmarked && t.misfired == s.misfired
    ensures t.session == Present(Processing) && PendingIn(t, id) && !CanFlip(t)
    decreases MAX_RETRY - s.queue[Batch(id)]
  {
    t := DieOnce(s, id);
    if !Exhausted(s.queue, Batch(id)) {
      var u := CrashesWedge(t, id);
      LeadsOn(s, t, u);
      t := u;
    } else {
      NothingLeft(t, id);
      CanFlipIff(t);
    }
  }

  // ---- a lost trigger ----

  /** No other batch is pending, or has a job or a delivery that could still trigger. */
  ghost predicate LastOne(s: State, id: BatchId)
  {
    forall other :: other != id ==> !PendingIn(s, other) && !Triggerable(s, other)
  }

  lemma OthersSilent(s: State, t: State, id: BatchId)
    requires LastOne(s, id) && t.outbox == s.outbox && t.claims == s.claims && t.dropped == s.dropped
    requires forall k :: k in t.queue && k != Batch(id) ==> k in s.queue
    requires forall v :: v in t.workers && t.workers[v].id != id ==> v in s.workers && s.workers[v] == t.workers[v]
    ensures forall other :: other != id ==> !Triggerable(t, other)
  {
    forall other | other != id
      ensures !Triggerable(t, other)
    {
      assert !Triggerable(s, other);
    }
  }

  /** What a delivery of `id` leaves alone, short of its trigger. */
  predicate Untouched(s: State, t: State, id: BatchId)
  {
    && t.outbox == s.outbox && t.claims == s.claims && t.dropped == s.dropped
    && (forall k :: k in t.queue && k != Batch(id) ==> k in s.queue)
    && (forall v :: v in t.workers && t.workers[v].id != id ==> v in s.workers && s.workers[v] == t.workers[v])
  }

  lemma CallUntouched(s: State, w: nat, a: WorkStep)
    requires WorkEnabled(s, w, a) && !a.Deliver? && !a.Trigger? && NextPhase(s, w, a).Goto?
    ensures Untouched(s, DoWork(s, w, a), s.workers[w].id)
  {
  }

  lemma UntouchedOn(s: State, t: State, u: State, id: BatchId)
    requires Untouched(s, t, id) && Untouched(t, u, id)
    ensures Untouched(s, u, id)
  {
  }

  /** A lone delivery up to its trigger. */
  lemma {:induction false} SoleToTrigger(s: State, w: nat, id: BatchId, phase: Phase) returns (t: State)
    requires Sole(s, w, id, phase) && Rank(phase) > 0
    ensures Leads(s, t) && SamePromise(s, t) && Sole(t, w, id, Triggering) && Untouched(s, t, id)
    ensures t.rows == Settled(s.rows, s.content, id, phase)
    decreases Rank(phase)
  {
    Stay(s);
    if phase.Triggering? {
      t := s;
    } else {
      var a := NextCall(phase);
      OneCall(s, w, id, phase);
      CallKeepsSession(s, w, id, phase);
      CallGoesOn(s.session, s.content, s.workers[w]);
      CallSole(s, w, id, a);
      CallUntouched(s, w, a);
      var u := StepOn(s, s, Work(w, a));
      t := SoleToTrigger(u, w, id, u.workers[w].phase);
      LeadsOn(s, u, t);
      UntouchedOn(s, u, t, id);
    }
  }

  lemma DeliverUntouched(s: State, w: nat, id: BatchId)
    requires w !in s.workers && Batch(id) in s.queue
    ensures Untouched(s, DoWork(s, w, Deliver(id)), id) && SamePromise(s, DoWork(s, w, Deliver(id)))
    ensures DoWork(s, w, Deliver(id)).rows == s.rows
  {
  }

  /** The lost trigger, and the acknowledgement of its job. */
  lemma LoseTrigger(s: State, w: nat, id: BatchId) returns (t: State)
    requires Sole(s, w, id, Triggering) && AllTerminal(s.rows)
    ensures Leads(s, t) && t.misfired == s.misfired + {id} && t.dropped == s.dropped && t.unmarked == s.unmarked
    ensures t.session == s.session && t.rows == s.rows && Untouched(s, t, id) && !Triggerable(t, id)
  {
    CallSole(s, w, id, Trigger(Refused));
    Stay(s);
    var u := StepOn(s, s, Work(w, Trigger(Refused)));
    assert u.rows == s.rows && Untouched(s, u, id);
    LastCallSole(u, w, id, Return);
    t := StepOn(s, u, Work(w, Return));
    assert Untouched(u, t, id);
    NothingLeft(t, id);
  }

  /** The last batch is stamped, and its delivery about to trigger. */
  lemma StampLast(s: State, id: BatchId) returns (t: State, w: nat)
    requires Waiting(s, id) && LastOne(s, id)
    ensures Leads(s, t) && SamePromise(s, t) && Sole(t, w, id, Triggering) && Untouched(s, t, id)
    ensures AllTerminal(t.rows)
  {
    w := Fresh(s.workers.Keys);
    DeliverSole(s, w, id);
    DeliverUntouched(s, w, id);
    Stay(s);
    var u := StepOn(s, s, Work(w, Deliver(id)));
    t := SoleToTrigger(u, w, id, Start);
    LeadsOn(s, u, t);
    UntouchedOn(s, u, t, id);
    LastStamped(s, id, t.rows);
  }

  lemma LastStamped(s: State, id: BatchId, rows: Rows)
    requires PendingIn(s, id) && LastOne(s, id) && rows == Worked(s.rows, s.content, id)
    ensures AllTerminal(rows)
  {
    OutcomeStamps(s.rows, s.content, id, Start);
    assert id in rows;
    assert forall i :: i in rows && i != id ==> rows[i] == s.rows[i] && !PendingIn(s, i);
  }

  /** One lost trigger of the last batch, and nothing else going wrong. */
  lemma OneLostTriggerWedges(s: State, id: BatchId) returns (t: State)
    requires Waiting(s, id) && LastOne(s, id)
    ensures Leads(s, t) && t.misfired == s.misfired + {id} && t.dropped == s.dropped && t.unmarked == s.unmarked
    ensures ReadyToFinalize(t) && !CanFlip(t)
  {
    var u, w := StampLast(s, id);
    t := LoseTrigger(u, w, id);
    LeadsOn(s, u, t);
    UntouchedOn(s, u, t, id);
    OthersSilent(s, t, id);
    assert forall other :: !Triggerable(t, other);
    CanFlipIff(t);
  }
}
