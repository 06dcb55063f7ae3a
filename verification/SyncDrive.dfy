/** Driving a session on: a job that is left can be brought into the queue and delivered, and a delivery that
    is under way can be brought through its trigger, without touching the jobs of other batches. None of this
    asks how the state came about. */
module SyncDrive {
  import opened Merkle
  import opened SyncProtocol
  import opened SyncRuns
  import opened SyncInvariants
  import opened SyncWakeup
  import opened SyncTheorems

  /** What no step without a fault touches. */
  predicate SamePromise(s: State, t: State)
  {
    && t.expectedFiles == s.expectedFiles && t.expectedDeletes == s.expectedDeletes
    && t.unmarked == s.unmarked && t.dropped == s.dropped && t.misfired == s.misfired
  }

  /** Nothing of the jobs and deliveries of other keys is lost. */
  ghost predicate Beside(s: State, t: State, key: Key)
  {
    && t.dropped == s.dropped
    && (forall k :: k in s.queue && k != key ==> k in t.queue)
    && (forall k :: k in s.outbox && k != key ==> k in t.outbox && t.outbox[k] == s.outbox[k])
    && (forall c :: c in s.claims && s.claims[c].key != key ==> c in t.claims && t.claims[c] == s.claims[c])
    && (forall v :: v in s.workers && Batch(s.workers[v].id) != key ==> v in t.workers && t.workers[v] == s.workers[v])
  }

  lemma BesideOn(s: State, t: State, u: State, key: Key)
    requires Beside(s, t, key) && Beside(t, u, key)
    ensures Beside(s, u, key)
  {
  }

  /** One more step of the session's own parties. */
  lemma StepOn(s: State, t: State, step: Step) returns (u: State)
    requires Leads(s, t) && Enabled(t, step) && !IsOtherWrite(step)
    ensures u == Do(t, step) && Leads(s, u)
  {
    u := Do(t, step);
    OneStep(t, step, u);
    LeadsOn(s, t, u);
  }

  lemma {:induction false} Fresh(used: set<nat>) returns (n: nat)
    ensures forall m :: m in used ==> m < n
  {
    if used == {} {
      n := 0;
    } else {
      var x :| x in used;
      var rest := Fresh(used - {x});
      n := if x < rest then rest else x + 1;
      assert forall m :: m in used ==> m == x || m in used - {x};
    }
  }

  // ---------------------------------------------------------------------------
  // Getting a job into the queue
  // ---------------------------------------------------------------------------

  /** A dispatcher holds the row and has not handed it over. */
  ghost predicate Held(claims: map<nat, Claim>, key: Key)
  {
    exists c :: c in claims && claims[c] == Claim(key, false)
  }

  /** A delivery of this job can still come about. */
  ghost predicate JobLeft(s: State, key: Key)
  {
    TaskToCome(s, key) || (key !in s.dropped && Held(s.claims, key))
  }

  /** What dispatching leaves alone. */
  predicate SameWork(s: State, t: State)
  {
    && t.session == s.session && t.rows == s.rows && t.flips == s.flips && t.content == s.content
    && t.workers == s.workers && t.finalizers == s.finalizers && t.store == s.store
    && SamePromise(s, t)
  }

  lemma ReapStep(s: State, key: Key)
    requires key in s.outbox && s.outbox[key] == Enqueuing
    ensures Enabled(s, Dispatch(Reap(key)))
    ensures var t := Do(s, Dispatch(Reap(key)));
      SameWork(s, t) && Beside(s, t, key) && key in t.outbox && t.outbox[key] == Unclaimed
  {
  }

  lemma ClaimStep(s: State, c: nat, key: Key)
    requires c !in s.claims && key in s.outbox && s.outbox[key] == Unclaimed
    ensures Enabled(s, Dispatch(TakeClaim(c, key)))
    ensures var t := Do(s, Dispatch(TakeClaim(c, key)));
      SameWork(s, t) && Beside(s, t, key) && c in t.claims && t.claims[c] == Claim(key, false)
  {
  }

  lemma SendStep(s: State, c: nat, key: Key)
    requires c in s.claims && s.claims[c] == Claim(key, false) && key !in s.dropped
    ensures Enabled(s, Dispatch(Send(c, Acked)))
    ensures var t := Do(s, Dispatch(Send(c, Acked))); SameWork(s, t) && Beside(s, t, key) && key in t.queue
  {
  }

  lemma SendHeld(s: State, key: Key) returns (t: State)
    requires key !in s.dropped && Held(s.claims, key)
    ensures Leads(s, t) && SameWork(s, t) && Beside(s, t, key) && key in t.queue
  {
    var c :| c in s.claims && s.claims[c] == Claim(key, false);
    Stay(s);
    SendStep(s, c, key);
    t := StepOn(s, s, Dispatch(Send(c, Acked)));
  }

  lemma SendUnclaimed(s: State, key: Key) returns (t: State)
    requires key !in s.dropped && key in s.outbox && s.outbox[key] == Unclaimed
    ensures Leads(s, t) && SameWork(s, t) && Beside(s, t, key) && key in t.queue
  {
    Stay(s);
    var c := Fresh(s.claims.Keys);
    ClaimStep(s, c, key);
    var u := StepOn(s, s, Dispatch(TakeClaim(c, key)));
    t := SendHeld(u, key);
    LeadsOn(s, u, t);
    BesideOn(s, u, t, key);
  }

  lemma SendStuck(s: State, key: Key) returns (t: State)
    requires key !in s.dropped && key in s.outbox && s.outbox[key] == Enqueuing
    ensures Leads(s, t) && SameWork(s, t) && Beside(s, t, key) && key in t.queue
  {
    Stay(s);
    ReapStep(s, key);
    var u := StepOn(s, s, Dispatch(Reap(key)));
    t := SendUnclaimed(u, key);
    LeadsOn(s, u, t);
    BesideOn(s, u, t, key);
  }

  lemma Enqueue(s: State, key: Key) returns (t: State)
    requires JobLeft(s, key)
    ensures Leads(s, t) && SameWork(s, t) && Beside(s, t, key) && key in t.queue
  {
    if key in s.queue {
      Stay(s);
      t := s;
    } else if Held(s.claims, key) {
      t := SendHeld(s, key);
    } else if s.outbox[key] == Unclaimed {
      t := SendUnclaimed(s, key);
    } else {
      t := SendStuck(s, key);
    }
  }

  // ---------------------------------------------------------------------------
  // Bringing a delivery through its trigger
  // ---------------------------------------------------------------------------

  /** How many calls a delivery has before it, at most. */
  function Rank(phase: Phase): (n: nat)
  {
    match phase
    case Start => 6
    case HaveContent => 5
    case ReadyToIndex => 4
    case StampingOk(_, _) => 3
    case StampingFailed(_) => 3
    case Finishing => 2
    case Triggering => 1
    case Returning => 0
  }

  /** The call it makes next, and which goes well. */
  function NextCall(phase: Phase): (a: WorkStep)
    requires Rank(phase) > 0
  {
    match phase
    case Start => FetchContent(true)
    case HaveContent => LoadSession
    case ReadyToIndex => Index(Indexed(map[], []))
    case StampingOk(_, _) => StampOk(Acked)
    case StampingFailed(_) => StampFailed(Acked)
    case Finishing => DropContent(true)
    case Triggering => Trigger(Acked)
  }

  /** The rows once the batch was delivered: succeeded with nothing failed if its content was there. */
  function Worked(rows: Rows, content: set<BatchId>, id: BatchId): (r: Rows)
  {
    if id in content then Succeed(rows, id, map[], []) else Reject(rows, id, "content_missing")
  }

  /** What the delivery will have made of the rows. */
  function Settled(rows: Rows, content: set<BatchId>, id: BatchId, phase: Phase): (r: Rows)
  {
    match phase
    case Start => Worked(rows, content, id)
    case HaveContent => Succeed(rows, id, map[], [])
    case ReadyToIndex => Succeed(rows, id, map[], [])
    case StampingOk(failedFiles, failedDeletes) => Succeed(rows, id, failedFiles, failedDeletes)
    case StampingFailed(why) => Reject(rows, id, why)
    case _ => rows
  }

  function ContentLeft(content: set<BatchId>, id: BatchId, phase: Phase): (r: set<BatchId>)
  {
    if Rank(phase) >= 2 then content - {id} else content
  }

  predicate At(s: State, w: nat, id: BatchId, phase: Phase)
  {
    w in s.workers && s.workers[w].id == id && s.workers[w].phase == phase
  }

  /** A call other than the trigger, in a session that is processing. */
  lemma CallGoesOn(session: Session, content: set<BatchId>, worker: Worker)
    requires session == Present(Processing) && Rank(worker.phase) > 0
    ensures Allows(worker.phase, NextCall(worker.phase))
    ensures PhaseAfter(session, content, worker, NextCall(worker.phase)).Goto?
    ensures Rank(PhaseAfter(session, content, worker, NextCall(worker.phase)).phase) < Rank(worker.phase)
    ensures Rank(worker.phase) >= 2 ==> Rank(PhaseAfter(session, content, worker, NextCall(worker.phase)).phase) >= 1
  {
  }

  lemma CallKeepsOutcome(rows: Rows, content: set<BatchId>, worker: Worker)
    requires Rank(worker.phase) > 0
    requires Allows(worker.phase, NextCall(worker.phase))
    ensures var a, id := NextCall(worker.phase), worker.id;
      var next := PhaseAfter(Present(Processing), content, worker, a);
      var left := if a == DropContent(true) then content - {id} else content;
      && next.Goto?
      && Settled(Stamp(rows, worker, a), left, id, next.phase) == Settled(rows, content, id, worker.phase)
      && ContentLeft(left, id, next.phase) == ContentLeft(content, id, worker.phase)
  {
  }

  lemma CallBeside(s: State, w: nat, a: WorkStep)
    requires WorkEnabled(s, w, a) && !a.Deliver? && NextPhase(s, w, a).Goto?
    ensures Beside(s, DoWork(s, w, a), Batch(s.workers[w].id))
  {
  }

  /** The delivery's next call, and what it leaves to be done. */
  lemma OneCall(s: State, w: nat, id: BatchId, phase: Phase)
    requires At(s, w, id, phase) && s.session == Present(Processing) && Rank(phase) > 0
    ensures Enabled(s, Work(w, NextCall(phase)))
    ensures var t := Do(s, Work(w, NextCall(phase)));
      && w in t.workers && t.workers[w].id == id && Rank(t.workers[w].phase) < Rank(phase)
      && (Rank(phase) >= 2 ==> Rank(t.workers[w].phase) >= 1)
      && Settled(t.rows, t.content, id, t.workers[w].phase) == Settled(s.rows, s.content, id, phase)
      && ContentLeft(t.content, id, t.workers[w].phase) == ContentLeft(s.content, id, phase)
  {
    CallGoesOn(s.session, s.content, s.workers[w]);
    CallKeepsOutcome(s.rows, s.content, s.workers[w]);
  }

  lemma CallKeepsSession(s: State, w: nat, id: BatchId, phase: Phase)
    requires At(s, w, id, phase) && s.session == Present(Processing) && Rank(phase) > 0
    requires Enabled(s, Work(w, NextCall(phase)))
    ensures var t := Do(s, Work(w, NextCall(phase)));
      SamePromise(s, t)
      && t.session == if phase.Triggering? && AllTerminal(s.rows) then Present(Finalizing) else Present(Processing)
  {
    CallGoesOn(s.session, s.content, s.workers[w]);
  }

  /** A delivery that has not been through its trigger can be brought to where it makes that call. */
  lemma {:induction false} ToTrigger(s: State, w: nat, id: BatchId, phase: Phase) returns (t: State)
    requires At(s, w, id, phase) && s.session == Present(Processing) && Rank(phase) > 0
    ensures Leads(s, t) && SamePromise(s, t) && Beside(s, t, Batch(id)) && At(t, w, id, Triggering)
    ensures t.rows == Settled(s.rows, s.content, id, phase) && t.content == ContentLeft(s.content, id, phase)
    ensures t.session == Present(Processing)
    decreases Rank(phase)
  {
    Stay(s);
    if phase.Triggering? {
      t := s;
    } else {
      var a := NextCall(phase);
      OneCall(s, w, id, phase);
      CallKeepsSession(s, w, id, phase);
      CallBeside(s, w, a);
      var u := StepOn(s, s, Work(w, a));
      t := ToTrigger(u, w, id, u.workers[w].phase);
      LeadsOn(s, u, t);
      BesideOn(s, u, t, Batch(id));
    }
  }

  /** And through it. */
  lemma Drive(s: State, w: nat, id: BatchId, phase: Phase) returns (t: State)
    requires At(s, w, id, phase) && s.session == Present(Processing) && Rank(phase) > 0
    ensures Leads(s, t) && SamePromise(s, t) && Beside(s, t, Batch(id))
    ensures t.rows == Settled(s.rows, s.content, id, phase) && t.content == ContentLeft(s.content, id, phase)
    ensures t.session == if AllTerminal(t.rows) then Present(Finalizing) else Present(Processing)
  {
    var u := ToTrigger(s, w, id, phase);
    OneCall(u, w, id, Triggering);
    CallKeepsSession(u, w, id, Triggering);
    CallBeside(u, w, Trigger(Acked));
    t := StepOn(s, u, Work(w, Trigger(Acked)));
    BesideOn(s, u, t, Batch(id));
  }

  lemma DeliverStep(s: State, w: nat, id: BatchId)
    requires w !in s.workers && Batch(id) in s.queue
    ensures Enabled(s, Work(w, Deliver(id)))
    ensures var t := Do(s, Work(w, Deliver(id)));
      && At(t, w, id, Start) && SamePromise(s, t) && Beside(s, t, Batch(id))
      && t.session == s.session && t.rows == s.rows && t.content == s.content
  {
  }

  /** A batch whose job is left can be delivered, stamped and finished; with success if its content is still
      there. No other batch's job, delivery or content is touched. */
  lemma WorkOff(s: State, id: BatchId) returns (t: State)
    requires s.session == Present(Processing) && JobLeft(s, Batch(id))
    ensures Leads(s, t) && SamePromise(s, t) && Beside(s, t, Batch(id))
    ensures t.rows == Worked(s.rows, s.content, id) && t.content == s.content - {id}
    ensures t.session == if AllTerminal(t.rows) then Present(Finalizing) else Present(Processing)
  {
    var u := Enqueue(s, Batch(id));
    var w := Fresh(u.workers.Keys);
    DeliverStep(u, w, id);
    var v := StepOn(s, u, Work(w, Deliver(id)));
    BesideOn(s, u, v, Batch(id));
    t := Drive(v, w, id, Start);
    LeadsOn(s, v, t);
    BesideOn(s, v, t, Batch(id));
  }
}
