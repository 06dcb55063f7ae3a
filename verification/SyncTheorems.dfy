/** What holds in every run of a sync session, from its creation by /diff on. */
module SyncTheorems {
  import opened Merkle
  import opened SyncProtocol
  import opened SyncRuns
  import opened SyncInvariants
  import opened SyncWakeup
  import opened SyncCommit
  import opened SyncReceipts
  import opened SyncOneWriter

  // ---------------------------------------------------------------------------
  // Reachable states
  // ---------------------------------------------------------------------------

  ghost predicate Sound(s: State)
  {
    Invariant(s) && Wake(s) && Commit(s) && Receipts(s)
  }

  lemma InitialSound(files: Leaves, deletes: seq<Path>, store: Stored)
    ensures Sound(Initial(files, deletes, store))
    ensures OneWriter(Initial(files, deletes, store), store)
  {
    var s := Initial(files, deletes, store);
    assert s.rows == map[] && s.finalizers == map[] && s.workers == map[];
  }

  lemma StepSound(s: State, step: Step)
    requires Sound(s) && Enabled(s, step)
    ensures Sound(Do(s, step))
  {
    StepKeeps(s, step);
    StepWakes(s, step);
    StepCommits(s, step);
    StepReceipts(s, step);
  }

  lemma {:induction false} RunSound(s: State, trace: seq<Step>)
    requires Sound(s) && Runs(s, trace)
    ensures Sound(After(s, trace))
    decreases |trace|
  {
    if trace != [] {
      StepSound(s, trace[0]);
      RunSound(Do(s, trace[0]), trace[1..]);
    }
  }

  lemma {:induction false} RunOneWriter(s: State, trace: seq<Step>, init: Stored)
    requires Sound(s) && OneWriter(s, init) && Runs(s, trace) && Alone(trace)
    ensures OneWriter(After(s, trace), init)
    decreases |trace|
  {
    if trace != [] {
      StepSound(s, trace[0]);
      StepOneWriter(s, trace[0], init);
      RunOneWriter(Do(s, trace[0]), trace[1..], init);
    }
  }

  ghost predicate Reachable(s: State, trace: seq<Step>, files: Leaves, deletes: seq<Path>, store: Stored)
  {
    Runs(Initial(files, deletes, store), trace) && s == After(Initial(files, deletes, store), trace)
  }

  lemma ReachableSound(s: State, trace: seq<Step>, files: Leaves, deletes: seq<Path>, store: Stored)
    requires Reachable(s, trace, files, deletes, store)
    ensures Sound(s)
    ensures Alone(trace) ==> OneWriter(s, store)
  {
    InitialSound(files, deletes, store);
    RunSound(Initial(files, deletes, store), trace);
    if Alone(trace) {
      RunOneWriter(Initial(files, deletes, store), trace, store);
    }
  }

  // ---------------------------------------------------------------------------
  // No lost wakeup
  // ---------------------------------------------------------------------------

  /** The batch's task is queued, or its outbox row is one that a dispatcher or the reaper still picks up and
      its id is not taken by an archived job. */
  predicate TaskToCome(s: State, key: Key)
  {
    key in s.queue || (key !in s.dropped && key in s.outbox && s.outbox[key] != Enqueued)
  }

  /** In every interleaving of admissions, workers, dispatchers, crashes and redeliveries, whatever faults
      happen to other batches: a session that could be finalized has a job left, of the batch that was the
      last to leave `pending`, none of whose deliveries has been through the trigger; unless that very
      batch's job was archived, its stamp refused, or its trigger lost while the session was ready. And a
      finalizing session has a finalize job left, none of whose deliveries has reached its end, unless that
      job was archived. */
  lemma NoLostWakeup(s: State, trace: seq<Step>, files: Leaves, deletes: seq<Path>, store: Stored)
    requires Reachable(s, trace, files, deletes, store)
    ensures ReadyToFinalize(s) && !Faulted(s.dropped, s.unmarked, s.misfired, s.last) ==>
      && s.last in s.rows && TaskToCome(s, Batch(s.last))
      && forall w :: w in s.workers && s.workers[w].id == s.last ==> !s.workers[w].phase.Returning?
    ensures s.session == Present(Finalizing) ==>
      && (Finalize !in s.dropped ==> TaskToCome(s, Finalize))
      && forall f :: f in s.finalizers ==> !s.finalizers[f].Ending?
  {
    ReachableSound(s, trace, files, deletes, store);
    if ReadyToFinalize(s) && !Faulted(s.dropped, s.unmarked, s.misfired, s.last) {
      assert Batch(s.last) in s.outbox;
    }
  }

  /** A pending batch likewise never loses its job, but by its own archiving or its own refused stamp. */
  lemma NoLostBatch(s: State, trace: seq<Step>, files: Leaves, deletes: seq<Path>, store: Stored, id: BatchId)
    requires Reachable(s, trace, files, deletes, store)
    requires id in s.rows && s.rows[id].state == Pending
    ensures TaskToCome(s, Batch(id)) || Batch(id) in s.dropped || id in s.unmarked
  {
    ReachableSound(s, trace, files, deletes, store);
    assert Batch(id) in s.outbox;
  }

  /** A worker that is about to delete content, or has, left a terminal row behind, or has no session any
      more, or had its own stamp refused. Nothing else can make a worker delete content that is needed. */
  lemma ContentOutlivesItsUse(s: State, trace: seq<Step>, files: Leaves, deletes: seq<Path>, store: Stored, w: nat)
    requires Reachable(s, trace, files, deletes, store)
    requires w in s.workers && PastStamp(s.workers[w].phase)
    ensures var id := s.workers[w].id;
      s.session.Gone? || (id in s.rows && s.rows[id].state != Pending) || id in s.unmarked
  {
    ReachableSound(s, trace, files, deletes, store);
  }

  // ---------------------------------------------------------------------------
  // One finalize task, frozen results
  // ---------------------------------------------------------------------------

  /** Of all trigger transactions at most one flips the session. The finalize row comes with that flip: a
      receiving or processing session has none and no finalize task was ever queued, a finalizing one has
      it, and a done one has it unless the sync had nothing to do (such a session is created done). */
  lemma ExactlyOneFinalizeTask(s: State, trace: seq<Step>, files: Leaves, deletes: seq<Path>, store: Stored)
    requires Reachable(s, trace, files, deletes, store)
    ensures s.flips <= 1
    ensures s.session.Present? ==> (Finalize in s.outbox <==> s.flips == 1)
    ensures s.session == Present(Receiving) || s.session == Present(Processing) ==>
      Finalize !in s.outbox && Finalize !in s.handed && Finalize !in s.queue && s.finalizers == map[]
    ensures s.session == Present(Finalizing) ==> Finalize in s.outbox && AllTerminal(s.rows)
    ensures s.session == Present(Done) ==> (Finalize in s.outbox <==> s.rows != map[])
  {
    ReachableSound(s, trace, files, deletes, store);
    if s.session == Present(Receiving) || s.session == Present(Processing) {
      assert Finalize in s.handed ==> Known(s.session, s.rows, s.flips, Finalize);
    }
  }

  /** Rows are only added, and terminal ones stay as they are, until the session is collected. */
  ghost predicate RowsGrow(before: Session, rows: Rows, after: Session, more: Rows)
  {
    after.Present? ==>
      && before.Present?
      && forall id :: id in rows ==> id in more && (rows[id].state != Pending ==> more[id] == rows[id])
  }

  /** What no step takes back. */
  ghost predicate Evolves(s: State, t: State)
  {
    && t.expectedFiles == s.expectedFiles && t.expectedDeletes == s.expectedDeletes
    && s.flips <= t.flips
    && RowsGrow(s.session, s.rows, t.session, t.rows)
  }

  /** Only admission, to a receiving session, brings new rows. */
  ghost predicate NewRowsWhileReceiving(s: State, t: State)
  {
    s.session == Present(Receiving) || t.rows.Keys <= s.rows.Keys
  }

  lemma AdmitRowEvolves(s: State, q: Request)
    requires Admissible(s, q)
    ensures Evolves(s, AdmitRow(s, q))
  {
  }

  lemma StreamEvolves(s: State, a: StreamStep)
    requires StreamEnabled(s, a)
    ensures Evolves(s, DoStream(s, a)) && NewRowsWhileReceiving(s, DoStream(s, a))
  {
    if a.Admit? {
      var t := s.(requests := s.requests - {a.r});
      if Admissible(t, s.requests[a.r]) {
        AdmitRowEvolves(t, s.requests[a.r]);
      }
    }
  }

  lemma DispatchEvolves(s: State, a: DispatchStep)
    requires DispatchEnabled(s, a)
    ensures Evolves(s, DoDispatch(s, a)) && NewRowsWhileReceiving(s, DoDispatch(s, a))
  {
  }

  lemma WorkEvolves(s: State, w: nat, a: WorkStep)
    requires WorkEnabled(s, w, a)
    ensures Evolves(s, DoWork(s, w, a)) && NewRowsWhileReceiving(s, DoWork(s, w, a))
  {
    WorkerStamps(s, w, a);
  }

  lemma FinalEvolves(s: State, f: nat, a: FinalStep)
    requires FinalEnabled(s, f, a)
    ensures Evolves(s, DoFinal(s, f, a)) && NewRowsWhileReceiving(s, DoFinal(s, f, a))
  {
  }

  lemma WorldEvolves(s: State, a: WorldStep)
    requires WorldEnabled(s, a)
    ensures Evolves(s, DoWorld(s, a)) && NewRowsWhileReceiving(s, DoWorld(s, a))
  {
  }

  lemma StepEvolves(s: State, step: Step)
    requires Enabled(s, step)
    ensures Evolves(s, Do(s, step)) && NewRowsWhileReceiving(s, Do(s, step))
  {
    match step
    case Stream(a) => StreamEvolves(s, a);
    case Dispatch(a) => DispatchEvolves(s, a);
    case Work(w, a) => WorkEvolves(s, w, a);
    case Final(f, a) => FinalEvolves(s, f, a);
    case World(a) => WorldEvolves(s, a);
  }

  lemma {:induction false} RunEvolves(s: State, trace: seq<Step>)
    requires Runs(s, trace)
    ensures Evolves(s, After(s, trace))
    decreases |trace|
  {
    if trace != [] {
      StepEvolves(s, trace[0]);
      RunEvolves(Do(s, trace[0]), trace[1..]);
    }
  }

  /** A row leaves `pending` at most once. In particular no duplicate, late or concurrent delivery turns a
      succeeded batch into a failed one, not even one that finds the content already deleted. */
  lemma RowsLeavePendingOnce(s: State, trace: seq<Step>, id: BatchId)
    requires Runs(s, trace) && After(s, trace).session.Present?
    requires id in s.rows && s.rows[id].state != Pending
    ensures id in After(s, trace).rows && After(s, trace).rows[id] == s.rows[id]
  {
    RunEvolves(s, trace);
  }

  // ---- frozen results ----

  lemma {:induction false} FrozenRun(s: State, trace: seq<Step>)
    requires Sound(s) && s.flips >= 1 && Runs(s, trace) && After(s, trace).session.Present?
    ensures s.session.Present? && After(s, trace).rows == s.rows
    decreases |trace|
  {
    if trace != [] {
      var t := Do(s, trace[0]);
      StepSound(s, trace[0]);
      StepEvolves(s, trace[0]);
      FrozenRun(t, trace[1..]);
      FrozenStep(s.session, s.rows, s.outbox, s.flips, t.session, t.rows);
    }
  }

  lemma FrozenStep(before: Session, rows: Rows, outbox: map<Key, OutboxStatus>, flips: nat, after: Session, more: Rows)
    requires FlippedOnce(before, rows, outbox, flips) && flips >= 1
    requires after.Present? && RowsGrow(before, rows, after, more)
    requires before == Present(Receiving) || more.Keys <= rows.Keys
    ensures more == rows
  {
    assert more.Keys == rows.Keys;
  }

  /** From the flip on there is no pending batch and no row changes any more, whatever happens; so every
      delivery of the finalize task computes and commits one and the same delta. */
  lemma ResultsFrozen(s: State, trace: seq<Step>, more: seq<Step>, files: Leaves, deletes: seq<Path>, store: Stored)
    requires Reachable(s, trace, files, deletes, store) && s.flips >= 1
    requires Runs(s, more) && After(s, more).session.Present?
    ensures AllTerminal(s.rows) && After(s, more).rows == s.rows
    ensures DeltaOf(After(s, more)) == DeltaOf(s)
    ensures forall f :: f in After(s, more).finalizers ==>
      var phase := After(s, more).finalizers[f];
      phase.Loading? || phase.Saving? || phase.Committed? ==> phase.delta == DeltaOf(s)
  {
    ReachableSound(s, trace, files, deletes, store);
    FrozenRun(s, more);
    RunEvolves(s, more);
    RunSound(s, more);
    var t := After(s, more);
    forall f | f in t.finalizers && (t.finalizers[f].Loading? || t.finalizers[f].Saving? || t.finalizers[f].Committed?)
      ensures t.finalizers[f].delta == DeltaOf(s)
    {
      assert PhaseOk(t.session, t.flips, t.expectedFiles, t.rows, t.past, t.finalizers[f]);
    }
  }

  // ---------------------------------------------------------------------------
  // What `done` means
  // ---------------------------------------------------------------------------

  /** A session with batches is `done` only if at some instant of the run the stored tree held every
      processed path at its accepted hash and no processed delete; or if at some instant the fast path was
      fooled, which takes a delta that changes the tree's set of paths but not its root hash. */
  lemma DoneIsSound(s: State, trace: seq<Step>, files: Leaves, deletes: seq<Path>, store: Stored)
    requires Reachable(s, trace, files, deletes, store)
    requires s.session == Present(Done) && s.rows != map[]
    ensures Seen(s.past, DeltaOf(s))
      || exists t :: t in s.past && FastPath(t, DeltaOf(s)) && !KeepsPaths(LeavesOf(t), DeltaOf(s))
  {
    ReachableSound(s, trace, files, deletes, store);
    if !Seen(s.past, DeltaOf(s)) {
      var t :| t in s.past && FalseFastPath(t, DeltaOf(s));
      FastPathExact(t, DeltaOf(s));
      assert t in s.past && FastPath(t, DeltaOf(s)) && !KeepsPaths(LeavesOf(t), DeltaOf(s));
    }
  }

  /** With no other writer, any crash and redelivery sequence that ends in `done` has applied the delta
      exactly once, if and only if the delta does not fool the fast path on the initial tree. */
  lemma DoneAppliesOnce(s: State, trace: seq<Step>, files: Leaves, deletes: seq<Path>, store: Stored)
    requires Reachable(s, trace, files, deletes, store) && Alone(trace)
    requires s.session == Present(Done) && s.rows != map[]
    ensures s.store == Applied(store, DeltaOf(s)) <==> !FalseFastPath(store, DeltaOf(s))
    ensures FalseFastPath(store, DeltaOf(s)) ==> s.store == store
  {
    ReachableSound(s, trace, files, deletes, store);
    MergeReflects(LeavesOf(store), DeltaOf(s));
  }

  /** A session on its way writes nothing, or its delta once: the tree is never left in between. */
  lemma OneWriterStore(s: State, trace: seq<Step>, files: Leaves, deletes: seq<Path>, store: Stored)
    requires Reachable(s, trace, files, deletes, store) && Alone(trace) && s.session.Present?
    ensures s.store == store || s.store == Applied(store, DeltaOf(s))
    ensures s.flips == 0 || s.session == Present(Failed(ALL_FAILED)) ==> s.store == store
  {
    ReachableSound(s, trace, files, deletes, store);
  }

  /** Admission goes by counts: a sync whose explicit deletes name a path twice can never leave
      `receiving`, except by expiry. */
  lemma DuplicateDeletesStall(s: State, trace: seq<Step>, files: Leaves, deletes: seq<Path>, store: Stored)
    requires Reachable(s, trace, files, deletes, store) && !Distinct(deletes)
    ensures s.session.Gone? || s.session == Present(Receiving) || s.session == Present(Expired)
  {
    ReachableSound(s, trace, files, deletes, store);
    RunEvolves(Initial(files, deletes, store), trace);
    if s.session == Present(Processing) || (s.session.Present? && s.flips >= 1) {
      Coverage(s);
    }
  }
}
