/** A session that is the only writer of its tree: whatever crashes, is redelivered or is delivered twice,
    the stored tree is either still the one the session started from or that tree with the session's delta
    applied once. */
module SyncOneWriter {
  import opened Merkle
  import opened SyncProtocol
  import opened SyncRuns
  import opened SyncInvariants
  import opened SyncCommit

  ghost function Applied(init: Stored, d: Delta): (st: Stored)
  {
    Saved(Merge(LeavesOf(init), d))
  }

  ghost predicate Reached(init: Stored, d: Delta, store: Stored)
  {
    store == Applied(init, d) || FalseFastPath(init, d)
  }

  ghost predicate Written(init: Stored, d: Delta, flips: nat, store: Stored)
  {
    || store == init
    || (flips >= 1 && store == Applied(init, d) && !FastPath(init, d) && !EmptyDelta(d))
  }

  ghost predicate PhaseWrites(init: Stored, d: Delta, store: Stored, phase: FinalPhase)
  {
    match phase
    case Saving(_, _, seen) => seen == init
    case Committed(_) => Reached(init, d, store)
    case _ => true
  }

  ghost predicate PhasesWrite(init: Stored, d: Delta, store: Stored, finalizers: map<nat, FinalPhase>)
  {
    forall f :: f in finalizers ==> PhaseWrites(init, d, store, finalizers[f])
  }

  ghost predicate OneWriter(s: State, init: Stored)
  {
    s.session.Present? ==>
      && Written(init, DeltaOf(s), s.flips, s.store)
      && PhasesWrite(init, DeltaOf(s), s.store, s.finalizers)
      && (s.session.status.Done? && s.rows != map[] ==> Reached(init, DeltaOf(s), s.store))
  }

  /** Before finalization is entered nobody has touched the store, so the rows may still change. */
  lemma EarlyOneWriter(s: State, t: State, init: Stored)
    requires Commit(s) && OneWriter(s, init) && s.session.Present? && s.flips == 0
    requires s.store == t.store && s.finalizers == t.finalizers
    requires t.session.Present? && (t.session.status.Done? && t.rows != map[] ==>
      t.rows == s.rows && t.session == s.session)
    requires t.expectedFiles == s.expectedFiles
    ensures OneWriter(t, init)
  {
    assert t.store == init;
    forall f | f in t.finalizers
      ensures PhaseWrites(init, DeltaOf(t), t.store, t.finalizers[f])
    {
      assert PhaseOk(s.session, s.flips, s.expectedFiles, s.rows, s.past, s.finalizers[f]);
    }
  }

  lemma StreamOneWriter(s: State, a: StreamStep, init: Stored)
    requires Invariant(s) && Commit(s) && OneWriter(s, init) && StreamEnabled(s, a)
    ensures OneWriter(DoStream(s, a), init)
  {
    if a.Admit? {
      var t := s.(requests := s.requests - {a.r});
      if Admissible(t, s.requests[a.r]) {
        EarlyOneWriter(s, AdmitRow(t, s.requests[a.r]), init);
      }
    }
  }

  lemma DispatchOneWriter(s: State, a: DispatchStep, init: Stored)
    requires OneWriter(s, init) && DispatchEnabled(s, a)
    ensures OneWriter(DoDispatch(s, a), init)
  {
  }

  lemma WorkOneWriter(s: State, w: nat, a: WorkStep, init: Stored)
    requires Invariant(s) && Commit(s) && OneWriter(s, init) && WorkEnabled(s, w, a)
    ensures OneWriter(DoWork(s, w, a), init)
  {
    if s.session.Present? ==> s.flips == 1 {
      FrozenAfterFlip(s, w, a);
    } else {
      WorkerStamps(s, w, a);
      EarlyOneWriter(s, DoWork(s, w, a), init);
    }
  }

  // ---- the finalizer ----

  /** Loading finds the tree the session started from, or the delta already in it. */
  lemma LoadedTree(init: Stored, d: Delta, flips: nat, store: Stored)
    requires Written(init, d, flips, store)
    ensures FastPath(store, d) ==> Reached(init, d, store)
    ensures !FastPath(store, d) ==> store == init
  {
    MergeReflects(LeavesOf(init), d);
    FastPathExact(store, d);
    if store == init && FastPath(init, d) && Reflects(LeavesOf(init), d) {
      assert init.Saved?;
    }
  }

  lemma FinalStore(s: State, f: nat, a: FinalStep, init: Stored)
    requires Commit(s) && OneWriter(s, init) && FinalEnabled(s, f, a) && s.session.Present?
    ensures StoreAfter(s, f, a) == s.store || (a.SaveTree? && StoreAfter(s, f, a) == Applied(init, DeltaOf(s)))
      || (a.SaveMissed? && StoreAfter(s, f, a) == Applied(init, DeltaOf(s)))
    ensures Written(init, DeltaOf(s), s.flips, StoreAfter(s, f, a))
    ensures Reached(init, DeltaOf(s), s.store) ==> Reached(init, DeltaOf(s), StoreAfter(s, f, a))
  {
    if a.SaveTree? || a.SaveMissed? {
      assert PhaseOk(s.session, s.flips, s.expectedFiles, s.rows, s.past, s.finalizers[f]);
      assert PhaseWrites(init, DeltaOf(s), s.store, s.finalizers[f]);
    }
  }

  lemma LoadWrites(session: Session, results: Delta, init: Stored, d: Delta, flips: nat, store: Stored, attempt: nat)
    requires Written(init, d, flips, store)
    ensures PhaseWrites(init, d, store, FinalPhaseAfter(session, results, store, Loading(d, attempt), LoadTree).phase)
  {
    LoadedTree(init, d, flips, store);
  }

  lemma SaveWrites(session: Session, results: Delta, init: Stored, d: Delta, store: Stored, phase: FinalPhase,
          a: FinalStep)
    requires phase.Saving? && phase.delta == d && phase.seen == init && (a == SaveTree(Acked) || a.SaveMissed?)
    ensures PhaseWrites(init, d, SavedStore(store, phase, a), FinalPhaseAfter(session, results, store, phase, a).phase)
  {
  }

  /** The other calls write nothing, and lead to no phase that has loaded or stored a tree. */
  lemma OtherCallWrites(session: Session, results: Delta, init: Stored, d: Delta, store: Stored, phase: FinalPhase,
          a: FinalStep)
    requires AllowsFinal(phase, a) && !a.LoadTree? && !a.SaveTree? && !a.SaveMissed?
    requires FinalPhaseAfter(session, results, store, phase, a).Goto?
    ensures SavedStore(store, phase, a) == store
    ensures PhaseWrites(init, d, store, FinalPhaseAfter(session, results, store, phase, a).phase)
  {
  }

  lemma FinalPhase(s: State, f: nat, a: FinalStep, init: Stored)
    requires Commit(s) && OneWriter(s, init) && FinalEnabled(s, f, a) && s.session.Present?
    requires NextFinal(s, f, a).Goto?
    ensures PhaseWrites(init, DeltaOf(s), StoreAfter(s, f, a), NextFinal(s, f, a).phase)
  {
    if !a.DeliverFinal? {
      var phase := s.finalizers[f];
      assert PhaseOk(s.session, s.flips, s.expectedFiles, s.rows, s.past, phase);
      assert PhaseWrites(init, DeltaOf(s), s.store, phase);
      if a.LoadTree? {
        LoadWrites(s.session, DeltaOf(s), init, DeltaOf(s), s.flips, s.store, phase.attempt);
      } else if a.SaveTree? || a.SaveMissed? {
        SaveWrites(s.session, DeltaOf(s), init, DeltaOf(s), s.store, phase, a);
      } else {
        OtherCallWrites(s.session, DeltaOf(s), init, DeltaOf(s), s.store, phase, a);
      }
    }
  }

  lemma FinalPhasesWrite(s: State, f: nat, a: FinalStep, init: Stored)
    requires Commit(s) && OneWriter(s, init) && FinalEnabled(s, f, a) && s.session.Present?
    ensures PhasesWrite(init, DeltaOf(s), StoreAfter(s, f, a), FinalizersAfter(s, f, a))
  {
    var finalizers := FinalizersAfter(s, f, a);
    FinalStore(s, f, a, init);
    if NextFinal(s, f, a).Goto? {
      FinalPhase(s, f, a, init);
    }
    forall g | g in finalizers
      ensures PhaseWrites(init, DeltaOf(s), StoreAfter(s, f, a), finalizers[g])
    {
      if g != f {
        assert g in s.finalizers && finalizers[g] == s.finalizers[g];
        assert PhaseWrites(init, DeltaOf(s), s.store, s.finalizers[g]);
      }
    }
  }

  lemma FinalDone(s: State, f: nat, a: FinalStep, init: Stored)
    requires Commit(s) && OneWriter(s, init) && FinalEnabled(s, f, a) && s.session.Present?
    ensures SessionAfter(s, f, a).Present?
    ensures SessionAfter(s, f, a) == Present(Done) && s.rows != map[] ==> Reached(init, DeltaOf(s), StoreAfter(s, f, a))
  {
    FinalStore(s, f, a, init);
    if a.MarkSession? {
      assert PhaseWrites(init, DeltaOf(s), s.store, s.finalizers[f]);
    }
  }

  lemma FinalOneWriter(s: State, f: nat, a: FinalStep, init: Stored)
    requires Commit(s) && OneWriter(s, init) && FinalEnabled(s, f, a)
    ensures OneWriter(DoFinal(s, f, a), init)
  {
    if s.session.Present? {
      FinalStore(s, f, a, init);
      FinalPhasesWrite(s, f, a, init);
      FinalDone(s, f, a, init);
    }
  }

  lemma WorldOneWriter(s: State, a: WorldStep, init: Stored)
    requires OneWriter(s, init) && WorldEnabled(s, a) && !a.OtherWrite?
    ensures OneWriter(DoWorld(s, a), init)
  {
  }

  lemma StepOneWriter(s: State, step: Step, init: Stored)
    requires Invariant(s) && Commit(s) && OneWriter(s, init) && Enabled(s, step) && !IsOtherWrite(step)
    ensures OneWriter(Do(s, step), init)
  {
    match step
    case Stream(a) => StreamOneWriter(s, a, init);
    case Dispatch(a) => DispatchOneWriter(s, a, init);
    case Work(w, a) => WorkOneWriter(s, w, a, init);
    case Final(f, a) => FinalOneWriter(s, f, a, init);
    case World(a) => WorldOneWriter(s, a, init);
  }
}
