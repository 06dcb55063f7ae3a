/** What a finished session means for the Merkle tree: results are frozen when finalization starts, and
    `done` is reached only through a store that held the session's delta. */
module SyncCommit {
  import opened Merkle
  import opened SyncProtocol
  import opened SyncInvariants

  const ALL_FAILED := "all_operations_failed"

  /** At some instant of the run the stored tree held the delta. */
  ghost predicate Seen(past: set<Stored>, d: Delta)
  {
    exists t :: t in past && Reflects(LeavesOf(t), d)
  }

  /** At some instant of the run the stored tree passed for one that holds the delta, and did not. */
  ghost predicate Fooled(past: set<Stored>, d: Delta)
  {
    exists t :: t in past && FalseFastPath(t, d)
  }

  /** The delta a finalizer works with is the one every other delivery computes. */
  ghost predicate Decided(session: Session, flips: nat, expected: Leaves, rows: Rows, d: Delta)
  {
    && !EmptyDelta(d)
    && (session.Present? ==> flips == 1 && d == Processed(expected, rows))
  }

  ghost predicate PhaseOk(session: Session, flips: nat, expected: Leaves, rows: Rows,
                          past: set<Stored>, phase: FinalPhase)
  {
    match phase
    case Begin => true
    case Admitted => session.Present? ==> flips == 1
    case Loading(d, _) => Decided(session, flips, expected, rows, d)
    case Saving(d, _, seen) => Decided(session, flips, expected, rows, d) && !FastPath(seen, d)
    case Committed(d) => Decided(session, flips, expected, rows, d) && (Seen(past, d) || Fooled(past, d))
    case GivingUp(why) =>
      session.Present? ==> flips == 1 && (why == ALL_FAILED ==> EmptyDelta(Processed(expected, rows)))
    case Ending => true
  }

  ghost predicate PhasesOk(session: Session, flips: nat, expected: Leaves, rows: Rows,
                           past: set<Stored>, finalizers: map<nat, FinalPhase>)
  {
    forall f :: f in finalizers ==> PhaseOk(session, flips, expected, rows, past, finalizers[f])
  }

  ghost predicate OutcomeOk(session: Session, flips: nat, expected: Leaves, rows: Rows, past: set<Stored>)
  {
    && (session == Present(Done) && rows != map[] ==>
      Seen(past, Processed(expected, rows)) || Fooled(past, Processed(expected, rows)))
    && (session.Present? && session.status.Failed? ==> flips == 1)
    && (session == Present(Failed(ALL_FAILED)) ==> EmptyDelta(Processed(expected, rows)))
  }

  ghost predicate Commit(s: State)
  {
    && s.store in s.past
    && PhasesOk(s.session, s.flips, s.expectedFiles, s.rows, s.past, s.finalizers)
    && OutcomeOk(s.session, s.flips, s.expectedFiles, s.rows, s.past)
  }

  /** Once finalization was entered no stamp changes a row any more. */
  lemma FrozenAfterFlip(s: State, w: nat, a: WorkStep)
    requires FlippedOnce(s.session, s.rows, s.outbox, s.flips) && OutboxMatches(s.session, s.rows, s.outbox)
    requires WorkEnabled(s, w, a)
    requires s.session.Present? ==> s.flips == 1
    ensures RowsAfter(s, w, a) == s.rows
  {
    WorkerStamps(s, w, a);
  }

  lemma SeenGrows(past: set<Stored>, more: set<Stored>, d: Delta)
    requires past <= more && Seen(past, d)
    ensures Seen(more, d)
  {
    var t :| t in past && Reflects(LeavesOf(t), d);
    assert t in more;
  }

  lemma FooledGrows(past: set<Stored>, more: set<Stored>, d: Delta)
    requires past <= more && Fooled(past, d)
    ensures Fooled(more, d)
  {
    var t :| t in past && FalseFastPath(t, d);
    assert t in more;
  }

  lemma SeenOrFooledGrows(past: set<Stored>, more: set<Stored>, d: Delta)
    requires past <= more
    ensures Seen(past, d) ==> Seen(more, d)
    ensures Fooled(past, d) ==> Fooled(more, d)
  {
    if Seen(past, d) {
      SeenGrows(past, more, d);
    }
    if Fooled(past, d) {
      FooledGrows(past, more, d);
    }
  }

  /** While finalization was not entered no finalizer has got anywhere, so rows may still change. */
  lemma EarlyPhases(s: State, t: State)
    requires Commit(s) && s.session.Present? && s.flips == 0
    requires t.finalizers == s.finalizers && t.store == s.store && t.past == s.past
    requires t.session.Present? && (t.session.status.Done? ==> s.session == t.session && t.rows == s.rows)
    requires !t.session.status.Failed?
    requires t.session == s.session || !t.session.status.Done?
    requires t.expectedFiles == s.expectedFiles
    ensures Commit(t)
  {
    forall f | f in t.finalizers
      ensures PhaseOk(t.session, t.flips, t.expectedFiles, t.rows, t.past, t.finalizers[f])
    {
      assert PhaseOk(s.session, s.flips, s.expectedFiles, s.rows, s.past, s.finalizers[f]);
    }
  }

  lemma StreamCommits(s: State, a: StreamStep)
    requires Invariant(s) && Commit(s) && StreamEnabled(s, a)
    ensures Commit(DoStream(s, a))
  {
    if a.Admit? {
      var t := s.(requests := s.requests - {a.r});
      if Admissible(t, s.requests[a.r]) {
        EarlyPhases(s, AdmitRow(t, s.requests[a.r]));
      }
    }
  }

  lemma WorkCommits(s: State, w: nat, a: WorkStep)
    requires Invariant(s) && Commit(s) && WorkEnabled(s, w, a)
    ensures Commit(DoWork(s, w, a))
  {
    if s.session.Present? ==> s.flips == 1 {
      FrozenAfterFlip(s, w, a);
    } else if s.session.status.Done? {
      WorkerStamps(s, w, a);
    } else {
      EarlyPhases(s, DoWork(s, w, a));
    }
  }

  // ---- the finalizer ----

  lemma FastPathDecides(past: set<Stored>, store: Stored, d: Delta)
    requires store in past && FastPath(store, d)
    ensures Seen(past, d) || Fooled(past, d)
  {
    if Reflects(LeavesOf(store), d) {
      assert Seen(past, d);
    } else {
      assert FalseFastPath(store, d);
    }
  }

  lemma SavedIsSeen(past: set<Stored>, seen: Stored, d: Delta)
    ensures Seen(past + {Saved(Merge(LeavesOf(seen), d))}, d)
  {
    var saved := Saved(Merge(LeavesOf(seen), d));
    MergeReflects(LeavesOf(seen), d);
    assert saved in past + {saved} && Reflects(LeavesOf(saved), d);
  }

  lemma LoadTreeGoesOn(session: Session, flips: nat, expected: Leaves, rows: Rows, past: set<Stored>,
                       phase: FinalPhase, store: Stored)
    requires PhaseOk(session, flips, expected, rows, past, phase) && phase.Loading? && store in past
    ensures PhaseOk(session, flips, expected, rows, past,
                    FinalPhaseAfter(session, Processed(expected, rows), store, phase, LoadTree).phase)
  {
    if FastPath(store, phase.delta) {
      FastPathDecides(past, store, phase.delta);
    }
  }

  lemma SavedGoesOn(session: Session, flips: nat, expected: Leaves, rows: Rows, past: set<Stored>, seen: Stored,
          d: Delta)
    requires Decided(session, flips, expected, rows, d)
    ensures PhaseOk(session, flips, expected, rows, past + {Saved(Merge(LeavesOf(seen), d))}, Committed(d))
  {
    SavedIsSeen(past, seen, d);
  }

  lemma ConflictGoesOn(session: Session, flips: nat, expected: Leaves, rows: Rows, past: set<Stored>, d: Delta,
          attempt: nat)
    requires Decided(session, flips, expected, rows, d)
    ensures PhaseOk(session, flips, expected, rows, past, Loading(d, attempt))
    ensures PhaseOk(session, flips, expected, rows, past, GivingUp("merkle_cas_exhausted"))
  {
    assert "merkle_cas_exhausted"[0] != ALL_FAILED[0];
  }

  lemma SaveTreeGoesOn(session: Session, flips: nat, expected: Leaves, rows: Rows, past: set<Stored>,
                       phase: FinalPhase, store: Stored)
    requires phase.Saving? && Decided(session, flips, expected, rows, phase.delta)
    ensures PhaseOk(session, flips, expected, rows, past + {SavedStore(store, phase, SaveTree(Acked))},
                    FinalPhaseAfter(session, Processed(expected, rows), store, phase, SaveTree(Acked)).phase)
  {
    if store == phase.seen {
      SavedGoesOn(session, flips, expected, rows, past, phase.seen, phase.delta);
    } else {
      ConflictGoesOn(session, flips, expected, rows, past + {store}, phase.delta, phase.attempt + 1);
    }
  }

  lemma MissedGoesOn(session: Session, flips: nat, expected: Leaves, rows: Rows, past: set<Stored>,
                     phase: FinalPhase, store: Stored, written: bool)
    requires phase.Saving? && Decided(session, flips, expected, rows, phase.delta)
    ensures PhaseOk(session, flips, expected, rows, past + {SavedStore(store, phase, SaveMissed(written))},
                    FinalPhaseAfter(session, Processed(expected, rows), store, phase, SaveMissed(written)).phase)
  {
    ConflictGoesOn(session, flips, expected, rows, past + {SavedStore(store, phase, SaveMissed(written))},
                   phase.delta, phase.attempt + 1);
  }

  lemma OtherGoesOn(session: Session, rows: Rows, outbox: map<Key, OutboxStatus>, flips: nat, expected: Leaves,
                    past: set<Stored>, phase: FinalPhase, store: Stored, a: FinalStep)
    requires FlippedOnce(session, rows, outbox, flips) && PhaseOk(session, flips, expected, rows, past, phase)
    requires AllowsFinal(phase, a) && !a.LoadTree? && !a.SaveTree? && !a.SaveMissed?
    requires FinalPhaseAfter(session, Processed(expected, rows), store, phase, a).Goto?
    ensures PhaseOk(session, flips, expected, rows, past,
                    FinalPhaseAfter(session, Processed(expected, rows), store, phase, a).phase)
    ensures SavedStore(store, phase, a) == store
  {
    assert "merkle_storage_permanent"[0] != ALL_FAILED[0];
  }

  lemma PhaseGoesOn(s: State, f: nat, a: FinalStep)
    requires FlippedOnce(s.session, s.rows, s.outbox, s.flips)
    requires Commit(s) && FinalEnabled(s, f, a) && NextFinal(s, f, a).Goto?
    ensures PhaseOk(s.session, s.flips, s.expectedFiles, s.rows, s.past + {StoreAfter(s, f, a)},
                    NextFinal(s, f, a).phase)
  {
    if f in s.finalizers {
      assert PhaseOk(s.session, s.flips, s.expectedFiles, s.rows, s.past, s.finalizers[f]);
      if a.LoadTree? {
        assert s.past + {s.store} == s.past;
        LoadTreeGoesOn(s.session, s.flips, s.expectedFiles, s.rows, s.past, s.finalizers[f], s.store);
      } else if a.SaveTree? {
        SaveTreeGoesOn(s.session, s.flips, s.expectedFiles, s.rows, s.past, s.finalizers[f], s.store);
      } else if a.SaveMissed? {
        MissedGoesOn(s.session, s.flips, s.expectedFiles, s.rows, s.past, s.finalizers[f], s.store, a.written);
      } else {
        assert s.past + {s.store} == s.past;
        OtherGoesOn(s.session, s.rows, s.outbox, s.flips, s.expectedFiles, s.past, s.finalizers[f], s.store, a);
      }
    }
  }

  /** The others only see the history grow and the session end. */
  lemma PhaseStays(s: State, t: State, phase: FinalPhase)
    requires PhaseOk(s.session, s.flips, s.expectedFiles, s.rows, s.past, phase)
    requires t.session.Present? ==> s.session.Present? && t.rows == s.rows
    requires t.flips == s.flips && t.expectedFiles == s.expectedFiles
    requires s.past <= t.past
    ensures PhaseOk(t.session, t.flips, t.expectedFiles, t.rows, t.past, phase)
  {
    if phase.Committed? {
      SeenOrFooledGrows(s.past, t.past, phase.delta);
    }
  }

  lemma PhasesStay(s: State, t: State)
    requires PhasesOk(s.session, s.flips, s.expectedFiles, s.rows, s.past, s.finalizers)
    requires t.session.Present? ==> s.session.Present? && t.rows == s.rows
    requires t.flips == s.flips && t.expectedFiles == s.expectedFiles
    requires s.past <= t.past
    ensures PhasesOk(t.session, t.flips, t.expectedFiles, t.rows, t.past, s.finalizers)
  {
    forall f | f in s.finalizers
      ensures PhaseOk(t.session, t.flips, t.expectedFiles, t.rows, t.past, s.finalizers[f])
    {
      PhaseStays(s, t, s.finalizers[f]);
    }
  }

  lemma OutcomeStays(s: State, t: State)
    requires OutcomeOk(s.session, s.flips, s.expectedFiles, s.rows, s.past)
    requires t.session == s.session && t.rows == s.rows
    requires t.flips == s.flips && t.expectedFiles == s.expectedFiles
    requires s.past <= t.past
    ensures OutcomeOk(t.session, t.flips, t.expectedFiles, t.rows, t.past)
  {
    SeenOrFooledGrows(s.past, t.past, Processed(s.expectedFiles, s.rows));
  }

  lemma MarkedOutcome(s: State, f: nat, reply: Reply)
    requires FlippedOnce(s.session, s.rows, s.outbox, s.flips)
    requires Commit(s) && FinalEnabled(s, f, MarkSession(reply))
    ensures OutcomeOk(SessionAfter(s, f, MarkSession(reply)), s.flips, s.expectedFiles, s.rows, s.past)
  {
    assert PhaseOk(s.session, s.flips, s.expectedFiles, s.rows, s.past, s.finalizers[f]);
  }

  lemma FinalPhases(s: State, f: nat, a: FinalStep)
    requires FlippedOnce(s.session, s.rows, s.outbox, s.flips)
    requires Commit(s) && FinalEnabled(s, f, a)
    ensures var t := DoFinal(s, f, a);
      PhasesOk(t.session, t.flips, t.expectedFiles, t.rows, t.past, t.finalizers)
  {
    var t := DoFinal(s, f, a);
    PhasesStay(s, t);
    if NextFinal(s, f, a).Goto? && !a.MarkSession? {
      PhaseGoesOn(s, f, a);
      assert t.session == s.session && t.rows == s.rows && t.flips == s.flips;
    }
    forall g | g in t.finalizers
      ensures PhaseOk(t.session, t.flips, t.expectedFiles, t.rows, t.past, t.finalizers[g])
    {
      if g != f {
        assert g in s.finalizers && t.finalizers[g] == s.finalizers[g];
      }
    }
  }

  lemma FinalOutcome(s: State, f: nat, a: FinalStep)
    requires FlippedOnce(s.session, s.rows, s.outbox, s.flips)
    requires Commit(s) && FinalEnabled(s, f, a)
    ensures var t := DoFinal(s, f, a);
      OutcomeOk(t.session, t.flips, t.expectedFiles, t.rows, t.past)
  {
    var t := DoFinal(s, f, a);
    if a.MarkSession? {
      MarkedOutcome(s, f, a.reply);
      OutcomeStays(s.(session := t.session), t);
    } else {
      OutcomeStays(s, t);
    }
  }

  lemma FinalCommits(s: State, f: nat, a: FinalStep)
    requires Invariant(s) && Commit(s) && FinalEnabled(s, f, a)
    ensures Commit(DoFinal(s, f, a))
  {
    FinalPhases(s, f, a);
    FinalOutcome(s, f, a);
  }

  lemma DispatchCommits(s: State, a: DispatchStep)
    requires Commit(s) && DispatchEnabled(s, a)
    ensures Commit(DoDispatch(s, a))
  {
  }

  lemma WorldCommits(s: State, a: WorldStep)
    requires Commit(s) && WorldEnabled(s, a)
    ensures Commit(DoWorld(s, a))
  {
    var t := DoWorld(s, a);
    PhasesStay(s, t);
    if a.OtherWrite? {
      OutcomeStays(s, t);
    }
  }

  lemma StepCommits(s: State, step: Step)
    requires Invariant(s) && Commit(s) && Enabled(s, step)
    ensures Commit(Do(s, step))
  {
    match step
    case Stream(a) => StreamCommits(s, a);
    case Dispatch(a) => DispatchCommits(s, a);
    case Work(w, a) => WorkCommits(s, w, a);
    case Final(f, a) => FinalCommits(s, f, a);
    case World(a) => WorldCommits(s, a);
  }
}
