/** The run that defeats the finalizer's fast path: a clean sync of a moved file. Nothing fails, nothing
    crashes, nobody else writes, and the session ends `done` with the tree as it was. */
module SyncRename {
  import opened Merkle
  import opened SyncProtocol
  import opened SyncRuns
  import opened SyncReceipts
  import opened SyncTheorems
  import opened SyncConvergence

  // ---- the stages of the run ----

  const ID: BatchId := ""

  function Before(a: Name, sha: Hash): Stored { Saved(map[[a] := sha]) }

  ghost function Created(a: Name, b: Name, sha: Hash): State
  {
    Initial(map[[b] := sha], [[a]], Before(a, sha))
  }

  function Batched(a: Name, b: Name, sha: Hash): Request
  {
    Request(ID, map[[b] := sha], [[a]])
  }

  ghost function Put(a: Name, b: Name, sha: Hash): State
  {
    Created(a, b, sha).(content := {ID}, requests := map[0 := Batched(a, b, sha)])
  }

  function Accepted(a: Name, b: Name, sha: Hash, state: RowState): Row
  {
    Row(map[[b] := sha], [[a]], state, map[], [])
  }

  ghost function Admitted(a: Name, b: Name, sha: Hash): State
  {
    Created(a, b, sha).(
      content := {ID}, receivedFiles := map[[b] := sha], receivedDeletes := [[a]],
      rows := map[ID := Accepted(a, b, sha, Pending)], outbox := map[Batch(ID) := Unclaimed],
      session := Present(Processing))
  }

  ghost function Claimed(a: Name, b: Name, sha: Hash): State
  {
    Admitted(a, b, sha).(outbox := map[Batch(ID) := Enqueuing], claims := map[0 := Claim(Batch(ID), false)])
  }

  ghost function Queued(a: Name, b: Name, sha: Hash): State
  {
    Admitted(a, b, sha).(
      outbox := map[Batch(ID) := Enqueuing], claims := map[0 := Claim(Batch(ID), true)],
      queue := map[Batch(ID) := 0], handed := {Batch(ID)})
  }

  ghost function Working(a: Name, b: Name, sha: Hash, phase: Phase): State
  {
    Queued(a, b, sha).(workers := map[0 := Worker(ID, 0, phase)])
  }

  ghost function Indexed(a: Name, b: Name, sha: Hash): State
  {
    Working(a, b, sha, Finishing).(rows := map[ID := Accepted(a, b, sha, Succeeded)])
  }

  ghost function Dropped(a: Name, b: Name, sha: Hash): State
  {
    Indexed(a, b, sha).(workers := map[0 := Worker(ID, 0, Triggering)], content := {})
  }

  ghost function Flipped(a: Name, b: Name, sha: Hash): State
  {
    Indexed(a, b, sha).(
      workers := map[0 := Worker(ID, 0, Returning)], content := {}, session := Present(Finalizing), flips := 1,
      outbox := map[Batch(ID) := Enqueuing, Finalize := Unclaimed])
  }

  ghost function FinalizeClaimed(a: Name, b: Name, sha: Hash): State
  {
    Flipped(a, b, sha).(
      outbox := map[Batch(ID) := Enqueuing, Finalize := Enqueuing],
      claims := map[0 := Claim(Batch(ID), true), 1 := Claim(Finalize, false)])
  }

  ghost function FinalizeQueued(a: Name, b: Name, sha: Hash): State
  {
    Flipped(a, b, sha).(
      outbox := map[Batch(ID) := Enqueuing, Finalize := Enqueuing],
      claims := map[0 := Claim(Batch(ID), true), 1 := Claim(Finalize, true)],
      queue := map[Batch(ID) := 0, Finalize := 0], handed := {Batch(ID), Finalize})
  }

  ghost function Finalizer(a: Name, b: Name, sha: Hash, phase: FinalPhase): State
  {
    FinalizeQueued(a, b, sha).(finalizers := map[0 := phase])
  }

  ghost function Finished(a: Name, b: Name, sha: Hash): State
  {
    Finalizer(a, b, sha, Ending).(session := Present(Done))
  }

  function Move(a: Name, b: Name, sha: Hash): Delta { Delta(map[[b] := sha], {[a]}) }

  // ---- its steps ----

  ghost predicate Steps(s: State, step: Step, t: State)
  {
    Enabled(s, step) && Do(s, step) == t
  }

  lemma FinalIsStep(s: State, f: nat, a: FinalStep, t: State)
    requires FinalEnabled(s, f, a) && DoFinal(s, f, a) == t
    ensures Steps(s, Final(f, a), t)
  {
  }

  lemma WorkIsStep(s: State, w: nat, a: WorkStep, t: State)
    requires WorkEnabled(s, w, a) && DoWork(s, w, a) == t
    ensures Steps(s, Work(w, a), t)
  {
  }

  lemma PutMove(a: Name, b: Name, sha: Hash)
    requires a != b
    ensures Steps(Created(a, b, sha), Stream(PutContent(0, Batched(a, b, sha))), Put(a, b, sha))
  {
    assert [a] != [b] by { assert [a][0] != [b][0]; }
  }

  lemma AdmitMove(a: Name, b: Name, sha: Hash)
    ensures Steps(Put(a, b, sha), Stream(Admit(0)), Admitted(a, b, sha))
  {
    var q, s := Batched(a, b, sha), Put(a, b, sha);
    var t := s.(requests := map[]);
    assert s.requests - {0} == map[];
    var files: Leaves := map[[b] := sha];
    var none: Leaves := map[];
    assert none + files == files && |files| == 1;
    var deletes: seq<Path> := [[a]];
    var noDeletes: seq<Path> := [];
    assert noDeletes + deletes == deletes;
    assert Admissible(t, q);
    assert AdmitRow(t, q) == Admitted(a, b, sha);
  }

  lemma ClaimMove(a: Name, b: Name, sha: Hash)
    ensures Steps(Admitted(a, b, sha), Dispatch(TakeClaim(0, Batch(ID))), Claimed(a, b, sha))
  {
    assert map[Batch(ID) := Unclaimed][Batch(ID) := Enqueuing] == map[Batch(ID) := Enqueuing];
  }

  lemma SendMove(a: Name, b: Name, sha: Hash)
    ensures Steps(Claimed(a, b, sha), Dispatch(Send(0, Acked)), Queued(a, b, sha))
  {
    assert map[0 := Claim(Batch(ID), false)][0 := Claim(Batch(ID), true)] == map[0 := Claim(Batch(ID), true)];
    var none: set<Key> := {};
    assert none + {Batch(ID)} == {Batch(ID)};
  }

  lemma DeliverMove(a: Name, b: Name, sha: Hash)
    ensures Steps(Queued(a, b, sha), Work(0, Deliver(ID)), Working(a, b, sha, Start))
  {
  }

  lemma FetchMove(a: Name, b: Name, sha: Hash)
    ensures Steps(Working(a, b, sha, Start), Work(0, FetchContent(true)), Working(a, b, sha, HaveContent))
  {
  }

  lemma LoadSessionMove(a: Name, b: Name, sha: Hash)
    ensures Steps(Working(a, b, sha, HaveContent), Work(0, LoadSession), Working(a, b, sha, ReadyToIndex))
  {
  }

  lemma IndexMove(a: Name, b: Name, sha: Hash)
    ensures Steps(Working(a, b, sha, ReadyToIndex), Work(0, Index(Outcome.Indexed(map[], []))),
                  Working(a, b, sha, StampingOk(map[], [])))
  {
  }

  lemma SucceedMove(a: Name, b: Name, sha: Hash)
    ensures Succeed(map[ID := Accepted(a, b, sha, Pending)], ID, map[], []) == map[ID := Accepted(a, b, sha, Succeeded)]
  {
  }

  lemma StampOkIsStep(s: State, w: nat)
    requires w in s.workers && s.workers[w].phase == StampingOk(map[], []) && s.workers[w].id == s.last
    ensures Steps(s, Work(w, StampOk(Acked)),
                  s.(rows := Succeed(s.rows, s.workers[w].id, map[], []),
                    workers := s.workers[w := s.workers[w].(phase := Finishing)]))
  {
  }

  lemma StampMove(a: Name, b: Name, sha: Hash)
    ensures Steps(Working(a, b, sha, StampingOk(map[], [])), Work(0, StampOk(Acked)), Indexed(a, b, sha))
  {
    var s, t := Working(a, b, sha, StampingOk(map[], [])), Indexed(a, b, sha);
    SucceedMove(a, b, sha);
    assert s.workers[0 := s.workers[0].(phase := Finishing)] == t.workers;
    StampOkIsStep(s, 0);
  }

  lemma DropMove(a: Name, b: Name, sha: Hash)
    ensures Steps(Indexed(a, b, sha), Work(0, DropContent(true)), Dropped(a, b, sha))
  {
    var s := Indexed(a, b, sha);
    assert s.content - {ID} == {};
    assert WorkersAfter(s, 0, DropContent(true)) == map[0 := Worker(ID, 0, Triggering)];
  }

  lemma FlipIsStep(s: State, w: nat)
    requires w in s.workers && s.workers[w].phase == Triggering && ReadyToFinalize(s) && Finalize !in s.outbox
    ensures Steps(s, Work(w, Trigger(Acked)),
                  s.(workers := s.workers[w := s.workers[w].(phase := Returning)], session := Present(Finalizing),
                     outbox := s.outbox[Finalize := Unclaimed], flips := s.flips + 1))
  {
  }

  lemma TriggerMove(a: Name, b: Name, sha: Hash)
    ensures Steps(Dropped(a, b, sha), Work(0, Trigger(Acked)), Flipped(a, b, sha))
  {
    var s, t := Dropped(a, b, sha), Flipped(a, b, sha);
    assert ID in s.rows;
    assert s.outbox[Finalize := Unclaimed] == t.outbox;
    assert s.workers[0 := s.workers[0].(phase := Returning)] == t.workers;
    FlipIsStep(s, 0);
  }

  lemma ClaimIsStep(s: State, c: nat, key: Key)
    requires c !in s.claims && key in s.outbox && s.outbox[key] == Unclaimed
    ensures Steps(s, Dispatch(TakeClaim(c, key)),
      s.(outbox := s.outbox[key := Enqueuing], claims := s.claims[c := Claim(key, false)]))
  {
  }

  lemma ClaimFinalize(a: Name, b: Name, sha: Hash)
    ensures Steps(Flipped(a, b, sha), Dispatch(TakeClaim(1, Finalize)), FinalizeClaimed(a, b, sha))
  {
    var s, t := Flipped(a, b, sha), FinalizeClaimed(a, b, sha);
    assert s.outbox[Finalize := Enqueuing] == t.outbox;
    assert s.claims[1 := Claim(Finalize, false)] == t.claims;
    ClaimIsStep(s, 1, Finalize);
  }

  lemma SendIsStep(s: State, c: nat, key: Key)
    requires c in s.claims && s.claims[c] == Claim(key, false)
    requires key !in s.queue && key !in s.dropped
    ensures Steps(s, Dispatch(Send(c, Acked)),
                  s.(claims := s.claims[c := Claim(key, true)], queue := s.queue[key := 0], handed := s.handed + {key}))
  {
  }

  lemma SendFinalize(a: Name, b: Name, sha: Hash)
    ensures Steps(FinalizeClaimed(a, b, sha), Dispatch(Send(1, Acked)), FinalizeQueued(a, b, sha))
  {
    var s, t := FinalizeClaimed(a, b, sha), FinalizeQueued(a, b, sha);
    assert s.claims[1 := Claim(Finalize, true)] == t.claims;
    assert s.queue[Finalize := 0] == t.queue;
    assert s.handed + {Finalize} == t.handed;
    SendIsStep(s, 1, Finalize);
  }

  lemma DeliverIsStep(s: State, f: nat)
    requires f !in s.finalizers && Finalize in s.queue && s.store in s.past
    ensures Steps(s, Final(f, DeliverFinal), s.(finalizers := s.finalizers[f := Begin]))
  {
    assert s.past + {s.store} == s.past;
  }

  lemma DeliverFinalize(a: Name, b: Name, sha: Hash)
    ensures Steps(FinalizeQueued(a, b, sha), Final(0, DeliverFinal), Finalizer(a, b, sha, Begin))
  {
    var s := FinalizeQueued(a, b, sha);
    assert s.finalizers[0 := Begin] == map[0 := Begin];
    DeliverIsStep(s, 0);
  }

  lemma CheckIsStep(s: State, f: nat)
    requires f in s.finalizers && s.finalizers[f] == Begin && s.session == Present(Finalizing) && s.store in s.past
    ensures Steps(s, Final(f, CheckStatus), s.(finalizers := s.finalizers[f := FinalPhase.Admitted]))
  {
    assert s.past + {s.store} == s.past;
  }

  lemma CheckFinalize(a: Name, b: Name, sha: Hash)
    ensures Steps(Finalizer(a, b, sha, Begin), Final(0, CheckStatus), Finalizer(a, b, sha, FinalPhase.Admitted))
  {
    var s, t := Finalizer(a, b, sha, Begin), Finalizer(a, b, sha, FinalPhase.Admitted);
    assert s.finalizers[0 := FinalPhase.Admitted] == t.finalizers;
    CheckIsStep(s, 0);
  }

  lemma MoveIsProcessed(a: Name, b: Name, sha: Hash)
    requires a != b
    ensures DeltaOf(FinalizeQueued(a, b, sha)) == Move(a, b, sha)
  {
    var rows := map[ID := Accepted(a, b, sha, Succeeded)];
    assert ID in rows && [b] in rows[ID].files && [a] in rows[ID].deletes;
    assert forall p :: p in ProcessedPaths(rows) <==> p == [b];
    assert forall p :: p in ProcessedDeletes(rows) <==> p == [a];
  }

  lemma ResultsIsStep(s: State, f: nat, d: Delta)
    requires f in s.finalizers && s.finalizers[f] == FinalPhase.Admitted && s.store in s.past
    requires d == DeltaOf(s) && !EmptyDelta(d)
    ensures Steps(s, Final(f, LoadResults), s.(finalizers := s.finalizers[f := Loading(d, 0)]))
  {
    assert s.past + {s.store} == s.past;
  }

  lemma LoadResultsMove(a: Name, b: Name, sha: Hash)
    requires a != b
    ensures Steps(Finalizer(a, b, sha, FinalPhase.Admitted), Final(0, LoadResults),
                  Finalizer(a, b, sha, Loading(Move(a, b, sha), 0)))
  {
    MoveIsProcessed(a, b, sha);
    var s, t := Finalizer(a, b, sha, FinalPhase.Admitted), Finalizer(a, b, sha, Loading(Move(a, b, sha), 0));
    assert DeltaOf(s) == DeltaOf(FinalizeQueued(a, b, sha));
    assert s.finalizers[0 := Loading(Move(a, b, sha), 0)] == t.finalizers;
    assert [a] in Move(a, b, sha).deletes;
    ResultsIsStep(s, 0, Move(a, b, sha));
  }

  lemma PassedGoesOn(s: State, f: nat, d: Delta)
    requires f in s.finalizers && s.finalizers[f] == Loading(d, 0) && FastPath(s.store, d)
    ensures FinalEnabled(s, f, LoadTree) && NextFinal(s, f, LoadTree) == Goto(Committed(d))
  {
  }

  lemma PassedIsStep(s: State, f: nat, d: Delta)
    requires f in s.finalizers && s.store in s.past
    requires FinalEnabled(s, f, LoadTree) && NextFinal(s, f, LoadTree) == Goto(Committed(d))
    ensures DoFinal(s, f, LoadTree) == s.(finalizers := s.finalizers[f := Committed(d)])
  {
    assert s.past + {s.store} == s.past;
  }

  lemma MovePasses(a: Name, b: Name, sha: Hash)
    requires a != b
    ensures FastPath(Before(a, sha), Move(a, b, sha))
  {
    RenamePassesFastPath(a, b, sha);
  }

  lemma MoveGoesOn(a: Name, b: Name, sha: Hash, s: State)
    requires a != b
    requires 0 in s.finalizers && s.finalizers[0] == Loading(Move(a, b, sha), 0) && s.store == Before(a, sha)
    ensures FinalEnabled(s, 0, LoadTree) && NextFinal(s, 0, LoadTree) == Goto(Committed(Move(a, b, sha)))
  {
    MovePasses(a, b, sha);
    PassedGoesOn(s, 0, Move(a, b, sha));
  }

  lemma LoadTreeStep(a: Name, b: Name, sha: Hash, s: State)
    requires a != b && s == Finalizer(a, b, sha, Loading(Move(a, b, sha), 0))
    ensures Steps(s, Final(0, LoadTree), s.(finalizers := s.finalizers[0 := Committed(Move(a, b, sha))]))
  {
    MoveGoesOn(a, b, sha, s);
    PassedIsStep(s, 0, Move(a, b, sha));
    FinalIsStep(s, 0, LoadTree, s.(finalizers := s.finalizers[0 := Committed(Move(a, b, sha))]));
  }

  lemma LoadTreeMove(a: Name, b: Name, sha: Hash)
    requires a != b
    ensures Steps(Finalizer(a, b, sha, Loading(Move(a, b, sha), 0)), Final(0, LoadTree),
                  Finalizer(a, b, sha, Committed(Move(a, b, sha))))
  {
    var d := Move(a, b, sha);
    var s, t := Finalizer(a, b, sha, Loading(d, 0)), Finalizer(a, b, sha, Committed(d));
    assert s.finalizers[0 := Committed(d)] == t.finalizers;
    LoadTreeStep(a, b, sha, s);
  }

  lemma MarkIsStep(s: State, f: nat, d: Delta)
    requires f in s.finalizers && s.finalizers[f] == Committed(d) && s.session == Present(Finalizing)
      && s.store in s.past
    ensures Steps(s, Final(f, MarkSession(Acked)),
      s.(session := Present(Done), finalizers := s.finalizers[f := Ending]))
  {
    assert s.past + {s.store} == s.past;
  }

  lemma MarkMove(a: Name, b: Name, sha: Hash)
    ensures Steps(Finalizer(a, b, sha, Committed(Move(a, b, sha))), Final(0, MarkSession(Acked)),
                  Finished(a, b, sha))
  {
    var s, t := Finalizer(a, b, sha, Committed(Move(a, b, sha))), Finished(a, b, sha);
    assert s.finalizers[0 := Ending] == t.finalizers;
    MarkIsStep(s, 0, Move(a, b, sha));
  }

  // ---- the run ----

  lemma Prepend(s: State, step: Step, t: State, u: State)
    requires Steps(s, step, t) && Leads(t, u) && !IsOtherWrite(step)
    ensures Leads(s, u)
  {
    OneStep(s, step, t);
    LeadsOn(s, t, u);
  }

  lemma FinalizerRuns(a: Name, b: Name, sha: Hash)
    requires a != b
    ensures Leads(FinalizeQueued(a, b, sha), Finished(a, b, sha))
  {
    var end := Finished(a, b, sha);
    Stay(end);
    MarkMove(a, b, sha);
    Prepend(Finalizer(a, b, sha, Committed(Move(a, b, sha))), Final(0, MarkSession(Acked)), end, end);
    LoadTreeMove(a, b, sha);
    Prepend(Finalizer(a, b, sha, Loading(Move(a, b, sha), 0)), Final(0, LoadTree),
            Finalizer(a, b, sha, Committed(Move(a, b, sha))), end);
    LoadResultsMove(a, b, sha);
    Prepend(Finalizer(a, b, sha, FinalPhase.Admitted), Final(0, LoadResults),
            Finalizer(a, b, sha, Loading(Move(a, b, sha), 0)), end);
    CheckFinalize(a, b, sha);
    Prepend(Finalizer(a, b, sha, Begin), Final(0, CheckStatus), Finalizer(a, b, sha, FinalPhase.Admitted), end);
    DeliverFinalize(a, b, sha);
    Prepend(FinalizeQueued(a, b, sha), Final(0, DeliverFinal), Finalizer(a, b, sha, Begin), end);
  }

  lemma WorkerRuns(a: Name, b: Name, sha: Hash)
    requires a != b
    ensures Leads(Queued(a, b, sha), Finished(a, b, sha))
  {
    var end := Finished(a, b, sha);
    FinalizerRuns(a, b, sha);
    SendFinalize(a, b, sha);
    Prepend(FinalizeClaimed(a, b, sha), Dispatch(Send(1, Acked)), FinalizeQueued(a, b, sha), end);
    ClaimFinalize(a, b, sha);
    Prepend(Flipped(a, b, sha), Dispatch(TakeClaim(1, Finalize)), FinalizeClaimed(a, b, sha), end);
    TriggerMove(a, b, sha);
    Prepend(Dropped(a, b, sha), Work(0, Trigger(Acked)), Flipped(a, b, sha), end);
    DropMove(a, b, sha);
    Prepend(Indexed(a, b, sha), Work(0, DropContent(true)), Dropped(a, b, sha), end);
    StampMove(a, b, sha);
    Prepend(Working(a, b, sha, StampingOk(map[], [])), Work(0, StampOk(Acked)), Indexed(a, b, sha), end);
    IndexMove(a, b, sha);
    Prepend(Working(a, b, sha, ReadyToIndex), Work(0, Index(Outcome.Indexed(map[], []))),
            Working(a, b, sha, StampingOk(map[], [])), end);
    LoadSessionMove(a, b, sha);
    Prepend(Working(a, b, sha, HaveContent), Work(0, LoadSession), Working(a, b, sha, ReadyToIndex), end);
    FetchMove(a, b, sha);
    Prepend(Working(a, b, sha, Start), Work(0, FetchContent(true)), Working(a, b, sha, HaveContent), end);
    DeliverMove(a, b, sha);
    Prepend(Queued(a, b, sha), Work(0, Deliver(ID)), Working(a, b, sha, Start), end);
  }

  lemma AdmissionRuns(a: Name, b: Name, sha: Hash, end: State)
    requires a != b && Leads(Queued(a, b, sha), end)
    ensures Leads(Created(a, b, sha), end)
  {
    SendMove(a, b, sha);
    Prepend(Claimed(a, b, sha), Dispatch(Send(0, Acked)), Queued(a, b, sha), end);
    ClaimMove(a, b, sha);
    Prepend(Admitted(a, b, sha), Dispatch(TakeClaim(0, Batch(ID))), Claimed(a, b, sha), end);
    AdmitMove(a, b, sha);
    Prepend(Put(a, b, sha), Stream(Admit(0)), Admitted(a, b, sha), end);
    PutMove(a, b, sha);
    Prepend(Created(a, b, sha), Stream(PutContent(0, Batched(a, b, sha))), Put(a, b, sha), end);
  }

  lemma MoveIsFullSync(a: Name, b: Name, sha: Hash)
    requires a != b
    ensures FullSync(map[[b] := sha], Before(a, sha), map[[b] := sha], [[a]])
  {
    assert [a] != [b] by { assert [a][0] != [b][0]; }
    var tree, client: Leaves := map[[a] := sha], map[[b] := sha];
    assert NeedOf(tree, client) == {[b]} && GoneOf(tree, client) == {[a]};
    var deletes: seq<Path> := [[a]];
    assert [a] in deletes;
    assert Elements(deletes) == {[a]};
  }

  lemma NothingFailed(a: Name, b: Name, sha: Hash)
    ensures FailedFiles(map[ID := Accepted(a, b, sha, Succeeded)]) == {}
    ensures FailedDeletes(map[ID := Accepted(a, b, sha, Succeeded)]) == {}
  {
  }

  /** The move of a file `a` to `b`, unchanged, is a full sync that runs to `done` without a fault, without
      a failed path and without another writer; and the stored tree never was anything but `{a}`. */
  lemma MovedFileIsLost(a: Name, b: Name, sha: Hash) returns (trace: seq<Step>, s: State)
    requires a != b
    ensures FullSync(map[[b] := sha], Before(a, sha), map[[b] := sha], [[a]])
    ensures Reachable(s, trace, map[[b] := sha], [[a]], Before(a, sha)) && Alone(trace)
    ensures s.session == Present(Done) && FailedFiles(s.rows) == {} && FailedDeletes(s.rows) == {}
    ensures s.past == {Before(a, sha)} && s.store == Before(a, sha)
  {
    WorkerRuns(a, b, sha);
    AdmissionRuns(a, b, sha, Finished(a, b, sha));
    MoveIsFullSync(a, b, sha);
    NothingFailed(a, b, sha);
    s := Finished(a, b, sha);
    trace :| Runs(Created(a, b, sha), trace) && After(Created(a, b, sha), trace) == s && Alone(trace);
  }
}
