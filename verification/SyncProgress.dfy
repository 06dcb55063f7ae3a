/** What can still become of a session, exactly. A reachable session can be brought to its end if and only if: its
    upload can be completed and no pending batch is lost; or it is movable; or its finalization has a job or a
    delivery left. Faults are not excluded. Without faults there is always a way, to `done` if anything was or
    still can be processed. */
module SyncProgress {
  import opened Merkle
  import opened SyncProtocol
  import opened SyncRuns
  import opened SyncInvariants
  import opened SyncWakeup
  import opened SyncCommit
  import opened SyncReceipts
  import opened SyncTheorems
  import opened SyncDrive
  import opened SyncWedge

  /** Something was processed, or some pending batch still has its content. */
  ghost predicate Hopeful(s: State)
  {
    || !EmptyDelta(DeltaOf(s))
    || exists id :: PendingIn(s, id) && id in s.content
  }

  /** Something was processed, or some pending batch still has its content and its job. */
  ghost predicate Promising(s: State)
  {
    || !EmptyDelta(DeltaOf(s))
    || exists id :: PendingIn(s, id) && id in s.content && JobLeft(s, Batch(id))
  }

  /** Some run of some session comes to this state. */
  ghost predicate Reached(s: State)
  {
    exists trace, files, deletes, store :: Reachable(s, trace, files, deletes, store)
  }

  lemma ReachOn(s: State, trace: seq<Step>, more: seq<Step>, files: Leaves, deletes: seq<Path>, store: Stored)
    requires Reachable(s, trace, files, deletes, store) && Runs(s, more)
    ensures Reachable(After(s, more), trace + more, files, deletes, store)
  {
    RunsOn(Initial(files, deletes, store), trace, more);
  }

  lemma ReachedOn(s: State, t: State)
    requires Reached(s) && Leads(s, t)
    ensures Reached(t)
  {
    var trace, files, deletes, store :| Reachable(s, trace, files, deletes, store);
    var more :| Runs(s, more) && After(s, more) == t && Alone(more);
    ReachOn(s, trace, more, files, deletes, store);
  }

  // ---- what holds in every reached state ----

  lemma ManifestsReached(s: State)
    requires Reached(s) && s.session == Present(Receiving)
    ensures s.receivedFiles.Items <= s.expectedFiles.Items
    ensures Elements(s.receivedDeletes) <= Elements(s.expectedDeletes) && Distinct(s.receivedDeletes)
    ensures |s.receivedFiles| != |s.expectedFiles| || |s.receivedDeletes| != |s.expectedDeletes|
  {
    var trace, files, deletes, store :| Reachable(s, trace, files, deletes, store);
    ReachableSound(s, trace, files, deletes, store);
  }

  lemma RowsReached(s: State)
    requires Reached(s)
    ensures RowsAgree(s.expectedFiles, s.rows) && Filled(s.rows)
  {
    var trace, files, deletes, store :| Reachable(s, trace, files, deletes, store);
    ReachableSound(s, trace, files, deletes, store);
  }

  lemma ProcessingReached(s: State)
    requires Reached(s) && s.session == Present(Processing)
    ensures s.rows != map[]
  {
    var trace, files, deletes, store :| Reachable(s, trace, files, deletes, store);
    ReachableSound(s, trace, files, deletes, store);
  }

  /** Before the flip there never was a finalize job that could have been archived. */
  lemma NotYetArchived(s: State)
    requires Reached(s) && Uploading(s.session)
    ensures Finalize !in s.dropped && s.flips == 0
  {
    var trace, files, deletes, store :| Reachable(s, trace, files, deletes, store);
    ReachableSound(s, trace, files, deletes, store);
    assert Finalize in s.handed ==> Known(s.session, s.rows, s.flips, Finalize);
  }

  /** By the wakeup theorem a finalizing session has its job unless that was archived, and no delivery of it is
      at its end. */
  lemma FinalizingReached(s: State)
    requires Reached(s) && s.session == Present(Finalizing)
    ensures AllTerminal(s.rows) && (Finalize !in s.dropped ==> JobLeft(s, Finalize))
    ensures forall f :: f in s.finalizers ==> !s.finalizers[f].Ending?
  {
    var trace, files, deletes, store :| Reachable(s, trace, files, deletes, store);
    NoLostWakeup(s, trace, files, deletes, store);
    ExactlyOneFinalizeTask(s, trace, files, deletes, store);
  }

  /** By the wakeup theorems, without faults every pending batch has its job, and a session that is only
      waiting for its flip has the job of the batch that was the last to leave `pending`. */
  lemma FaultFreeMovable(s: State)
    requires Reached(s) && FaultFree(s) && Uploading(s.session)
    ensures forall id :: PendingIn(s, id) ==> JobLeft(s, Batch(id))
    ensures PendingSaveable(s) && (s.session == Present(Processing) ==> Movable(s))
  {
    var trace, files, deletes, store :| Reachable(s, trace, files, deletes, store);
    forall id | PendingIn(s, id)
      ensures JobLeft(s, Batch(id))
    {
      NoLostBatch(s, trace, files, deletes, store, id);
    }
    if s.session == Present(Processing) {
      ProcessingReached(s);
      NoLostWakeup(s, trace, files, deletes, store);
      assert ReadyToFinalize(s) ==> Triggerable(s, s.last);
    }
  }

  // ---------------------------------------------------------------------------
  // Completing the upload
  // ---------------------------------------------------------------------------

  /** A text that is longer than every one of `ids`. */
  lemma FreshId(ids: set<BatchId>) returns (id: BatchId)
    ensures id !in ids
  {
    var lengths: set<nat> := set i | i in ids :: |i|;
    var n := Fresh(lengths);
    id := seq(n, _ => 'x');
    assert n !in lengths;
  }

  function MissingFiles(expected: Leaves, received: Leaves): (m: Leaves)
    ensures forall p :: p in m <==> p in expected && p !in received
    ensures forall p :: p in m ==> m[p] == expected[p]
  {
    map p | p in expected && p !in received :: expected[p]
  }

  function MissingDeletes(expected: seq<Path>, received: seq<Path>): (ps: seq<Path>)
    ensures forall p :: p in ps <==> p in expected && p !in received
  {
    if expected == [] then []
    else (if expected[0] in received then [] else [expected[0]]) + MissingDeletes(expected[1..], received)
  }

  lemma DistinctTail(ps: seq<Path>)
    requires ps != [] && Distinct(ps)
    ensures Distinct(ps[1..]) && ps[0] !in ps[1..]
  {
    assert forall i :: 0 <= i < |ps[1..]| ==> ps[1..][i] == ps[i + 1];
  }

  lemma {:induction false} MissingDistinct(expected: seq<Path>, received: seq<Path>)
    requires Distinct(expected)
    ensures Distinct(MissingDeletes(expected, received))
  {
    if expected != [] {
      DistinctTail(expected);
      MissingDistinct(expected[1..], received);
      if expected[0] !in received {
        DistinctAppend([expected[0]], MissingDeletes(expected[1..], received));
      }
    }
  }

  lemma FilesComplete(expected: Leaves, received: Leaves)
    requires received.Items <= expected.Items
    ensures received + MissingFiles(expected, received) == expected
  {
    forall p | p in received
      ensures p in expected && received[p] == expected[p]
    {
      assert (p, received[p]) in received.Items;
    }
  }

  lemma DeletesComplete(expected: seq<Path>, received: seq<Path>)
    requires Elements(received) <= Elements(expected) && Distinct(received) && Distinct(expected)
    ensures |received + MissingDeletes(expected, received)| == |expected|
  {
    var missing := MissingDeletes(expected, received);
    MissingDistinct(expected, received);
    DistinctAppend(received, missing);
    forall p | p in received
      ensures p in expected
    {
      assert p in Elements(received);
    }
    assert Elements(received + missing) == Elements(expected);
    CountElements(received + missing);
    CountElements(expected);
  }

  /** A session whose upload goes on, and what a batch adds to it. */
  ghost predicate Uploaded(s: State, t: State, q: Request)
  {
    && t.receivedFiles == s.receivedFiles + q.files
    && t.receivedDeletes == s.receivedDeletes + q.deletes
    && t.session == SessionOnCounts(s.expectedFiles, s.expectedDeletes, t.receivedFiles, t.receivedDeletes)
    && t.rows == s.rows[q.id := NewRow(q)]
    && q.id in t.content && TaskToCome(t, Batch(q.id))
    && SamePromise(s, t) && Beside(s, t, Batch(q.id))
  }

  predicate LedgerKept(s: State, t: State)
  {
    && t.session == s.session && t.rows == s.rows && t.receivedFiles == s.receivedFiles
    && t.receivedDeletes == s.receivedDeletes
  }

  lemma PutStep(s: State, r: nat, q: Request)
    requires r !in s.requests && ValidRequest(s.expectedFiles, s.expectedDeletes, q)
    ensures Enabled(s, Stream(PutContent(r, q)))
    ensures var t := Do(s, Stream(PutContent(r, q)));
      && r in t.requests && t.requests[r] == q && q.id in t.content && SamePromise(s, t)
      && LedgerKept(s, t) && Beside(s, t, Batch(q.id))
  {
  }

  lemma AdmitAdds(s: State, q: Request)
    requires Admissible(s, q) && q.id in s.content && Batch(q.id) !in s.dropped
    ensures Uploaded(s, AdmitRow(s, q), q)
  {
  }

  lemma SameUploaded(s: State, bare: State, t: State, q: Request)
    requires bare == s.(requests := bare.requests) && Uploaded(bare, t, q)
    ensures Uploaded(s, t, q)
  {
  }

  lemma AdmitStep(s: State, r: nat, q: Request)
    requires r in s.requests && s.requests[r] == q && q.id in s.content && Admissible(s, q)
    requires Batch(q.id) !in s.dropped
    ensures Enabled(s, Stream(Admit(r))) && Uploaded(s, Do(s, Stream(Admit(r))), q)
  {
    var bare := s.(requests := s.requests - {r});
    AdmitAdds(bare, q);
    SameUploaded(s, bare, AdmitRow(bare, q), q);
  }

  /** One /stream request that goes through. */
  lemma Upload(s: State, q: Request) returns (t: State)
    requires Admissible(s, q) && ValidRequest(s.expectedFiles, s.expectedDeletes, q) && Batch(q.id) !in s.dropped
    ensures Leads(s, t) && Uploaded(s, t, q)
  {
    var r := Fresh(s.requests.Keys);
    PutStep(s, r, q);
    Stay(s);
    var u := StepOn(s, s, Stream(PutContent(r, q)));
    AdmitStep(u, r, q);
    t := StepOn(s, u, Stream(Admit(r)));
    BesideOn(s, u, t, Batch(q.id));
  }

  /** The new batch has its job, and the others keep theirs. */
  lemma UploadedPromises(s: State, t: State, q: Request)
    requires Uploaded(s, t, q) && q.id !in s.rows
    ensures Promising(t) && t.rows != map[] && !AllTerminal(t.rows)
    ensures PendingSaveable(s) ==> PendingSaveable(t)
  {
    assert PendingIn(t, q.id) && JobLeft(t, Batch(q.id));
    if PendingSaveable(s) {
      forall id | PendingIn(t, id)
        ensures Saveable(t, id)
      {
        if id != q.id {
          assert PendingIn(s, id);
          SaveableBeside(s, t, q.id, id);
        }
      }
    }
  }

  function IdOf(key: Key): (id: BatchId)
  {
    if key.Batch? then key.id else ""
  }

  /** A batch id that was never used. */
  lemma UnusedId(s: State) returns (id: BatchId)
    ensures id !in s.rows && Batch(id) !in s.dropped
  {
    var archived := set k | k in s.dropped :: IdOf(k);
    id := FreshId(s.rows.Keys + archived);
    assert IdOf(Batch(id)) == id;
  }

  lemma FilesWanted(s: State, id: BatchId)
    requires Reached(s) && s.session == Present(Receiving) && id !in s.rows
    ensures var missing := MissingFiles(s.expectedFiles, s.receivedFiles);
      && s.receivedFiles + missing == s.expectedFiles
      && (missing != map[] ==>
           ValidRequest(s.expectedFiles, s.expectedDeletes, Request(id, missing, []))
           && Admissible(s, Request(id, missing, [])))
  {
    ManifestsReached(s);
    FilesComplete(s.expectedFiles, s.receivedFiles);
  }

  lemma UploadFiles(s: State) returns (t: State)
    requires Reached(s) && s.session == Present(Receiving)
    ensures Leads(s, t) && SamePromise(s, t)
    ensures Uploading(t.session)
    ensures t.receivedFiles == t.expectedFiles
    ensures PendingSaveable(s) ==> PendingSaveable(t)
    ensures t.session == Present(Processing) ==> Promising(t) && t.rows != map[] && !AllTerminal(t.rows)
  {
    var missing := MissingFiles(s.expectedFiles, s.receivedFiles);
    var id := UnusedId(s);
    FilesWanted(s, id);
    if missing == map[] {
      Stay(s);
      t := s;
    } else {
      t := Upload(s, Request(id, missing, []));
      UploadedPromises(s, t, Request(id, missing, []));
    }
  }

  lemma DeletesWanted(s: State, id: BatchId)
    requires Reached(s) && s.session == Present(Receiving) && id !in s.rows
    requires s.receivedFiles == s.expectedFiles && Distinct(s.expectedDeletes)
    ensures var missing := MissingDeletes(s.expectedDeletes, s.receivedDeletes);
      && |s.receivedDeletes + missing| == |s.expectedDeletes|
      && ValidRequest(s.expectedFiles, s.expectedDeletes, Request(id, map[], missing))
      && Admissible(s, Request(id, map[], missing))
  {
    ManifestsReached(s);
    var missing := MissingDeletes(s.expectedDeletes, s.receivedDeletes);
    MissingDistinct(s.expectedDeletes, s.receivedDeletes);
    DeletesComplete(s.expectedDeletes, s.receivedDeletes);
    assert missing == [] ==> s.receivedDeletes + missing == s.receivedDeletes;
  }

  lemma UploadDeletes(s: State) returns (t: State)
    requires Reached(s) && s.session == Present(Receiving)
    requires s.receivedFiles == s.expectedFiles && Distinct(s.expectedDeletes)
    ensures Leads(s, t) && SamePromise(s, t)
    ensures PendingSaveable(s) ==> PendingSaveable(t)
    ensures t.session == Present(Processing) && Promising(t) && t.rows != map[] && !AllTerminal(t.rows)
  {
    var id := UnusedId(s);
    var q := Request(id, map[], MissingDeletes(s.expectedDeletes, s.receivedDeletes));
    DeletesWanted(s, id);
    t := Upload(s, q);
    assert s.receivedFiles + q.files == s.receivedFiles;
    UploadedPromises(s, t, q);
  }

  /** A client that sends what is missing, the files and then the deletes, completes the upload. */
  lemma ToProcessing(s: State) returns (t: State)
    requires Reached(s) && s.session == Present(Receiving) && Distinct(s.expectedDeletes)
    ensures Leads(s, t) && SamePromise(s, t)
    ensures t.session == Present(Processing) && Promising(t)
    ensures PendingSaveable(s) ==> Movable(t)
  {
    t := UploadFiles(s);
    if t.session == Present(Receiving) {
      ReachedOn(s, t);
      var u := UploadDeletes(t);
      LeadsOn(s, t, u);
      t := u;
    }
  }

  ghost predicate CanLeaveReceiving(s: State)
  {
    exists more :: Runs(s, more) && After(s, more).session == Present(Processing)
  }

  /** Whatever has happened to a session so far, its upload can be completed exactly if no delete was promised
      twice. Only then do the two counts, which are all that admission compares, ever agree. */
  lemma CompletableIffDistinct(s: State, trace: seq<Step>, files: Leaves, deletes: seq<Path>, store: Stored)
    requires Reachable(s, trace, files, deletes, store) && s.session == Present(Receiving)
    ensures CanLeaveReceiving(s) <==> Distinct(deletes)
  {
    ReachableSound(s, trace, files, deletes, store);
    RunEvolves(Initial(files, deletes, store), trace);
    if Distinct(deletes) {
      var t := ToProcessing(s);
      var more :| Runs(s, more) && After(s, more) == t && Alone(more);
    } else if CanLeaveReceiving(s) {
      var more :| Runs(s, more) && After(s, more).session == Present(Processing);
      ReachOn(s, trace, more, files, deletes, store);
      DuplicateDeletesStall(After(s, more), trace + more, files, deletes, store);
    }
  }

  // ---------------------------------------------------------------------------
  // To finalization, with something processed or with nothing
  // ---------------------------------------------------------------------------

  /** Stamps only add to what was processed. */
  lemma DeltaGrows(expected: Leaves, rows: Rows, stamped: Rows)
    requires Stamps(rows, stamped)
    ensures !EmptyDelta(Processed(expected, rows)) ==> !EmptyDelta(Processed(expected, stamped))
  {
    if Processed(expected, rows).files != map[] {
      var p :| p in Processed(expected, rows).files;
      var id :| id in rows && rows[id].state != Pending && p in rows[id].files && p !in rows[id].failedFiles;
      assert stamped[id] == rows[id];
      assert p in ProcessedPaths(stamped);
      assert p in Processed(expected, stamped).files;
    } else if Processed(expected, rows).deletes != {} {
      var p :| p in Processed(expected, rows).deletes;
      var id :| id in rows && rows[id].state != Pending && p in rows[id].deletes && p !in rows[id].failedDeletes;
      assert stamped[id] == rows[id];
      assert p in ProcessedDeletes(stamped);
    }
  }

  /** A batch is never empty, so one that succeeds has something processed. */
  lemma SuccessCounts(expected: Leaves, rows: Rows, id: BatchId)
    requires RowsAgree(expected, rows) && Filled(rows) && id in rows && rows[id].state == Pending
    ensures !EmptyDelta(Processed(expected, Succeed(rows, id, map[], [])))
  {
    var stamped := Succeed(rows, id, map[], []);
    if rows[id].files != map[] {
      var p :| p in rows[id].files;
      assert id in stamped && p in stamped[id].files && p in expected;
      assert p in ProcessedPaths(stamped);
      assert p in Processed(expected, stamped).files;
    } else {
      var p := rows[id].deletes[0];
      assert id in stamped && p in stamped[id].deletes;
      assert p in ProcessedDeletes(stamped);
    }
  }

  lemma FailureAddsNothing(expected: Leaves, rows: Rows, id: BatchId, why: string)
    ensures EmptyDelta(Processed(expected, rows)) ==> EmptyDelta(Processed(expected, Reject(rows, id, why)))
  {
    var stamped := Reject(rows, id, why);
    forall p | p in ProcessedPaths(stamped)
      ensures p in ProcessedPaths(rows)
    {
      var i :| i in stamped && stamped[i].state != Pending && p in stamped[i].files && p !in stamped[i].failedFiles;
      assert stamped[i] == rows[i];
    }
    forall p | p in ProcessedDeletes(stamped)
      ensures p in ProcessedDeletes(rows)
    {
      var i :| i in stamped && stamped[i].state != Pending && p in stamped[i].deletes && p !in stamped[i].failedDeletes;
      assert stamped[i] == rows[i];
    }
    assert Processed(expected, stamped).files.Keys <= Processed(expected, rows).files.Keys;
  }

  /** A movable session that has something to process gets to its finalization with something processed. */
  lemma ToFlipWell(s: State) returns (t: State)
    requires Reached(s) && s.session == Present(Processing) && Movable(s) && Promising(s)
    ensures Leads(s, t) && SamePromise(s, t) && t.session == Present(Finalizing) && !EmptyDelta(DeltaOf(t))
  {
    if !EmptyDelta(DeltaOf(s)) {
      t := ToFlip(s);
      DeltaGrows(s.expectedFiles, s.rows, t.rows);
    } else {
      var id :| PendingIn(s, id) && id in s.content && JobLeft(s, Batch(id));
      t := FinishOne(s, id);
      RowsReached(s);
      SuccessCounts(s.expectedFiles, s.rows, id);
      if t.session == Present(Processing) {
        StaysMovable(s, t, id);
        var u := ToFlip(t);
        DeltaGrows(t.expectedFiles, t.rows, u.rows);
        LeadsOn(s, t, u);
        t := u;
      }
    }
  }

  /** Nothing was processed, and every pending batch has its job but not its content. */
  ghost predicate Hopeless(s: State)
  {
    EmptyDelta(DeltaOf(s)) && forall id :: PendingIn(s, id) ==> JobLeft(s, Batch(id)) && id !in s.content
  }

  lemma StaysHopeless(s: State, t: State, id: BatchId)
    requires Hopeless(s) && SamePromise(s, t) && Beside(s, t, Batch(id)) && Settles(s.rows, t.rows, id)
    requires !PendingIn(t, id) && t.content <= s.content
    requires PendingIn(s, id) ==> t.rows == Worked(s.rows, s.content, id)
    ensures Hopeless(t)
  {
    if PendingIn(s, id) {
      FailureAddsNothing(s.expectedFiles, s.rows, id, "content_missing");
    } else {
      assert t.rows == s.rows;
    }
    forall other | PendingIn(t, other)
      ensures JobLeft(t, Batch(other)) && other !in t.content
    {
      assert PendingIn(s, other);
      SaveableBeside(s, t, id, other);
    }
  }

  lemma {:induction false} ToFlipBadly(s: State) returns (t: State)
    requires s.session == Present(Processing) && Movable(s) && Hopeless(s)
    ensures Leads(s, t) && SamePromise(s, t) && t.session == Present(Finalizing) && EmptyDelta(DeltaOf(t))
    decreases |PendingIds(s.rows)|
  {
    var id := NextBatch(s);
    t := FinishOne(s, id);
    StaysHopeless(s, t, id);
    OneFewer(s.rows, t.rows, id);
    if t.session == Present(Processing) {
      StaysMovable(s, t, id);
      var u := ToFlipBadly(t);
      LeadsOn(s, t, u);
      t := u;
    }
  }

  // ---------------------------------------------------------------------------
  // The finalizer
  // ---------------------------------------------------------------------------

  predicate AtPhase(s: State, f: nat, phase: FinalPhase)
  {
    f in s.finalizers && s.finalizers[f] == phase
  }

  predicate SameTask(s: State, t: State)
  {
    t.session == s.session && t.rows == s.rows && SamePromise(s, t)
  }

  lemma DeliverFinalStep(s: State, f: nat)
    requires f !in s.finalizers && Finalize in s.queue
    ensures Enabled(s, Final(f, DeliverFinal))
    ensures var t := Do(s, Final(f, DeliverFinal)); AtPhase(t, f, Begin) && SameTask(s, t)
  {
  }

  lemma CheckStep(s: State, f: nat)
    requires AtPhase(s, f, Begin) && s.session == Present(Finalizing)
    ensures Enabled(s, Final(f, CheckStatus))
    ensures var t := Do(s, Final(f, CheckStatus)); AtPhase(t, f, Admitted) && SameTask(s, t)
  {
  }

  lemma ResultsStep(s: State, f: nat)
    requires AtPhase(s, f, Admitted)
    ensures Enabled(s, Final(f, LoadResults))
    ensures var t := Do(s, Final(f, LoadResults));
      && AtPhase(t, f, if EmptyDelta(DeltaOf(s)) then GivingUp("all_operations_failed") else Loading(DeltaOf(s), 0))
      && SameTask(s, t)
  {
  }

  lemma LoadedPhase(session: Session, results: Delta, store: Stored, d: Delta, attempt: nat)
    ensures FinalPhaseAfter(session, results, store, Loading(d, attempt), LoadTree)
      == Goto(if FastPath(store, d) then Committed(d) else Saving(d, attempt, store))
  {
  }

  lemma LoadStep(s: State, f: nat, d: Delta)
    requires AtPhase(s, f, Loading(d, 0))
    ensures Enabled(s, Final(f, LoadTree))
    ensures var t := Do(s, Final(f, LoadTree));
      && (AtPhase(t, f, Committed(d)) || AtPhase(t, f, Saving(d, 0, t.store)))
      && SameTask(s, t)
  {
    LoadedPhase(s.session, DeltaOf(s), s.store, d, 0);
  }

  lemma SaveStep(s: State, f: nat, d: Delta)
    requires AtPhase(s, f, Saving(d, 0, s.store))
    ensures Enabled(s, Final(f, SaveTree(Acked)))
    ensures var t := Do(s, Final(f, SaveTree(Acked))); AtPhase(t, f, Committed(d)) && SameTask(s, t)
  {
  }

  lemma MarkStep(s: State, f: nat)
    requires f in s.finalizers && (s.finalizers[f].Committed? || s.finalizers[f].GivingUp?)
    requires s.session == Present(Finalizing)
    ensures Enabled(s, Final(f, MarkSession(Acked)))
    ensures var t := Do(s, Final(f, MarkSession(Acked)));
      t.session == if s.finalizers[f].Committed? then Present(Done) else Present(Failed(s.finalizers[f].because))
  {
  }

  lemma ToCommitted(s: State, f: nat, d: Delta) returns (t: State)
    requires AtPhase(s, f, Loading(d, 0))
    ensures Leads(s, t) && AtPhase(t, f, Committed(d)) && SameTask(s, t)
  {
    Stay(s);
    LoadStep(s, f, d);
    t := StepOn(s, s, Final(f, LoadTree));
    if !AtPhase(t, f, Committed(d)) {
      SaveStep(t, f, d);
      t := StepOn(s, t, Final(f, SaveTree(Acked)));
    }
  }

  lemma ToEnd(s: State) returns (t: State)
    requires s.session == Present(Finalizing) && JobLeft(s, Finalize)
    ensures Leads(s, t)
    ensures t.session == Present(if EmptyDelta(DeltaOf(s)) then Failed(ALL_FAILED) else Done)
  {
    t := Enqueue(s, Finalize);
    var f := Fresh(t.finalizers.Keys);
    DeliverFinalStep(t, f);
    t := StepOn(s, t, Final(f, DeliverFinal));
    CheckStep(t, f);
    t := StepOn(s, t, Final(f, CheckStatus));
    ResultsStep(t, f);
    t := StepOn(s, t, Final(f, LoadResults));
    if !EmptyDelta(DeltaOf(s)) {
      var u := ToCommitted(t, f, DeltaOf(s));
      LeadsOn(s, t, u);
      t := u;
    }
    MarkStep(t, f);
    t := StepOn(s, t, Final(f, MarkSession(Acked)));
  }

  /** A session that was brought to its end by a finalizer. */
  predicate Ended(session: Session)
  {
    session.Present? && (session.status.Done? || session.status.Failed?)
  }

  /** How far a delivery of the finalize job is from its end, at most. */
  function FinalRank(phase: FinalPhase): (n: nat)
  {
    match phase
    case Begin => 2 * MAX_CAS_ATTEMPTS + 6
    case Admitted => 2 * MAX_CAS_ATTEMPTS + 5
    case Loading(_, attempt) => 4 + 2 * (if attempt < MAX_CAS_ATTEMPTS then MAX_CAS_ATTEMPTS - attempt else 0)
    case Saving(_, attempt, _) => 3 + 2 * (if attempt < MAX_CAS_ATTEMPTS then MAX_CAS_ATTEMPTS - attempt else 0)
    case Committed(_) => 1
    case GivingUp(_) => 1
    case Ending => 0
  }

  function FinalCall(phase: FinalPhase): (a: FinalStep)
    requires !phase.Ending?
  {
    match phase
    case Begin => CheckStatus
    case Admitted => LoadResults
    case Loading(_, _) => LoadTree
    case Saving(_, _, _) => SaveTree(Acked)
    case Committed(_) => MarkSession(Acked)
    case GivingUp(_) => MarkSession(Acked)
  }

  /** What comes of a call: a phase that is nearer to the end, or the end. */
  predicate GoesOn(phase: FinalPhase, next: Next<FinalPhase>, session: Session)
  {
    && next.Goto? && FinalRank(next.phase) < FinalRank(phase) && (next.phase.Ending? ==> FinalRank(phase) == 1)
    && (if FinalRank(phase) == 1 then Ended(session) else session == Present(Finalizing))
  }

  lemma LoadGoesOn(store: Stored, d: Delta, attempt: nat, fast: bool)
    ensures GoesOn(Loading(d, attempt), Goto(if fast then Committed(d) else Saving(d, attempt, store)),
                   Present(Finalizing))
  {
  }

  lemma FinalCallGoesOn(results: Delta, store: Stored, phase: FinalPhase)
    requires !phase.Ending?
    ensures AllowsFinal(phase, FinalCall(phase))
    ensures GoesOn(phase, FinalPhaseAfter(Present(Finalizing), results, store, phase, FinalCall(phase)),
                   MarkedSession(Present(Finalizing), phase, FinalCall(phase)))
  {
    if phase.Loading? {
      LoadedPhase(Present(Finalizing), results, store, phase.delta, phase.attempt);
      LoadGoesOn(store, phase.delta, phase.attempt, FastPath(store, phase.delta));
    }
  }

  lemma OneFinalCall(s: State, f: nat, phase: FinalPhase)
    requires AtPhase(s, f, phase) && s.session == Present(Finalizing) && !phase.Ending?
    ensures Enabled(s, Final(f, FinalCall(phase)))
    ensures var t := Do(s, Final(f, FinalCall(phase)));
      && f in t.finalizers && FinalRank(t.finalizers[f]) < FinalRank(phase)
      && (t.finalizers[f].Ending? ==> FinalRank(phase) == 1)
      && (if FinalRank(phase) == 1 then Ended(t.session) else t.session == Present(Finalizing))
  {
    FinalCallGoesOn(DeltaOf(s), s.store, phase);
  }

  /** A delivery of the finalize job can be brought to its end, from wherever it is. */
  lemma {:induction false} DriveFinal(s: State, f: nat, phase: FinalPhase) returns (t: State)
    requires AtPhase(s, f, phase) && s.session == Present(Finalizing) && !phase.Ending?
    ensures Leads(s, t) && Ended(t.session)
    decreases FinalRank(phase)
  {
    OneFinalCall(s, f, phase);
    Stay(s);
    t := StepOn(s, s, Final(f, FinalCall(phase)));
    if FinalRank(phase) > 1 {
      var u := DriveFinal(t, f, t.finalizers[f]);
      LeadsOn(s, t, u);
      t := u;
    }
  }

  lemma MissStep(s: State, f: nat, d: Delta)
    requires AtPhase(s, f, Saving(d, MAX_CAS_ATTEMPTS - 1, s.store))
    ensures Enabled(s, Final(f, SaveMissed(true)))
    ensures var t := Do(s, Final(f, SaveMissed(true)));
      && AtPhase(t, f, GivingUp("merkle_cas_exhausted")) && t.store == Saved(Merge(LeavesOf(s.store), d))
      && t.session == s.session
  {
  }

  lemma MarkKeepsStore(s: State, f: nat)
    requires f in s.finalizers && (s.finalizers[f].Committed? || s.finalizers[f].GivingUp?)
    ensures Enabled(s, Final(f, MarkSession(Acked))) && Do(s, Final(f, MarkSession(Acked))).store == s.store
  {
  }

  /** A put of the last attempt that goes through and is answered as a mismatch: the session is stamped failed
      for want of attempts, with the delta in the tree. */
  lemma HiddenPutFails(s: State, f: nat, d: Delta) returns (t: State)
    requires AtPhase(s, f, Saving(d, MAX_CAS_ATTEMPTS - 1, s.store)) && s.session == Present(Finalizing)
    ensures Leads(s, t) && t.session == Present(Failed("merkle_cas_exhausted"))
    ensures Reflects(LeavesOf(t.store), d)
  {
    MissStep(s, f, d);
    Stay(s);
    var u := StepOn(s, s, Final(f, SaveMissed(true)));
    MarkStep(u, f);
    MarkKeepsStore(u, f);
    t := StepOn(s, u, Final(f, MarkSession(Acked)));
    MergeReflects(LeavesOf(s.store), d);
  }

  /** The finalize job can still come to a delivery, or is under way. */
  ghost predicate FinalLeft(s: State)
  {
    JobLeft(s, Finalize) || s.finalizers != map[]
  }

  lemma FinishFinal(s: State) returns (t: State)
    requires Reached(s) && s.session == Present(Finalizing) && FinalLeft(s)
    ensures Leads(s, t) && Ended(t.session)
  {
    if JobLeft(s, Finalize) {
      t := ToEnd(s);
    } else {
      FinalizingReached(s);
      var f :| f in s.finalizers;
      t := DriveFinal(s, f, s.finalizers[f]);
    }
  }

  /** Finalization has no job and no delivery left; or the session was expired or collected. */
  ghost predicate FinalLost(s: State)
  {
    || s.session.Gone? || s.session == Present(Expired)
    || (s.session == Present(Finalizing) && !FinalLeft(s))
  }

  lemma DispatchLosesFinal(s: State, a: DispatchStep)
    requires FinalLost(s) && DispatchEnabled(s, a)
    ensures FinalLost(DoDispatch(s, a))
  {
    if s.session == Present(Finalizing) {
      DispatchMakesNoJob(s, a, Finalize);
    }
  }

  lemma WorkLosesFinal(s: State, w: nat, a: WorkStep)
    requires FinalLost(s) && WorkEnabled(s, w, a)
    ensures FinalLost(DoWork(s, w, a))
  {
    if s.session == Present(Finalizing) {
      WorkMakesNoJob(s, w, a, Finalize);
    }
  }

  lemma FinalLosesFinal(s: State, f: nat, a: FinalStep)
    requires FinalLost(s) && FinalEnabled(s, f, a)
    ensures FinalLost(DoFinal(s, f, a))
  {
  }

  lemma StreamLosesFinal(s: State, a: StreamStep)
    requires FinalLost(s) && StreamEnabled(s, a)
    ensures FinalLost(DoStream(s, a))
  {
    if s.session == Present(Finalizing) {
      SameJob(s, DoStream(s, a), Finalize);
    }
  }

  lemma WorldLosesFinal(s: State, a: WorldStep)
    requires FinalLost(s) && WorldEnabled(s, a)
    ensures FinalLost(DoWorld(s, a))
  {
    if a.OtherWrite? {
      SameJob(s, DoWorld(s, a), Finalize);
    }
  }

  lemma {:induction false} RunLosesFinal(s: State, trace: seq<Step>)
    requires FinalLost(s) && Runs(s, trace)
    ensures FinalLost(After(s, trace))
    decreases |trace|
  {
    if trace != [] {
      match trace[0] {
        case Stream(a) => StreamLosesFinal(s, a);
        case Dispatch(a) => DispatchLosesFinal(s, a);
        case Work(w, a) => WorkLosesFinal(s, w, a);
        case Final(f, a) => FinalLosesFinal(s, f, a);
        case World(a) => WorldLosesFinal(s, a);
      }
      RunLosesFinal(Do(s, trace[0]), trace[1..]);
    }
  }

  // ---------------------------------------------------------------------------
  // The end of a session
  // ---------------------------------------------------------------------------

  ghost predicate CanFinish(s: State)
  {
    exists more :: Runs(s, more) && Ended(After(s, more).session)
  }

  /** What decides it, in each status. */
  ghost predicate Finishable(s: State)
  {
    || (s.session == Present(Receiving) && Distinct(s.expectedDeletes) && PendingSaveable(s))
    || (s.session == Present(Processing) && Movable(s))
    || (s.session == Present(Finalizing) && FinalLeft(s))
  }

  lemma FlippedHasJob(s: State, t: State)
    requires Reached(s) && Uploading(s.session) && Leads(s, t) && t.session == Present(Finalizing)
    requires t.dropped == s.dropped
    ensures Reached(t) && JobLeft(t, Finalize)
  {
    NotYetArchived(s);
    ReachedOn(s, t);
    FinalizingReached(t);
  }

  lemma ToFinish(s: State) returns (t: State)
    requires Reached(s) && Finishable(s)
    ensures Leads(s, t) && Ended(t.session)
  {
    var u := s;
    Stay(s);
    if u.session == Present(Receiving) {
      u := ToProcessing(s);
    }
    if u.session == Present(Processing) {
      var v := ToFlip(u);
      LeadsOn(s, u, v);
      FlippedHasJob(s, v);
      u := v;
    }
    t := FinishFinal(u);
    LeadsOn(s, u, t);
  }

  /** Nothing ends a session that was not flipped. */
  lemma UnflippedNotEnded(s: State, more: seq<Step>)
    requires Reached(s) && Uploading(s.session) && Runs(s, more) && s.rows != map[]
    requires After(s, more).flips == s.flips
    ensures !Ended(After(s, more).session)
  {
    var t := After(s, more);
    var trace, files, deletes, store :| Reachable(s, trace, files, deletes, store);
    NotYetArchived(s);
    ReachOn(s, trace, more, files, deletes, store);
    ReachableSound(t, trace + more, files, deletes, store);
    RunEvolves(s, more);
    if t.session.Present? {
      var id :| id in s.rows;
      assert id in t.rows;
    }
  }

  lemma LostNeverEnds(s: State, more: seq<Step>)
    requires Reached(s) && Uploading(s.session) && Runs(s, more) && !Finishable(s)
    requires s.session == Present(Receiving) ==> Distinct(s.expectedDeletes)
    ensures !Ended(After(s, more).session)
  {
    if s.session == Present(Processing) {
      ProcessingReached(s);
      NeverFlips(s, more);
    } else {
      var id :| PendingIn(s, id) && !Saveable(s, id);
      RunLoses(s, more, id);
    }
    UnflippedNotEnded(s, more);
  }

  lemma StalledNeverEnds(s: State, more: seq<Step>)
    requires Reached(s) && s.session == Present(Receiving) && !Distinct(s.expectedDeletes) && Runs(s, more)
    ensures !Ended(After(s, more).session)
  {
    var trace, files, deletes, store :| Reachable(s, trace, files, deletes, store);
    RunEvolves(Initial(files, deletes, store), trace);
    ReachOn(s, trace, more, files, deletes, store);
    DuplicateDeletesStall(After(s, more), trace + more, files, deletes, store);
  }

  /** After any run, with any faults in it, a session can still be brought to its end if and only if: it is
      receiving, its deletes are distinct, and each pending batch has its job left or a delivery before its
      stamp; or it is processing and movable; or it is finalizing, and the finalize job is left or under way. */
  lemma CanFinishIff(s: State, trace: seq<Step>, files: Leaves, deletes: seq<Path>, store: Stored)
    requires Reachable(s, trace, files, deletes, store)
    requires Uploading(s.session) || s.session == Present(Finalizing)
    ensures CanFinish(s) <==> Finishable(s)
  {
    assert Reached(s);
    if Finishable(s) {
      var t := ToFinish(s);
      var more :| Runs(s, more) && After(s, more) == t && Alone(more);
    } else if CanFinish(s) {
      var more :| Runs(s, more) && Ended(After(s, more).session);
      if s.session == Present(Finalizing) {
        RunLosesFinal(s, more);
      } else if s.session == Present(Receiving) && !Distinct(s.expectedDeletes) {
        StalledNeverEnds(s, more);
      } else {
        LostNeverEnds(s, more);
      }
    }
  }

  /** And to `done`, if besides something was processed, or some pending batch has both its content and its
      job left; which a session that can still be completed always brings about. */
  lemma CanBeDone(s: State) returns (t: State)
    requires Reached(s) && Finishable(s) && Uploading(s.session)
    requires s.session == Present(Processing) ==> Promising(s)
    ensures Leads(s, t) && t.session == Present(Done)
  {
    var u := s;
    Stay(s);
    if u.session == Present(Receiving) {
      u := ToProcessing(s);
      ReachedOn(s, u);
    }
    var v := ToFlipWell(u);
    LeadsOn(s, u, v);
    FlippedHasJob(s, v);
    t := ToEnd(v);
    LeadsOn(s, v, t);
  }

  lemma EndsInFailure(s: State) returns (t: State)
    requires Reached(s) && s.session == Present(Processing) && Movable(s) && Hopeless(s)
    ensures Leads(s, t) && t.session == Present(Failed(ALL_FAILED))
  {
    var v := ToFlipBadly(s);
    FlippedHasJob(s, v);
    t := ToEnd(v);
    LeadsOn(s, v, t);
  }

  /** So without faults no reachable session is wedged. A receiving session whose deletes are distinct can be
      brought to `done`; a processing or finalizing one to `done` if something was processed or some pending
      batch still has its content, and to `failed` otherwise. The content that is there is used: no step of
      these runs evicts any, and every delivery makes the calls of the handler. */
  lemma NeverWedged(s: State, trace: seq<Step>, files: Leaves, deletes: seq<Path>, store: Stored)
    requires Reachable(s, trace, files, deletes, store) && FaultFree(s)
    ensures s.session == Present(Receiving) && Distinct(deletes) ==>
      exists t :: Leads(s, t) && t.session == Present(Done)
    ensures s.session == Present(Processing) || s.session == Present(Finalizing) ==>
      exists t :: Leads(s, t) && t.session == Present(if Hopeful(s) then Done else Failed(ALL_FAILED))
  {
    assert Reached(s);
    RunEvolves(Initial(files, deletes, store), trace);
    if s.session == Present(Receiving) && Distinct(deletes) {
      FaultFreeMovable(s);
      var t := CanBeDone(s);
    } else if s.session == Present(Processing) {
      FaultFreeMovable(s);
      if Hopeful(s) {
        var t := CanBeDone(s);
      } else {
        var t := EndsInFailure(s);
      }
    } else if s.session == Present(Finalizing) {
      FinalizingReached(s);
      var t := ToEnd(s);
    }
  }
}
