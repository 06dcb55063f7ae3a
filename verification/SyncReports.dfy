/** What the indexing of a batch reports, and what becomes of it: the failures a session's rows record are those
    that the workers reported (consumers/stream_batch_consumer.go, consumers/mark_batch_helpers.go), so these are
    what is left out of the commit and asked for again by the next diff. */
module SyncReports {
  import opened Merkle
  import opened SyncProtocol
  import opened SyncRuns
  import opened SyncInvariants
  import opened SyncCommit
  import opened SyncReceipts
  import opened SyncOneWriter
  import opened SyncTheorems
  import opened SyncConvergence

  // ---------------------------------------------------------------------------
  // What one stamp adds to the delta
  // ---------------------------------------------------------------------------

  lemma StampedRow(s: State, w: nat, reply: Reply, failedFiles: map<Path, string>, failedDeletes: seq<Path>)
    requires WorkEnabled(s, w, StampOk(reply)) && !reply.Refused? && PendingIn(s, s.workers[w].id)
    requires s.workers[w].phase == StampingOk(failedFiles, failedDeletes)
    ensures var row := s.rows[s.workers[w].id];
      DoWork(s, w, StampOk(reply)).rows
      == s.rows[s.workers[w].id := Row(row.files, row.deletes, Succeeded, failedFiles, failedDeletes)]
  {
  }

  lemma OneMoreRow(rows: Rows, id: BatchId, row: Row)
    requires id in rows && rows[id].state == Pending && row.state != Pending
    ensures ProcessedPaths(rows[id := row])
      == ProcessedPaths(rows) + set p | p in row.files && p !in row.failedFiles
    ensures ProcessedDeletes(rows[id := row])
      == ProcessedDeletes(rows) + set p | p in row.deletes && p !in row.failedDeletes
  {
    var more := rows[id := row];
    assert forall other :: other in rows && other != id ==> more[other] == rows[other];
    forall p
      ensures p in ProcessedPaths(more) <==> p in ProcessedPaths(rows) || (p in row.files && p !in row.failedFiles)
    {
      if p in ProcessedPaths(rows) {
        var other :| other in rows && rows[other].state != Pending && p in rows[other].files
          && p !in rows[other].failedFiles;
        assert more[other] == rows[other];
      }
      assert more[id] == row;
    }
    forall p
      ensures p in ProcessedDeletes(more)
        <==> p in ProcessedDeletes(rows) || (p in row.deletes && p !in row.failedDeletes)
    {
      if p in ProcessedDeletes(rows) {
        var other :| other in rows && rows[other].state != Pending && p in rows[other].deletes
          && p !in rows[other].failedDeletes;
        assert more[other] == rows[other];
      }
      assert more[id] == row;
    }
  }

  function Among(expected: Leaves, ps: set<Path>): (m: Leaves)
  {
    map p | p in ps && p in expected :: expected[p]
  }

  lemma AmongGrows(expected: Leaves, ps: set<Path>, files: Leaves, failed: set<Path>)
    requires forall p :: p in files ==> p in expected && files[p] == expected[p]
    ensures Among(expected, ps + set p | p in files && p !in failed) == Among(expected, ps) + (files - failed)
  {
    var qs := ps + set p | p in files && p !in failed;
    forall p
      ensures p in Among(expected, qs) <==> p in Among(expected, ps) + (files - failed)
    {
    }
  }

  /** A row that leaves `pending` adds to the delta what it did not fail. */
  lemma DeltaGrows(expected: Leaves, rows: Rows, id: BatchId, row: Row)
    requires forall p :: p in row.files ==> p in expected && row.files[p] == expected[p]
    requires id in rows && rows[id].state == Pending && row.state != Pending
    ensures var before, after := Processed(expected, rows), Processed(expected, rows[id := row]);
      && after.files == before.files + (row.files - row.failedFiles.Keys)
      && after.deletes == before.deletes + set p | p in row.deletes && p !in row.failedDeletes
  {
    OneMoreRow(rows, id, row);
    AmongGrows(expected, ProcessedPaths(rows), row.files, row.failedFiles.Keys);
    var ps, qs := ProcessedPaths(rows), ProcessedPaths(rows[id := row]);
    assert (set p | p in row.files && p !in row.failedFiles) == set p | p in row.files && p !in row.failedFiles.Keys;
    assert Processed(expected, rows).files == Among(expected, ps);
    assert Processed(expected, rows[id := row]).files == Among(expected, qs);
  }

  /** The stamp of an indexed batch adds to the delta exactly its files and deletes that were not reported
      failed, at the hashes the batch brought. */
  lemma StampContributes(s: State, w: nat, reply: Reply, failedFiles: map<Path, string>, failedDeletes: seq<Path>)
    requires RowsAgree(s.expectedFiles, s.rows)
    requires WorkEnabled(s, w, StampOk(reply)) && !reply.Refused? && PendingIn(s, s.workers[w].id)
    requires s.workers[w].phase == StampingOk(failedFiles, failedDeletes)
    ensures var row, before, after := s.rows[s.workers[w].id], DeltaOf(s), DeltaOf(DoWork(s, w, StampOk(reply)));
      && after.files == before.files + (row.files - failedFiles.Keys)
      && after.deletes == before.deletes + set p | p in row.deletes && p !in failedDeletes
  {
    StampedRow(s, w, reply, failedFiles, failedDeletes);
    var id, row := s.workers[w].id, s.rows[s.workers[w].id];
    DeltaGrows(s.expectedFiles, s.rows, id, Row(row.files, row.deletes, Succeeded, failedFiles, failedDeletes));
  }

  lemma RejectedRow(rows: Rows, id: BatchId, why: string)
    requires id in rows && rows[id].state == Pending
    ensures Reject(rows, id, why) == rows[id := Reject(rows, id, why)[id]]
    ensures var row := Reject(rows, id, why)[id];
      && row.state == Rejected && row.files == rows[id].files && row.deletes == rows[id].deletes
      && row.failedFiles.Keys == row.files.Keys && row.failedDeletes == row.deletes
  {
  }

  lemma NothingLeft(row: Row)
    requires row.failedFiles.Keys == row.files.Keys && row.failedDeletes == row.deletes
    ensures row.files - row.failedFiles.Keys == map[]
    ensures (set p | p in row.deletes && p !in row.failedDeletes) == {}
  {
  }

  lemma RejectionAddsNothing(expected: Leaves, rows: Rows, id: BatchId, why: string)
    requires RowsAgree(expected, rows) && id in rows && rows[id].state == Pending
    ensures Processed(expected, Reject(rows, id, why)) == Processed(expected, rows)
  {
    RejectedRow(rows, id, why);
    var row := Reject(rows, id, why)[id];
    DeltaGrows(expected, rows, id, row);
    NothingLeft(row);
  }

  /** A batch that is given up adds nothing to it. */
  lemma GivingUpContributesNothing(s: State, w: nat, reply: Reply)
    requires RowsAgree(s.expectedFiles, s.rows)
    requires WorkEnabled(s, w, StampFailed(reply))
    ensures DeltaOf(DoWork(s, w, StampFailed(reply))) == DeltaOf(s)
  {
    if !reply.Refused? && PendingIn(s, s.workers[w].id) {
      RejectionAddsNothing(s.expectedFiles, s.rows, s.workers[w].id, s.workers[w].phase.why);
    }
  }

  // ---------------------------------------------------------------------------
  // Reports over a whole run
  // ---------------------------------------------------------------------------

  predicate Own(step: Step, w: nat)
  {
    step.Work? && step.w == w
  }

  /** Delivery `w` takes no step from the `lo`-th to before the `hi`-th. */
  predicate Silent(trace: seq<Step>, lo: nat, hi: nat, w: nat)
    requires hi <= |trace|
  {
    forall k :: lo <= k < hi ==> !Own(trace[k], w)
  }

  /** A stamp of the batch by delivery `w` that commits while the row is pending. */
  ghost predicate Counts(s: State, w: nat, id: BatchId, reply: Reply)
  {
    !reply.Refused? && w in s.workers && s.workers[w].id == id && PendingIn(s, id)
  }

  /** Delivery `w` of the batch reported these failures at the i-th step, and stored them in its very next one,
      the j-th of the run. */
  ghost predicate Reported(init: State, trace: seq<Step>, i: nat, j: nat, w: nat, id: BatchId,
          failedFiles: map<Path, string>, failedDeletes: seq<Path>)
  {
    && i < j < |trace| && Runs(init, trace[..j])
    && trace[i] == Work(w, Index(Indexed(failedFiles, failedDeletes))) && Silent(trace, i + 1, j, w)
    && Own(trace[j], w) && trace[j].work.StampOk?
    && Counts(After(init, trace[..j]), w, id, trace[j].work.reply)
  }

  /** A delivery stored that nothing of the batch went through. */
  ghost predicate GaveUp(init: State, trace: seq<Step>, j: nat, id: BatchId)
  {
    && j < |trace| && Runs(init, trace[..j])
    && trace[j].Work? && trace[j].work.StampFailed?
    && Counts(After(init, trace[..j]), trace[j].w, id, trace[j].work.reply)
  }

  lemma {:induction false} RunsSplit(s: State, trace: seq<Step>, n: nat)
    requires Runs(s, trace) && n <= |trace|
    ensures Runs(s, trace[..n]) && Runs(After(s, trace[..n]), trace[n..])
    ensures After(s, trace) == After(After(s, trace[..n]), trace[n..])
    decreases |trace|
  {
    if n == 0 {
      assert trace[..0] == [] && trace[0..] == trace;
    } else {
      RunsSplit(Do(s, trace[0]), trace[1..], n - 1);
      assert trace[..n][0] == trace[0] && trace[..n][1..] == trace[1..][..n - 1] && trace[1..][n - 1..] == trace[n..];
    }
  }

  /** The n-th step of a run leads from the state before it to the state after it. */
  lemma RunsStep(s: State, trace: seq<Step>, n: nat)
    requires Runs(s, trace) && n < |trace|
    ensures Runs(s, trace[..n]) && Runs(s, trace[..n + 1])
    ensures var t := After(s, trace[..n]); Enabled(t, trace[n]) && After(s, trace[..n + 1]) == Do(t, trace[n])
  {
    RunsSplit(s, trace, n + 1);
    RunsSplit(s, trace[..n + 1], n);
    assert trace[..n + 1][..n] == trace[..n];
    var rest := trace[..n + 1][n..];
    assert rest[0] == trace[n] && rest[1..] == [];
  }

  // ---- one step ----

  /** How a delivery comes to have failures to store: it has just reported them, or it had them before. */
  ghost predicate PhaseTold(s: State, step: Step, t: State)
  {
    forall w :: w in t.workers && t.workers[w].phase.StampingOk? ==>
      var phase := t.workers[w].phase;
      || step == Work(w, Index(Indexed(phase.failedFiles, phase.failedDeletes)))
      || (w in s.workers && s.workers[w] == t.workers[w] && !Own(step, w))
  }

  /** How a row comes to be terminal: it was, or this step stamped it. */
  ghost predicate RowsTold(s: State, step: Step, t: State)
  {
    forall id :: id in t.rows && t.rows[id].state != Pending ==> RowTold(s, step, id, t.rows[id])
  }

  ghost predicate RowTold(s: State, step: Step, id: BatchId, row: Row)
  {
    || (id in s.rows && s.rows[id] == row)
    || (step.Work? && step.work.StampOk? && Counts(s, step.w, id, step.work.reply) && row.state == Succeeded
        && s.workers[step.w].phase == StampingOk(row.failedFiles, row.failedDeletes))
    || (step.Work? && step.work.StampFailed? && Counts(s, step.w, id, step.work.reply) && row.state == Rejected
        && row.failedFiles.Keys == row.files.Keys && row.failedDeletes == row.deletes)
  }

  lemma WorkPhaseTold(s: State, w: nat, a: WorkStep)
    requires WorkEnabled(s, w, a)
    ensures PhaseTold(s, Work(w, a), DoWork(s, w, a))
  {
  }

  lemma WorkRowsTold(s: State, w: nat, a: WorkStep)
    requires WorkEnabled(s, w, a)
    ensures RowsTold(s, Work(w, a), DoWork(s, w, a))
  {
  }

  /** A step that touches neither the deliveries nor the rows, except to add pending ones or to drop them all. */
  ghost predicate Aside(s: State, t: State)
  {
    && t.workers == s.workers
    && forall id :: id in t.rows && t.rows[id].state != Pending ==> id in s.rows && s.rows[id] == t.rows[id]
  }

  lemma OtherTells(s: State, step: Step, t: State)
    requires !step.Work? && Aside(s, t)
    ensures PhaseTold(s, step, t) && RowsTold(s, step, t)
  {
  }

  lemma StreamAside(s: State, a: StreamStep)
    requires StreamEnabled(s, a)
    ensures Aside(s, DoStream(s, a))
  {
  }

  lemma DispatchAside(s: State, a: DispatchStep)
    requires DispatchEnabled(s, a)
    ensures Aside(s, DoDispatch(s, a))
  {
  }

  lemma FinalAside(s: State, f: nat, a: FinalStep)
    requires FinalEnabled(s, f, a)
    ensures Aside(s, DoFinal(s, f, a))
  {
  }

  lemma WorldAside(s: State, a: WorldStep)
    requires WorldEnabled(s, a)
    ensures Aside(s, DoWorld(s, a))
  {
  }

  lemma StepTells(s: State, step: Step)
    requires Enabled(s, step)
    ensures PhaseTold(s, step, Do(s, step)) && RowsTold(s, step, Do(s, step))
  {
    match step {
      case Work(w, a) =>
        WorkPhaseTold(s, w, a);
        WorkRowsTold(s, w, a);
        return;
      case Stream(a) => StreamAside(s, a);
      case Dispatch(a) => DispatchAside(s, a);
      case Final(f, a) => FinalAside(s, f, a);
      case World(a) => WorldAside(s, a);
    }
    OtherTells(s, step, Do(s, step));
  }

  // ---- all steps ----

  ghost predicate PhaseTraced(trace: seq<Step>, n: nat, w: nat, failedFiles: map<Path, string>,
                              failedDeletes: seq<Path>)
    requires n <= |trace|
  {
    exists i :: 0 <= i < n && trace[i] == Work(w, Index(Indexed(failedFiles, failedDeletes)))
      && Silent(trace, i + 1, n, w)
  }

  ghost predicate PhasesTraced(trace: seq<Step>, n: nat, workers: map<nat, Worker>)
    requires n <= |trace|
  {
    forall w :: w in workers && workers[w].phase.StampingOk? ==>
      PhaseTraced(trace, n, w, workers[w].phase.failedFiles, workers[w].phase.failedDeletes)
  }

  lemma PhasesNext(trace: seq<Step>, n: nat, s: State, t: State)
    requires n < |trace| && PhasesTraced(trace, n, s.workers) && PhaseTold(s, trace[n], t)
    ensures PhasesTraced(trace, n + 1, t.workers)
  {
    forall w | w in t.workers && t.workers[w].phase.StampingOk?
      ensures PhaseTraced(trace, n + 1, w, t.workers[w].phase.failedFiles, t.workers[w].phase.failedDeletes)
    {
      var phase := t.workers[w].phase;
      if trace[n] == Work(w, Index(Indexed(phase.failedFiles, phase.failedDeletes))) {
        assert Silent(trace, n + 1, n + 1, w);
      } else {
        assert PhaseTraced(trace, n, w, phase.failedFiles, phase.failedDeletes);
        var i :| 0 <= i < n && trace[i] == Work(w, Index(Indexed(phase.failedFiles, phase.failedDeletes)))
          && Silent(trace, i + 1, n, w);
        assert Silent(trace, i + 1, n + 1, w);
      }
    }
  }

  /** Some delivery reported these failures of the batch, and they were stored. */
  ghost predicate WasReported(init: State, trace: seq<Step>, id: BatchId, failedFiles: map<Path, string>,
                              failedDeletes: seq<Path>)
  {
    exists i, j, w :: Reported(init, trace, i, j, w, id, failedFiles, failedDeletes)
  }

  ghost predicate WasGivenUp(init: State, trace: seq<Step>, id: BatchId)
  {
    exists j :: GaveUp(init, trace, j, id)
  }

  ghost predicate RowTraced(init: State, trace: seq<Step>, id: BatchId, row: Row)
  {
    match row.state
    case Pending => true
    case Succeeded => WasReported(init, trace, id, row.failedFiles, row.failedDeletes)
    case Rejected =>
      WasGivenUp(init, trace, id) && row.failedFiles.Keys == row.files.Keys && row.failedDeletes == row.deletes
  }

  ghost predicate RowsTraced(init: State, trace: seq<Step>, rows: Rows)
  {
    forall id :: id in rows ==> RowTraced(init, trace, id, rows[id])
  }

  lemma StampTraced(init: State, trace: seq<Step>, n: nat, s: State, id: BatchId, row: Row)
    requires n < |trace| && Runs(init, trace[..n]) && s == After(init, trace[..n])
    requires trace[n].Work? && trace[n].work.StampOk? && Counts(s, trace[n].w, id, trace[n].work.reply)
    requires s.workers[trace[n].w].phase == StampingOk(row.failedFiles, row.failedDeletes) && row.state == Succeeded
    requires PhasesTraced(trace, n, s.workers)
    ensures RowTraced(init, trace, id, row)
  {
    var w := trace[n].w;
    assert PhaseTraced(trace, n, w, row.failedFiles, row.failedDeletes);
    var i :| 0 <= i < n && trace[i] == Work(w, Index(Indexed(row.failedFiles, row.failedDeletes)))
      && Silent(trace, i + 1, n, w);
    assert Reported(init, trace, i, n, w, id, row.failedFiles, row.failedDeletes);
  }

  lemma RowsNext(init: State, trace: seq<Step>, n: nat, s: State, t: State)
    requires n < |trace| && Runs(init, trace[..n]) && s == After(init, trace[..n])
    requires PhasesTraced(trace, n, s.workers) && RowsTraced(init, trace, s.rows) && RowsTold(s, trace[n], t)
    ensures RowsTraced(init, trace, t.rows)
  {
    forall id | id in t.rows && t.rows[id].state != Pending
      ensures RowTraced(init, trace, id, t.rows[id])
    {
      var row := t.rows[id];
      assert RowTold(s, trace[n], id, row);
      if id in s.rows && s.rows[id] == row {
        assert RowTraced(init, trace, id, s.rows[id]);
      } else if trace[n].work.StampOk? {
        StampTraced(init, trace, n, s, id, row);
      } else {
        assert GaveUp(init, trace, n, id);
      }
    }
  }

  /** Failures waiting to be stored, and failures stored, go back to reports. */
  lemma {:induction false} RunTraced(init: State, trace: seq<Step>, n: nat)
    requires Runs(init, trace) && n <= |trace| && init.workers == map[] && init.rows == map[]
    ensures Runs(init, trace[..n])
    ensures PhasesTraced(trace, n, After(init, trace[..n]).workers)
    ensures RowsTraced(init, trace, After(init, trace[..n]).rows)
  {
    if n == 0 {
      assert trace[..0] == [];
    } else {
      RunTraced(init, trace, n - 1);
      RunsStep(init, trace, n - 1);
      var s, t := After(init, trace[..n - 1]), After(init, trace[..n]);
      StepTells(s, trace[n - 1]);
      PhasesNext(trace, n - 1, s, t);
      RowsNext(init, trace, n - 1, s, t);
    }
  }

  // ---- and what is stored stays ----

  /** The report that a stamp stores is the last thing that the delivery did. */
  lemma StampsItsReport(init: State, trace: seq<Step>, i: nat, j: nat, w: nat, id: BatchId,
          failedFiles: map<Path, string>, failedDeletes: seq<Path>)
    requires Runs(init, trace) && init.workers == map[] && init.rows == map[]
    requires Reported(init, trace, i, j, w, id, failedFiles, failedDeletes)
    ensures var s := After(init, trace[..j]);
      && w in s.workers && s.workers[w].phase == StampingOk(failedFiles, failedDeletes)
      && Enabled(s, trace[j]) && Runs(init, trace[..j + 1]) && Do(s, trace[j]) == After(init, trace[..j + 1])
  {
    RunTraced(init, trace, j);
    RunsStep(init, trace, j);
    var s := After(init, trace[..j]);
    var phase := s.workers[w].phase;
    assert PhaseTraced(trace, j, w, phase.failedFiles, phase.failedDeletes);
    var k :| 0 <= k < j && trace[k] == Work(w, Index(Indexed(phase.failedFiles, phase.failedDeletes)))
      && Silent(trace, k + 1, j, w);
    assert Own(trace[i], w) && Own(trace[k], w);
  }

  /** From its stamp on the row is what it is. */
  lemma StaysAsStamped(s: State, trace: seq<Step>, files: Leaves, deletes: seq<Path>, store: Stored, n: nat,
          id: BatchId, row: Row)
    requires Reachable(s, trace, files, deletes, store) && n <= |trace| && id in s.rows
    requires var init := Initial(files, deletes, store);
      Runs(init, trace[..n]) && id in After(init, trace[..n]).rows && After(init, trace[..n]).rows[id] == row
    requires row.state != Pending
    ensures s.rows[id] == row
  {
    ReachableSound(s, trace, files, deletes, store);
    RunsSplit(Initial(files, deletes, store), trace, n);
    RowsLeavePendingOnce(After(Initial(files, deletes, store), trace[..n]), trace[n..], id);
  }

  lemma ReportStays(s: State, trace: seq<Step>, files: Leaves, deletes: seq<Path>, store: Stored, i: nat, j: nat,
          w: nat, id: BatchId, failedFiles: map<Path, string>, failedDeletes: seq<Path>)
    requires Reachable(s, trace, files, deletes, store) && id in s.rows
    requires Reported(Initial(files, deletes, store), trace, i, j, w, id, failedFiles, failedDeletes)
    ensures s.rows[id].state == Succeeded
    ensures s.rows[id].failedFiles == failedFiles && s.rows[id].failedDeletes == failedDeletes
  {
    var init := Initial(files, deletes, store);
    StampsItsReport(init, trace, i, j, w, id, failedFiles, failedDeletes);
    RunsStep(init, trace, j);
    var before, after := After(init, trace[..j]), After(init, trace[..j + 1]);
    StampedRow(before, w, trace[j].work.reply, failedFiles, failedDeletes);
    StaysAsStamped(s, trace, files, deletes, store, j + 1, id, after.rows[id]);
  }

  lemma GivenUpStays(s: State, trace: seq<Step>, files: Leaves, deletes: seq<Path>, store: Stored, j: nat, id: BatchId)
    requires Reachable(s, trace, files, deletes, store) && id in s.rows
    requires GaveUp(Initial(files, deletes, store), trace, j, id)
    ensures s.rows[id].state == Rejected
  {
    var init := Initial(files, deletes, store);
    RunsStep(init, trace, j);
    var before, after := After(init, trace[..j]), After(init, trace[..j + 1]);
    RejectedRow(before.rows, id, before.workers[trace[j].w].phase.why);
    StaysAsStamped(s, trace, files, deletes, store, j + 1, id, after.rows[id]);
  }

  /** In every run: a batch's row is succeeded, with such and such failures, exactly if some delivery reported
      just these, and stored them first; and rejected exactly if some delivery gave the batch up first, in which
      case every file and delete of it counts as failed. */
  lemma FailuresAreReports(s: State, trace: seq<Step>, files: Leaves, deletes: seq<Path>, store: Stored, id: BatchId,
          failedFiles: map<Path, string>, failedDeletes: seq<Path>)
    requires Reachable(s, trace, files, deletes, store) && id in s.rows
    ensures var init, row := Initial(files, deletes, store), s.rows[id];
      && (row.state == Succeeded && row.failedFiles == failedFiles && row.failedDeletes == failedDeletes
          <==> WasReported(init, trace, id, failedFiles, failedDeletes))
      && (row.state == Rejected <==> WasGivenUp(init, trace, id))
      && (row.state == Rejected ==> row.failedFiles.Keys == row.files.Keys && row.failedDeletes == row.deletes)
  {
    var init := Initial(files, deletes, store);
    RunTraced(init, trace, |trace|);
    assert trace[..|trace|] == trace;
    assert RowTraced(init, trace, id, s.rows[id]);
    if WasReported(init, trace, id, failedFiles, failedDeletes) {
      var i, j, w :| Reported(init, trace, i, j, w, id, failedFiles, failedDeletes);
      ReportStays(s, trace, files, deletes, store, i, j, w, id, failedFiles, failedDeletes);
    }
    if WasGivenUp(init, trace, id) {
      var j :| GaveUp(init, trace, j, id);
      GivenUpStays(s, trace, files, deletes, store, j, id);
    }
  }

  // ---------------------------------------------------------------------------
  // What the next diff asks for
  // ---------------------------------------------------------------------------

  ghost predicate ReportedFile(init: State, trace: seq<Step>, id: BatchId, p: Path)
  {
    || WasGivenUp(init, trace, id)
    || exists failedFiles, failedDeletes :: WasReported(init, trace, id, failedFiles, failedDeletes) && p in failedFiles
  }

  ghost predicate ReportedDelete(init: State, trace: seq<Step>, id: BatchId, p: Path)
  {
    || WasGivenUp(init, trace, id)
    || exists failedFiles, failedDeletes ::
         WasReported(init, trace, id, failedFiles, failedDeletes) && p in failedDeletes
  }

  lemma RowFailsReported(s: State, trace: seq<Step>, files: Leaves, deletes: seq<Path>, store: Stored, id: BatchId,
          p: Path)
    requires Reachable(s, trace, files, deletes, store) && id in s.rows && s.rows[id].state != Pending
    ensures var init, row := Initial(files, deletes, store), s.rows[id];
      && (p in row.files ==> (p in row.failedFiles <==> ReportedFile(init, trace, id, p)))
      && (p in row.deletes ==> (p in row.failedDeletes <==> ReportedDelete(init, trace, id, p)))
  {
    var init, row := Initial(files, deletes, store), s.rows[id];
    FailuresAreReports(s, trace, files, deletes, store, id, row.failedFiles, row.failedDeletes);
    forall failedFiles, failedDeletes | WasReported(init, trace, id, failedFiles, failedDeletes)
      ensures failedFiles == row.failedFiles && failedDeletes == row.failedDeletes && row.state == Succeeded
    {
      FailuresAreReports(s, trace, files, deletes, store, id, failedFiles, failedDeletes);
    }
  }

  /** Every batch that brought the file, or was to delete it, failed to. */
  ghost predicate FileFailed(init: State, trace: seq<Step>, rows: Rows, p: Path)
  {
    forall id :: id in rows && p in rows[id].files ==> ReportedFile(init, trace, id, p)
  }

  ghost predicate DeleteFailed(init: State, trace: seq<Step>, rows: Rows, p: Path)
  {
    forall id :: id in rows && p in rows[id].deletes ==> ReportedDelete(init, trace, id, p)
  }

  lemma FailedAsReported(s: State, trace: seq<Step>, files: Leaves, deletes: seq<Path>, store: Stored, p: Path)
    requires Reachable(s, trace, files, deletes, store)
    requires forall id :: id in s.rows ==> s.rows[id].state != Pending
    ensures var init := Initial(files, deletes, store);
      && (p in FailedFiles(s.rows) <==> p in AcceptedFiles(s.rows) && FileFailed(init, trace, s.rows, p))
      && (p in FailedDeletes(s.rows) <==> p in AcceptedDeletes(s.rows) && DeleteFailed(init, trace, s.rows, p))
  {
    forall id | id in s.rows
      ensures var init, row := Initial(files, deletes, store), s.rows[id];
        && (p in row.files ==> (p in row.failedFiles <==> ReportedFile(init, trace, id, p)))
        && (p in row.deletes ==> (p in row.failedDeletes <==> ReportedDelete(init, trace, id, p)))
    {
      RowFailsReported(s, trace, files, deletes, store, id, p);
    }
  }

  lemma FinishedIsTerminal(s: State)
    requires FlippedOnce(s.session, s.rows, s.outbox, s.flips) && Commit(s) && Finished(s)
    ensures forall id :: id in s.rows ==> s.rows[id].state != Pending
  {
  }

  lemma FinishedCovers(s: State)
    requires Invariant(s) && Receipts(s) && Commit(s) && Finished(s)
    ensures AcceptedFiles(s.rows) == s.expectedFiles.Keys && AcceptedDeletes(s.rows) == Elements(s.expectedDeletes)
  {
    if s.rows != map[] {
      Coverage(s);
    } else {
      assert AcceptedFiles(s.rows) == {} && AcceptedDeletes(s.rows) == {};
    }
  }

  /** The files and deletes asked for are those that failed. */
  ghost predicate AsksForFailed(need: set<Path>, gone: set<Path>, files: set<Path>, deletes: set<Path>, init: State,
                                trace: seq<Step>, rows: Rows)
  {
    && (forall p :: p in need <==> p in files && FileFailed(init, trace, rows, p))
    && (forall p :: p in gone <==> p in deletes && DeleteFailed(init, trace, rows, p))
  }

  lemma FinishedFailures(s: State, trace: seq<Step>, files: Leaves, deletes: seq<Path>, store: Stored)
    requires Reachable(s, trace, files, deletes, store) && Finished(s)
    ensures AsksForFailed(FailedFiles(s.rows), FailedDeletes(s.rows), files.Keys, Elements(deletes),
                          Initial(files, deletes, store), trace, s.rows)
  {
    ReachableSound(s, trace, files, deletes, store);
    RunEvolves(Initial(files, deletes, store), trace);
    FinishedIsTerminal(s);
    FinishedCovers(s);
    forall p
      ensures var init := Initial(files, deletes, store);
        && (p in FailedFiles(s.rows) <==> p in files && FileFailed(init, trace, s.rows, p))
        && (p in FailedDeletes(s.rows) <==> p in Elements(deletes) && DeleteFailed(init, trace, s.rows, p))
    {
      FailedAsReported(s, trace, files, deletes, store, p);
    }
  }

  lemma SameAsk(need: set<Path>, gone: set<Path>, ff: set<Path>, fd: set<Path>, files: set<Path>, deletes: set<Path>,
          init: State, trace: seq<Step>, rows: Rows)
    requires AsksForFailed(ff, fd, files, deletes, init, trace, rows)
    ensures AsksForFailed(need, gone, files, deletes, init, trace, rows) <==> need == ff && gone == fd
  {
  }

  /** Convergence, by the reports. With no other writer and an unchanged client, the next full diff needs exactly
      the files, and deletes exactly the paths, that every batch which had them reported failed or was given up
      over, if and only if the finalizer was not fooled by an equal root hash. */
  lemma NextDiffIsReported(s: State, trace: seq<Step>, client: Leaves, store: Stored, files: Leaves,
          deletes: seq<Path>)
    requires FullSync(client, store, files, deletes)
    requires Reachable(s, trace, files, deletes, store) && Alone(trace) && Finished(s)
    ensures AsksForFailed(NeedOf(LeavesOf(s.store), client), GoneOf(LeavesOf(s.store), client), files.Keys,
                          Elements(deletes), Initial(files, deletes, store), trace, s.rows)
      <==> !FalseFastPath(store, DeltaOf(s))
  {
    NextDiff(s, trace, client, store, files, deletes);
    FinishedFailures(s, trace, files, deletes, store);
    SameAsk(NeedOf(LeavesOf(s.store), client), GoneOf(LeavesOf(s.store), client), FailedFiles(s.rows),
            FailedDeletes(s.rows), files.Keys, Elements(deletes), Initial(files, deletes, store), trace, s.rows);
  }
}
