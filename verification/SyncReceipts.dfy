/** What the manifests of a session add up to. Admission compares nothing but counts before it flips the
    session to `processing`; together with the per-batch validation that is enough for full coverage. */
module SyncReceipts {
  import opened Merkle
  import opened PathOrder
  import opened SyncProtocol
  import opened SyncInvariants

  ghost function AcceptedFiles(rows: Rows): (ps: set<Path>)
  {
    set id, p | id in rows && p in rows[id].files :: p
  }

  ghost function AcceptedDeletes(rows: Rows): (ps: set<Path>)
  {
    set id, p | id in rows && p in rows[id].deletes :: p
  }

  function Elements(ps: seq<Path>): (s: set<Path>)
  {
    set p | p in ps
  }

  /** The session's merged manifests are the union of its batches' manifests, and part of what was promised. */
  ghost predicate Merged(expectedFiles: Leaves, expectedDeletes: seq<Path>, session: Session,
                         receivedFiles: Leaves, receivedDeletes: seq<Path>, rows: Rows)
  {
    session.Present? ==>
      && receivedFiles.Keys == AcceptedFiles(rows)
      && receivedFiles.Items <= expectedFiles.Items
      && Elements(receivedDeletes) == AcceptedDeletes(rows)
      && Elements(receivedDeletes) <= Elements(expectedDeletes)
      && Distinct(receivedDeletes)
  }

  /** Nothing gets past `receiving` before the counts agree, and nothing stays when they do. */
  ghost predicate Counted(expectedFiles: Leaves, expectedDeletes: seq<Path>, session: Session,
                          receivedFiles: Leaves, receivedDeletes: seq<Path>, flips: nat)
  {
    var agree := |receivedFiles| == |expectedFiles| && |receivedDeletes| == |expectedDeletes|;
    && (session == Present(Processing) || (session.Present? && flips >= 1) ==> agree)
    && (session == Present(Receiving) ==> !agree)
  }

  /** No batch is empty. */
  ghost predicate Filled(rows: Rows)
  {
    forall id :: id in rows ==> rows[id].files != map[] || rows[id].deletes != []
  }

  /** A session is processing only with batches, and done without batches only if there was nothing to sync. */
  ghost predicate Idle(expectedFiles: Leaves, expectedDeletes: seq<Path>, session: Session, rows: Rows)
  {
    && (session == Present(Processing) ==> rows != map[])
    && (session == Present(Done) && rows == map[] ==> expectedFiles == map[] && expectedDeletes == [])
  }

  ghost predicate Receipts(s: State)
  {
    && Idle(s.expectedFiles, s.expectedDeletes, s.session, s.rows)
    && Filled(s.rows)
    && Merged(s.expectedFiles, s.expectedDeletes, s.session, s.receivedFiles, s.receivedDeletes, s.rows)
    && Counted(s.expectedFiles, s.expectedDeletes, s.session, s.receivedFiles, s.receivedDeletes, s.flips)
  }

  // ---- every step keeps it ----

  lemma AdmitMergesFiles(expected: Leaves, received: Leaves, rows: Rows, id: BatchId, row: Row)
    requires received.Keys == AcceptedFiles(rows) && received.Items <= expected.Items
    requires id !in rows && forall p :: p in row.files ==> p in expected && expected[p] == row.files[p]
    ensures (received + row.files).Keys == AcceptedFiles(rows[id := row])
    ensures (received + row.files).Items <= expected.Items
  {
    var merged := rows[id := row];
    forall p | p in AcceptedFiles(rows)
      ensures p in AcceptedFiles(merged)
    {
      var i :| i in rows && p in rows[i].files;
      assert i in merged && p in merged[i].files;
    }
    forall p | p in row.files
      ensures p in AcceptedFiles(merged)
    {
      assert id in merged && p in merged[id].files;
    }
    forall p | p in AcceptedFiles(merged)
      ensures p in AcceptedFiles(rows) || p in row.files
    {
      var i :| i in merged && p in merged[i].files;
      if i != id {
        assert i in rows && p in rows[i].files;
      }
    }
    forall item | item in (received + row.files).Items
      ensures item in expected.Items
    {
      if item.0 !in row.files {
        assert item in received.Items;
      }
    }
  }

  lemma AdmitMergesDeletes(expected: seq<Path>, received: seq<Path>, rows: Rows, id: BatchId, row: Row)
    requires Elements(received) == AcceptedDeletes(rows) && Elements(received) <= Elements(expected)
    requires Distinct(received) && Distinct(row.deletes)
    requires id !in rows && forall p :: p in row.deletes ==> p in expected && p !in received
    ensures Elements(received + row.deletes) == AcceptedDeletes(rows[id := row])
    ensures Elements(received + row.deletes) <= Elements(expected)
    ensures Distinct(received + row.deletes)
  {
    var merged := rows[id := row];
    forall p | p in AcceptedDeletes(rows)
      ensures p in AcceptedDeletes(merged)
    {
      var i :| i in rows && p in rows[i].deletes;
      assert i in merged && p in merged[i].deletes;
    }
    forall p | p in row.deletes
      ensures p in AcceptedDeletes(merged)
    {
      assert id in merged && p in merged[id].deletes;
    }
    forall p | p in AcceptedDeletes(merged)
      ensures p in AcceptedDeletes(rows) || p in row.deletes
    {
      var i :| i in merged && p in merged[i].deletes;
      if i != id {
        assert i in rows && p in rows[i].deletes;
      }
    }
    assert forall p :: p in received + row.deletes <==> p in received || p in row.deletes;
    assert forall p :: p in received ==> p in Elements(received);
    DistinctAppend(received, row.deletes);
  }

  lemma DistinctAppend(a: seq<Path>, b: seq<Path>)
    requires Distinct(a) && Distinct(b) && forall p :: p in b ==> p !in a
    ensures Distinct(a + b)
  {
    forall i, j | 0 <= i < j < |a + b|
      ensures (a + b)[i] != (a + b)[j]
    {
      if i < |a| <= j {
        assert b[j - |a|] in b && a[i] in a;
      }
    }
  }

  lemma AdmitFills(rows: Rows, q: Request)
    requires Filled(rows) && (q.files != map[] || q.deletes != [])
    ensures Filled(rows[q.id := NewRow(q)])
  {
  }

  lemma AdmitRowReceipts(s: State, q: Request)
    requires Receipts(s) && ValidRequest(s.expectedFiles, s.expectedDeletes, q) && Admissible(s, q)
    requires s.flips == 0
    ensures Receipts(AdmitRow(s, q))
  {
    var row := NewRow(q);
    AdmitFills(s.rows, q);
    AdmitMergesFiles(s.expectedFiles, s.receivedFiles, s.rows, q.id, row);
    AdmitMergesDeletes(s.expectedDeletes, s.receivedDeletes, s.rows, q.id, row);
  }

  lemma StreamReceipts(s: State, a: StreamStep)
    requires Invariant(s) && Receipts(s) && StreamEnabled(s, a)
    ensures Receipts(DoStream(s, a))
  {
    if a.Admit? {
      var t := s.(requests := s.requests - {a.r});
      if Admissible(t, s.requests[a.r]) {
        AdmitRowReceipts(t, s.requests[a.r]);
      }
    }
  }

  lemma StampKeepsManifests(rows: Rows, stamped: Rows)
    requires Stamps(rows, stamped)
    ensures AcceptedFiles(stamped) == AcceptedFiles(rows)
    ensures AcceptedDeletes(stamped) == AcceptedDeletes(rows)
  {
  }

  lemma WorkReceipts(s: State, w: nat, a: WorkStep)
    requires Receipts(s) && WorkEnabled(s, w, a)
    ensures Receipts(DoWork(s, w, a))
  {
    WorkerStamps(s, w, a);
    StampKeepsManifests(s.rows, RowsAfter(s, w, a));
  }

  lemma DispatchReceipts(s: State, a: DispatchStep)
    requires Receipts(s) && DispatchEnabled(s, a)
    ensures Receipts(DoDispatch(s, a))
  {
  }

  lemma FinalReceipts(s: State, f: nat, a: FinalStep)
    requires FlippedOnce(s.session, s.rows, s.outbox, s.flips)
    requires Receipts(s) && FinalEnabled(s, f, a)
    ensures Receipts(DoFinal(s, f, a))
  {
  }

  lemma WorldReceipts(s: State, a: WorldStep)
    requires Receipts(s) && WorldEnabled(s, a)
    ensures Receipts(DoWorld(s, a))
  {
  }

  lemma StepReceipts(s: State, step: Step)
    requires Invariant(s) && Receipts(s) && Enabled(s, step)
    ensures Receipts(Do(s, step))
  {
    match step
    case Stream(a) => StreamReceipts(s, a);
    case Dispatch(a) => DispatchReceipts(s, a);
    case Work(w, a) => WorkReceipts(s, w, a);
    case Final(f, a) => FinalReceipts(s, f, a);
    case World(a) => WorldReceipts(s, a);
  }

  // ---- what the counts give ----

  lemma {:induction false} SameSizeSubset<T>(a: set<T>, b: set<T>)
    requires a <= b && |a| == |b|
    ensures a == b
  {
    if a != {} {
      var x :| x in a;
      SameSizeSubset(a - {x}, b - {x});
    } else {
      assert |b - a| == 0;
    }
  }

  lemma {:induction false} CountElements(ps: seq<Path>)
    ensures |Elements(ps)| <= |ps|
    ensures |Elements(ps)| == |ps| <==> Distinct(ps)
  {
    if ps == [] {
    } else {
      var init, last := ps[..|ps| - 1], ps[|ps| - 1];
      CountElements(init);
      assert ps == init + [last];
      assert Elements(ps) == Elements(init) + {last};
      if last in init {
        var i :| 0 <= i < |init| && init[i] == last;
        assert ps[i] == ps[|ps| - 1];
      } else if Distinct(init) {
        forall i, j | 0 <= i < j < |ps|
          ensures ps[i] != ps[j]
        {
          assert ps[i] == init[i] && ps[i] in init;
          if j < |init| {
            assert ps[j] == init[j];
          }
        }
      } else {
        var i, j :| 0 <= i < j < |init| && init[i] == init[j];
        assert ps[i] == ps[j];
      }
    }
  }

  lemma SortKeepsElements(ps: seq<Path>)
    ensures Elements(SortPaths(ps)) == Elements(ps)
    ensures Distinct(SortPaths(ps)) <==> Distinct(ps)
  {
    SortPathsSorts(ps);
    CountElements(ps);
    CountElements(SortPaths(ps));
  }

  lemma SubsetItemsEqual(a: Leaves, b: Leaves)
    requires a.Items <= b.Items && |a| == |b|
    ensures a == b
  {
    forall p | p in a.Keys
      ensures p in b && a[p] == b[p]
    {
      assert (p, a[p]) in a.Items;
    }
    SameSizeSubset(a.Keys, b.Keys);
  }

  /** A session that was completed by count was completed in fact: every promised file and delete sits in
      some batch, and no delete had been promised twice. */
  lemma Coverage(s: State)
    requires Receipts(s)
    requires s.session == Present(Processing) || (s.session.Present? && s.flips >= 1)
    ensures s.receivedFiles == s.expectedFiles && AcceptedFiles(s.rows) == s.expectedFiles.Keys
    ensures AcceptedDeletes(s.rows) == Elements(s.expectedDeletes)
    ensures Distinct(s.expectedDeletes)
  {
    SubsetItemsEqual(s.receivedFiles, s.expectedFiles);
    CountElements(s.receivedDeletes);
    CountElements(s.expectedDeletes);
    SetBound(Elements(s.receivedDeletes), Elements(s.expectedDeletes));
    SameSizeSubset(Elements(s.receivedDeletes), Elements(s.expectedDeletes));
  }

  lemma {:induction false} SetBound<T>(a: set<T>, b: set<T>)
    requires a <= b
    ensures |a| <= |b|
  {
    assert b == a + (b - a);
  }
}
