/** What the next full diff asks for after a sync: /diff against the tree the sync left behind
    (services/impl/sync_session_diff_helpers.go). */
module SyncConvergence {
  import opened Merkle
  import opened PathOrder
  import opened SyncProtocol
  import opened SyncRuns
  import opened SyncInvariants
  import opened SyncCommit
  import opened SyncReceipts
  import opened SyncOneWriter
  import opened SyncTheorems

  /** Client paths whose hash the tree lacks or has differently. */
  function NeedOf(tree: Leaves, client: Leaves): (need: set<Path>)
  {
    set p | p in client.Keys && (p !in tree || tree[p] != client[p])
  }

  /** Tree paths the client does not have. */
  function GoneOf(tree: Leaves, client: Leaves): (gone: set<Path>)
  {
    tree.Keys - client.Keys
  }

  lemma AppendNew(ps: seq<Path>, p: Path)
    requires Distinct(ps) && p !in Elements(ps)
    ensures Distinct(ps + [p]) && Elements(ps + [p]) == Elements(ps) + {p}
  {
    DistinctAppend(ps, [p]);
  }

  /** The incremental diff looks at the submitted paths only, so it can never ask for a delete. */
  method ComputeIncrementalNeed(tree: Leaves, client: Leaves) returns (need: seq<Path>)
    ensures Elements(need) == NeedOf(tree, client) && Distinct(need) && PathsSorted(need)
  {
    need := [];
    var todo := client.Keys;
    while todo != {}
      invariant todo <= client.Keys && Distinct(need)
      invariant forall p :: p in Elements(need) <==> p in NeedOf(tree, client) && p !in todo
      decreases |todo|
    {
      var p :| p in todo;
      if p !in tree || tree[p] != client[p] {
        AppendNew(need, p);
        need := need + [p];
      }
      todo := todo - {p};
    }
    SortPathsSorts(need);
    SortKeepsElements(need);
    need := SortPaths(need);
  }

  /** The full diff: what is needed as in the incremental one, and every tree path the client lacks; both in
      the order of their texts. */
  method ComputeDiff(tree: Leaves, client: Leaves) returns (need: seq<Path>, deletes: seq<Path>)
    ensures Elements(need) == NeedOf(tree, client) && Distinct(need) && PathsSorted(need)
    ensures Elements(deletes) == GoneOf(tree, client) && Distinct(deletes) && PathsSorted(deletes)
  {
    need := ComputeIncrementalNeed(tree, client);
    deletes := [];
    var todo := tree.Keys;
    while todo != {}
      invariant todo <= tree.Keys && Distinct(deletes)
      invariant forall p :: p in Elements(deletes) <==> p in GoneOf(tree, client) && p !in todo
      decreases |todo|
    {
      var p :| p in todo;
      if p !in client {
        AppendNew(deletes, p);
        deletes := deletes + [p];
      }
      todo := todo - {p};
    }
    SortPathsSorts(deletes);
    SortKeepsElements(deletes);
    deletes := SortPaths(deletes);
  }

  /** The session /diff creates for a full sync of `client`. */
  ghost predicate FullSync(client: Leaves, store: Stored, files: Leaves, deletes: seq<Path>)
  {
    && files.Keys == NeedOf(LeavesOf(store), client)
    && (forall p :: p in files ==> files[p] == client[p])
    && Elements(deletes) == GoneOf(LeavesOf(store), client)
    && Distinct(deletes)
  }

  /** The files that failed: accepted, and reported failed by every batch that brought them. */
  ghost function FailedFiles(rows: Rows): (ps: set<Path>)
  {
    set p | p in AcceptedFiles(rows) && forall id :: id in rows && p in rows[id].files ==> p in rows[id].failedFiles
  }

  ghost function FailedDeletes(rows: Rows): (ps: set<Path>)
  {
    set p | p in AcceptedDeletes(rows) && forall id :: id in rows && p in rows[id].deletes ==>
      p in rows[id].failedDeletes
  }

  lemma FailedIsTheRest(expected: Leaves, rows: Rows)
    requires rows == map[] || AllTerminal(rows)
    requires RowsAgree(expected, rows)
    ensures FailedFiles(rows) == AcceptedFiles(rows) - Processed(expected, rows).files.Keys
    ensures FailedDeletes(rows) == AcceptedDeletes(rows) - Processed(expected, rows).deletes
    ensures Processed(expected, rows).files.Items <= expected.Items
    ensures Processed(expected, rows).deletes <= AcceptedDeletes(rows)
  {
    forall p | p in AcceptedFiles(rows)
      ensures p in ProcessedPaths(rows) <==> p !in FailedFiles(rows)
    {
      if p !in FailedFiles(rows) {
        var id :| id in rows && p in rows[id].files && p !in rows[id].failedFiles;
        assert rows[id].state != Pending;
      }
    }
    forall p | p in AcceptedDeletes(rows)
      ensures p in ProcessedDeletes(rows) <==> p !in FailedDeletes(rows)
    {
      if p !in FailedDeletes(rows) {
        var id :| id in rows && p in rows[id].deletes && p !in rows[id].failedDeletes;
        assert rows[id].state != Pending;
      }
    }
  }

  lemma DiffAfterMerge(tree: Leaves, client: Leaves, d: Delta)
    requires d.files.Keys <= NeedOf(tree, client) && d.deletes <= GoneOf(tree, client)
    requires forall p :: p in d.files ==> d.files[p] == client[p]
    ensures NeedOf(Merge(tree, d), client) == NeedOf(tree, client) - d.files.Keys
    ensures GoneOf(Merge(tree, d), client) == GoneOf(tree, client) - d.deletes
  {
  }

  ghost predicate Finished(s: State)
  {
    s.session == Present(Done) || s.session == Present(Failed(ALL_FAILED))
  }

  /** The rows of a finished session cover the diff, and its delta is the part that did not fail. */
  lemma FinishedRows(s: State)
    requires Invariant(s) && Receipts(s) && Commit(s) && Finished(s)
    ensures var d := DeltaOf(s);
      && d.files.Items <= s.expectedFiles.Items && d.deletes <= Elements(s.expectedDeletes)
      && FailedFiles(s.rows) == s.expectedFiles.Keys - d.files.Keys
      && FailedDeletes(s.rows) == Elements(s.expectedDeletes) - d.deletes
  {
    FailedIsTheRest(s.expectedFiles, s.rows);
    if s.rows != map[] {
      Coverage(s);
    } else {
      assert AcceptedFiles(s.rows) == {} && AcceptedDeletes(s.rows) == {};
    }
  }

  /** Its tree is the initial one with the delta, or just the initial one if the fast path was fooled. */
  lemma FinishedStore(s: State, init: Stored)
    requires FlippedOnce(s.session, s.rows, s.outbox, s.flips) && OneWriter(s, init) && Commit(s) && Finished(s)
    ensures if FalseFastPath(init, DeltaOf(s)) then s.store == init
      else LeavesOf(s.store) == Merge(LeavesOf(init), DeltaOf(s))
  {
    var d := DeltaOf(s);
    if s.session == Present(Done) && s.rows != map[] {
    } else {
      assert s.rows == map[] ==> EmptyDelta(d);
      EmptyDeltaIsNoChange(LeavesOf(init), d);
    }
  }

  lemma EmptyDeltaIsNoChange(m: Leaves, d: Delta)
    requires EmptyDelta(d)
    ensures Merge(m, d) == m && Reflects(m, d)
  {
  }

  lemma FinishedSync(s: State, trace: seq<Step>, store: Stored, files: Leaves, deletes: seq<Path>)
    requires Reachable(s, trace, files, deletes, store) && Alone(trace) && Finished(s)
    ensures var d := DeltaOf(s);
      && d.files.Items <= files.Items && d.deletes <= Elements(deletes)
      && FailedFiles(s.rows) == files.Keys - d.files.Keys
      && FailedDeletes(s.rows) == Elements(deletes) - d.deletes
      && (if FalseFastPath(store, d) then s.store == store else LeavesOf(s.store) == Merge(LeavesOf(store), d))
  {
    ReachableSound(s, trace, files, deletes, store);
    RunEvolves(Initial(files, deletes, store), trace);
    FinishedRows(s);
    FinishedStore(s, store);
  }

  /** Convergence. With no other writer and an unchanged client, the next full diff needs exactly the files
      that failed and deletes exactly the deletes that failed, if and only if the finalizer was not fooled
      by an equal root hash. */
  lemma NextDiff(s: State, trace: seq<Step>, client: Leaves, store: Stored, files: Leaves, deletes: seq<Path>)
    requires FullSync(client, store, files, deletes)
    requires Reachable(s, trace, files, deletes, store) && Alone(trace) && Finished(s)
    ensures
      (NeedOf(LeavesOf(s.store), client) == FailedFiles(s.rows)
        && GoneOf(LeavesOf(s.store), client) == FailedDeletes(s.rows))
      <==> !FalseFastPath(store, DeltaOf(s))
  {
    FinishedSync(s, trace, store, files, deletes);
    var d := DeltaOf(s);
    DeltaInDiff(d, files);
    if FalseFastPath(store, d) {
      SomethingIsMissing(LeavesOf(store), d, files.Keys, Elements(deletes));
    } else {
      DiffAfterMerge(LeavesOf(store), client, d);
    }
  }

  lemma SomethingIsMissing(m: Leaves, d: Delta, files: set<Path>, deletes: set<Path>)
    requires !Reflects(m, d) && d.files.Keys <= files && d.deletes <= deletes
    ensures files != files - d.files.Keys || deletes != deletes - d.deletes
  {
    if p :| p in d.files {
      assert p in files && p !in files - d.files.Keys;
    } else {
      var p :| p in d.deletes && p in m;
      assert p in deletes && p !in deletes - d.deletes;
    }
  }

  lemma DeltaInDiff(d: Delta, files: Leaves)
    requires d.files.Items <= files.Items
    ensures d.files.Keys <= files.Keys
    ensures forall p :: p in d.files ==> d.files[p] == files[p]
  {
    forall p | p in d.files
      ensures p in files && d.files[p] == files[p]
    {
      assert (p, d.files[p]) in d.files.Items;
    }
  }

  /** When it was fooled, the next diff is the same one again: the sync repeats for ever. */
  lemma FooledDiffRepeats(s: State, trace: seq<Step>, client: Leaves, store: Stored, files: Leaves, deletes: seq<Path>)
    requires FullSync(client, store, files, deletes)
    requires Reachable(s, trace, files, deletes, store) && Alone(trace) && Finished(s)
    requires FalseFastPath(store, DeltaOf(s))
    ensures FullSync(client, s.store, files, deletes)
  {
    FinishedSync(s, trace, store, files, deletes);
  }

  lemma CleanDelta(tree: Leaves, client: Leaves, files: Leaves, deletes: set<Path>, d: Delta)
    requires files.Keys == NeedOf(tree, client) && (forall p :: p in files ==> files[p] == client[p])
    requires deletes == GoneOf(tree, client)
    requires d.files.Items <= files.Items && d.deletes <= deletes
    requires files.Keys - d.files.Keys == {} && deletes - d.deletes == {}
    ensures Merge(tree, d) == client
  {
    DeltaInDiff(d, files);
    forall p | p in files
      ensures p in d.files
    {
      assert p !in files.Keys - d.files.Keys;
    }
    forall p | p in deletes
      ensures p in d.deletes
    {
      assert p !in deletes - d.deletes;
    }
  }

  lemma CleanIsFooled(store: Stored, client: Leaves, d: Delta)
    requires Merge(LeavesOf(store), d) == client
    ensures FalseFastPath(store, d)
      <==> HashOf(Rebuild(client)) == RootHash(store) && client.Keys != LeavesOf(store).Keys
    ensures FalseFastPath(store, d) ==> LeavesOf(store) != client
  {
    FastPathExact(store, d);
    KeepsPathsIsSameKeys(LeavesOf(store), d);
    MergeReflects(LeavesOf(store), d);
  }

  /** A sync in which nothing failed brings the tree to the client's state, if and only if it was not the
      case that the client's tree hashes like the stored one over a different set of paths. */
  lemma CleanSyncReachesClient(s: State, trace: seq<Step>, client: Leaves, store: Stored, files: Leaves,
          deletes: seq<Path>)
    requires FullSync(client, store, files, deletes)
    requires Reachable(s, trace, files, deletes, store) && Alone(trace) && Finished(s)
    requires FailedFiles(s.rows) == {} && FailedDeletes(s.rows) == {}
    ensures LeavesOf(s.store) == client
      <==> !(HashOf(Rebuild(client)) == RootHash(store) && client.Keys != LeavesOf(store).Keys)
  {
    FinishedSync(s, trace, store, files, deletes);
    CleanDelta(LeavesOf(store), client, files, Elements(deletes), DeltaOf(s));
    CleanIsFooled(store, client, DeltaOf(s));
  }
}
