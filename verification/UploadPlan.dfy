/** Client and server together: the batches into which the client cuts what /diff asked for, sent in any order,
    are all admitted and complete the session, under exactly the conditions that admission puts on them. */
module UploadPlan {
  import opened Merkle
  import opened PathOrder
  import opened Packing
  import opened SyncProtocol
  import opened SyncRuns
  import opened SyncReceipts
  import opened SyncDrive
  import opened SyncProgress

  // ---------------------------------------------------------------------------
  // Requests that cover a promise
  // ---------------------------------------------------------------------------

  predicate DisjointRequests(a: Request, b: Request)
  {
    a.id != b.id && a.files.Keys !! b.files.Keys && forall p :: p in a.deletes ==> p !in b.deletes
  }

  ghost predicate Covers(files: Leaves, deletes: seq<Path>, requests: seq<Request>)
  {
    && (forall p :: p in files ==> exists i :: 0 <= i < |requests| && p in requests[i].files)
    && (forall p :: p in deletes ==> exists i :: 0 <= i < |requests| && p in requests[i].deletes)
  }

  /** Requests that are valid one by one, share nothing, and bring everything that was promised. */
  ghost predicate Plan(files: Leaves, deletes: seq<Path>, requests: seq<Request>)
  {
    && Distinct(deletes)
    && (forall i :: 0 <= i < |requests| ==> ValidRequest(files, deletes, requests[i]))
    && (forall i, j :: 0 <= i < |requests| && 0 <= j < |requests| && i != j ==>
      DisjointRequests(requests[i], requests[j]))
    && Covers(files, deletes, requests)
  }

  // ---- what the first `k` requests bring ----

  function FilesUpTo(requests: seq<Request>, k: nat): (m: Leaves)
    requires k <= |requests|
  {
    if k == 0 then map[] else FilesUpTo(requests, k - 1) + requests[k - 1].files
  }

  function DeletesUpTo(requests: seq<Request>, k: nat): (ps: seq<Path>)
    requires k <= |requests|
  {
    if k == 0 then [] else DeletesUpTo(requests, k - 1) + requests[k - 1].deletes
  }

  function RowsUpTo(requests: seq<Request>, k: nat): (rows: map<BatchId, Row>)
    requires k <= |requests|
  {
    if k == 0 then map[] else RowsUpTo(requests, k - 1)[requests[k - 1].id := NewRow(requests[k - 1])]
  }

  lemma {:induction false} FileFromSome(requests: seq<Request>, k: nat, p: Path)
    requires k <= |requests|
    ensures p in FilesUpTo(requests, k) <==> exists i :: 0 <= i < k && p in requests[i].files
    decreases k
  {
    if k > 0 {
      FileFromSome(requests, k - 1, p);
    }
  }

  lemma {:induction false} DeleteFromSome(requests: seq<Request>, k: nat, p: Path)
    requires k <= |requests|
    ensures p in DeletesUpTo(requests, k) <==> exists i :: 0 <= i < k && p in requests[i].deletes
    decreases k
  {
    if k > 0 {
      DeleteFromSome(requests, k - 1, p);
    }
  }

  lemma {:induction false} RowFromSome(requests: seq<Request>, k: nat, id: BatchId)
    requires k <= |requests|
    ensures id in RowsUpTo(requests, k) <==> exists i :: 0 <= i < k && requests[i].id == id
    decreases k
  {
    if k > 0 {
      RowFromSome(requests, k - 1, id);
    }
  }

  /** The next request brings nothing that was there before. */
  lemma AllNew(files: Leaves, deletes: seq<Path>, requests: seq<Request>, k: nat)
    requires Plan(files, deletes, requests) && k < |requests|
    ensures requests[k].id !in RowsUpTo(requests, k)
    ensures FilesUpTo(requests, k).Keys !! requests[k].files.Keys
    ensures forall p :: p in requests[k].deletes ==> p !in DeletesUpTo(requests, k)
  {
    var q := requests[k];
    assert forall i :: 0 <= i < k ==> DisjointRequests(requests[i], q);
    forall p
      ensures p in q.files ==> p !in FilesUpTo(requests, k)
      ensures p in q.deletes ==> p !in DeletesUpTo(requests, k)
    {
      FileFromSome(requests, k, p);
      DeleteFromSome(requests, k, p);
    }
    RowFromSome(requests, k, q.id);
  }

  lemma {:induction false} DeletesUpToDistinct(files: Leaves, deletes: seq<Path>, requests: seq<Request>, k: nat)
    requires Plan(files, deletes, requests) && k <= |requests|
    ensures Distinct(DeletesUpTo(requests, k))
    decreases k
  {
    if k > 0 {
      DeletesUpToDistinct(files, deletes, requests, k - 1);
      AllNew(files, deletes, requests, k - 1);
      assert ValidRequest(files, deletes, requests[k - 1]);
      DistinctAppend(DeletesUpTo(requests, k - 1), requests[k - 1].deletes);
    }
  }

  lemma WithinPromise(files: Leaves, deletes: seq<Path>, requests: seq<Request>, k: nat)
    requires Plan(files, deletes, requests) && k <= |requests|
    ensures FilesUpTo(requests, k).Keys <= files.Keys
    ensures Elements(DeletesUpTo(requests, k)) <= Elements(deletes)
  {
    assert forall i :: 0 <= i < k ==> ValidRequest(files, deletes, requests[i]);
    forall p
      ensures p in FilesUpTo(requests, k) ==> p in files
      ensures p in DeletesUpTo(requests, k) ==> p in deletes
    {
      FileFromSome(requests, k, p);
      DeleteFromSome(requests, k, p);
    }
  }

  /** The first `k` requests have been admitted. */
  ghost predicate Received(s: State, requests: seq<Request>, k: nat)
    requires k <= |requests|
  {
    && s.receivedFiles == FilesUpTo(requests, k) && s.receivedDeletes == DeletesUpTo(requests, k)
    && s.rows == RowsUpTo(requests, k)
  }

  lemma NextReceived(s: State, t: State, requests: seq<Request>, k: nat)
    requires k < |requests| && Received(s, requests, k) && Uploaded(s, t, requests[k])
    ensures Received(t, requests, k + 1)
  {
  }

  lemma Smaller<T>(a: set<T>, b: set<T>, x: T)
    requires a <= b && x in b && x !in a
    ensures |a| < |b|
  {
    assert a <= b - {x};
    SetBound(a, b - {x});
  }

  lemma CountFiles(m: Leaves)
    ensures |m| == |m.Keys|
  {
  }

  lemma FewerFiles(a: Leaves, b: Leaves, p: Path)
    requires a.Keys <= b.Keys && p in b && p !in a
    ensures |a| < |b|
  {
    Smaller(a.Keys, b.Keys, p);
    CountFiles(a);
    CountFiles(b);
  }

  lemma FewerDeletes(a: seq<Path>, b: seq<Path>, p: Path)
    requires Elements(a) <= Elements(b) && p in b && p !in a && Distinct(a) && Distinct(b)
    ensures |a| < |b|
  {
    Smaller(Elements(a), Elements(b), p);
    CountElements(a);
    CountElements(b);
  }

  /** While requests are missing so is something they bring, and the counts differ. */
  lemma NotYetComplete(files: Leaves, deletes: seq<Path>, requests: seq<Request>, k: nat)
    requires Plan(files, deletes, requests) && k < |requests|
    ensures |FilesUpTo(requests, k)| != |files| || |DeletesUpTo(requests, k)| != |deletes|
  {
    var q := requests[k];
    assert ValidRequest(files, deletes, q);
    WithinPromise(files, deletes, requests, k);
    AllNew(files, deletes, requests, k);
    if q.files != map[] {
      var p :| p in q.files;
      FewerFiles(FilesUpTo(requests, k), files, p);
    } else {
      DeletesUpToDistinct(files, deletes, requests, k);
      FewerDeletes(DeletesUpTo(requests, k), deletes, q.deletes[0]);
    }
  }

  lemma AllArrived(files: Leaves, deletes: seq<Path>, requests: seq<Request>)
    requires Covers(files, deletes, requests)
    ensures files.Keys <= FilesUpTo(requests, |requests|).Keys
    ensures Elements(deletes) <= Elements(DeletesUpTo(requests, |requests|))
  {
    forall p
      ensures p in files ==> p in FilesUpTo(requests, |requests|)
      ensures p in deletes ==> p in DeletesUpTo(requests, |requests|)
    {
      FileFromSome(requests, |requests|, p);
      DeleteFromSome(requests, |requests|, p);
    }
  }

  lemma SameCount(a: Leaves, b: Leaves)
    requires a.Keys <= b.Keys && b.Keys <= a.Keys
    ensures |a| == |b|
  {
    assert a.Keys == b.Keys;
    CountFiles(a);
    CountFiles(b);
  }

  lemma SameLength(a: seq<Path>, b: seq<Path>)
    requires Elements(a) <= Elements(b) && Elements(b) <= Elements(a) && Distinct(a) && Distinct(b)
    ensures |a| == |b|
  {
    assert Elements(a) == Elements(b);
    CountElements(a);
    CountElements(b);
  }

  lemma Complete(files: Leaves, deletes: seq<Path>, requests: seq<Request>)
    requires Plan(files, deletes, requests)
    ensures |FilesUpTo(requests, |requests|)| == |files| && |DeletesUpTo(requests, |requests|)| == |deletes|
  {
    var n := |requests|;
    WithinPromise(files, deletes, requests, n);
    AllArrived(files, deletes, requests);
    DeletesUpToDistinct(files, deletes, requests, n);
    SameCount(FilesUpTo(requests, n), files);
    SameLength(DeletesUpTo(requests, n), deletes);
  }

  lemma SendNext(s: State, requests: seq<Request>, k: nat) returns (t: State)
    requires Plan(s.expectedFiles, s.expectedDeletes, requests) && k < |requests| && Received(s, requests, k)
    requires s.session == Present(Receiving) && s.dropped == {}
    ensures Leads(s, t) && Received(t, requests, k + 1) && SamePromise(s, t)
    ensures t.session == SessionOnCounts(s.expectedFiles, s.expectedDeletes, t.receivedFiles, t.receivedDeletes)
  {
    AllNew(s.expectedFiles, s.expectedDeletes, requests, k);
    assert ValidRequest(s.expectedFiles, s.expectedDeletes, requests[k]);
    assert Admissible(s, requests[k]);
    t := Upload(s, requests[k]);
    NextReceived(s, t, requests, k);
  }

  /** Uploading goes on from the `k`-th request. */
  lemma {:induction false} UploadFrom(s: State, requests: seq<Request>, k: nat) returns (t: State)
    requires Plan(s.expectedFiles, s.expectedDeletes, requests) && k < |requests| && Received(s, requests, k)
    requires s.session == Present(Receiving) && s.dropped == {}
    ensures Leads(s, t) && t.session == Present(Processing) && Received(t, requests, |requests|)
    decreases |requests| - k
  {
    t := SendNext(s, requests, k);
    if k + 1 < |requests| {
      NotYetComplete(s.expectedFiles, s.expectedDeletes, requests, k + 1);
      var u := UploadFrom(t, requests, k + 1);
      LeadsOn(s, t, u);
      t := u;
    } else {
      Complete(s.expectedFiles, s.expectedDeletes, requests);
    }
  }

  lemma NotIdle(files: Leaves, deletes: seq<Path>, q: Request)
    requires ValidRequest(files, deletes, q)
    ensures files != map[] || deletes != []
  {
    if q.files != map[] {
      var p :| p in q.files;
      assert p in files;
    } else {
      assert q.deletes[0] in deletes;
    }
  }

  /** A plan is carried out as it stands, in whatever order its requests come: each is admitted, none flips the
      session early, and the last one does. */
  lemma PlanCompletes(files: Leaves, deletes: seq<Path>, store: Stored, requests: seq<Request>) returns (t: State)
    requires Plan(files, deletes, requests) && requests != []
    ensures Leads(Initial(files, deletes, store), t) && t.session == Present(Processing)
    ensures Received(t, requests, |requests|)
  {
    NotIdle(files, deletes, requests[0]);
    t := UploadFrom(Initial(files, deletes, store), requests, 0);
  }

  // ---------------------------------------------------------------------------
  // The client's batches as requests
  // ---------------------------------------------------------------------------

  /** The files of some entries, by path; `hashOf` reads a hash off its text. */
  function FilesWanted(entries: seq<FileEntry>, hashOf: string -> Hash): (m: Leaves)
  {
    if entries == [] then map[]
    else map[PathOf(entries[0].path) := hashOf(entries[0].hash)] + FilesWanted(entries[1..], hashOf)
  }

  function PathsOf(texts: seq<string>): (ps: seq<Path>)
    ensures |ps| == |texts| && forall i :: 0 <= i < |texts| ==> ps[i] == PathOf(texts[i])
  {
    seq(|texts|, i requires 0 <= i < |texts| => PathOf(texts[i]))
  }

  function RequestOf(b: Packing.Batch, id: BatchId, hashOf: string -> Hash): (q: Request)
  {
    Request(id, FilesWanted(b.files, hashOf), PathsOf(b.deletes))
  }

  function RequestsOf(batches: seq<Packing.Batch>, ids: seq<BatchId>, hashOf: string -> Hash): (qs: seq<Request>)
    requires |ids| == |batches|
    ensures |qs| == |batches| && forall i :: 0 <= i < |qs| ==> qs[i] == RequestOf(batches[i], ids[i], hashOf)
  {
    seq(|batches|, i requires 0 <= i < |batches| => RequestOf(batches[i], ids[i], hashOf))
  }

  /** One entry per path. */
  predicate OncePerPath(entries: seq<FileEntry>)
  {
    forall i, j :: 0 <= i < j < |entries| ==> entries[i].path != entries[j].path
  }

  lemma {:induction false} WantedKeys(entries: seq<FileEntry>, hashOf: string -> Hash, p: Path)
    ensures p in FilesWanted(entries, hashOf) <==> exists i :: 0 <= i < |entries| && PathOf(entries[i].path) == p
  {
    if entries != [] {
      WantedKeys(entries[1..], hashOf, p);
      if p in FilesWanted(entries[1..], hashOf) {
        var i :| 0 <= i < |entries[1..]| && PathOf(entries[1..][i].path) == p;
        assert PathOf(entries[i + 1].path) == p;
      }
      if i :| 0 <= i < |entries| && PathOf(entries[i].path) == p {
        assert i > 0 ==> PathOf(entries[1..][i - 1].path) == p;
      }
    }
  }

  lemma {:induction false} WantedAppend(a: seq<FileEntry>, b: seq<FileEntry>, hashOf: string -> Hash)
    ensures FilesWanted(a + b, hashOf) == FilesWanted(a, hashOf) + FilesWanted(b, hashOf)
  {
    if a == [] {
      assert a + b == b;
    } else {
      assert (a + b)[0] == a[0] && (a + b)[1..] == a[1..] + b;
      WantedAppend(a[1..], b, hashOf);
      MergeAssociative(map[PathOf(a[0].path) := hashOf(a[0].hash)], FilesWanted(a[1..], hashOf),
        FilesWanted(b, hashOf));
    }
  }

  lemma OnceApart(a: seq<FileEntry>, b: seq<FileEntry>, hashOf: string -> Hash)
    requires OncePerPath(a + b)
    ensures OncePerPath(a) && OncePerPath(b)
    ensures FilesWanted(a, hashOf).Keys !! FilesWanted(b, hashOf).Keys
  {
    var all := a + b;
    assert forall i :: 0 <= i < |a| ==> all[i] == a[i];
    assert forall i :: 0 <= i < |b| ==> all[|a| + i] == b[i];
    forall p | p in FilesWanted(a, hashOf)
      ensures p !in FilesWanted(b, hashOf)
    {
      WantedKeys(a, hashOf, p);
      WantedKeys(b, hashOf, p);
      var i :| 0 <= i < |a| && PathOf(a[i].path) == p;
      forall j | 0 <= j < |b|
        ensures PathOf(b[j].path) != p
      {
        PathOfInjective(a[i].path, b[j].path);
        assert all[i].path != all[|a| + j].path;
      }
    }
  }

  /** The parts of a split bring disjoint files, with the hashes of the whole, and together all of them. */
  ghost predicate PartsAgree(parts: seq<seq<FileEntry>>, all: Leaves, hashOf: string -> Hash)
  {
    forall i, p :: 0 <= i < |parts| && p in FilesWanted(parts[i], hashOf) ==>
      p in all && FilesWanted(parts[i], hashOf)[p] == all[p]
  }

  ghost predicate PartsApart(parts: seq<seq<FileEntry>>, hashOf: string -> Hash)
  {
    forall i, j :: 0 <= i < |parts| && 0 <= j < |parts| && i != j ==>
      FilesWanted(parts[i], hashOf).Keys !! FilesWanted(parts[j], hashOf).Keys
  }

  ghost predicate PartsCover(parts: seq<seq<FileEntry>>, all: Leaves, hashOf: string -> Hash)
  {
    forall p :: p in all ==> exists i :: 0 <= i < |parts| && p in FilesWanted(parts[i], hashOf)
  }

  ghost predicate SplitsFiles(parts: seq<seq<FileEntry>>, all: Leaves, hashOf: string -> Hash)
  {
    PartsAgree(parts, all, hashOf) && PartsApart(parts, hashOf) && PartsCover(parts, all, hashOf)
  }

  lemma {:induction false} SplitFiles(parts: seq<seq<FileEntry>>, hashOf: string -> Hash)
    requires OncePerPath(Concat(parts))
    ensures SplitsFiles(parts, FilesWanted(Concat(parts), hashOf), hashOf)
  {
    if parts != [] {
      var first, rest := parts[0], parts[1..];
      OnceApart(first, Concat(rest), hashOf);
      WantedAppend(first, Concat(rest), hashOf);
      SplitFiles(rest, hashOf);
      SplitMore(parts, first, rest, FilesWanted(Concat(rest), hashOf), hashOf);
    }
  }

  lemma SplitMore(parts: seq<seq<FileEntry>>, first: seq<FileEntry>, rest: seq<seq<FileEntry>>, others: Leaves,
                  hashOf: string -> Hash)
    requires SplitsFiles(rest, others, hashOf) && FilesWanted(first, hashOf).Keys !! others.Keys
    requires |parts| == |rest| + 1 && parts[0] == first && forall i :: 0 <= i < |rest| ==> parts[i + 1] == rest[i]
    ensures SplitsFiles(parts, FilesWanted(first, hashOf) + others, hashOf)
  {
    AgreeMore(parts, first, rest, others, hashOf);
    ApartMore(parts, first, rest, others, hashOf);
    CoverMore(parts, first, rest, others, hashOf);
  }

  lemma AgreeMore(parts: seq<seq<FileEntry>>, first: seq<FileEntry>, rest: seq<seq<FileEntry>>, others: Leaves,
                  hashOf: string -> Hash)
    requires PartsAgree(rest, others, hashOf) && FilesWanted(first, hashOf).Keys !! others.Keys
    requires |parts| == |rest| + 1 && parts[0] == first && forall i :: 0 <= i < |rest| ==> parts[i + 1] == rest[i]
    ensures PartsAgree(parts, FilesWanted(first, hashOf) + others, hashOf)
  {
    forall i, p | 0 <= i < |parts| && p in FilesWanted(parts[i], hashOf)
      ensures p in FilesWanted(first, hashOf) + others
      ensures FilesWanted(parts[i], hashOf)[p] == (FilesWanted(first, hashOf) + others)[p]
    {
      if i > 0 {
        assert parts[i] == rest[i - 1];
      }
    }
  }

  lemma ApartMore(parts: seq<seq<FileEntry>>, first: seq<FileEntry>, rest: seq<seq<FileEntry>>, others: Leaves,
                  hashOf: string -> Hash)
    requires PartsAgree(rest, others, hashOf) && PartsApart(rest, hashOf)
    requires FilesWanted(first, hashOf).Keys !! others.Keys
    requires |parts| == |rest| + 1 && parts[0] == first && forall i :: 0 <= i < |rest| ==> parts[i + 1] == rest[i]
    ensures PartsApart(parts, hashOf)
  {
    forall i, j | 0 <= i < j < |parts|
      ensures FilesWanted(parts[i], hashOf).Keys !! FilesWanted(parts[j], hashOf).Keys
    {
      assert parts[j] == rest[j - 1];
      if i > 0 {
        assert parts[i] == rest[i - 1];
      } else {
        assert FilesWanted(rest[j - 1], hashOf).Keys <= others.Keys;
      }
    }
  }

  lemma CoverMore(parts: seq<seq<FileEntry>>, first: seq<FileEntry>, rest: seq<seq<FileEntry>>, others: Leaves,
                  hashOf: string -> Hash)
    requires PartsCover(rest, others, hashOf)
    requires |parts| == |rest| + 1 && parts[0] == first && forall i :: 0 <= i < |rest| ==> parts[i + 1] == rest[i]
    ensures PartsCover(parts, FilesWanted(first, hashOf) + others, hashOf)
  {
    forall p | p in FilesWanted(first, hashOf) + others
      ensures exists i :: 0 <= i < |parts| && p in FilesWanted(parts[i], hashOf)
    {
      if p in FilesWanted(first, hashOf) {
        assert p in FilesWanted(parts[0], hashOf);
      } else {
        var i :| 0 <= i < |rest| && p in FilesWanted(rest[i], hashOf);
        assert p in FilesWanted(parts[i + 1], hashOf);
      }
    }
  }

  /** No needed path of the first batch is to be deleted as well. */
  predicate FirstBatchClear(batches: seq<Packing.Batch>, deletes: seq<Path>, hashOf: string -> Hash)
  {
    batches != [] ==> forall p :: p in deletes ==> p !in FilesWanted(batches[0].files, hashOf)
  }

  predicate DistinctIds(ids: seq<BatchId>)
  {
    forall i, j :: 0 <= i < |ids| && 0 <= j < |ids| && i != j ==> ids[i] != ids[j]
  }

  lemma ChunkedSplits(batches: seq<Packing.Batch>, needed: seq<FileEntry>, deletes: seq<string>, hashOf: string -> Hash)
    requires Chunked(batches, needed, deletes) && OncePerPath(needed)
    ensures SplitsFiles(FilesOf(batches), FilesWanted(needed, hashOf), hashOf)
  {
    if needed == [] {
      assert forall i :: 0 <= i < |batches| ==> FilesOf(batches)[i] == [];
    } else {
      SplitFiles(FilesOf(batches), hashOf);
    }
  }

  lemma ChunkedDeletes(batches: seq<Packing.Batch>, needed: seq<FileEntry>, deletes: seq<string>, i: nat)
    requires Chunked(batches, needed, deletes) && i < |batches|
    ensures batches[i].deletes == if i == 0 then deletes else []
    ensures batches[i].files != [] || batches[i].deletes != []
  {
    if needed != [] {
      assert FilesOf(batches)[i] == batches[i].files;
      assert Fits(FilesOf(batches)[i]);
    }
  }

  lemma WantedNonempty(entries: seq<FileEntry>, hashOf: string -> Hash)
    requires entries != []
    ensures FilesWanted(entries, hashOf) != map[]
  {
    WantedKeys(entries, hashOf, PathOf(entries[0].path));
  }

  /** A batch that brings files as promised is valid exactly if its deletes are promised, named once, and none of
      its files. */
  lemma ValidIff(files: Leaves, deletes: seq<Path>, q: Request)
    requires q.files != map[] || q.deletes != []
    requires forall p :: p in q.files ==> p in files && files[p] == q.files[p]
    requires q.deletes == deletes || q.deletes == []
    ensures ValidRequest(files, deletes, q)
      <==> Distinct(q.deletes) && forall p :: p in q.deletes ==> p !in q.files
  {
  }

  /** A batch is valid exactly if, being the first, it names no path twice among its deletes nor in both lists. */
  lemma BatchValidIff(batches: seq<Packing.Batch>, needed: seq<FileEntry>, deletes: seq<string>, id: BatchId,
                      hashOf: string -> Hash, i: nat)
    requires Chunked(batches, needed, deletes) && OncePerPath(needed) && i < |batches|
    ensures ValidRequest(FilesWanted(needed, hashOf), PathsOf(deletes), RequestOf(batches[i], id, hashOf))
      <==> (i == 0 ==> Distinct(PathsOf(deletes)) && FirstBatchClear(batches, PathsOf(deletes), hashOf))
  {
    var q := RequestOf(batches[i], id, hashOf);
    ChunkedSplits(batches, needed, deletes, hashOf);
    ChunkedDeletes(batches, needed, deletes, i);
    assert FilesOf(batches)[i] == batches[i].files;
    if batches[i].files != [] {
      WantedNonempty(batches[i].files, hashOf);
    }
    assert q.deletes == if i == 0 then PathsOf(deletes) else [];
    ValidIff(FilesWanted(needed, hashOf), PathsOf(deletes), q);
  }

  lemma BatchesDisjoint(batches: seq<Packing.Batch>, needed: seq<FileEntry>, deletes: seq<string>, ids: seq<BatchId>,
                        hashOf: string -> Hash, i: nat, j: nat)
    requires Chunked(batches, needed, deletes) && OncePerPath(needed) && |ids| == |batches| && DistinctIds(ids)
    requires i < |batches| && j < |batches| && i != j
    ensures DisjointRequests(RequestOf(batches[i], ids[i], hashOf), RequestOf(batches[j], ids[j], hashOf))
  {
    ChunkedSplits(batches, needed, deletes, hashOf);
    ChunkedDeletes(batches, needed, deletes, i);
    ChunkedDeletes(batches, needed, deletes, j);
    assert FilesOf(batches)[i] == batches[i].files && FilesOf(batches)[j] == batches[j].files;
  }

  lemma BatchesCover(batches: seq<Packing.Batch>, needed: seq<FileEntry>, deletes: seq<string>, ids: seq<BatchId>,
                     hashOf: string -> Hash)
    requires Chunked(batches, needed, deletes) && OncePerPath(needed) && |ids| == |batches|
    ensures Covers(FilesWanted(needed, hashOf), PathsOf(deletes), RequestsOf(batches, ids, hashOf))
  {
    var requests := RequestsOf(batches, ids, hashOf);
    ChunkedSplits(batches, needed, deletes, hashOf);
    forall p | p in FilesWanted(needed, hashOf)
      ensures exists i :: 0 <= i < |requests| && p in requests[i].files
    {
      var i :| 0 <= i < |batches| && p in FilesWanted(FilesOf(batches)[i], hashOf);
      assert p in requests[i].files;
    }
    forall p | p in PathsOf(deletes)
      ensures exists i :: 0 <= i < |requests| && p in requests[i].deletes
    {
      assert batches != [];
      ChunkedDeletes(batches, needed, deletes, 0);
      assert requests[0].deletes == PathsOf(deletes);
    }
  }

  /** The batches of a /diff answer are a plan if and only if no delete is named twice and none is a needed file
      of the first batch. All deletes ride with the first batch, so only there can the two collide. */
  lemma ClientPlanIff(batches: seq<Packing.Batch>, needed: seq<FileEntry>, deletes: seq<string>, ids: seq<BatchId>,
                      hashOf: string -> Hash)
    requires Chunked(batches, needed, deletes) && OncePerPath(needed) && |ids| == |batches| && DistinctIds(ids)
    ensures Plan(FilesWanted(needed, hashOf), PathsOf(deletes), RequestsOf(batches, ids, hashOf))
      <==> Distinct(PathsOf(deletes)) && FirstBatchClear(batches, PathsOf(deletes), hashOf)
  {
    var requests := RequestsOf(batches, ids, hashOf);
    var files, paths := FilesWanted(needed, hashOf), PathsOf(deletes);
    BatchesCover(batches, needed, deletes, ids, hashOf);
    forall i | 0 <= i < |batches|
      ensures ValidRequest(files, paths, requests[i])
        <==> (i == 0 ==> Distinct(paths) && FirstBatchClear(batches, paths, hashOf))
    {
      BatchValidIff(batches, needed, deletes, ids[i], hashOf, i);
    }
    forall i, j | 0 <= i < |batches| && 0 <= j < |batches| && i != j
      ensures DisjointRequests(requests[i], requests[j])
    {
      BatchesDisjoint(batches, needed, deletes, ids, hashOf, i, j);
    }
    if batches == [] {
      assert FirstBatchClear(batches, paths, hashOf);
    } else {
      assert ValidRequest(files, paths, requests[0]) <==> Distinct(paths) && FirstBatchClear(batches, paths, hashOf);
    }
  }

  /** And then they complete the session. */
  lemma ClientCompletes(batches: seq<Packing.Batch>, needed: seq<FileEntry>, deletes: seq<string>, ids: seq<BatchId>,
                        hashOf: string -> Hash, store: Stored) returns (t: State)
    requires Chunked(batches, needed, deletes) && OncePerPath(needed) && |ids| == |batches| && DistinctIds(ids)
    requires needed != [] || deletes != []
    requires Distinct(PathsOf(deletes)) && FirstBatchClear(batches, PathsOf(deletes), hashOf)
    ensures Leads(Initial(FilesWanted(needed, hashOf), PathsOf(deletes), store), t)
    ensures t.session == Present(Processing)
  {
    ClientPlanIff(batches, needed, deletes, ids, hashOf);
    t := PlanCompletes(FilesWanted(needed, hashOf), PathsOf(deletes), store, RequestsOf(batches, ids, hashOf));
  }
}
