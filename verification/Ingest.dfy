/** POST /stream as the code runs it (services/impl/sync_session_service_ingest.go): all-or-nothing entry
    validation, the content write, and the outbox transaction. */
module Ingest {
  import opened Merkle
  import opened PathOrder
  import opened SyncProtocol
  import opened SyncReceipts

  /** An entry of the request body; `intact` says that the content hashes to `hash`. */
  datatype Entry =
    | FileEntry(path: Path, hash: Hash, intact: bool)
    | DeleteEntry(path: Path)
    | UnknownEntry(op: string)

  datatype Verdict = Valid | Invalid(reason: string)

  // ---------------------------------------------------------------------------
  // Validation
  // ---------------------------------------------------------------------------

  predicate EntryOk(e: Entry, expectedFiles: Leaves, expectedDeletes: seq<Path>)
  {
    match e
    case FileEntry(path, hash, intact) => intact && path in expectedFiles && expectedFiles[path] == hash
    case DeleteEntry(path) => path in expectedDeletes
    case UnknownEntry(_) => false
  }

  predicate DistinctPaths(entries: seq<Entry>)
  {
    forall i, j :: 0 <= i < j < |entries| && !entries[i].UnknownEntry? && !entries[j].UnknownEntry? ==>
      entries[i].path != entries[j].path
  }

  predicate EntriesOk(entries: seq<Entry>, expectedFiles: Leaves, expectedDeletes: seq<Path>)
  {
    && entries != []
    && (forall i :: 0 <= i < |entries| ==> EntryOk(entries[i], expectedFiles, expectedDeletes))
    && DistinctPaths(entries)
  }

  predicate NamedBefore(entries: seq<Entry>, i: nat)
    requires i < |entries| && !entries[i].UnknownEntry?
  {
    exists j :: 0 <= j < i && !entries[j].UnknownEntry? && entries[j].path == entries[i].path
  }

  /** What is wrong with the i-th entry, by the first of the tests that it fails. */
  predicate Fails(entries: seq<Entry>, i: nat, expectedFiles: Leaves, expectedDeletes: seq<Path>, reason: string)
    requires i < |entries|
  {
    match reason
    case "unknown_op" => entries[i].UnknownEntry?
    case "sha256_mismatch" => entries[i].FileEntry? && !entries[i].intact
    case "not_in_expected_set" =>
      || (entries[i].FileEntry? && entries[i].intact && entries[i].path !in expectedFiles)
      || (entries[i].DeleteEntry? && entries[i].path !in expectedDeletes)
    case "hash_mismatch" =>
      && entries[i].FileEntry? && entries[i].intact && entries[i].path in expectedFiles
      && expectedFiles[entries[i].path] != entries[i].hash
    case "file_duplicate_in_batch" =>
      && entries[i].FileEntry? && EntryOk(entries[i], expectedFiles, expectedDeletes)
      && NamedBefore(entries, i)
    case "delete_already_received" =>
      && entries[i].DeleteEntry? && EntryOk(entries[i], expectedFiles, expectedDeletes)
      && NamedBefore(entries, i)
    case _ => false
  }

  /** The reason to refuse a batch: it is empty, or what is wrong with its first bad entry. */
  ghost predicate RefusedFor(entries: seq<Entry>, expectedFiles: Leaves, expectedDeletes: seq<Path>, reason: string)
  {
    if entries == [] then reason == "empty_batch"
    else
      exists i :: 0 <= i < |entries| && Fails(entries, i, expectedFiles, expectedDeletes, reason)
        && (i == 0 || EntriesOk(entries[..i], expectedFiles, expectedDeletes))
  }

  /** The first bad entry rejects the batch. */
  method ValidateBatchEntries(entries: seq<Entry>, expectedFiles: Leaves, expectedDeletes: seq<Path>)
      returns (v: Verdict)
    ensures v.Valid? <==> EntriesOk(entries, expectedFiles, expectedDeletes)
    ensures v.Invalid? ==> RefusedFor(entries, expectedFiles, expectedDeletes, v.reason)
  {
    if entries == [] {
      return Invalid("empty_batch");
    }
    var seen: set<Path> := {};
    for i := 0 to |entries|
      invariant EntriesOk(entries[..i], expectedFiles, expectedDeletes) || i == 0
      invariant forall p :: p in seen <==> exists j :: 0 <= j < i && !entries[j].UnknownEntry? && entries[j].path == p
    {
      var e := entries[i];
      match e {
        case UnknownEntry(_) =>
          return Invalid("unknown_op");
        case FileEntry(path, hash, intact) =>
          if !intact {
            return Invalid("sha256_mismatch");
          }
          if path !in expectedFiles {
            return Invalid("not_in_expected_set");
          }
          if expectedFiles[path] != hash {
            return Invalid("hash_mismatch");
          }
          if path in seen {
            return Invalid("file_duplicate_in_batch");
          }
        case DeleteEntry(path) =>
          if path !in expectedDeletes {
            return Invalid("not_in_expected_set");
          }
          if path in seen {
            return Invalid("delete_already_received");
          }
      }
      seen := seen + {e.path};
    }
    assert entries[..|entries|] == entries;
    v := Valid;
  }

  /** The manifests built from the entries, the last of several entries for a path winning. */
  function FilesOf(entries: seq<Entry>): (m: Leaves)
  {
    if entries == [] then map[]
    else
      var rest, e := FilesOf(entries[..|entries| - 1]), entries[|entries| - 1];
      if e.FileEntry? then rest[e.path := e.hash] else rest
  }

  function ListedDeletes(entries: seq<Entry>): (ps: seq<Path>)
  {
    if entries == [] then []
    else
      var rest, e := ListedDeletes(entries[..|entries| - 1]), entries[|entries| - 1];
      if e.DeleteEntry? then rest + [e.path] else rest
  }

  lemma {:induction false} FilesCarried(entries: seq<Entry>, p: Path)
    requires DistinctPaths(entries)
    ensures p in FilesOf(entries) <==> exists i :: 0 <= i < |entries| && entries[i].FileEntry? && entries[i].path == p
    ensures forall i :: 0 <= i < |entries| && entries[i].FileEntry? && entries[i].path == p ==>
      FilesOf(entries)[p] == entries[i].hash
  {
    if entries != [] {
      var init, e := entries[..|entries| - 1], entries[|entries| - 1];
      assert entries == init + [e];
      FilesCarried(init, p);
    }
  }

  lemma {:induction false} DeletesCarried(entries: seq<Entry>)
    requires DistinctPaths(entries)
    ensures forall p :: p in ListedDeletes(entries) <==>
      exists i :: 0 <= i < |entries| && entries[i].DeleteEntry? && entries[i].path == p
    ensures Distinct(ListedDeletes(entries))
  {
    if entries != [] {
      var init, e := entries[..|entries| - 1], entries[|entries| - 1];
      assert entries == init + [e];
      DeletesCarried(init);
      if e.DeleteEntry? {
        DistinctAppend(ListedDeletes(init), [e.path]);
      }
    }
  }

  lemma {:induction false} NothingMerged(entries: seq<Entry>)
    requires DistinctPaths(entries) && forall i :: 0 <= i < |entries| ==> !entries[i].UnknownEntry?
    ensures |FilesOf(entries)| + |ListedDeletes(entries)| == |entries|
  {
    if entries != [] {
      var init, e := entries[..|entries| - 1], entries[|entries| - 1];
      assert entries == init + [e];
      NothingMerged(init);
      if e.FileEntry? {
        FilesCarried(init, e.path);
      }
    }
  }

  /** The deletes of a batch, in the order of their texts. */
  function DeletesOf(entries: seq<Entry>): (ps: seq<Path>)
  {
    SortPaths(ListedDeletes(entries))
  }

  lemma DeletesSorted(entries: seq<Entry>)
    ensures PathsSorted(DeletesOf(entries)) && |DeletesOf(entries)| == |ListedDeletes(entries)|
    ensures forall p :: p in DeletesOf(entries) <==> p in ListedDeletes(entries)
    ensures Distinct(DeletesOf(entries)) <==> Distinct(ListedDeletes(entries))
  {
    SortPathsSorts(ListedDeletes(entries));
    SortKeepsElements(ListedDeletes(entries));
  }

  /** A batch that passes validation is one the admission step may take: its manifests agree with what
      /diff promised, name no path twice, and carry every entry. */
  lemma ValidatedIsAdmissible(id: BatchId, entries: seq<Entry>, expectedFiles: Leaves, expectedDeletes: seq<Path>)
    requires EntriesOk(entries, expectedFiles, expectedDeletes)
    ensures ValidRequest(expectedFiles, expectedDeletes, Request(id, FilesOf(entries), DeletesOf(entries)))
    ensures |FilesOf(entries)| + |DeletesOf(entries)| == |entries|
  {
    forall i | 0 <= i < |entries|
      ensures !entries[i].UnknownEntry?
    {
      assert EntryOk(entries[i], expectedFiles, expectedDeletes);
    }
    NothingMerged(entries);
    DeletesCarried(entries);
    DeletesSorted(entries);
    forall p | p in FilesOf(entries)
      ensures p in expectedFiles && expectedFiles[p] == FilesOf(entries)[p]
    {
      FilesCarried(entries, p);
      var i :| 0 <= i < |entries| && entries[i].FileEntry? && entries[i].path == p;
      assert EntryOk(entries[i], expectedFiles, expectedDeletes);
    }
    forall p | p in DeletesOf(entries)
      ensures p in expectedDeletes && p !in FilesOf(entries)
    {
      FilesCarried(entries, p);
      var i :| 0 <= i < |entries| && entries[i].DeleteEntry? && entries[i].path == p;
      assert EntryOk(entries[i], expectedFiles, expectedDeletes);
    }
  }

  /** One of the deletes was received before. */
  predicate Repeats(entries: seq<Entry>, receivedDeletes: seq<Path>)
  {
    exists i :: 0 <= i < |entries| && entries[i].DeleteEntry? && entries[i].path in receivedDeletes
  }

  lemma RepeatsADelete(entries: seq<Entry>, receivedDeletes: seq<Path>)
    requires DistinctPaths(entries)
    ensures Repeats(entries, receivedDeletes) <==> exists p :: p in DeletesOf(entries) && p in receivedDeletes
  {
    DeletesCarried(entries);
    DeletesSorted(entries);
    if Repeats(entries, receivedDeletes) {
      var i :| 0 <= i < |entries| && entries[i].DeleteEntry? && entries[i].path in receivedDeletes;
      assert entries[i].path in DeletesOf(entries);
    }
  }

  method BuildManifests(entries: seq<Entry>) returns (files: Leaves, deletes: seq<Path>)
    ensures files == FilesOf(entries) && deletes == DeletesOf(entries) && PathsSorted(deletes)
  {
    files, deletes := map[], [];
    for i := 0 to |entries|
      invariant files == FilesOf(entries[..i]) && deletes == ListedDeletes(entries[..i])
    {
      assert entries[..i + 1][..i] == entries[..i];
      match entries[i] {
        case FileEntry(path, hash, _) => files := files[path := hash];
        case DeleteEntry(path) => deletes := deletes + [path];
        case UnknownEntry(_) =>
      }
    }
    assert entries[..|entries|] == entries;
    DeletesSorted(entries);
    deletes := SortPaths(deletes);
  }

  // ---------------------------------------------------------------------------
  // Admission
  // ---------------------------------------------------------------------------

  /** The database rows admission reads and writes. */
  datatype Ledger = Ledger(session: Session, receivedFiles: Leaves, receivedDeletes: seq<Path>,
                           rows: map<BatchId, Row>, outbox: map<Key, OutboxStatus>)

  function LedgerOf(s: State): Ledger
  {
    Ledger(s.session, s.receivedFiles, s.receivedDeletes, s.rows, s.outbox)
  }

  predicate Admits(l: Ledger, q: Request)
  {
    MayAdmit(l.session, l.rows, l.receivedDeletes, q)
  }

  function AdmitTo(l: Ledger, expectedFiles: Leaves, expectedDeletes: seq<Path>, q: Request): (m: Ledger)
  {
    var files, deletes := l.receivedFiles + q.files, l.receivedDeletes + q.deletes;
    Ledger(SessionOnCounts(expectedFiles, expectedDeletes, files, deletes), files, deletes,
           l.rows[q.id := NewRow(q)], l.outbox[Batch(q.id) := Unclaimed])
  }

  /** It is the admission step of the session machine. */
  lemma AdmitIsStep(s: State, r: nat)
    requires r in s.requests
    ensures var q := s.requests[r];
      LedgerOf(DoStream(s, Admit(r)))
      == if Admits(LedgerOf(s), q) then AdmitTo(LedgerOf(s), s.expectedFiles, s.expectedDeletes, q) else LedgerOf(s)
  {
  }

  datatype IngestResult =
    | Queued
    | Duplicate
    | SyncNotFound
    | SyncNotReceiving
    | Refusal(reason: string)
    | Internal(error: string)

  class Backend {
    const expectedFiles: Leaves
    const expectedDeletes: seq<Path>
    var session: Session
    var receivedFiles: Leaves
    var receivedDeletes: seq<Path>
    var rows: map<BatchId, Row>
    var outbox: map<Key, OutboxStatus>
    var content: set<BatchId>

    constructor (expectedFiles: Leaves, expectedDeletes: seq<Path>, l: Ledger, content: set<BatchId>)
      ensures View() == l && this.content == content
      ensures this.expectedFiles == expectedFiles && this.expectedDeletes == expectedDeletes
    {
      this.expectedFiles, this.expectedDeletes := expectedFiles, expectedDeletes;
      session, receivedFiles, receivedDeletes, rows, outbox := l.session, l.receivedFiles, l.receivedDeletes, l.rows,
        l.outbox;
      this.content := content;
    }

    function View(): Ledger
      reads this
    {
      Ledger(session, receivedFiles, receivedDeletes, rows, outbox)
    }

    method CrossBatchDeleteDedup(deletes: seq<Path>) returns (unseen: bool)
      ensures unseen <==> forall p :: p in deletes ==> p !in receivedDeletes
    {
      for i := 0 to |deletes|
        invariant forall j :: 0 <= j < i ==> deletes[j] !in receivedDeletes
      {
        if deletes[i] in receivedDeletes {
          return false;
        }
      }
      unseen := true;
    }

    /** The outbox transaction. Nothing changes unless the whole of it does: the row with its manifest, the
        merged manifests, the outbox row, and the flip to `processing` when the counts are complete. A transaction
        that is given up for a reason of its own is answered with that reason; one that the database refuses, or
        whose commit is not acknowledged, with an internal error. */
    method AdmitInTransaction(q: Request, reply: Reply) returns (r: IngestResult)
      modifies this`session, this`receivedFiles, this`receivedDeletes, this`rows, this`outbox
      ensures View() == if !reply.Refused? && Admits(old(View()), q)
        then AdmitTo(old(View()), expectedFiles, expectedDeletes, q) else old(View())
      ensures if !reply.Refused? && old(session) == Present(Receiving) && q.id !in old(rows)
          && (forall p :: p in q.deletes ==> p !in old(receivedDeletes))
        then
          && rows == old(rows)[q.id := Row(q.files, q.deletes, Pending, map[], [])]
          && receivedFiles == old(receivedFiles) + q.files && receivedDeletes == old(receivedDeletes) + q.deletes
          && outbox == old(outbox)[Batch(q.id) := Unclaimed]
          && session == (if |receivedFiles| == |expectedFiles| && |receivedDeletes| == |expectedDeletes|
                         then Present(Processing) else Present(Receiving))
        else View() == old(View())
      ensures if reply.Refused? then r == Internal("transaction")
        else if old(session).Gone? then r == SyncNotFound
        else if old(session).status != Receiving then r == SyncNotReceiving
        else if exists p :: p in q.deletes && p in old(receivedDeletes) then r == Refusal("delete_already_received")
        else if reply.Lost? then r == Internal("transaction")
        else r == if q.id in old(rows) then Duplicate else Queued
    {
      if reply.Refused? {
        return Internal("transaction");
      }
      if session.Gone? {
        return SyncNotFound;
      }
      if session.status != Receiving {
        return SyncNotReceiving;
      }
      var unseen := CrossBatchDeleteDedup(q.deletes);
      if !unseen {
        return Refusal("delete_already_received");
      }
      if q.id in rows {
        return if reply.Acked? then Duplicate else Internal("transaction");
      }
      rows := rows[q.id := Row(q.files, q.deletes, Pending, map[], [])];
      receivedFiles := receivedFiles + q.files;
      receivedDeletes := receivedDeletes + q.deletes;
      outbox := outbox[Batch(q.id) := Unclaimed];
      if |receivedFiles| == |expectedFiles| && |receivedDeletes| == |expectedDeletes| {
        session := Present(Processing);
      }
      r := if reply.Acked? then Queued else Internal("transaction");
    }

    /** A whole request. Only a request that is well-formed, names its own entries and finds the session
        receiving gets as far as the content write; and a row is only ever inserted once its content is there. The
        answer is that of the first test which the request fails. */
    method IngestBatch(header: BatchId, computed: BatchId, entries: seq<Entry>, redisUp: bool, reply: Reply)
        returns (r: IngestResult)
      modifies this
      ensures var q := Request(header, FilesOf(entries), DeletesOf(entries));
        var writes := old(session) == Present(Receiving) && header !in old(rows)
          && EntriesOk(entries, expectedFiles, expectedDeletes) && computed == header && redisUp;
        && View() == (if writes && !reply.Refused? && Admits(old(View()), q)
                      then AdmitTo(old(View()), expectedFiles, expectedDeletes, q) else old(View()))
        && content == (if writes then old(content) + {header} else old(content))
        && (r.Queued? ==> ValidRequest(expectedFiles, expectedDeletes, q))
        && (header in rows && header !in old(rows) ==> header in content)
      ensures if old(session).Gone? then r == SyncNotFound
        else if old(session).status != Receiving then r == SyncNotReceiving
        else if header in old(rows) then r == Duplicate
        else if !EntriesOk(entries, expectedFiles, expectedDeletes)
        then r.Refusal? && RefusedFor(entries, expectedFiles, expectedDeletes, r.reason)
        else if computed != header then r == Refusal("batch_id_mismatch")
        else if !redisUp then r == Internal("redis set")
        else if reply.Refused? then r == Internal("transaction")
        else if Repeats(entries, old(receivedDeletes)) then r == Refusal("delete_already_received")
        else r == if reply.Acked? then Queued else Internal("transaction")
    {
      if session.Gone? {
        return SyncNotFound;
      }
      if session.status != Receiving {
        return SyncNotReceiving;
      }
      if header in rows {
        return Duplicate;
      }
      var verdict := ValidateBatchEntries(entries, expectedFiles, expectedDeletes);
      if verdict.Invalid? {
        return Refusal(verdict.reason);
      }
      if computed != header {
        return Refusal("batch_id_mismatch");
      }
      var files, deletes := BuildManifests(entries);
      if !redisUp {
        return Internal("redis set");
      }
      content := content + {header};
      ValidatedIsAdmissible(header, entries, expectedFiles, expectedDeletes);
      RepeatsADelete(entries, receivedDeletes);
      r := AdmitInTransaction(Request(header, files, deletes), reply);
    }
  }
}
