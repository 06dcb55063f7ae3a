/** How the client cuts a sync into batches (crates/context-sync/src/streamer.rs). */
module Packing {

  const MAX_BATCH_FILES: nat := 100
  const MAX_BATCH_BYTES: nat := 2 * 1024 * 1024

  /** A file by its path, content hash, and content length. */
  datatype FileEntry = FileEntry(path: string, hash: string, size: nat)

  datatype Batch = Batch(files: seq<FileEntry>, deletes: seq<string>)

  function Bytes(files: seq<FileEntry>): (n: nat)
  {
    if files == [] then 0 else Bytes(files[..|files| - 1]) + files[|files| - 1].size
  }

  /** A batch is one file of any size, or stays within both caps. */
  predicate Fits(files: seq<FileEntry>)
  {
    |files| == 1 || (1 <= |files| <= MAX_BATCH_FILES && Bytes(files) <= MAX_BATCH_BYTES)
  }

  function Concat(parts: seq<seq<FileEntry>>): (all: seq<FileEntry>)
  {
    if parts == [] then [] else parts[0] + Concat(parts[1..])
  }

  ghost predicate AllFit(parts: seq<seq<FileEntry>>)
  {
    forall i :: 0 <= i < |parts| ==> Fits(parts[i])
  }

  /** An order-preserving split under the same rule. */
  ghost predicate ValidSplit(files: seq<FileEntry>, parts: seq<seq<FileEntry>>)
  {
    AllFit(parts) && Concat(parts) == files
  }

  /** No batch could have taken the next file as well. */
  ghost predicate Full(parts: seq<seq<FileEntry>>)
  {
    forall i :: 0 <= i < |parts| - 1 ==> Closed(parts, i)
  }

  ghost predicate Closed(parts: seq<seq<FileEntry>>, i: nat)
    requires i < |parts| - 1
  {
    parts[i + 1] != [] && !Fits(parts[i] + [parts[i + 1][0]])
  }

  function FilesOf(batches: seq<Batch>): (parts: seq<seq<FileEntry>>)
    ensures |parts| == |batches|
    ensures forall i :: 0 <= i < |parts| ==> parts[i] == batches[i].files
  {
    seq(|batches|, i requires 0 <= i < |batches| => batches[i].files)
  }

  // ---------------------------------------------------------------------------
  // Optimality
  // ---------------------------------------------------------------------------

  lemma {:induction false} BytesOfPart(a: seq<FileEntry>, b: seq<FileEntry>)
    ensures Bytes(a + b) == Bytes(a) + Bytes(b)
  {
    if b == [] {
      assert a + b == a;
    } else {
      assert (a + b)[..|a + b| - 1] == a + b[..|b| - 1];
      BytesOfPart(a, b[..|b| - 1]);
    }
  }

  /** A stretch of a batch that fits is a batch that fits. */
  lemma PartFits(a: seq<FileEntry>, b: seq<FileEntry>, c: seq<FileEntry>)
    requires Fits(a + b + c) && b != []
    ensures Fits(b)
  {
    BytesOfPart(a + b, c);
    BytesOfPart(a, b);
  }

  /** Greedy stays ahead: whatever suffix of the files a full split covers, it needs no more parts than any
      valid split of the whole. */
  lemma {:induction false} GreedyStaysAhead(full: seq<seq<FileEntry>>, other: seq<seq<FileEntry>>,
          skipped: seq<FileEntry>)
    requires AllFit(full) && Full(full) && AllFit(other)
    requires Concat(other) == skipped + Concat(full)
    ensures |full| <= |other|
    decreases |other|
  {
    assert full != [] ==> Concat(full) == full[0] + Concat(full[1..]) && Fits(full[0]);
    if full != [] && other != [] {
      var first, rest := other[0], Concat(other[1..]);
      if |first| <= |skipped| {
        assert Concat(other[1..]) == skipped[|first|..] + Concat(full) by {
          assert (first + rest)[|first|..] == rest;
          assert (skipped + Concat(full))[|first|..] == skipped[|first|..] + Concat(full);
        }
        GreedyStaysAhead(full, other[1..], skipped[|first|..]);
      } else {
        FirstPartReaches(full, first, rest, skipped);
        var more := (skipped + full[0])[|first|..];
        assert rest == more + Concat(full[1..]) by {
          assert (first + rest)[|first|..] == rest;
          assert skipped + Concat(full) == (skipped + full[0]) + Concat(full[1..]);
          assert ((skipped + full[0]) + Concat(full[1..]))[|first|..] == more + Concat(full[1..]);
        }
        assert AllFit(full[1..]) && AllFit(other[1..]);
        assert Full(full[1..]) by {
          forall i | 0 <= i < |full[1..]| - 1
            ensures Closed(full[1..], i)
          {
            assert Closed(full, i + 1);
            assert full[1..][i] == full[i + 1] && full[1..][i + 1] == full[i + 2];
          }
        }
        GreedyStaysAhead(full[1..], other[1..], more);
      }
    }
  }

  /** If the skipped files, a full part and the first file of the next one all were in one batch that fits,
      the full part would not have been closed. */
  lemma CannotReachBeyond(skipped: seq<FileEntry>, part: seq<FileEntry>, next: FileEntry, first: seq<FileEntry>)
    requires skipped + (part + [next]) <= first && !Fits(part + [next])
    ensures !Fits(first)
  {
    var n := |skipped + (part + [next])|;
    assert first == skipped + (part + [next]) + first[n..];
    if Fits(first) {
      PartFits(skipped, part + [next], first[n..]);
    }
  }

  /** A part of the other split that reaches into the first full part cannot reach beyond it, unless that
      was the last one. */
  lemma FirstPartReaches(full: seq<seq<FileEntry>>, first: seq<FileEntry>, rest: seq<FileEntry>,
          skipped: seq<FileEntry>)
    requires full != [] && AllFit(full) && Full(full) && Fits(first)
    requires first + rest == skipped + Concat(full) && |first| > |skipped|
    ensures |first| <= |skipped + full[0]|
  {
    if |first| > |skipped + full[0]| {
      assert |full| > 1;
      assert Closed(full, 0);
      assert full[1..][0] == full[1];
      PrefixTakesNext(first, rest, skipped, full[0], Concat(full[1..]));
      CannotReachBeyond(skipped, full[0], full[1][0], first);
    }
  }

  lemma PrefixTakesNext(first: seq<FileEntry>, rest: seq<FileEntry>, skipped: seq<FileEntry>, part: seq<FileEntry>,
                        tail: seq<FileEntry>)
    requires first + rest == skipped + (part + tail) && |first| > |skipped + part| && tail != []
    ensures skipped + (part + [tail[0]]) <= first
  {
    var all := first + rest;
    assert first == all[..|first|];
    assert all[|skipped + part|] == tail[0];
  }

  lemma FullIsOptimal(files: seq<FileEntry>, full: seq<seq<FileEntry>>, other: seq<seq<FileEntry>>)
    requires ValidSplit(files, full) && Full(full) && ValidSplit(files, other)
    ensures |full| <= |other|
  {
    assert [] + Concat(full) == Concat(full);
    GreedyStaysAhead(full, other, []);
  }

  // ---------------------------------------------------------------------------
  // The greedy chunker
  // ---------------------------------------------------------------------------

  lemma {:induction false} ConcatOn(parts: seq<seq<FileEntry>>, last: seq<FileEntry>)
    ensures Concat(parts + [last]) == Concat(parts) + last
  {
    if parts == [] {
      assert [last][1..] == [];
    } else {
      assert (parts + [last])[0] == parts[0] && (parts + [last])[1..] == parts[1..] + [last];
      ConcatOn(parts[1..], last);
    }
  }

  lemma AddFile(files: seq<FileEntry>, e: FileEntry)
    ensures Bytes(files + [e]) == Bytes(files) + e.size
  {
    assert (files + [e])[..|files|] == files;
  }

  /** The parts so far with the open one, which the next file goes to or closes. */
  ghost predicate Packed(parts: seq<seq<FileEntry>>, current: seq<FileEntry>, taken: seq<FileEntry>)
  {
    && Concat(parts) + current == taken
    && AllFit(parts) && (current != [] ==> Fits(current) && Full(parts + [current]))
    && (current == [] ==> parts == [])
  }

  lemma PackOn(parts: seq<seq<FileEntry>>, current: seq<FileEntry>, taken: seq<FileEntry>, e: FileEntry)
    requires Packed(parts, current, taken) && (current == [] || Fits(current + [e]))
    ensures Packed(parts, current + [e], taken + [e])
  {
    assert Concat(parts) + (current + [e]) == (Concat(parts) + current) + [e];
    var all, more := parts + [current], parts + [current + [e]];
    forall i | 0 <= i < |more| - 1
      ensures Closed(more, i)
    {
      assert Closed(all, i);
      assert (current + [e])[0] == current[0];
    }
  }

  lemma CloseAndOpen(parts: seq<seq<FileEntry>>, current: seq<FileEntry>, taken: seq<FileEntry>, e: FileEntry)
    requires Packed(parts, current, taken) && current != [] && !Fits(current + [e])
    ensures Packed(parts + [current], [e], taken + [e])
  {
    ConcatOn(parts, current);
    var all, more := parts + [current], parts + [current] + [[e]];
    forall i | 0 <= i < |more| - 1
      ensures Closed(more, i)
    {
      if i < |all| - 1 {
        assert Closed(all, i);
      }
    }
  }

  lemma FilesOfOn(batches: seq<Batch>, files: seq<FileEntry>)
    ensures FilesOf(batches + [Batch(files, [])]) == FilesOf(batches) + [files]
  {
  }

  lemma PackedIsOptimal(parts: seq<seq<FileEntry>>, current: seq<FileEntry>, files: seq<FileEntry>)
    requires Packed(parts, current, files) && current != []
    ensures ValidSplit(files, parts + [current])
    ensures forall other :: ValidSplit(files, other) ==> |parts| + 1 <= |other|
  {
    ConcatOn(parts, current);
    forall other | ValidSplit(files, other)
      ensures |parts| + 1 <= |other|
    {
      FullIsOptimal(files, parts + [current], other);
    }
  }

  /** What becomes of the needed entries and the deletes: the files in order, in batches within the caps, and the
      deletes with the first batch, which there is if there is anything to send. */
  ghost predicate Chunked(batches: seq<Batch>, needed: seq<FileEntry>, deletes: seq<string>)
  {
    && (needed != [] ==>
         && ValidSplit(needed, FilesOf(batches)) && batches != [] && batches[0].deletes == deletes
         && forall i :: 1 <= i < |batches| ==> batches[i].deletes == [])
    && (needed == [] ==> batches == if deletes == [] then [] else [Batch([], deletes)])
  }

  predicate NoDeletes(batches: seq<Batch>)
  {
    forall j :: 0 <= j < |batches| ==> batches[j].deletes == []
  }

  /** The next file goes into the current batch, or if it does not fit there opens the next one. */
  method PackNext(closed: seq<Batch>, current: seq<FileEntry>, currentBytes: nat, e: FileEntry,
          ghost before: seq<FileEntry>)
      returns (batches: seq<Batch>, next: seq<FileEntry>, nextBytes: nat)
    requires Packed(FilesOf(closed), current, before) && currentBytes == Bytes(current) && NoDeletes(closed)
    ensures Packed(FilesOf(batches), next, before + [e]) && nextBytes == Bytes(next) && NoDeletes(batches)
    ensures next != []
  {
    batches, next, nextBytes := closed, current, currentBytes;
    AddFile(current, e);
    AddFile([], e);
    assert [] + [e] == [e] && current + [] == current;
    if current != [] && (|current| >= MAX_BATCH_FILES || currentBytes + e.size > MAX_BATCH_BYTES) {
      CloseAndOpen(FilesOf(closed), current, before, e);
      FilesOfOn(closed, current);
      batches := closed + [Batch(current, [])];
      next := [];
      nextBytes := 0;
    } else {
      PackOn(FilesOf(closed), current, before, e);
    }
    nextBytes := nextBytes + e.size;
    next := next + [e];
  }

  /** The files, greedily: a batch is closed when the next file does not fit. */
  method ChunkFiles(needed: seq<FileEntry>) returns (batches: seq<Batch>)
    ensures NoDeletes(batches)
    ensures needed == [] <==> batches == []
    ensures needed != [] ==> ValidSplit(needed, FilesOf(batches))
    ensures needed != [] ==> forall other :: ValidSplit(needed, other) ==> |batches| <= |other|
  {
    batches := [];
    var current: seq<FileEntry> := [];
    var currentBytes := 0;
    for i := 0 to |needed|
      invariant Packed(FilesOf(batches), current, needed[..i])
      invariant currentBytes == Bytes(current)
      invariant i > 0 <==> current != []
      invariant i == 0 ==> batches == []
      invariant NoDeletes(batches)
    {
      assert needed[..i + 1] == needed[..i] + [needed[i]];
      batches, current, currentBytes := PackNext(batches, current, currentBytes, needed[i], needed[..i]);
    }
    assert needed[..|needed|] == needed;
    if current != [] {
      PackedIsOptimal(FilesOf(batches), current, needed);
      FilesOfOn(batches, current);
      batches := batches + [Batch(current, [])];
    }
  }

  /** Greedy chunking loses and reorders nothing, respects the caps, sends the deletes exactly once, and
      uses as few file batches as any order-preserving split under the same rule. */
  method ChunkIntoBatches(needed: seq<FileEntry>, deletes: seq<string>) returns (batches: seq<Batch>)
    ensures Chunked(batches, needed, deletes)
    ensures needed != [] ==> forall other :: ValidSplit(needed, other) ==> |batches| <= |other|
  {
    batches := ChunkFiles(needed);
    ghost var parts := FilesOf(batches);
    if batches != [] {
      batches := batches[0 := batches[0].(deletes := deletes)];
      assert FilesOf(batches) == parts;
    } else if deletes != [] {
      batches := [Batch([], deletes)];
    }
  }

  // ---------------------------------------------------------------------------
  // What is offered and sent at all
  // ---------------------------------------------------------------------------

  const MAX_FILE_SIZE_BYTES: nat := 1048576
  const MAX_REPO_BYTES: nat := 100 * 1024 * 1024
  const MAX_REPO_FILES: nat := 20000

  datatype Read = Text | NotText | Skippable | IoError

  /** A directory entry of the walk: whether it is a file the filter lets through, its size by metadata, how
      reading it goes, and the entry it makes. */
  datatype Found = Found(included: bool, statSize: nat, read: Read, entry: FileEntry)

  datatype Walk = Entries(entries: seq<FileEntry>) | Cancelled | Io | TooLarge | TooMany

  predicate Opened(f: Found)
  {
    f.included && f.statSize <= MAX_FILE_SIZE_BYTES
  }

  function Taken(found: seq<Found>): (entries: seq<FileEntry>)
  {
    if found == [] then []
    else
      var rest, f := Taken(found[..|found| - 1]), found[|found| - 1];
      if Opened(f) && f.read.Text? then rest + [f.entry] else rest
  }

  /** The entries are those of the files found at these places: all files that the filter includes, that are
      within the size limit, and that read as text, in the order of the walk. */
  ghost predicate Picks(found: seq<Found>, places: seq<nat>, entries: seq<FileEntry>)
  {
    && |places| == |entries|
    && (forall j, k :: 0 <= j < k < |places| ==> places[j] < places[k])
    && (forall i :: i in places <==>
          0 <= i < |found| && found[i].included && found[i].statSize <= MAX_FILE_SIZE_BYTES && found[i].read.Text?)
    && (forall k :: 0 <= k < |places| ==> places[k] in places && entries[k] == found[places[k]].entry)
  }

  ghost predicate PicksAll(found: seq<Found>, entries: seq<FileEntry>)
  {
    exists places :: Picks(found, places, entries)
  }

  lemma PicksOn(found: seq<Found>, f: Found, places: seq<nat>, entries: seq<FileEntry>)
    requires Picks(found, places, entries)
    ensures if f.included && f.statSize <= MAX_FILE_SIZE_BYTES && f.read.Text?
      then Picks(found + [f], places + [|found|], entries + [f.entry]) else Picks(found + [f], places, entries)
  {
    assert forall k :: 0 <= k < |places| ==> places[k] in places && places[k] < |found|;
    assert forall i :: 0 <= i < |found| ==> (found + [f])[i] == found[i];
  }

  lemma {:induction false} TakenPicks(found: seq<Found>)
    ensures PicksAll(found, Taken(found))
  {
    if found == [] {
      var none: seq<nat> := [];
      assert Picks(found, none, []);
    } else {
      var init, f := found[..|found| - 1], found[|found| - 1];
      TakenPicks(init);
      var places :| Picks(init, places, Taken(init));
      PicksOn(init, f, places, Taken(init));
      assert init + [f] == found;
    }
  }

  lemma {:induction false} TakenGrows(found: seq<Found>, i: nat)
    requires i <= |found|
    ensures Bytes(Taken(found[..i])) <= Bytes(Taken(found)) && |Taken(found[..i])| <= |Taken(found)|
    decreases |found|
  {
    if i == |found| {
      assert found[..i] == found;
    } else {
      var init, f := found[..|found| - 1], found[|found| - 1];
      TakenGrows(init, i);
      assert init[..i] == found[..i];
      AddFile(Taken(init), f.entry);
    }
  }

  /** The walk goes through: it is not cancelled, meets no hard read error, and takes what both caps allow. */
  predicate Clear(found: seq<Found>, cancelledAt: nat)
  {
    && cancelledAt >= |found|
    && (forall i :: 0 <= i < |found| && Opened(found[i]) ==> !found[i].read.IoError?)
    && Bytes(Taken(found)) <= MAX_REPO_BYTES && |Taken(found)| <= MAX_REPO_FILES
  }

  /** The walk gives up at the i-th entry, the first that stands in its way, and says which way. */
  predicate GivesUpAt(found: seq<Found>, cancelledAt: nat, i: nat, walk: Walk)
    requires i < |found|
  {
    var next := Taken(found[..i + 1]);
    && Clear(found[..i], cancelledAt)
    && match walk
       case Entries(_) => false
       case Cancelled => cancelledAt == i
       case Io => cancelledAt > i && Opened(found[i]) && found[i].read.IoError?
       case TooLarge => cancelledAt > i && Bytes(next) > MAX_REPO_BYTES
       case TooMany => cancelledAt > i && Bytes(next) <= MAX_REPO_BYTES && |next| > MAX_REPO_FILES
  }

  lemma ClearNext(found: seq<Found>, cancelledAt: nat, i: nat)
    requires i < |found| && Clear(found[..i], cancelledAt) && cancelledAt > i
    requires Opened(found[i]) ==> !found[i].read.IoError?
    requires Bytes(Taken(found[..i + 1])) <= MAX_REPO_BYTES && |Taken(found[..i + 1])| <= MAX_REPO_FILES
    ensures Clear(found[..i + 1], cancelledAt)
  {
    assert forall j :: 0 <= j < i ==> found[..i + 1][j] == found[..i][j];
  }

  ghost predicate GivesUp(found: seq<Found>, cancelledAt: nat, walk: Walk)
  {
    exists i :: 0 <= i < |found| && GivesUpAt(found, cancelledAt, i, walk)
  }

  lemma GivingUpIsNotClear(found: seq<Found>, cancelledAt: nat, i: nat, walk: Walk)
    requires i < |found| && GivesUpAt(found, cancelledAt, i, walk)
    ensures !Clear(found, cancelledAt) && GivesUp(found, cancelledAt, walk)
  {
    TakenGrows(found, i + 1);
  }

  lemma TakenNext(found: seq<Found>, i: nat)
    requires i < |found|
    ensures var rest, f := Taken(found[..i]), found[i];
      Taken(found[..i + 1]) == if Opened(f) && f.read.Text? then rest + [f.entry] else rest
  {
    assert found[..i + 1][..i] == found[..i];
  }

  /** The walk takes every file it can read as text, exactly if nothing stands in its way; otherwise it
      answers with the first thing that does. */
  method WalkAndHash(found: seq<Found>, cancelledAt: nat) returns (walk: Walk)
    ensures walk.Entries? <==> Clear(found, cancelledAt)
    ensures walk.Entries? ==> walk.entries == Taken(found) && PicksAll(found, walk.entries)
    ensures !walk.Entries? ==> GivesUp(found, cancelledAt, walk)
  {
    var entries: seq<FileEntry> := [];
    var totalBytes := 0;
    for i := 0 to |found|
      invariant entries == Taken(found[..i]) && totalBytes == Bytes(entries)
      invariant Clear(found[..i], cancelledAt)
    {
      if i >= cancelledAt {
        GivingUpIsNotClear(found, cancelledAt, i, Cancelled);
        return Cancelled;
      }
      var f := found[i];
      TakenNext(found, i);
      if !Opened(f) || f.read.Skippable? {
        ClearNext(found, cancelledAt, i);
        continue;
      }
      if f.read.IoError? {
        GivingUpIsNotClear(found, cancelledAt, i, Io);
        return Io;
      }
      if f.read.NotText? {
        ClearNext(found, cancelledAt, i);
        continue;
      }
      AddFile(entries, f.entry);
      totalBytes := totalBytes + f.entry.size;
      if totalBytes > MAX_REPO_BYTES {
        GivingUpIsNotClear(found, cancelledAt, i, TooLarge);
        return TooLarge;
      }
      if |entries| >= MAX_REPO_FILES {
        GivingUpIsNotClear(found, cancelledAt, i, TooMany);
        return TooMany;
      }
      entries := entries + [f.entry];
      ClearNext(found, cancelledAt, i);
    }
    assert found[..|found|] == found;
    TakenPicks(found);
    walk := Entries(entries);
  }

  /** The entries whose path the server asked for, in the order of the walk. */
  function EntriesFilteredByNeed(entries: seq<FileEntry>, need: seq<string>): (kept: seq<FileEntry>)
  {
    if entries == [] then []
    else
      var rest := EntriesFilteredByNeed(entries[..|entries| - 1], need);
      if entries[|entries| - 1].path in need then rest + [entries[|entries| - 1]] else rest
  }

  /** With one entry per path, and only paths asked for that were offered, the client sends precisely one
      file for every needed path. */
  lemma {:induction false} NeededExactlyOnce(entries: seq<FileEntry>, need: seq<string>)
    requires forall i, j :: 0 <= i < j < |entries| ==> entries[i].path != entries[j].path
    ensures var kept := EntriesFilteredByNeed(entries, need);
      && (forall e :: e in kept <==> e in entries && e.path in need)
      && (forall i, j :: 0 <= i < j < |kept| ==> kept[i].path != kept[j].path)
  {
    if entries != [] {
      var init, last := entries[..|entries| - 1], entries[|entries| - 1];
      assert entries == init + [last];
      NeededExactlyOnce(init, need);
      var kept := EntriesFilteredByNeed(init, need);
      forall i | 0 <= i < |kept|
        ensures kept[i].path != last.path
      {
        assert kept[i] in init;
      }
    }
  }
}
