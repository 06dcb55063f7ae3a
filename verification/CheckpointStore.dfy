/** The checkpoint directory as the code keeps it (crates/git-ops/src/checkpoint.rs): one directory per turn
    with a manifest and numbered blobs, written blob first and manifest last, so that a crash at any point
    leaves a store that restores as before or as after. */
module CheckpointStore {
  import opened Options
  import opened CheckpointHistory
  import opened UnifiedDiff

  /** A file being written holds garbage until the write is complete. */
  datatype Data<T> = Torn | Whole(value: T)

  /** One manifest entry; `blob` numbers the file that holds the prior bytes. */
  datatype BackupEntry = BackupEntry(path: FilePath, existedBefore: bool, blob: Option<nat>)

  datatype TurnDir = TurnDir(manifest: Option<seq<BackupEntry>>, tmp: Option<Data<seq<BackupEntry>>>,
                             blobs: map<nat, Data<Bytes>>)

  const NEW_TURN := TurnDir(None, None, map[])

  /** The entry's prior state can be read back. */
  predicate Readable(e: BackupEntry, blobs: map<nat, Data<Bytes>>)
  {
    if e.existedBefore then e.blob.Some? && e.blob.value in blobs && blobs[e.blob.value].Whole? else e.blob.None?
  }

  predicate ValidDir(d: TurnDir)
  {
    d.manifest.Some? ==>
      var entries := d.manifest.value;
      && (forall i :: 0 <= i < |entries| ==> Readable(entries[i], d.blobs))
      && (forall i :: 0 <= i < |entries| && entries[i].existedBefore ==> entries[i].blob.value < |entries|)
      && (forall i, j :: 0 <= i < j < |entries| ==> entries[i].path != entries[j].path)
  }

  /** The entry can be read back, as `state`. */
  predicate Describes(e: BackupEntry, blobs: map<nat, Data<Bytes>>, state: Prior)
  {
    Readable(e, blobs) && DecodeEntry(e, blobs).prior == state
  }

  function DecodeEntry(e: BackupEntry, blobs: map<nat, Data<Bytes>>): (r: Entry)
    requires Readable(e, blobs)
  {
    Entry(e.path, if e.existedBefore then Held(blobs[e.blob.value].value) else Absent)
  }

  function Decode(d: TurnDir): (m: Manifest)
    requires ValidDir(d) && d.manifest.Some?
    ensures |m| == |d.manifest.value| && Unique(m)
    ensures forall i :: 0 <= i < |m| ==> m[i] == DecodeEntry(d.manifest.value[i], d.blobs)
  {
    var entries := d.manifest.value;
    seq(|entries|, i requires 0 <= i < |entries| => DecodeEntry(entries[i], d.blobs))
  }

  predicate ValidTurns(turns: map<nat, TurnDir>)
  {
    forall u :: u in turns ==> ValidDir(turns[u])
  }

  function DecodeTurns(turns: map<nat, TurnDir>): (store: Store)
    requires ValidTurns(turns)
  {
    map u | u in turns && turns[u].manifest.Some? :: Decode(turns[u])
  }

  function DirOf(turns: map<nat, TurnDir>, turn: nat): (d: TurnDir)
  {
    if turn in turns then turns[turn] else NEW_TURN
  }

  function EntriesOf(d: TurnDir): (entries: seq<BackupEntry>)
  {
    if d.manifest.Some? then d.manifest.value else []
  }

  /** The blobs a manifest may refer to: numbers are handed out by manifest length. */
  predicate KeepsBlobs(d: TurnDir, e: TurnDir)
  {
    forall n :: n in d.blobs && n < |EntriesOf(d)| ==> n in e.blobs && e.blobs[n] == d.blobs[n]
  }

  /** Whatever happens to blobs without a manifest entry, and to the temporary manifest, is invisible. */
  lemma InvisibleDir(before: TurnDir, d: TurnDir)
    requires ValidDir(before) && d.manifest == before.manifest && KeepsBlobs(before, d)
    ensures ValidDir(d) && (d.manifest.Some? ==> Decode(d) == Decode(before))
  {
    assert forall i :: 0 <= i < |EntriesOf(d)| ==> Readable(EntriesOf(d)[i], before.blobs) ==>
      Readable(EntriesOf(d)[i], d.blobs);
  }

  lemma Invisible(turns: map<nat, TurnDir>, turn: nat, d: TurnDir)
    requires ValidTurns(turns)
    requires d.manifest == DirOf(turns, turn).manifest && KeepsBlobs(DirOf(turns, turn), d)
    ensures ValidTurns(turns[turn := d]) && DecodeTurns(turns[turn := d]) == DecodeTurns(turns)
  {
    var before := DirOf(turns, turn);
    assert ValidDir(before);
    InvisibleDir(before, d);
  }

  predicate Recorded(d: TurnDir, path: FilePath)
  {
    exists i :: 0 <= i < |EntriesOf(d)| && EntriesOf(d)[i].path == path
  }

  /** The entry may go into the manifest next: for a new path, with its blob under the next number. */
  predicate Recordable(d: TurnDir, e: BackupEntry, state: Prior)
  {
    && !Recorded(d, e.path) && Describes(e, d.blobs, state)
    && (e.existedBefore ==> e.blob.value == |EntriesOf(d)|)
  }

  lemma AbsentRecordable(d: TurnDir, path: FilePath)
    requires !Recorded(d, path)
    ensures Recordable(d, BackupEntry(path, false, None), Absent)
  {
  }

  lemma BlobRecordable(was: TurnDir, now: TurnDir, path: FilePath, bytes: Bytes)
    requires !Recorded(was, path) && now.manifest == was.manifest
    requires |EntriesOf(was)| in now.blobs && now.blobs[|EntriesOf(was)|] == Whole(bytes)
    ensures Recordable(now, BackupEntry(path, true, Some(|EntriesOf(was)|)), Held(bytes))
  {
  }

  /** The new manifest makes the entry visible, with all the others as they were. */
  lemma Appended(turns: map<nat, TurnDir>, turn: nat, d: TurnDir, e: BackupEntry, state: Prior)
    requires ValidTurns(turns) && Recordable(DirOf(turns, turn), e, state)
    requires d.manifest == Some(EntriesOf(DirOf(turns, turn)) + [e]) && d.blobs == DirOf(turns, turn).blobs
    ensures ValidTurns(turns[turn := d])
    ensures DecodeTurns(turns[turn := d]) == WithBackup(DecodeTurns(turns), turn, e.path, state)
  {
    var before := DirOf(turns, turn);
    assert ValidDir(before);
    AppendedDir(before, d, e, state);
    assert DecodeTurns(turns[turn := d]) == DecodeTurns(turns)[turn := Decode(d)];
  }

  lemma AppendedDir(before: TurnDir, d: TurnDir, e: BackupEntry, state: Prior)
    requires ValidDir(before) && Recordable(before, e, state)
    requires d.manifest == Some(EntriesOf(before) + [e]) && d.blobs == before.blobs
    ensures ValidDir(d)
    ensures var m := if before.manifest.Some? then Decode(before) else [];
      !Touches(m, e.path) && Decode(d) == m + [Entry(e.path, state)]
  {
    var entries := EntriesOf(before);
    assert forall i :: 0 <= i < |entries| ==> (entries + [e])[i] == entries[i] && Readable(entries[i], before.blobs);
    assert forall i :: 0 <= i < |entries| ==> entries[i].path != e.path;
  }

  /** First backup wins: a recorded path is not recorded again. */
  lemma AlreadyTouched(turns: map<nat, TurnDir>, turn: nat, i: nat, state: Prior)
    requires ValidTurns(turns) && i < |EntriesOf(DirOf(turns, turn))|
    ensures WithBackup(DecodeTurns(turns), turn, EntriesOf(DirOf(turns, turn))[i].path, state) == DecodeTurns(turns)
  {
    assert DecodeTurns(turns)[turn][i].path == EntriesOf(DirOf(turns, turn))[i].path;
  }

  // ---------------------------------------------------------------------------
  // Staying inside the project
  // ---------------------------------------------------------------------------

  /** The place a path leads to from `done`, reading `.` and `..` without looking at the disk; none if it
      climbs above the start. */
  function Resolve(done: FilePath, rest: FilePath): (r: Option<FilePath>)
    decreases |rest|
  {
    if rest == [] then Some(done)
    else
      match rest[0]
      case ParentDir => if done == [] || done == [RootDir] then None else Resolve(done[..|done| - 1], rest[1..])
      case CurDir => Resolve(done, rest[1..])
      case RootDir => Resolve([RootDir], rest[1..])
      case Normal(name) => Resolve(done + [rest[0]], rest[1..])
  }

  predicate Within(root: FilePath, candidate: FilePath)
  {
    var r := Resolve([], candidate);
    r.Some? && root <= r.value
  }

  method IsWithinRoot(root: FilePath, candidate: FilePath) returns (inside: bool)
    ensures inside <==> Within(root, candidate)
  {
    var normalized: FilePath := [];
    for i := 0 to |candidate|
      invariant Resolve([], candidate) == Resolve(normalized, candidate[i..])
    {
      assert candidate[i..][0] == candidate[i] && candidate[i..][1..] == candidate[i + 1..];
      match candidate[i] {
        case ParentDir =>
          if normalized == [] || normalized == [RootDir] {
            return false;
          }
          normalized := normalized[..|normalized| - 1];
        case CurDir =>
        case RootDir => normalized := [RootDir];
        case Normal(_) => normalized := normalized + [candidate[i]];
      }
    }
    inside := root <= normalized;
  }

  predicate Plain(p: FilePath)
  {
    p != [] && p[0] == RootDir && forall i :: 1 <= i < |p| ==> p[i].Normal?
  }

  lemma {:induction false} ResolvePlain(done: FilePath, rest: FilePath)
    requires forall i :: 0 <= i < |rest| ==> rest[i].Normal?
    ensures Resolve(done, rest) == Some(done + rest)
    decreases |rest|
  {
    if rest == [] {
      assert done + rest == done;
    } else {
      ResolvePlain(done + [rest[0]], rest[1..]);
      assert done + [rest[0]] + rest[1..] == done + rest;
    }
  }

  /** Absolute paths without dots are inside iff the root is a prefix; and a detour into a directory and
      out of it again, or a dot, changes nothing. */
  lemma WithinMeans(root: FilePath, p: FilePath)
    requires Plain(p)
    ensures Within(root, p) <==> root <= p
  {
    ResolvePlain([RootDir], p[1..]);
    assert [RootDir] + p[1..] == p;
    assert Resolve([], p) == Resolve([RootDir], p[1..]);
  }

  /** Two ways that lead to the same place from anywhere still do after the same beginning. */
  lemma {:induction false} ResolvePrefix(done: FilePath, before: FilePath, a: FilePath, b: FilePath)
    requires forall d :: Resolve(d, a) == Resolve(d, b)
    ensures Resolve(done, before + a) == Resolve(done, before + b)
    decreases |before|
  {
    if before == [] {
      assert before + a == a && before + b == b;
    } else {
      assert (before + a)[0] == before[0] && (before + a)[1..] == before[1..] + a;
      assert (before + b)[0] == before[0] && (before + b)[1..] == before[1..] + b;
      match before[0] {
        case ParentDir =>
          if done != [] && done != [RootDir] {
            ResolvePrefix(done[..|done| - 1], before[1..], a, b);
          }
        case CurDir => ResolvePrefix(done, before[1..], a, b);
        case RootDir => ResolvePrefix([RootDir], before[1..], a, b);
        case Normal(_) => ResolvePrefix(done + [before[0]], before[1..], a, b);
      }
    }
  }

  lemma DetourHere(done: FilePath, name: string, after: FilePath)
    ensures Resolve(done, [Normal(name), ParentDir] + after) == Resolve(done, after)
  {
    var there := [Normal(name), ParentDir] + after;
    assert there[1..] == [ParentDir] + after && there[1..][1..] == after;
    var inside := done + [Normal(name)];
    assert inside[..|inside| - 1] == done && inside[|inside| - 1] == Normal(name);
  }

  lemma DotHere(done: FilePath, after: FilePath)
    ensures Resolve(done, [CurDir] + after) == Resolve(done, after)
  {
    assert ([CurDir] + after)[1..] == after;
  }

  lemma DetourChangesNothing(done: FilePath, before: FilePath, name: string, after: FilePath)
    ensures Resolve(done, before + ([Normal(name), ParentDir] + after)) == Resolve(done, before + after)
    ensures Resolve(done, before + ([CurDir] + after)) == Resolve(done, before + after)
  {
    forall d
      ensures Resolve(d, [Normal(name), ParentDir] + after) == Resolve(d, after)
      ensures Resolve(d, [CurDir] + after) == Resolve(d, after)
    {
      DetourHere(d, name, after);
      DotHere(d, after);
    }
    ResolvePrefix(done, before, [Normal(name), ParentDir] + after, after);
    ResolvePrefix(done, before, [CurDir] + after, after);
  }

  // ---- climbing out, by counting ----

  function Names(p: FilePath): (n: nat)
  {
    if p == [] then 0 else (if p[0].Normal? then 1 else 0) + Names(p[1..])
  }

  function Parents(p: FilePath): (n: nat)
  {
    if p == [] then 0 else (if p[0].ParentDir? then 1 else 0) + Parents(p[1..])
  }

  /** At some point the path has gone up more often than down, from `depth` names below the root on. */
  predicate Climbs(depth: nat, p: FilePath)
  {
    exists n :: 0 <= n <= |p| && Parents(p[..n]) > depth + Names(p[..n])
  }

  lemma CountsOn(p: FilePath, n: nat)
    requires p != [] && 1 <= n <= |p|
    ensures Names(p[..n]) == (if p[0].Normal? then 1 else 0) + Names(p[1..][..n - 1])
    ensures Parents(p[..n]) == (if p[0].ParentDir? then 1 else 0) + Parents(p[1..][..n - 1])
  {
    assert p[..n][0] == p[0] && p[..n][1..] == p[1..][..n - 1];
  }

  lemma ClimbsLater(depth: nat, p: FilePath, next: nat)
    requires p != [] && next == depth + (if p[0].Normal? then 1 else 0) - (if p[0].ParentDir? then 1 else 0)
    ensures Climbs(depth, p) <==> Climbs(next, p[1..])
  {
    if Climbs(depth, p) {
      var n :| 0 <= n <= |p| && Parents(p[..n]) > depth + Names(p[..n]);
      assert p[..0] == [];
      CountsOn(p, n);
      assert Parents(p[1..][..n - 1]) > next + Names(p[1..][..n - 1]);
    }
    if Climbs(next, p[1..]) {
      var n :| 0 <= n <= |p[1..]| && Parents(p[1..][..n]) > next + Names(p[1..][..n]);
      CountsOn(p, n + 1);
      assert Parents(p[..n + 1]) > depth + Names(p[..n + 1]);
    }
  }

  lemma ClimbsNow(p: FilePath)
    requires p != [] && p[0].ParentDir?
    ensures Climbs(0, p)
  {
    CountsOn(p, 1);
    assert p[1..][..0] == [];
    assert Parents(p[..1]) > 0 + Names(p[..1]);
  }

  lemma {:induction false} ResolveCounts(done: FilePath, rest: FilePath, depth: nat)
    requires |done| == depth + 1 && (depth == 0 ==> done == [RootDir]) && (depth > 0 ==> done[..1] == [RootDir])
    requires forall i :: 0 <= i < |rest| ==> rest[i] != RootDir
    ensures Resolve(done, rest).None? <==> Climbs(depth, rest)
    decreases |rest|
  {
    if rest == [] {
      assert rest[..0] == [];
    } else {
      match rest[0] {
        case ParentDir =>
          if depth == 0 {
            ClimbsNow(rest);
          } else {
            assert done != [RootDir] && done[..|done| - 1][..1] == done[..1];
            ClimbsLater(depth, rest, depth - 1);
            ResolveCounts(done[..|done| - 1], rest[1..], depth - 1);
          }
        case CurDir =>
          ClimbsLater(depth, rest, depth);
          ResolveCounts(done, rest[1..], depth);
        case Normal(_) =>
          assert (done + [rest[0]])[..1] == done[..1];
          ClimbsLater(depth, rest, depth + 1);
          ResolveCounts(done + [rest[0]], rest[1..], depth + 1);
      }
    }
  }

  /** An absolute path leads somewhere exactly if it never goes up more often than it has gone down; one that
      does is inside no root. */
  lemma ClimbsOut(p: FilePath)
    requires p != [] && p[0] == RootDir && forall i :: 1 <= i < |p| ==> p[i] != RootDir
    ensures Resolve([], p).None? <==> Climbs(0, p)
    ensures Climbs(0, p) ==> forall root :: !Within(root, p)
  {
    ClimbsLater(0, p, 0);
    ResolveCounts([RootDir], p[1..], 0);
  }

  // ---------------------------------------------------------------------------
  // Restoring, step by step
  // ---------------------------------------------------------------------------

  /** Strictly descending, and just these numbers. */
  ghost predicate Descends(ts: seq<nat>, us: set<nat>)
  {
    && (forall u :: u in us <==> u in ts)
    && (forall i, j :: 0 <= i < j < |ts| ==> ts[i] > ts[j])
  }

  /** The turns newest-first. */
  method Descending(us: set<nat>) returns (ts: seq<nat>)
    ensures Descends(ts, us)
  {
    ts := [];
    var todo := us;
    while todo != {}
      invariant todo <= us
      invariant Descends(ts, us - todo)
      invariant forall u, v :: u in todo && v in ts ==> u < v
      decreases |todo|
    {
      var u := Greatest(todo);
      DescendsOn(ts, us - todo, u);
      assert us - (todo - {u}) == us - todo + {u};
      ts := ts + [u];
      todo := todo - {u};
    }
  }

  lemma DescendsOn(ts: seq<nat>, us: set<nat>, u: nat)
    requires Descends(ts, us) && forall v :: v in ts ==> u < v
    ensures Descends(ts + [u], us + {u})
  {
    forall i, j | 0 <= i < j < |ts + [u]|
      ensures (ts + [u])[i] > (ts + [u])[j]
    {
      assert ts[i] in ts;
    }
  }

  method Greatest(us: set<nat>) returns (u: nat)
    requires us != {}
    ensures u in us && forall v :: v in us ==> v <= u
  {
    var todo := us;
    u :| u in todo;
    while todo != {}
      invariant todo <= us && u in us
      invariant forall v :: v in us && v !in todo ==> v <= u
      decreases |todo|
    {
      var v :| v in todo;
      if v > u {
        u := v;
      }
      todo := todo - {v};
    }
  }

  /** What restoring with a project root does to `p`: nothing outside the root. */
  ghost function RestoredWithin(files: Files, store: Store, root: FilePath, t: int, p: FilePath): (state: Prior)
  {
    if Within(root, p) then RestoredAt(files, store, t, p) else At(files, p)
  }

  /** All turns above `b` have been undone. */
  ghost predicate UndoneTo(now: Files, files: Files, store: Store, root: FilePath, b: int)
  {
    forall p :: At(now, p) == RestoredWithin(files, store, root, b, p)
  }

  /** The entries of a turn that a restore with this root acts on. */
  function CountInside(m: Manifest, root: FilePath): (n: nat)
  {
    if m == [] then 0 else CountInside(m[..|m| - 1], root) + if Within(root, m[|m| - 1].path) then 1 else 0
  }

  function CountTurns(store: Store, root: FilePath, ts: seq<nat>): (n: nat)
  {
    if ts == [] then 0
    else
      var u := ts[|ts| - 1];
      CountTurns(store, root, ts[..|ts| - 1]) + if u in store then CountInside(store[u], root) else 0
  }

  /** The entries that a restore to `t` acts on, by their turns and their places in these. */
  ghost function Acted(store: Store, root: FilePath, t: int): (acted: set<(nat, nat)>)
  {
    set u, i | u in store && u > t && 0 <= i < |store[u]| && Within(root, store[u][i].path) :: (u, i)
  }

  ghost function Inside(m: Manifest, root: FilePath): (places: set<nat>)
  {
    set i | 0 <= i < |m| && Within(root, m[i].path)
  }

  ghost function PlacedIn(u: nat, places: set<nat>): (pairs: set<(nat, nat)>)
  {
    set i | i in places :: (u, i)
  }

  lemma {:induction false} PairsCount(u: nat, places: set<nat>)
    ensures |PlacedIn(u, places)| == |places|
    decreases |places|
  {
    if i :| i in places {
      PairsCount(u, places - {i});
      assert PlacedIn(u, places) == PlacedIn(u, places - {i}) + {(u, i)};
    } else {
      assert places == {} && PlacedIn(u, places) == {};
    }
  }

  lemma {:induction false} InsideCounts(m: Manifest, root: FilePath)
    ensures CountInside(m, root) == |Inside(m, root)|
  {
    if m == [] {
      assert Inside(m, root) == {};
    } else {
      var init, n := m[..|m| - 1], |m| - 1;
      InsideCounts(init, root);
      assert Inside(m, root) == Inside(init, root) + if Within(root, m[n].path) then {n} else {};
      assert n !in Inside(init, root);
    }
  }

  ghost function ActedIn(store: Store, root: FilePath, ts: seq<nat>): (acted: set<(nat, nat)>)
  {
    set u, i | u in store && u in ts && 0 <= i < |store[u]| && Within(root, store[u][i].path) :: (u, i)
  }

  lemma ActedNext(store: Store, root: FilePath, ts: seq<nat>, u: nat)
    requires u !in ts
    ensures ActedIn(store, root, ts + [u])
      == ActedIn(store, root, ts) + if u in store then PlacedIn(u, Inside(store[u], root)) else {}
    ensures u in store ==> ActedIn(store, root, ts) !! PlacedIn(u, Inside(store[u], root))
  {
  }

  lemma {:induction false} TurnsCount(store: Store, root: FilePath, ts: seq<nat>)
    requires forall i, j :: 0 <= i < j < |ts| ==> ts[i] > ts[j]
    ensures CountTurns(store, root, ts) == |ActedIn(store, root, ts)|
  {
    if ts == [] {
      assert ActedIn(store, root, ts) == {};
    } else {
      var init, u := ts[..|ts| - 1], ts[|ts| - 1];
      assert ts == init + [u];
      TurnsCount(store, root, init);
      ActedNext(store, root, init, u);
      if u in store {
        PairsCount(u, Inside(store[u], root));
        InsideCounts(store[u], root);
      }
    }
  }

  lemma AllActed(store: Store, root: FilePath, t: nat, ts: seq<nat>, us: set<nat>)
    requires store.Keys <= us && Descends(ts, set u | u in us && u > t)
    ensures CountTurns(store, root, ts) == |Acted(store, root, t)|
  {
    TurnsCount(store, root, ts);
    forall u | u in store
      ensures u in ts <==> u > t
    {
      assert u in ts <==> u in (set v | v in us && v > t);
    }
    assert ActedIn(store, root, ts) == Acted(store, root, t);
  }

  /** Paths outside the project, and paths no later turn touched, are as they were. */
  ghost predicate Spares(now: Files, files: Files, store: Store, root: FilePath, t: int)
  {
    forall p :: !(Within(root, p) && TouchedAbove(store, t, p)) ==> At(now, p) == At(files, p)
  }

  lemma NothingUndone(files: Files, store: Store, root: FilePath, b: int, us: set<nat>, target: nat, ts: seq<nat>)
    requires store.Keys <= us && Descends(ts, set u | u in us && u > target)
    requires b == if |ts| > 0 then ts[0] else target
    ensures UndoneTo(files, files, store, root, b)
  {
    forall p
      ensures !TouchedAbove(store, b, p)
    {
      if u :| u in store && TouchedAt(store, b, p, u) {
        assert |ts| > 0 ==> ts[0] in ts;
        assert u in (set v | v in us && v > target);
        assert u in ts;
      }
    }
  }

  /** Between a turn of the list and the next one, or the target, there are no others. */
  lemma NextTurn(ts: seq<nat>, us: set<nat>, store: Store, target: nat, k: nat, b: int)
    requires store.Keys <= us && Descends(ts, set u | u in us && u > target) && k < |ts|
    requires b == if k + 1 < |ts| then ts[k + 1] else target
    ensures ts[k] in us && ts[k] > target && b < ts[k]
    ensures forall v :: v in store && b < v ==> ts[k] <= v
  {
    assert forall i :: 0 <= i < |ts| ==> ts[i] in ts;
    forall v | v in store && b < v
      ensures ts[k] <= v
    {
      assert b >= target;
      assert v in (set u | u in us && u > target);
      assert v in ts;
    }
  }

  /** And the first `j` entries of turn `u` as well. */
  ghost predicate UndoneInto(now: Files, files: Files, store: Store, root: FilePath, u: nat, m: Manifest)
  {
    forall p :: At(now, p) ==
      if Within(root, p) && Touches(m, p) then PriorIn(m, p) else RestoredWithin(files, store, root, u, p)
  }

  lemma EntryUndone(now: Files, files: Files, store: Store, root: FilePath, u: nat, m: Manifest, j: nat, next: Files)
    requires Unique(m) && j < |m| && UndoneInto(now, files, store, root, u, m[..j])
    requires next == if Within(root, m[j].path) then Put(now, m[j].path, m[j].prior) else now
    ensures UndoneInto(next, files, store, root, u, m[..j + 1])
  {
    assert m[..j + 1] == m[..j] + [m[j]];
    forall p
      ensures At(next, p) ==
        if Within(root, p) && Touches(m[..j + 1], p) then PriorIn(m[..j + 1], p)
          else RestoredWithin(files, store, root, u, p)
    {
      TouchesMore(m[..j], m[j], p);
      if Touches(m[..j], p) {
        PriorKept(m[..j], m[j], p);
      } else if p == m[j].path {
        PriorAdded(m[..j], m[j]);
      }
    }
  }

  /** Only a path that a later turn has recorded was changed. */
  lemma EntrySpares(now: Files, next: Files, files: Files, store: Store, root: FilePath, target: nat, u: nat, j: nat)
    requires u in store && u > target && j < |store[u]|
    requires Spares(now, files, store, root, target)
    requires forall p :: p != store[u][j].path || !Within(root, p) ==> At(next, p) == At(now, p)
    ensures Spares(next, files, store, root, target)
  {
    assert TouchedAt(store, target, store[u][j].path, u);
  }

  lemma CountNext(m: Manifest, root: FilePath, j: nat)
    requires j < |m|
    ensures CountInside(m[..j + 1], root) == CountInside(m[..j], root) + if Within(root, m[j].path) then 1 else 0
  {
    assert m[..j + 1][..j] == m[..j];
  }

  lemma TurnUndone(now: Files, files: Files, store: Store, root: FilePath, u: nat, b: int)
    requires b < u
    requires if u in store then UndoneInto(now, files, store, root, u, store[u])
      else UndoneTo(now, files, store, root, u)
    requires forall v :: v in store && b < v ==> u <= v
    ensures UndoneTo(now, files, store, root, b)
  {
    forall p
      ensures At(now, p) == RestoredWithin(files, store, root, b, p)
    {
      OneTurnDown(files, store, u, b, p);
    }
  }

  /** Turns below `from` are as they were; the others too, or without their manifest, or not there. */
  predicate Remain(turns: map<nat, TurnDir>, less: map<nat, TurnDir>, gone: set<nat>, from: nat)
  {
    && less.Keys <= turns.Keys
    && (forall u :: u in gone ==> u in turns && u >= from)
    && (forall u :: u in turns && u !in gone ==> u in less && less[u] == turns[u])
    && (forall u :: u in less && u in gone ==> less[u].manifest.None?)
  }

  lemma TurnsLeft(turns: map<nat, TurnDir>, less: map<nat, TurnDir>, gone: set<nat>, from: nat)
    requires ValidTurns(turns) && Remain(turns, less, gone, from)
    ensures ValidTurns(less) && DecodeTurns(less) == DecodeTurns(turns) - gone
  {
    assert forall u :: u in less ==> ValidDir(less[u]);
    assert DecodeTurns(less).Keys == (DecodeTurns(turns) - gone).Keys;
  }

  lemma AllGone(turns: map<nat, TurnDir>, less: map<nat, TurnDir>, from: nat)
    requires ValidTurns(turns) && ValidTurns(less)
    requires less.Keys == set u | u in turns && u < from
    requires forall u :: u in less ==> less[u] == turns[u]
    ensures DecodeTurns(less) == Pruned(DecodeTurns(turns), from)
  {
    assert DecodeTurns(less).Keys == Pruned(DecodeTurns(turns), from).Keys;
  }

  // ---------------------------------------------------------------------------
  // What the user sees of a restore
  // ---------------------------------------------------------------------------

  /** Every recorded path lies inside the project. */
  predicate AllWithin(root: FilePath, store: Store)
  {
    forall u, i :: u in store && 0 <= i < |store[u]| ==> Within(root, store[u][i].path)
  }

  /** For paths under the project root, undoing everything above `t` is restoring to `t`. */
  lemma UndoneIsRestored(now: Files, files: Files, store: Store, root: FilePath, t: int)
    requires UndoneTo(now, files, store, root, t) && AllWithin(root, store)
    ensures now == Restore(files, store, t)
  {
    forall p
      ensures At(now, p) == At(Restore(files, store, t), p)
    {
      if u: nat :| u in store && TouchedAt(store, t, p, u) {
        var i :| 0 <= i < |store[u]| && store[u][i].path == p;
        assert Within(root, p);
      }
    }
    SameFiles(now, Restore(files, store, t));
  }

  /** A restore that died half-way can simply be run again. */
  lemma RestartedRestore(now: Files, files: Files, store: Store, root: FilePath, t: int)
    requires Spares(now, files, store, root, t) && AllWithin(root, store)
    ensures Restore(now, store, t) == Restore(files, store, t)
  {
    forall p | !TouchedAbove(store, t, p)
      ensures At(now, p) == At(files, p)
    {
    }
    RestoreForgets(now, files, store, t);
  }

  /** The diff of a turn: text, changed files, inserted and deleted lines. */
  datatype TurnDiff = TurnDiff(text: string, filesChanged: nat, insertions: nat, deletions: nat)

  const NO_DIFF := TurnDiff("", 0, 0, 0)

  /** One entry's share of the diff: nothing if the file holds what was recorded, an absent file counting as an
      empty one; else the diff from what was recorded to what is there. */
  ghost predicate EntryShown(d: TurnDiff, files: Files, e: Entry, textOf: Bytes -> Text, pathText: FilePath -> string)
  {
    var prior := if e.prior.Held? then e.prior.bytes else [];
    var current := if e.path in files then files[e.path] else [];
    if prior == current
    then d == TurnDiff("", 0, 0, 0)
    else
      && d.filesChanged == 1
      && Says(d.text, pathText(e.path), textOf(prior), textOf(current), d.insertions, d.deletions)
  }

  /** The texts one after the other, and the sums of the numbers. */
  function Plus(d: TurnDiff, share: TurnDiff): (more: TurnDiff)
  {
    TurnDiff(d.text + share.text, d.filesChanged + share.filesChanged, d.insertions + share.insertions,
             d.deletions + share.deletions)
  }

  function Total(shares: seq<TurnDiff>): (d: TurnDiff)
  {
    if shares == [] then NO_DIFF
    else
      var d, e := Total(shares[..|shares| - 1]), shares[|shares| - 1];
      Plus(d, e)
  }

  ghost predicate AllShown(shares: seq<TurnDiff>, files: Files, m: Manifest, textOf: Bytes -> Text,
                           pathText: FilePath -> string)
  {
    |shares| == |m| && forall i :: 0 <= i < |m| ==> EntryShown(shares[i], files, m[i], textOf, pathText)
  }

  /** The diff of a turn is made of the shares of its entries, in their order. */
  ghost predicate TurnShown(d: TurnDiff, files: Files, m: Manifest, textOf: Bytes -> Text,
                            pathText: FilePath -> string)
  {
    exists shares: seq<TurnDiff> :: Total(shares) == d && AllShown(shares, files, m, textOf, pathText)
  }

  lemma ShownNone(files: Files, m: Manifest, textOf: Bytes -> Text, pathText: FilePath -> string)
    requires m == []
    ensures TurnShown(NO_DIFF, files, m, textOf, pathText)
  {
    var none: seq<TurnDiff> := [];
    assert Total(none) == NO_DIFF && AllShown(none, files, m, textOf, pathText);
  }

  lemma TotalNext(shares: seq<TurnDiff>, share: TurnDiff)
    ensures Total(shares + [share]) == Plus(Total(shares), share)
  {
    assert (shares + [share])[..|shares|] == shares;
  }

  lemma AllShownNext(shares: seq<TurnDiff>, share: TurnDiff, files: Files, m: Manifest, i: nat,
          textOf: Bytes -> Text, pathText: FilePath -> string)
    requires i < |m| && AllShown(shares, files, m[..i], textOf, pathText)
    requires EntryShown(share, files, m[i], textOf, pathText)
    ensures AllShown(shares + [share], files, m[..i + 1], textOf, pathText)
  {
    assert m[..i + 1] == m[..i] + [m[i]];
  }

  lemma ShownNext(d: TurnDiff, share: TurnDiff, files: Files, m: Manifest, i: nat,
          textOf: Bytes -> Text, pathText: FilePath -> string)
    requires i < |m| && TurnShown(d, files, m[..i], textOf, pathText)
    requires EntryShown(share, files, m[i], textOf, pathText)
    ensures TurnShown(Plus(d, share), files, m[..i + 1], textOf, pathText)
  {
    var shares: seq<TurnDiff> :| Total(shares) == d && AllShown(shares, files, m[..i], textOf, pathText);
    TotalNext(shares, share);
    AllShownNext(shares, share, files, m, i, textOf, pathText);
  }

  lemma OneShare(d: TurnDiff, other: TurnDiff, files: Files, e: Entry, textOf: Bytes -> Text,
          pathText: FilePath -> string)
    requires EntryShown(d, files, e, textOf, pathText) && EntryShown(other, files, e, textOf, pathText)
    ensures d == other
  {
    var prior := if e.prior.Held? then e.prior.bytes else [];
    var current := if e.path in files then files[e.path] else [];
    if prior != current {
      SaysOnce(d.text, other.text, pathText(e.path), textOf(prior), textOf(current), d.insertions, d.deletions,
               other.insertions, other.deletions);
    }
  }

  /** The diff of a turn is determined, text and numbers, by what was recorded and what is there. */
  lemma TurnShownOnce(d: TurnDiff, other: TurnDiff, files: Files, m: Manifest, textOf: Bytes -> Text,
          pathText: FilePath -> string)
    requires TurnShown(d, files, m, textOf, pathText) && TurnShown(other, files, m, textOf, pathText)
    ensures d == other
  {
    var shares: seq<TurnDiff> :| Total(shares) == d && AllShown(shares, files, m, textOf, pathText);
    var others: seq<TurnDiff> :| Total(others) == other && AllShown(others, files, m, textOf, pathText);
    forall i | 0 <= i < |m|
      ensures shares[i] == others[i]
    {
      OneShare(shares[i], others[i], files, m[i], textOf, pathText);
    }
    assert shares == others;
  }

  lemma NothingMore(d: TurnDiff, share: TurnDiff)
    requires share.text == "" && share.filesChanged == share.insertions == share.deletions == 0
    ensures Plus(d, share) == d
  {
    assert d.text + share.text == d.text;
  }

  lemma {:induction false} SharesNothing(shares: seq<TurnDiff>)
    requires forall i :: 0 <= i < |shares| ==> shares[i] == NO_DIFF
    ensures Total(shares) == NO_DIFF
  {
    if shares != [] {
      SharesNothing(shares[..|shares| - 1]);
      NothingMore(NO_DIFF, shares[|shares| - 1]);
    }
  }

  /** Right after going back to the turn before, the diff of a turn is empty. */
  lemma NothingLeftToShow(d: TurnDiff, files: Files, store: Store, turn: nat, textOf: Bytes -> Text,
          pathText: FilePath -> string)
    requires turn in store && Unique(store[turn])
    requires TurnShown(d, Restore(files, store, turn - 1), store[turn], textOf, pathText)
    ensures d == NO_DIFF
  {
    var m, restored := store[turn], Restore(files, store, turn - 1);
    var shares: seq<TurnDiff> :| Total(shares) == d && AllShown(shares, restored, m, textOf, pathText);
    forall i | 0 <= i < |m|
      ensures shares[i] == NO_DIFF
    {
      RestoredTurnIsPrior(files, store, turn, i);
      assert EntryShown(shares[i], restored, m[i], textOf, pathText);
    }
    SharesNothing(shares);
  }

  datatype TurnInfo = TurnInfo(turn: nat, fileCount: nat, paths: seq<FilePath>)

  function InfoOf(turn: nat, entries: seq<BackupEntry>): (info: TurnInfo)
  {
    TurnInfo(turn, |entries|, seq(|entries|, i requires 0 <= i < |entries| => entries[i].path))
  }

  predicate Lists(infos: seq<TurnInfo>, u: nat)
  {
    exists i :: 0 <= i < |infos| && infos[i].turn == u
  }

  predicate Summarizes(info: TurnInfo, store: Store)
  {
    && info.turn in store
    && info.fileCount == |store[info.turn]| == |info.paths|
    && forall i :: 0 <= i < info.fileCount ==> info.paths[i] == store[info.turn][i].path
  }

  /** The turns of the store apart from those in `rest`, each described, in ascending order and below `rest`. */
  ghost predicate Listing(infos: seq<TurnInfo>, store: Store, rest: seq<nat>)
  {
    && (forall i, j :: 0 <= i < j < |infos| ==> infos[i].turn < infos[j].turn)
    && (forall i, v :: 0 <= i < |infos| && v in rest ==> infos[i].turn < v)
    && (forall i :: 0 <= i < |infos| ==> Summarizes(infos[i], store))
    && (forall u :: u in store && u !in rest ==> Lists(infos, u))
  }

  lemma ListsNext(infos: seq<TurnInfo>, store: Store, rest: seq<nat>, t: nat, info: TurnInfo, more: seq<TurnInfo>)
    requires Listing(infos, store, rest + [t]) && forall v :: v in rest ==> t < v
    requires t in store ==> info.turn == t && Summarizes(info, store)
    requires more == if t in store then infos + [info] else infos
    ensures Listing(more, store, rest)
  {
    forall u | u in store && u !in rest
      ensures Lists(more, u)
    {
      if u == t {
        assert more[|infos|].turn == t;
      } else {
        assert Lists(infos, u);
        var i :| 0 <= i < |infos| && infos[i].turn == u;
        assert more[i].turn == u;
      }
    }
    assert forall i :: 0 <= i < |infos| ==> infos[i].turn < t by {
      assert t in rest + [t];
    }
  }

  datatype BackupResult = BackedUp | AlreadyThere | NotAbsolute | Crashed

  class CheckpointStore {
    // the project the agent edits in place
    var files: Files
    // the checkpoint directory of one session
    var turns: map<nat, TurnDir>

    constructor (files: Files)
      ensures this.files == files && turns == map[]
    {
      this.files, turns := files, map[];
    }

    ghost predicate Valid()
      reads this
    {
      ValidTurns(turns)
    }

    function Store(): Store
      reads this
      requires Valid()
    {
      DecodeTurns(turns)
    }

    /** One disk operation that nobody sees: on blobs without an entry, or on the temporary manifest. */
    method Rewrite(turn: nat, dir: TurnDir, ghost before: map<nat, TurnDir>)
      requires Valid() && ValidTurns(before) && Store() == DecodeTurns(before)
      requires dir.manifest == DirOf(before, turn).manifest && KeepsBlobs(DirOf(before, turn), dir)
      requires turns == before || turns == before[turn := DirOf(turns, turn)]
      modifies this`turns
      ensures Valid() && Store() == DecodeTurns(before)
      ensures turns == before[turn := dir] && DirOf(turns, turn) == dir
    {
      Invisible(before, turn, dir);
      turns := turns[turn := dir];
      assert turns == before[turn := dir];
    }

    /** Copy the prior bytes into the blob numbered `number`, dying after `crash` disk operations. */
    method WriteBlob(turn: nat, number: nat, bytes: Bytes, crash: nat) returns (done: bool)
      requires Valid() && number == |EntriesOf(DirOf(turns, turn))|
      modifies this`turns
      ensures Valid() && Store() == old(Store())
      ensures turns == old(turns)[turn := DirOf(turns, turn)]
      ensures var was, now := DirOf(old(turns), turn), DirOf(turns, turn);
        && now.manifest == was.manifest && KeepsBlobs(was, now)
        && (done ==> number in now.blobs && now.blobs[number] == Whole(bytes))
      ensures done <==> crash > 2
    {
      var dir := DirOf(turns, turn);
      ghost var before := turns;
      // create_dir_all
      Rewrite(turn, dir, before);
      if crash == 0 {
        return false;
      }
      Rewrite(turn, dir.(blobs := dir.blobs[number := Torn]), before);
      if crash == 1 {
        return false;
      }
      Rewrite(turn, dir.(blobs := dir.blobs[number := Whole(bytes)]), before);
      done := crash > 2;
    }

    /** Temporary file, then rename. The rename is the one step that is seen. */
    method WriteManifestAtomic(turn: nat, entry: BackupEntry, crash: nat, ghost state: Prior) returns (done: bool)
      requires Valid() && Recordable(DirOf(turns, turn), entry, state)
      modifies this`turns
      ensures Valid()
      ensures turns == old(turns)[turn := DirOf(turns, turn)]
      ensures DirOf(turns, turn).blobs == DirOf(old(turns), turn).blobs
      ensures var after := WithBackup(old(Store()), turn, entry.path, state);
        if done then Store() == after else Store() == old(Store()) || Store() == after
      ensures done <==> crash > 2
    {
      var dir := DirOf(turns, turn);
      ghost var before := turns;
      var entries := EntriesOf(dir) + [entry];
      Rewrite(turn, dir.(tmp := Some(Torn)), before);
      if crash == 0 {
        return false;
      }
      Rewrite(turn, dir.(tmp := Some(Whole(entries))), before);
      if crash == 1 {
        return false;
      }
      Publish(turn, dir, entry, before, state);
      done := crash > 2;
    }

    method Publish(turn: nat, dir: TurnDir, entry: BackupEntry, ghost before: map<nat, TurnDir>, ghost state: Prior)
      requires ValidTurns(before) && dir == DirOf(before, turn) && Recordable(dir, entry, state)
      requires turns == before[turn := DirOf(turns, turn)]
      modifies this`turns
      ensures Valid() && Store() == WithBackup(DecodeTurns(before), turn, entry.path, state)
      ensures turns == before[turn := DirOf(turns, turn)] && DirOf(turns, turn).blobs == dir.blobs
    {
      var dir := dir.(manifest := Some(EntriesOf(dir) + [entry]), tmp := None);
      Appended(before, turn, dir, entry, state);
      turns := turns[turn := dir];
      assert turns == before[turn := dir];
    }

    method RecordFile(turn: nat, path: FilePath, bytes: Bytes, crash: nat) returns (done: bool)
      requires Valid() && !Recorded(DirOf(turns, turn), path)
      modifies this`turns
      ensures Valid()
      ensures var after := WithBackup(old(Store()), turn, path, Held(bytes));
        if done then Store() == after else Store() == old(Store()) || Store() == after
      ensures KeepsBlobs(DirOf(old(turns), turn), DirOf(turns, turn))
      ensures turns == old(turns)[turn := DirOf(turns, turn)]
      ensures !done ==> crash <= 5
    {
      ghost var before, dir := turns, DirOf(turns, turn);
      var number := |EntriesOf(DirOf(turns, turn))|;
      done := WriteBlob(turn, number, bytes, crash);
      if done {
        BlobRecordable(dir, DirOf(turns, turn), path, bytes);
        done := WriteManifestAtomic(turn, BackupEntry(path, true, Some(number)), crash - 3, Held(bytes));
        assert turns == before[turn := DirOf(turns, turn)];
      }
    }

    /** Record the state of a path that the turn has not recorded: blob first, manifest last. */
    method Record(turn: nat, path: FilePath, crash: nat) returns (done: bool)
      requires Valid() && !Recorded(DirOf(turns, turn), path)
      modifies this`turns
      ensures Valid()
      ensures var after := WithBackup(old(Store()), turn, path, At(files, path));
        if done then Store() == after else Store() == old(Store()) || Store() == after
      ensures KeepsBlobs(DirOf(old(turns), turn), DirOf(turns, turn))
      ensures turns == old(turns)[turn := DirOf(turns, turn)]
      ensures !done ==> crash <= 5
    {
      ghost var before := DirOf(turns, turn);
      if path !in files {
        AbsentRecordable(before, path);
        done := WriteManifestAtomic(turn, BackupEntry(path, false, None), crash, Absent);
      } else {
        done := RecordFile(turn, path, files[path], crash);
      }
    }

    /** Back a file up before a tool changes it. The process may die after any of the disk operations:
        `crash` says after how many. Whenever it dies, the store reads as it did before or as it does after,
        and no blob that a manifest entry refers to was touched. */
    method BackupFile(turn: nat, path: FilePath, crash: nat) returns (r: BackupResult)
      requires Valid()
      modifies this`turns
      ensures Valid()
      ensures r.NotAbsolute? <==> path == [] || path[0] != RootDir
      ensures r.NotAbsolute? || r.AlreadyThere? ==> turns == old(turns)
      ensures var after := WithBackup(old(Store()), turn, path, At(files, path));
        && (r.BackedUp? || r.AlreadyThere? ==> Store() == after)
        && (r.Crashed? ==> Store() == old(Store()) || Store() == after)
      ensures KeepsBlobs(DirOf(old(turns), turn), DirOf(turns, turn))
      ensures turns == old(turns) || turns == old(turns)[turn := DirOf(turns, turn)]
      ensures r.Crashed? ==> crash <= 5
    {
      if path == [] || path[0] != RootDir {
        return NotAbsolute;
      }
      var entries := EntriesOf(DirOf(turns, turn));
      if i :| 0 <= i < |entries| && entries[i].path == path {
        AlreadyTouched(turns, turn, i, At(files, path));
        return AlreadyThere;
      }
      assert !Recorded(DirOf(turns, turn), path);
      var done := Record(turn, path, crash);
      r := if done then BackedUp else Crashed;
    }

    /** Put one path back to its recorded state, if it is inside the project. */
    method UndoEntry(u: nat, j: nat, root: FilePath, changedSoFar: nat, crash: Option<nat>, garbage: Bytes)
        returns (done: bool, changed: nat)
      requires Valid() && u in turns && turns[u].manifest.Some? && j < |turns[u].manifest.value|
      modifies this`files
      ensures var e := Store()[u][j];
        && (done ==> files == if Within(root, e.path) then Put(old(files), e.path, e.prior) else old(files))
        && (done ==> changed == changedSoFar + if Within(root, e.path) then 1 else 0)
        && (forall p :: p != e.path || !Within(root, p) ==> At(files, p) == At(old(files), p))
      ensures !done ==> crash == Some(changed)
    {
      var entry := turns[u].manifest.value[j];
      ghost var e := Store()[u][j];
      assert e == DecodeEntry(entry, turns[u].blobs) && Readable(entry, turns[u].blobs);
      changed := changedSoFar;
      var inside := IsWithinRoot(root, entry.path);
      if !inside {
        return true, changed;
      }
      if crash == Some(changed) {
        if entry.existedBefore {
          files := files[entry.path := garbage];
        }
        return false, changed;
      }
      if !entry.existedBefore {
        files := files - {entry.path};
      } else {
        files := files[entry.path := turns[u].blobs[entry.blob.value].value];
      }
      changed := changed + 1;
      done := true;
    }

    /** Undo one turn, entry by entry. */
    method UndoTurn(u: nat, target: nat, root: FilePath, changedSoFar: nat, crash: Option<nat>, garbage: Bytes,
            ghost before: Files)
        returns (done: bool, changed: nat)
      requires Valid() && u in turns && turns[u].manifest.Some? && u > target
      requires UndoneTo(files, before, Store(), root, u) && Spares(files, before, Store(), root, target)
      modifies this`files
      ensures done ==> UndoneInto(files, before, Store(), root, u, Store()[u])
      ensures Spares(files, before, Store(), root, target)
      ensures done ==> changed == changedSoFar + CountInside(Store()[u], root)
      ensures !done ==> crash == Some(changed)
    {
      ghost var m := Store()[u];
      changed := changedSoFar;
      assert m[..0] == [];
      for j := 0 to |turns[u].manifest.value|
        invariant UndoneInto(files, before, Store(), root, u, m[..j])
        invariant Spares(files, before, Store(), root, target)
        invariant changed == changedSoFar + CountInside(m[..j], root)
      {
        ghost var now := files;
        done, changed := UndoEntry(u, j, root, changed, crash, garbage);
        EntrySpares(now, files, before, Store(), root, target, u, j);
        if !done {
          return;
        }
        EntryUndone(now, before, Store(), root, u, m, j, files);
        CountNext(m, root, j);
      }
      assert m[..|m|] == m;
      done := true;
    }

    /** Undo every turn above `target`, newest first. Inside the project root this is `Restore`, and outside
        it nothing changes; every entry acted on is counted. The process may die after so many file operations,
        the next one leaving `garbage` behind: even then only paths have changed that a restore puts right
        whatever they hold. */
    method RestoreTo(target: nat, root: FilePath, crash: Option<nat>, garbage: Bytes) returns (done: bool, changed: nat)
      requires Valid()
      modifies this`files
      ensures done ==> UndoneTo(files, old(files), Store(), root, target)
      ensures Spares(files, old(files), Store(), root, target)
      ensures if done then changed == |Acted(Store(), root, target)| else crash == Some(changed)
    {
      ghost var store, before := Store(), files;
      changed := 0;
      var ts := Descending(set u | u in turns && u > target);
      NothingUndone(files, store, root, if |ts| > 0 then ts[0] else target, turns.Keys, target, ts);
      var k := 0;
      while k < |ts|
        invariant 0 <= k <= |ts|
        invariant UndoneTo(files, before, store, root, if k < |ts| then ts[k] else target)
        invariant Spares(files, before, store, root, target)
        invariant changed == CountTurns(store, root, ts[..k])
      {
        assert ts[..k + 1][..k] == ts[..k];
        ghost var u, b: int := ts[k], if k + 1 < |ts| then ts[k + 1] else target;
        NextTurn(ts, turns.Keys, store, target, k, b);
        if turns[ts[k]].manifest.Some? {
          done, changed := UndoTurn(ts[k], target, root, changed, crash, garbage, before);
          if !done {
            return;
          }
        }
        TurnUndone(files, before, store, root, u, b);
        k := k + 1;
      }
      assert ts[..k] == ts;
      AllActed(store, root, target, ts, turns.Keys);
      done := true;
    }

    /** Remove the directories of all turns from `from` on, in the order the directory happens to list them.
        The removal that follows the `fault` first ones may fail, with the manifest of that turn `unlinked`
        already or not; the others are then not tried. So of the later turns any part may be gone. */
    method RemoveTurns(from: nat, fault: Option<nat>, unlinked: bool)
        returns (deleted: Option<nat>, ghost gone: set<nat>)
      modifies this`turns
      ensures Remain(old(turns), turns, gone, from)
      ensures deleted.Some? ==> deleted.value == |gone| && turns.Keys == (set u | u in old(turns) && u < from)
      ensures deleted.None? ==> fault.Some? && exists u :: u in turns && u >= from
    {
      ghost var before := turns;
      var todo := turns.Keys;
      var count := 0;
      gone := {};
      while todo != {}
        invariant todo <= before.Keys
        invariant forall u :: u in turns <==> u in before && u !in gone
        invariant forall u :: u in turns ==> turns[u] == before[u]
        invariant forall u :: u in gone <==> u in before && u >= from && u !in todo
        invariant count == |gone|
        decreases |todo|
      {
        var t :| t in todo;
        if t >= from && fault == Some(count) {
          if unlinked {
            turns := turns[t := turns[t].(manifest := None)];
            gone := gone + {t};
          }
          return None, gone;
        }
        todo := todo - {t};
        if t >= from {
          turns := turns - {t};
          gone := gone + {t};
          count := count + 1;
        }
      }
      deleted := Some(count);
    }

    /** What is left of the store, when all of it went and when not. */
    method DeleteFrom(from: nat, fault: Option<nat>, unlinked: bool)
        returns (deleted: Option<nat>, ghost gone: set<nat>)
      requires Valid()
      modifies this`turns
      ensures Valid() && Store() == old(Store()) - gone && forall u :: u in gone ==> u >= from
      ensures deleted.Some? ==> Store() == Pruned(old(Store()), from) && deleted.value == |gone|
      ensures deleted.Some? ==> turns.Keys == (set u | u in old(turns) && u < from)
      ensures deleted.None? ==> fault.Some? && exists u :: u in turns && u >= from
      ensures Remain(old(turns), turns, gone, from)
    {
      ghost var before := turns;
      deleted, gone := RemoveTurns(from, fault, unlinked);
      TurnsLeft(before, turns, gone, from);
      if deleted.Some? {
        AllGone(before, turns, from);
      }
    }

    /** What the restore command does: restore, and if that got to its end, prune what was undone, whether or
        not that succeeds. A restore that died leaves the store alone, and has changed only what a restore
        would; a prune that succeeded makes this one `Rewind` of the history; one that failed may leave any
        part of the undone turns. */
    method GoBack(target: nat, root: FilePath, crash: Option<nat>, garbage: Bytes, fault: Option<nat>, unlinked: bool)
        returns (done: bool, ghost gone: set<nat>)
      requires Valid() && AllWithin(root, Store())
      modifies this`files, this`turns
      ensures Valid()
      ensures done ==> files == Restore(old(files), old(Store()), target)
      ensures Store() == old(Store()) - gone && forall u :: u in gone ==> u > target
      ensures done && fault.None? ==> Store() == Pruned(old(Store()), target + 1)
      ensures !done ==> crash.Some? && gone == {} && turns == old(turns)
      ensures !done ==> forall p :: !TouchedAbove(Store(), target, p) ==> At(files, p) == At(old(files), p)
    {
      ghost var before, store := files, Store();
      gone := {};
      var changed;
      done, changed := RestoreTo(target, root, crash, garbage);
      if done {
        UndoneIsRestored(files, before, store, root, target);
        var deleted;
        deleted, gone := DeleteFrom(target + 1, fault, unlinked);
      }
    }

    /** The turns that have a manifest, oldest first. */
    method List() returns (infos: seq<TurnInfo>)
      requires Valid()
      ensures Listing(infos, Store(), [])
    {
      ghost var store := Store();
      infos := [];
      var ts := Descending(turns.Keys);
      var k := |ts|;
      assert ts[..k] == ts;
      while k > 0
        invariant 0 <= k <= |ts|
        invariant Listing(infos, store, ts[..k])
      {
        k := k - 1;
        assert ts[..k + 1] == ts[..k] + [ts[k]];
        assert ts[k] in ts;
        var more := infos;
        if turns[ts[k]].manifest.Some? {
          more := infos + [InfoOf(ts[k], turns[ts[k]].manifest.value)];
        }
        ListsNext(infos, store, ts[..k], ts[k], InfoOf(ts[k], EntriesOf(turns[ts[k]])), more);
        infos := more;
      }
      assert ts[..0] == [];
    }

    /** Both sides of one entry: blob or nothing, file or nothing. */
    method BothSides(turn: nat, i: nat) returns (prior: Bytes, current: Bytes)
      requires Valid() && turn in turns && turns[turn].manifest.Some? && i < |turns[turn].manifest.value|
      ensures var e := Store()[turn][i];
        && prior == (if e.prior.Held? then e.prior.bytes else [])
        && current == (if e.path in files then files[e.path] else [])
    {
      var entry := turns[turn].manifest.value[i];
      assert Store()[turn][i] == DecodeEntry(entry, turns[turn].blobs) && Readable(entry, turns[turn].blobs);
      prior := if entry.blob.Some? then turns[turn].blobs[entry.blob.value].value else [];
      current := if entry.path in files then files[entry.path] else [];
    }

    /** One entry of a turn's diff: nothing, if the file is as it was. */
    method DiffEntry(turn: nat, i: nat, textOf: Bytes -> Text, pathText: FilePath -> string, diff: TurnDiff)
        returns (more: TurnDiff)
      requires Valid() && turn in turns && turns[turn].manifest.Some? && i < |turns[turn].manifest.value|
      requires TurnShown(diff, files, Store()[turn][..i], textOf, pathText)
      ensures TurnShown(more, files, Store()[turn][..i + 1], textOf, pathText)
    {
      ghost var m := Store()[turn];
      var prior, current := BothSides(turn, i);
      more := diff;
      ghost var share := NO_DIFF;
      if prior != current {
        more, share := DiffFile(pathText(turns[turn].manifest.value[i].path), textOf(prior), textOf(current), diff);
      }
      ShownNext(diff, share, files, m, i, textOf, pathText);
    }

    /** Prior against present, for one turn. */
    method DiffTurn(turn: nat, textOf: Bytes -> Text, pathText: FilePath -> string)
        returns (found: bool, diff: TurnDiff)
      requires Valid()
      ensures found <==> turn in Store()
      ensures if found then TurnShown(diff, files, Store()[turn], textOf, pathText) else diff == NO_DIFF
    {
      diff := NO_DIFF;
      found := turn in turns && turns[turn].manifest.Some?;
      if !found {
        return;
      }
      ghost var m := Store()[turn];
      ShownNone(files, m[..0], textOf, pathText);
      for i := 0 to |turns[turn].manifest.value|
        invariant TurnShown(diff, files, m[..i], textOf, pathText)
      {
        diff := DiffEntry(turn, i, textOf, pathText, diff);
      }
      assert m[..|m|] == m;
    }

    static method DiffFile(path: string, prior: Text, current: Text, diff: TurnDiff)
        returns (more: TurnDiff, ghost share: TurnDiff)
      ensures more == Plus(diff, share)
      ensures share.filesChanged == 1 && Says(share.text, path, prior, current, share.insertions, share.deletions)
    {
      var text, ins, del;
      ghost var says;
      text, ins, del, says := UnifiedFileDiff(path, prior, current, diff.text, diff.insertions, diff.deletions);
      share := TurnDiff(says, 1, ins - diff.insertions, del - diff.deletions);
      more := TurnDiff(text, diff.filesChanged + 1, ins, del);
    }
  }
}
