/** What checkpoints are for: restoring is the inverse of history. A project is a flat map from paths to
    bytes; a checkpoint store holds, per turn, the prior state of each path the turn touched. */
module CheckpointHistory {

  datatype Component = RootDir | CurDir | ParentDir | Normal(name: string)

  type FilePath = seq<Component>
  type Bytes = seq<bv8>
  type Files = map<FilePath, Bytes>

  datatype Prior = Absent | Held(bytes: Bytes)

  datatype Entry = Entry(path: FilePath, prior: Prior)

  type Manifest = seq<Entry>
  type Store = map<nat, Manifest>

  function At(files: Files, p: FilePath): (state: Prior)
  {
    if p in files then Held(files[p]) else Absent
  }

  function Put(files: Files, p: FilePath, state: Prior): (r: Files)
    ensures forall q :: At(r, q) == if q == p then state else At(files, q)
  {
    if state.Held? then files[p := state.bytes] else files - {p}
  }

  lemma SameFiles(a: Files, b: Files)
    requires forall p :: At(a, p) == At(b, p)
    ensures a == b
  {
    forall p
      ensures p in a <==> p in b
      ensures p in a ==> a[p] == b[p]
    {
      assert At(a, p) == At(b, p);
    }
  }

  predicate Touches(m: Manifest, p: FilePath)
  {
    exists i :: 0 <= i < |m| && m[i].path == p
  }

  /** First backup wins, so no path is listed twice. */
  predicate Unique(m: Manifest)
  {
    forall i, j :: 0 <= i < j < |m| ==> m[i].path != m[j].path
  }

  /** The state recorded for `p`. */
  function PriorIn(m: Manifest, p: FilePath): (state: Prior)
    requires Touches(m, p)
    ensures exists i :: 0 <= i < |m| && m[i].path == p && m[i].prior == state
  {
    if m[0].path == p then m[0].prior
    else
      assert exists i :: 0 <= i < |m[1..]| && m[1..][i].path == p by {
        var i :| 0 <= i < |m| && m[i].path == p;
        assert m[1..][i - 1] == m[i];
      }
      var state := PriorIn(m[1..], p);
      assert exists i :: 0 <= i < |m| && m[i].path == p && m[i].prior == state by {
        var i :| 0 <= i < |m[1..]| && m[1..][i].path == p && m[1..][i].prior == state;
        assert m[i + 1] == m[1..][i];
      }
      state
  }

  lemma PriorIs(m: Manifest, i: nat)
    requires Unique(m) && i < |m|
    ensures Touches(m, m[i].path) && PriorIn(m, m[i].path) == m[i].prior
  {
    var j :| 0 <= j < |m| && m[j].path == m[i].path && m[j].prior == PriorIn(m, m[i].path);
  }

  // ---------------------------------------------------------------------------
  // Restoring: the oldest entry above the target turn wins
  // ---------------------------------------------------------------------------

  predicate TouchedAt(store: Store, t: int, p: FilePath, u: nat)
  {
    u in store && u > t && Touches(store[u], p)
  }

  predicate TouchedAbove(store: Store, t: int, p: FilePath)
  {
    exists u :: u in store && TouchedAt(store, t, p, u)
  }

  ghost predicate IsOldestAbove(store: Store, t: int, p: FilePath, u: nat)
  {
    TouchedAt(store, t, p, u) && forall v :: TouchedAt(store, t, p, v) ==> u <= v
  }

  predicate IsLeast(u: nat, us: set<nat>)
  {
    u in us && forall v :: v in us ==> u <= v
  }

  lemma {:induction false} HasLeast(us: set<nat>)
    requires us != {}
    ensures exists u :: IsLeast(u, us)
  {
    var x :| x in us;
    var rest := us - {x};
    if rest == {} {
      assert forall v :: v in us ==> v == x || v in rest;
      assert IsLeast(x, us);
    } else {
      HasLeast(rest);
      var y :| IsLeast(y, rest);
      var u := if x < y then x else y;
      assert forall v :: v in us ==> v == x || v in rest;
      assert IsLeast(u, us);
    }
  }

  function TurnsTouching(store: Store, t: int, p: FilePath): (us: set<nat>)
  {
    set u | u in store && TouchedAt(store, t, p, u)
  }

  ghost function OldestAbove(store: Store, t: int, p: FilePath): (u: nat)
    requires TouchedAbove(store, t, p)
    ensures IsOldestAbove(store, t, p, u)
  {
    var us := TurnsTouching(store, t, p);
    assert us != {} by {
      var u :| u in store && TouchedAt(store, t, p, u);
      assert u in us;
    }
    HasLeast(us);
    assert forall v :: TouchedAt(store, t, p, v) ==> v in us;
    var u :| IsLeast(u, us);
    u
  }

  /** The state of `p` at the end of turn `t`, as the store tells it. */
  ghost function RestoredAt(files: Files, store: Store, t: int, p: FilePath): (state: Prior)
  {
    if TouchedAbove(store, t, p) then PriorIn(store[OldestAbove(store, t, p)], p) else At(files, p)
  }

  ghost function Restore(files: Files, store: Store, t: int): (r: Files)
    ensures forall p :: At(r, p) == RestoredAt(files, store, t, p)
  {
    var paths := files.Keys + set u, i | u in store && 0 <= i < |store[u]| :: store[u][i].path;
    map p | p in paths && RestoredAt(files, store, t, p).Held? :: RestoredAt(files, store, t, p).bytes
  }

  lemma OldestIs(store: Store, t: int, p: FilePath, u: nat)
    requires IsOldestAbove(store, t, p, u)
    ensures TouchedAbove(store, t, p) && OldestAbove(store, t, p) == u
  {
  }

  /** Restoring looks at the present files only where the store knows nothing: so restoring again, further
      back, or after a crash in the middle of a restore, gives what restoring at once would have given. */
  lemma RestoreForgets(files: Files, other: Files, store: Store, t: int)
    requires forall p :: !TouchedAbove(store, t, p) ==> At(files, p) == At(other, p)
    ensures Restore(files, store, t) == Restore(other, store, t)
  {
    SameFiles(Restore(files, store, t), Restore(other, store, t));
  }

  lemma RestoreTwice(files: Files, store: Store, t: int, back: int)
    requires back <= t
    ensures Restore(Restore(files, store, t), store, back) == Restore(files, store, back)
  {
    forall p | !TouchedAbove(store, back, p)
      ensures At(Restore(files, store, t), p) == At(files, p)
    {
      assert forall u :: TouchedAt(store, t, p, u) ==> TouchedAt(store, back, p, u);
    }
    RestoreForgets(Restore(files, store, t), files, store, back);
  }

  // ---------------------------------------------------------------------------
  // Histories
  // ---------------------------------------------------------------------------

  /** A tool backs a path up, or writes or removes a path; or the user goes back to the end of a turn, which
      restores and then prunes every later turn, so that their numbers are used again. */
  datatype Event =
    | Backup(turn: nat, path: FilePath)
    | Write(turn: nat, path: FilePath, state: Prior)
    | Rewind(turn: nat)

  /** `snap(t)` records the files at the end of turn `t`, as far as the history has come. */
  datatype World = World(files: Files, store: Store, snap: nat -> Files)

  /** First backup wins. */
  function WithBackup(store: Store, turn: nat, p: FilePath, state: Prior): (r: Store)
  {
    var m := if turn in store then store[turn] else [];
    if Touches(m, p) then store else store[turn := m + [Entry(p, state)]]
  }

  function Pruned(store: Store, from: nat): (r: Store)
  {
    map u | u in store && u < from :: store[u]
  }

  predicate NoTurnAfter(store: Store, turn: nat)
  {
    forall u :: u in store ==> u <= turn
  }

  /** Turn numbers do not decrease, and every change of a file is preceded by a backup in the same turn. */
  predicate Disciplined(w: World, e: Event)
  {
    match e
    case Backup(turn, _) => NoTurnAfter(w.store, turn)
    case Write(turn, path, _) => NoTurnAfter(w.store, turn) && turn in w.store && Touches(w.store[turn], path)
    case Rewind(_) => true
  }

  function Min(a: nat, b: nat): nat { if a < b then a else b }

  ghost function Happen(w: World, e: Event): (v: World)
  {
    match e
    case Backup(turn, path) => w.(store := WithBackup(w.store, turn, path, At(w.files, path)))
    case Write(turn, path, state) =>
      var files := Put(w.files, path, state);
      World(files, w.store, (t: nat) => if t >= turn then files else w.snap(t))
    case Rewind(turn) =>
      World(Restore(w.files, w.store, turn), Pruned(w.store, turn + 1), (t: nat) => w.snap(Min(t, turn)))
  }

  ghost predicate History(w: World, events: seq<Event>)
    decreases |events|
  {
    events == [] || (Disciplined(w, events[0]) && History(Happen(w, events[0]), events[1..]))
  }

  ghost function AfterEvents(w: World, events: seq<Event>): (v: World)
    requires History(w, events)
    decreases |events|
  {
    if events == [] then w else AfterEvents(Happen(w, events[0]), events[1..])
  }

  ghost function Fresh(files: Files): World
  {
    World(files, map[], (t: nat) => files)
  }

  /** The store knows every past: each turn's end can be restored, and the last one is now. */
  ghost predicate Undoable(w: World)
  {
    && (forall t: nat :: Restore(w.files, w.store, t) == w.snap(t))
    && (forall t: nat :: NoTurnAfter(w.store, t) ==> w.snap(t) == w.files)
  }

  lemma NothingAbove(store: Store, t: nat, p: FilePath)
    requires NoTurnAfter(store, t)
    ensures !TouchedAbove(store, t, p)
  {
  }

  lemma LatestIsNow(files: Files, store: Store, t: nat)
    requires NoTurnAfter(store, t)
    ensures Restore(files, store, t) == files
  {
    forall p
      ensures At(Restore(files, store, t), p) == At(files, p)
    {
      NothingAbove(store, t, p);
    }
    SameFiles(Restore(files, store, t), files);
  }

  lemma BackupRestoresSame(files: Files, store: Store, turn: nat, path: FilePath, t: nat, p: FilePath)
    requires NoTurnAfter(store, turn)
    ensures RestoredAt(files, WithBackup(store, turn, path, At(files, path)), t, p) == RestoredAt(files, store, t, p)
  {
    var m := if turn in store then store[turn] else [];
    var more := WithBackup(store, turn, path, At(files, path));
    if more != store {
      forall u | u != turn
        ensures TouchedAt(more, t, p, u) <==> TouchedAt(store, t, p, u)
      {
      }
      TouchesMore(m, Entry(path, At(files, path)), p);
      if TouchedAbove(store, t, p) {
        var u := OldestAbove(store, t, p);
        assert TouchedAt(more, t, p, u);
        assert IsOldestAbove(more, t, p, u);
        OldestIs(more, t, p, u);
        if u == turn {
          PriorKept(m, Entry(path, At(files, path)), p);
        }
      } else if TouchedAbove(more, t, p) {
        var u := OldestAbove(more, t, p);
        assert u == turn && p == path && !Touches(m, p);
        PriorAdded(m, Entry(path, At(files, path)));
      }
    }
  }

  lemma TouchesMore(m: Manifest, e: Entry, p: FilePath)
    ensures Touches(m + [e], p) <==> Touches(m, p) || e.path == p
  {
    if Touches(m, p) {
      var i :| 0 <= i < |m| && m[i].path == p;
      assert (m + [e])[i].path == p;
    }
    if e.path == p {
      assert (m + [e])[|m|].path == p;
    }
  }

  lemma {:induction false} PriorKept(m: Manifest, e: Entry, p: FilePath)
    requires Touches(m, p)
    ensures Touches(m + [e], p) && PriorIn(m + [e], p) == PriorIn(m, p)
  {
    TouchesMore(m, e, p);
    if m[0].path != p {
      assert Touches(m[1..], p) by {
        var i :| 0 <= i < |m| && m[i].path == p;
        assert m[1..][i - 1] == m[i];
      }
      PriorKept(m[1..], e, p);
      assert (m + [e])[1..] == m[1..] + [e];
    }
  }

  lemma PriorAdded(m: Manifest, e: Entry)
    requires !Touches(m, e.path)
    ensures Touches(m + [e], e.path) && PriorIn(m + [e], e.path) == e.prior
  {
    TouchesMore(m, e, e.path);
    var i :| 0 <= i < |m + [e]| && (m + [e])[i].path == e.path && (m + [e])[i].prior == PriorIn(m + [e], e.path);
    assert i == |m|;
  }

  lemma BackupKeeps(w: World, turn: nat, path: FilePath)
    requires Undoable(w) && NoTurnAfter(w.store, turn)
    ensures Undoable(Happen(w, Backup(turn, path)))
  {
    var v := Happen(w, Backup(turn, path));
    forall t: nat
      ensures Restore(v.files, v.store, t) == v.snap(t)
      ensures NoTurnAfter(v.store, t) ==> NoTurnAfter(w.store, t)
    {
      assert w.store.Keys <= v.store.Keys;
      forall p
        ensures At(Restore(v.files, v.store, t), p) == At(Restore(w.files, w.store, t), p)
      {
        BackupRestoresSame(w.files, w.store, turn, path, t, p);
      }
      SameFiles(Restore(v.files, v.store, t), Restore(w.files, w.store, t));
    }
  }

  lemma WriteKeeps(w: World, turn: nat, path: FilePath, state: Prior)
    requires Undoable(w) && Disciplined(w, Write(turn, path, state))
    ensures Undoable(Happen(w, Write(turn, path, state)))
  {
    var v := Happen(w, Write(turn, path, state));
    forall t: nat
      ensures Restore(v.files, v.store, t) == v.snap(t)
    {
      if t >= turn {
        LatestIsNow(v.files, v.store, t);
      } else {
        assert TouchedAt(w.store, t, path, turn);
        RestoreForgets(v.files, w.files, w.store, t);
      }
    }
    forall t: nat | NoTurnAfter(v.store, t)
      ensures v.snap(t) == v.files
    {
      assert turn <= t;
    }
  }

  lemma PrunedOldest(store: Store, turn: nat, t: nat, p: FilePath)
    requires t < turn
    ensures TouchedAbove(Pruned(store, turn + 1), t, p) ==>
      TouchedAbove(store, t, p) && OldestAbove(store, t, p) == OldestAbove(Pruned(store, turn + 1), t, p)
    ensures !TouchedAbove(Pruned(store, turn + 1), t, p) && TouchedAbove(store, t, p) ==>
      TouchedAbove(store, turn, p) && OldestAbove(store, t, p) == OldestAbove(store, turn, p)
  {
    var less := Pruned(store, turn + 1);
    forall u: nat
      ensures TouchedAt(less, t, p, u) <==> TouchedAt(store, t, p, u) && u <= turn
    {
    }
    if TouchedAbove(less, t, p) {
      OldestIs(store, t, p, OldestAbove(less, t, p));
    } else if TouchedAbove(store, t, p) {
      var u := OldestAbove(store, t, p);
      assert TouchedAt(store, turn, p, u);
      assert forall v :: TouchedAt(store, turn, p, v) ==> TouchedAt(store, t, p, v);
      OldestIs(store, turn, p, u);
    }
  }

  /** After going back to the end of `turn`, what is left restores as before. */
  lemma RewoundRestore(files: Files, store: Store, turn: nat, t: nat)
    ensures Restore(Restore(files, store, turn), Pruned(store, turn + 1), t) == Restore(files, store, Min(t, turn))
  {
    var back, less := Restore(files, store, turn), Pruned(store, turn + 1);
    if t >= turn {
      LatestIsNow(back, less, t);
    } else {
      forall p
        ensures RestoredAt(back, less, t, p) == RestoredAt(files, store, t, p)
      {
        PrunedOldest(store, turn, t, p);
        if !TouchedAbove(less, t, p) && !TouchedAbove(store, t, p) {
          assert !TouchedAbove(store, turn, p) by {
            assert forall u :: TouchedAt(store, turn, p, u) ==> TouchedAt(store, t, p, u);
          }
        }
      }
      SameFiles(Restore(back, less, t), Restore(files, store, t));
    }
  }

  lemma RewoundLatest(files: Files, store: Store, turn: nat, t: nat)
    requires NoTurnAfter(Pruned(store, turn + 1), t)
    ensures Restore(files, store, Min(t, turn)) == Restore(files, store, turn)
  {
    RewoundRestore(files, store, turn, t);
    LatestIsNow(Restore(files, store, turn), Pruned(store, turn + 1), t);
  }

  lemma RewoundIs(w: World, turn: nat, t: nat)
    ensures var v := Happen(w, Rewind(turn));
      && v.files == Restore(w.files, w.store, turn) && v.store == Pruned(w.store, turn + 1)
      && v.snap(t) == w.snap(Min(t, turn))
  {
  }

  lemma RewindKeeps(w: World, turn: nat)
    requires Undoable(w)
    ensures Undoable(Happen(w, Rewind(turn)))
  {
    var v := Happen(w, Rewind(turn));
    forall t: nat
      ensures Restore(v.files, v.store, t) == v.snap(t)
      ensures NoTurnAfter(v.store, t) ==> v.snap(t) == v.files
    {
      RewoundIs(w, turn, t);
      RewoundRestore(w.files, w.store, turn, t);
      if NoTurnAfter(v.store, t) {
        RewoundLatest(w.files, w.store, turn, t);
      }
      assert Restore(w.files, w.store, Min(t, turn)) == w.snap(Min(t, turn));
    }
  }

  lemma {:induction false} HistoryKeeps(w: World, events: seq<Event>)
    requires Undoable(w) && History(w, events)
    ensures Undoable(AfterEvents(w, events))
    decreases |events|
  {
    if events != [] {
      match events[0] {
        case Backup(turn, path) => BackupKeeps(w, turn, path);
        case Write(turn, path, state) => WriteKeeps(w, turn, path, state);
        case Rewind(turn) => RewindKeeps(w, turn);
      }
      HistoryKeeps(Happen(w, events[0]), events[1..]);
    }
  }

  /** Restoring is the inverse of history. After any disciplined history, of any length, with any number of
      rewinds and reused turn numbers in it, restoring to `t` returns every path to its content at the end
      of turn `t`. */
  lemma RestoreInvertsHistory(files: Files, events: seq<Event>, t: nat)
    requires History(Fresh(files), events)
    ensures var w := AfterEvents(Fresh(files), events);
      Restore(w.files, w.store, t) == w.snap(t)
  {
    forall t: nat
      ensures Restore(files, map[], t) == files
    {
      LatestIsNow(files, map[], t);
    }
    HistoryKeeps(Fresh(files), events);
  }

  // ---------------------------------------------------------------------------
  // What a restored turn looks like
  // ---------------------------------------------------------------------------

  /** Right after restoring to the turn before, every path of a turn is in its recorded prior state. */
  lemma RestoredTurnIsPrior(files: Files, store: Store, turn: nat, i: nat)
    requires turn in store && Unique(store[turn]) && i < |store[turn]|
    ensures At(Restore(files, store, turn - 1), store[turn][i].path) == store[turn][i].prior
  {
    PriorIs(store[turn], i);
    assert TouchedAt(store, turn - 1, store[turn][i].path, turn);
    OldestIs(store, turn - 1, store[turn][i].path, turn);
  }

  /** Undoing one more turn: `u` is the next turn below those already undone, `b` the next below it. */
  lemma OneTurnDown(files: Files, store: Store, u: nat, b: int, p: FilePath)
    requires b < u && forall v :: v in store && b < v ==> u <= v
    ensures RestoredAt(files, store, b, p) ==
      if u in store && Touches(store[u], p) then PriorIn(store[u], p) else RestoredAt(files, store, u, p)
  {
    if u in store && Touches(store[u], p) {
      assert TouchedAt(store, b, p, u);
      OldestIs(store, b, p, u);
    } else {
      assert forall v: nat :: TouchedAt(store, b, p, v) <==> TouchedAt(store, u, p, v);
      if TouchedAbove(store, u, p) {
        OldestIs(store, b, p, OldestAbove(store, u, p));
      }
    }
  }
}
