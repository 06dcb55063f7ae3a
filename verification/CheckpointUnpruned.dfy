/** What restoring is worth when undone turns were not pruned, or not all of them. The restore command drops
    the error of the prune (apps/desktop/src-tauri/src/agent_bridge/commands.rs), so stale manifests of turns
    that were undone can stay behind, and later turns use their numbers again. */
module CheckpointUnpruned {
  import opened CheckpointHistory

  ghost predicate Exact(w: World, t: nat)
  {
    Restore(w.files, w.store, t) == w.snap(t)
  }

  /** Restoring to `t` would change nothing. */
  ghost predicate Settled(files: Files, store: Store, t: nat)
  {
    forall p :: RestoredAt(files, store, t, p) == At(files, p)
  }

  lemma SettledMeans(files: Files, store: Store, t: nat)
    ensures Settled(files, store, t) <==> Restore(files, store, t) == files
  {
    if Settled(files, store, t) {
      forall p
        ensures At(Restore(files, store, t), p) == At(files, p)
      {
        assert RestoredAt(files, store, t, p) == At(files, p);
      }
      SameFiles(Restore(files, store, t), files);
    }
    if Restore(files, store, t) == files {
      forall p
        ensures RestoredAt(files, store, t, p) == At(files, p)
      {
        assert At(Restore(files, store, t), p) == RestoredAt(files, store, t, p);
      }
    }
  }

  predicate RecordedIn(store: Store, t: nat, c: nat, p: FilePath)
  {
    exists u :: u in store && t < u <= c && Touches(store[u], p)
  }

  lemma NoneBetween(files: Files, store: Store, t: nat, c: nat, p: FilePath)
    requires t <= c && !RecordedIn(store, t, c, p)
    ensures TouchedAbove(store, c, p) <==> TouchedAbove(store, t, p)
    ensures RestoredAt(files, store, c, p) == RestoredAt(files, store, t, p)
  {
    assert forall u: nat :: TouchedAt(store, t, p, u) <==> TouchedAt(store, c, p, u);
    if TouchedAbove(store, c, p) {
      OldestIs(store, t, p, OldestAbove(store, c, p));
    }
  }

  // ---------------------------------------------------------------------------
  // Turn numbers used again
  // ---------------------------------------------------------------------------

  /** Turn numbers do not fall below the current one, and every change is recorded in its turn; but the store
      may hold anything, stale manifests of this turn and of later ones included. */
  predicate Loose(w: World, current: nat, e: Event)
  {
    && !e.Rewind? && e.turn >= current
    && (e.Write? ==> e.turn in w.store && Touches(w.store[e.turn], e.path))
  }

  ghost predicate LooseHistory(w: World, current: nat, events: seq<Event>)
    decreases |events|
  {
    events == [] || (Loose(w, current, events[0]) && LooseHistory(Happen(w, events[0]), events[0].turn, events[1..]))
  }

  ghost function AfterLoose(w: World, current: nat, events: seq<Event>): (v: World)
    requires LooseHistory(w, current, events)
    decreases |events|
  {
    if events == [] then w else AfterLoose(Happen(w, events[0]), events[0].turn, events[1..])
  }

  /** `t` can be restored, and what no turn since `t` has recorded is as it was then. */
  ghost predicate Kept(w: World, t: nat, current: nat)
  {
    && Exact(w, t)
    && forall p :: !RecordedIn(w.store, t, current, p) ==> At(w.files, p) == At(w.snap(t), p)
  }

  /** A backup may come in front of a stale entry; it then records what that entry should have held. */
  lemma LooseBackup(files: Files, store: Store, t: nat, c: nat, path: FilePath, p: FilePath)
    requires t < c
    requires !RecordedIn(store, t, c, path) ==> At(files, path) == RestoredAt(files, store, t, path)
    ensures RestoredAt(files, WithBackup(store, c, path, At(files, path)), t, p) == RestoredAt(files, store, t, p)
  {
    var m := if c in store then store[c] else [];
    var e := Entry(path, At(files, path));
    var more := WithBackup(store, c, path, At(files, path));
    if !Touches(m, path) {
      TouchesMore(m, e, p);
      assert forall u | u != c :: TouchedAt(more, t, p, u) <==> TouchedAt(store, t, p, u);
      assert more[c] == m + [e];
      if Touches(m, p) {
        PriorKept(m, e, p);
      }
      if p == path && !RecordedIn(store, t, c, p) {
        FirstRecord(store, more, t, c, p);
        PriorAdded(m, e);
      } else {
        SameOldest(store, more, t, c, p);
      }
    }
  }

  lemma FirstRecord(store: Store, more: Store, t: nat, c: nat, p: FilePath)
    requires t < c && !RecordedIn(store, t, c, p) && c in more && Touches(more[c], p)
    requires forall u | u != c :: TouchedAt(more, t, p, u) <==> TouchedAt(store, t, p, u)
    ensures TouchedAbove(more, t, p) && OldestAbove(more, t, p) == c
  {
    assert TouchedAt(more, t, p, c);
    OldestIs(more, t, p, c);
  }

  lemma SameOldest(store: Store, more: Store, t: nat, c: nat, p: FilePath)
    requires t < c && c in more
    requires forall u | u != c :: TouchedAt(more, t, p, u) <==> TouchedAt(store, t, p, u)
    requires RecordedIn(store, t, c, p) || (Touches(more[c], p) <==> c in store && Touches(store[c], p))
    requires c in store && Touches(store[c], p) ==> Touches(more[c], p)
    ensures TouchedAbove(more, t, p) <==> TouchedAbove(store, t, p)
    ensures TouchedAbove(store, t, p) ==> OldestAbove(more, t, p) == OldestAbove(store, t, p)
  {
    if TouchedAbove(store, t, p) {
      var u := OldestAbove(store, t, p);
      if RecordedIn(store, t, c, p) {
        var v :| v in store && t < v <= c && Touches(store[v], p);
        assert TouchedAt(store, t, p, v);
      }
      assert TouchedAt(more, t, p, u);
      OldestIs(more, t, p, u);
    }
    if TouchedAbove(more, t, p) {
      var u := OldestAbove(more, t, p);
      if u != c {
        assert TouchedAt(store, t, p, u);
      } else if RecordedIn(store, t, c, p) {
        var v :| v in store && t < v <= c && Touches(store[v], p);
        assert TouchedAt(store, t, p, v);
      } else {
        assert TouchedAt(store, t, p, c);
      }
    }
  }

  lemma StillRecorded(w: World, t: nat, current: nat, e: Event, p: FilePath)
    requires Loose(w, current, e) && RecordedIn(w.store, t, current, p)
    ensures RecordedIn(Happen(w, e).store, t, e.turn, p)
  {
    var u :| u in w.store && t < u <= current && Touches(w.store[u], p);
    var v := Happen(w, e);
    if e.Backup? && u == e.turn {
      TouchesMore(w.store[u], Entry(e.path, At(w.files, e.path)), p);
    }
    assert u in v.store && Touches(v.store[u], p);
  }

  lemma BackupKeepsPast(w: World, t: nat, current: nat, turn: nat, path: FilePath)
    requires Kept(w, t, current) && Loose(w, current, Backup(turn, path)) && t <= current && t < turn
    ensures Kept(Happen(w, Backup(turn, path)), t, turn)
  {
    var v := Happen(w, Backup(turn, path));
    forall p | !RecordedIn(w.store, t, turn, p)
      ensures At(w.files, p) == At(w.snap(t), p)
    {
      assert !RecordedIn(w.store, t, current, p);
    }
    assert At(Restore(w.files, w.store, t), path) == RestoredAt(w.files, w.store, t, path);
    forall p
      ensures At(Restore(v.files, v.store, t), p) == At(Restore(w.files, w.store, t), p)
    {
      LooseBackup(w.files, w.store, t, turn, path, p);
    }
    SameFiles(Restore(v.files, v.store, t), Restore(w.files, w.store, t));
    forall p | !RecordedIn(v.store, t, turn, p)
      ensures At(v.files, p) == At(v.snap(t), p)
    {
      if RecordedIn(w.store, t, current, p) {
        StillRecorded(w, t, current, Backup(turn, path), p);
      }
    }
  }

  lemma WriteKeepsPast(w: World, t: nat, current: nat, turn: nat, path: FilePath, state: Prior)
    requires Kept(w, t, current) && Loose(w, current, Write(turn, path, state)) && t <= current && t < turn
    ensures Kept(Happen(w, Write(turn, path, state)), t, turn)
  {
    var v := Happen(w, Write(turn, path, state));
    assert TouchedAt(w.store, t, path, turn);
    RestoreForgets(v.files, w.files, w.store, t);
    forall p | !RecordedIn(v.store, t, turn, p)
      ensures At(v.files, p) == At(v.snap(t), p)
    {
      if RecordedIn(w.store, t, current, p) {
        StillRecorded(w, t, current, Write(turn, path, state), p);
      }
    }
  }

  /** Once a turn's end can be restored it stays so, whatever later turns do: neither their writes nor their
      backups, stale manifests or not, take it away. */
  lemma {:induction false} PastStaysExact(w: World, t: nat, current: nat, events: seq<Event>)
    requires Kept(w, t, current) && t <= current && LooseHistory(w, current, events)
    requires forall i :: 0 <= i < |events| ==> events[i].turn > t
    ensures Exact(AfterLoose(w, current, events), t)
    decreases |events|
  {
    if events != [] {
      match events[0] {
        case Backup(turn, path) => BackupKeepsPast(w, t, current, turn, path);
        case Write(turn, path, state) => WriteKeepsPast(w, t, current, turn, path, state);
        case Rewind(_) => assert false;
      }
      PastStaysExact(Happen(w, events[0]), t, events[0].turn, events[1..]);
    }
  }

  /** A turn whose end can be restored when it ends is such a turn. */
  lemma EndOfTurn(w: World, t: nat)
    requires w.snap(t) == w.files
    ensures Kept(w, t, t) <==> Settled(w.files, w.store, t)
  {
    SettledMeans(w.files, w.store, t);
  }

  /** And it can be unless it wrote where a stale later turn has a record: one write keeps the present
      restorable exactly if no later turn has recorded the path, or the write changes nothing. */
  lemma WriteKeepsPresentIff(files: Files, store: Store, t: nat, path: FilePath, state: Prior)
    requires Settled(files, store, t)
    ensures Settled(Put(files, path, state), store, t) <==> !TouchedAbove(store, t, path) || state == At(files, path)
  {
    var next := Put(files, path, state);
    assert RestoredAt(files, store, t, path) == At(files, path);
    if TouchedAbove(store, t, path) {
      assert RestoredAt(next, store, t, path) == RestoredAt(files, store, t, path);
    }
    if !TouchedAbove(store, t, path) || state == At(files, path) {
      forall p
        ensures RestoredAt(next, store, t, p) == At(next, p)
      {
        assert RestoredAt(files, store, t, p) == At(files, p);
      }
    }
  }

  // ---------------------------------------------------------------------------
  // Right after going back
  // ---------------------------------------------------------------------------

  /** The files go back to the end of `turn`; of the later turns only those in `gone` are removed. */
  ghost function WentBack(w: World, turn: nat, gone: set<nat>): (v: World)
  {
    World(Restore(w.files, w.store, turn), w.store - gone, (t: nat) => w.snap(Min(t, turn)))
  }

  lemma SnapsAfter(w: World, turn: nat, gone: set<nat>, t: nat)
    requires Undoable(w)
    ensures WentBack(w, turn, gone).snap(t) == w.snap(Min(t, turn))
    ensures w.snap(t) == Restore(w.files, w.store, t)
    ensures w.snap(turn) == WentBack(w, turn, gone).files
  {
    assert Restore(w.files, w.store, turn) == w.snap(turn);
    assert Restore(w.files, w.store, t) == w.snap(t);
  }

  ghost predicate After(gone: set<nat>, turn: nat)
  {
    forall u :: u in gone ==> u > turn
  }

  lemma LeftOldest(files: Files, store: Store, less: Store, gone: set<nat>, turn: nat, t: nat, p: FilePath)
    requires After(gone, turn) && less == store - gone && t <= turn && RecordedIn(store, t, turn, p)
    ensures RestoredAt(files, less, t, p) == RestoredAt(files, store, t, p)
  {
    var v :| v in store && t < v <= turn && Touches(store[v], p);
    assert TouchedAt(store, t, p, v);
    var u := OldestAbove(store, t, p);
    assert u <= turn && u in less;
    assert forall x: nat :: TouchedAt(less, t, p, x) ==> TouchedAt(store, t, p, x);
    assert TouchedAt(less, t, p, u);
    OldestIs(less, t, p, u);
  }

  lemma ForgetsFiles(files: Files, other: Files, store: Store, turn: nat, t: nat, p: FilePath)
    requires t <= turn && RecordedIn(store, t, turn, p)
    ensures RestoredAt(files, store, t, p) == RestoredAt(other, store, t, p)
  {
    var v :| v in store && t < v <= turn && Touches(store[v], p);
    assert TouchedAt(store, t, p, v);
  }

  lemma PastAfterSettling(w: World, turn: nat, gone: set<nat>, t: nat)
    requires Undoable(w) && After(gone, turn) && t <= turn
    requires Settled(WentBack(w, turn, gone).files, WentBack(w, turn, gone).store, turn)
    ensures Exact(WentBack(w, turn, gone), t)
  {
    var v := WentBack(w, turn, gone);
    forall p
      ensures RestoredAt(v.files, v.store, t, p) == RestoredAt(w.files, w.store, t, p)
    {
      if RecordedIn(w.store, t, turn, p) {
        LeftOldest(v.files, w.store, v.store, gone, turn, t, p);
        ForgetsFiles(v.files, w.files, w.store, turn, t, p);
      } else {
        assert !RecordedIn(v.store, t, turn, p);
        NoneBetween(v.files, v.store, t, turn, p);
        NoneBetween(w.files, w.store, t, turn, p);
        assert RestoredAt(v.files, v.store, turn, p) == At(v.files, p);
      }
    }
    forall p
      ensures At(Restore(v.files, v.store, t), p) == At(Restore(w.files, w.store, t), p)
    {
      assert RestoredAt(v.files, v.store, t, p) == RestoredAt(w.files, w.store, t, p);
    }
    SameFiles(Restore(v.files, v.store, t), Restore(w.files, w.store, t));
    SnapsAfter(w, turn, gone, t);
  }

  /** However much was pruned, all turns up to the one gone back to can still be restored exactly if going
      back to it once more would change nothing. */
  lemma PastAfterGoingBackIff(w: World, turn: nat, gone: set<nat>)
    requires Undoable(w) && After(gone, turn)
    ensures var v := WentBack(w, turn, gone);
      (forall t: nat | t <= turn :: Exact(v, t)) <==> Settled(v.files, v.store, turn)
  {
    var v := WentBack(w, turn, gone);
    SettledMeans(v.files, v.store, turn);
    SnapsAfter(w, turn, gone, turn);
    if Settled(v.files, v.store, turn) {
      forall t: nat | t <= turn
        ensures Exact(v, t)
      {
        PastAfterSettling(w, turn, gone, t);
      }
    }
    assert (forall t: nat | t <= turn :: Exact(v, t)) ==> Exact(v, turn);
  }

  /** With a turn every later one was removed as well. */
  ghost predicate NewestFirst(turns: set<nat>, gone: set<nat>)
  {
    forall u, v :: u in gone && v in turns && u < v ==> v in gone
  }

  /** Whatever the turns hold. */
  ghost predicate AlwaysSettles(turns: set<nat>, gone: set<nat>, turn: nat)
  {
    forall files, store: Store :: store.Keys == turns ==> Settled(Restore(files, store, turn), store - gone, turn)
  }

  lemma NewestFirstSettles(files: Files, store: Store, gone: set<nat>, turn: nat)
    requires NewestFirst(store.Keys, gone)
    ensures Settled(Restore(files, store, turn), store - gone, turn)
  {
    var back, less := Restore(files, store, turn), store - gone;
    forall p
      ensures RestoredAt(back, less, turn, p) == At(back, p)
    {
      assert forall u: nat :: TouchedAt(less, turn, p, u) ==> TouchedAt(store, turn, p, u);
      if TouchedAbove(less, turn, p) {
        var u := OldestAbove(less, turn, p);
        assert TouchedAt(store, turn, p, u);
        var first := OldestAbove(store, turn, p);
        assert first !in gone;
        assert TouchedAt(less, turn, p, first);
      }
    }
  }

  /** Turn `u` moved a file away from `a`, `v` away from `b`: with the record of `u` gone only `b` is left. */
  function TwoMoves(turns: set<nat>, u: nat, v: nat, p: FilePath, a: Bytes, b: Bytes): (store: Store)
  {
    map x | x in turns :: if x == u then [Entry(p, Held(a))] else if x == v then [Entry(p, Held(b))] else []
  }

  lemma OnlyEntry(store: Store, x: nat, p: FilePath, bytes: Bytes)
    requires x in store && store[x] == [Entry(p, Held(bytes))]
    ensures Touches(store[x], p) && PriorIn(store[x], p) == Held(bytes)
  {
    assert store[x][0].path == p;
  }

  lemma OldestFirstFails(turns: set<nat>, gone: set<nat>, turn: nat, u: nat, v: nat)
    requires u in gone && u in turns && v in turns && v !in gone && turn < u < v
    ensures var store := TwoMoves(turns, u, v, [], [], [0]);
      !Settled(Restore(map[], store, turn), store - gone, turn)
  {
    var p: FilePath := [];
    var store := TwoMoves(turns, u, v, p, [], [0]);
    var less := store - gone;
    OnlyEntry(store, u, p, []);
    OnlyEntry(store, v, p, [0]);
    assert TouchedAt(store, turn, p, u);
    OldestIs(store, turn, p, u);
    assert TouchedAt(less, turn, p, v);
    OldestIs(less, turn, p, v);
    assert RestoredAt(Restore(map[], store, turn), less, turn, p) == Held([0]);
    assert At(Restore(map[], store, turn), p) == Held([]);
  }

  /** A prune that stops half-way is harmless, whatever the turns hold, exactly if it went newest first; none
      at all and a whole one are such. */
  lemma PruneOrderMatters(turns: set<nat>, gone: set<nat>, turn: nat)
    requires After(gone, turn) && gone <= turns
    ensures AlwaysSettles(turns, gone, turn) <==> NewestFirst(turns, gone)
  {
    if NewestFirst(turns, gone) {
      forall files, store: Store | store.Keys == turns
        ensures Settled(Restore(files, store, turn), store - gone, turn)
      {
        NewestFirstSettles(files, store, gone, turn);
      }
    } else {
      var u, v :| u in gone && v in turns && u < v && v !in gone;
      OldestFirstFails(turns, gone, turn, u, v);
      assert TwoMoves(turns, u, v, [], [], [0]).Keys == turns;
    }
  }

  /** A later turn, undone but not pruned, is restored right after going back exactly if the files recorded
      above it are the same at its end and at the turn gone back to. */
  lemma StaleTurnExactIff(w: World, turn: nat, t: nat)
    requires Undoable(w) && turn < t
    ensures Exact(WentBack(w, turn, {}), t)
      <==> forall p :: TouchedAbove(w.store, t, p) ==> At(w.snap(t), p) == At(w.snap(turn), p)
  {
    var v := WentBack(w, turn, {});
    assert v.store == w.store;
    SnapsAfter(w, turn, {}, t);
    SettledMeans(v.files, v.store, t);
    forall p
      ensures RestoredAt(v.files, v.store, t, p) == if TouchedAbove(w.store, t, p) then At(w.snap(t), p)
        else At(w.snap(turn), p)
    {
      assert At(w.snap(t), p) == RestoredAt(w.files, w.store, t, p);
    }
  }

  lemma RecordLeft(store: Store, gone: set<nat>, turn: nat, t: nat, p: FilePath)
    requires After(gone, turn) && RecordedIn(store, t, turn, p)
    ensures RecordedIn(store - gone, t, turn + 1, p)
  {
    var u :| u in store && t < u <= turn && Touches(store[u], p);
    assert u in store - gone && Touches((store - gone)[u], p);
  }

  lemma KeptAfterGoingBack(w: World, turn: nat, gone: set<nat>, t: nat)
    requires Undoable(w) && t <= turn && After(gone, turn) && NewestFirst(w.store.Keys, gone)
    ensures Kept(WentBack(w, turn, gone), t, turn + 1)
  {
    var v := WentBack(w, turn, gone);
    NewestFirstSettles(w.files, w.store, gone, turn);
    PastAfterSettling(w, turn, gone, t);
    SnapsAfter(w, turn, gone, t);
    forall p | !RecordedIn(v.store, t, turn + 1, p)
      ensures At(v.files, p) == At(v.snap(t), p)
    {
      if RecordedIn(w.store, t, turn, p) {
        RecordLeft(w.store, gone, turn, t, p);
      } else {
        NoneBetween(w.files, w.store, t, turn, p);
      }
    }
  }

  lemma {:induction false} TurnsRise(w: World, current: nat, events: seq<Event>)
    requires LooseHistory(w, current, events)
    ensures forall i :: 0 <= i < |events| ==> events[i].turn >= current
    decreases |events|
  {
    if events != [] {
      TurnsRise(Happen(w, events[0]), events[0].turn, events[1..]);
    }
  }

  /** So with no pruning, or one that went newest first as far as it went: every turn up to the one gone back
      to can be restored for ever after, through any later turns, whether their numbers are new or used again. */
  lemma PastIsSafe(w: World, turn: nat, gone: set<nat>, t: nat, events: seq<Event>)
    requires Undoable(w) && t <= turn && After(gone, turn) && NewestFirst(w.store.Keys, gone)
    requires LooseHistory(WentBack(w, turn, gone), turn + 1, events)
    ensures Exact(AfterLoose(WentBack(w, turn, gone), turn + 1, events), t)
  {
    KeptAfterGoingBack(w, turn, gone, t);
    TurnsRise(WentBack(w, turn, gone), turn + 1, events);
    PastStaysExact(WentBack(w, turn, gone), t, turn + 1, events);
  }

  // ---------------------------------------------------------------------------
  // A restore that died and was not run again
  // ---------------------------------------------------------------------------

  /** The restore to `turn` stopped somewhere: nothing was changed but what later turns have recorded. */
  ghost predicate DiedOnTheWay(w: World, turn: nat, files: Files)
  {
    forall p :: !TouchedAbove(w.store, turn, p) ==> At(files, p) == At(w.files, p)
  }

  /** It stands for the end of the turn that was current, whatever its files are. */
  ghost function Abandoned(w: World, files: Files, current: nat): (v: World)
  {
    World(files, w.store, (t: nat) => if t >= current then files else w.snap(t))
  }

  /** The turns up to the one that was aimed at can be restored for ever after, through any later turns. */
  lemma DiedRestoreIsSafe(w: World, turn: nat, files: Files, current: nat, t: nat, events: seq<Event>)
    requires Undoable(w) && DiedOnTheWay(w, turn, files) && NoTurnAfter(w.store, current)
    requires t <= turn && t < current && LooseHistory(Abandoned(w, files, current), current, events)
    ensures Exact(AfterLoose(Abandoned(w, files, current), current, events), t)
  {
    var v := Abandoned(w, files, current);
    assert w.snap(t) == Restore(w.files, w.store, t) && v.snap(t) == w.snap(t);
    AbandonedKept(w, turn, files, current, t);
    TurnsRise(v, current, events);
    PastStaysExact(v, t, current, events);
  }

  lemma AbandonedKept(w: World, turn: nat, files: Files, current: nat, t: nat)
    requires Undoable(w) && DiedOnTheWay(w, turn, files) && NoTurnAfter(w.store, current)
    requires t <= turn && t < current
    ensures Kept(Abandoned(w, files, current), t, current)
  {
    var v := Abandoned(w, files, current);
    assert w.snap(t) == Restore(w.files, w.store, t) && v.snap(t) == w.snap(t);
    forall p | !TouchedAbove(w.store, t, p)
      ensures At(files, p) == At(w.files, p)
    {
      assert forall u: nat :: TouchedAt(w.store, turn, p, u) ==> TouchedAt(w.store, t, p, u);
    }
    RestoreForgets(files, w.files, w.store, t);
    forall p | !RecordedIn(v.store, t, current, p)
      ensures At(v.files, p) == At(v.snap(t), p)
    {
      NoneBetween(w.files, w.store, t, current, p);
      NothingAbove(w.store, current, p);
      assert At(Restore(w.files, w.store, t), p) == RestoredAt(w.files, w.store, t, p);
    }
  }

  /** A turn after it can be restored, right after the crash, exactly if every path that no still later turn has
      recorded was left as it was. */
  lemma DiedRestoreExactIff(w: World, turn: nat, files: Files, t: nat)
    requires Undoable(w) && DiedOnTheWay(w, turn, files)
    ensures Restore(files, w.store, t) == w.snap(t)
      <==> forall p :: !TouchedAbove(w.store, t, p) ==> At(files, p) == At(w.files, p)
  {
    assert w.snap(t) == Restore(w.files, w.store, t);
    if forall p :: !TouchedAbove(w.store, t, p) ==> At(files, p) == At(w.files, p) {
      RestoreForgets(files, w.files, w.store, t);
    }
    if Restore(files, w.store, t) == w.snap(t) {
      forall p | !TouchedAbove(w.store, t, p)
        ensures At(files, p) == At(w.files, p)
      {
        assert At(Restore(files, w.store, t), p) == At(Restore(w.files, w.store, t), p);
      }
    }
  }

  /** Going back without pruning, and using the turn numbers again, loses work: turn 2 moved `p` from `a`
      to `b`; after going back to turn 0 the new turn 1 moves it to `c`; and restoring to turn 1, which
      should keep that, brings back `a`. */
  lemma PruningIsNeeded(p: FilePath, a: Bytes, b: Bytes, c: Bytes)
    requires a != c
    ensures var first := World(map[p := b], map[2 := [Entry(p, Held(a))]], (t: nat) => map[p := b]);
      var back := first.(files := Restore(first.files, first.store, 0));
      var store := WithBackup(back.store, 1, p, At(back.files, p));
      var files := Put(back.files, p, Held(c));
      Restore(files, store, 1) != files
  {
    var store0: Store := map[2 := [Entry(p, Held(a))]];
    assert store0[2][0].path == p;
    assert TouchedAt(store0, 0, p, 2);
    PriorIs(store0[2], 0);
    OldestIs(store0, 0, p, 2);
    var back := Restore(map[p := b], store0, 0);
    assert At(back, p) == Held(a);
    var store := WithBackup(store0, 1, p, Held(a));
    var files := Put(back, p, Held(c));
    assert store[2] == store0[2];
    assert TouchedAt(store, 1, p, 2);
    OldestIs(store, 1, p, 2);
    assert At(Restore(files, store, 1), p) == Held(a);
    assert At(files, p) == Held(c);
  }
}
