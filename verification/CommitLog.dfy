/** Any number of finalizers on one Merkle key, each in its own load / apply / save-if-unchanged loop
    (consumers/finalize_sync_consumer.go). The version token is a digest of the stored bytes, so a save goes
    through exactly when the stored tree equals the one that was loaded. */
module CommitLog {
  import opened Merkle

  datatype Agent = Ready(delta: Delta) | Holding(delta: Delta, seen: Stored)

  /** A commit: the tree before and after it. A fast-path exit is a commit that leaves the tree alone. */
  datatype Commit = Commit(delta: Delta, before: Stored, after: Stored)

  datatype Shared = Shared(store: Stored, agents: map<nat, Agent>, log: seq<Commit>)

  /** How a save goes: acknowledged, done or not done with an error, or answered as a mismatch whether or not
      there was one, with the put done or not. */
  datatype Ack = Seen | Lost | Never | Missed(put: bool)

  predicate Puts(ack: Ack)
  {
    match ack
    case Seen => true
    case Lost => true
    case Never => false
    case Missed(put) => put
  }

  /** `Leave` is a crash, a transient error, or a loop that used up its attempts; a redelivered task arrives
      again with the delta it had. */
  datatype Move = Arrive(f: nat, delta: Delta) | Load(f: nat) | Save(f: nat, ack: Ack) | Leave(f: nat)

  predicate Can(s: Shared, m: Move)
  {
    match m
    case Arrive(f, _) => f !in s.agents
    case Load(f) => f in s.agents && s.agents[f].Ready?
    case Save(f, _) => f in s.agents && s.agents[f].Holding?
    case Leave(f) => f in s.agents
  }

  ghost function Make(s: Shared, m: Move): (t: Shared)
    requires Can(s, m)
  {
    match m
    case Arrive(f, delta) => s.(agents := s.agents[f := Ready(delta)])
    case Load(f) =>
      var delta := s.agents[f].delta;
      if FastPath(s.store, delta)
      then s.(agents := s.agents - {f}, log := s.log + [Commit(delta, s.store, s.store)])
      else s.(agents := s.agents[f := Holding(delta, s.store)])
    case Save(f, ack) =>
      var Holding(delta, seen) := s.agents[f];
      var updated := Saved(Merge(LeavesOf(seen), delta));
      var written := s.store == seen && Puts(ack);
      Shared(if written then updated else s.store,
             if (ack.Seen? && s.store != seen) || ack.Missed? then s.agents[f := Ready(delta)] else s.agents - {f},
             if written then s.log + [Commit(delta, s.store, updated)] else s.log)
    case Leave(f) => s.(agents := s.agents - {f})
  }

  ghost predicate Plays(s: Shared, moves: seq<Move>)
    decreases |moves|
  {
    moves == [] || (Can(s, moves[0]) && Plays(Make(s, moves[0]), moves[1..]))
  }

  ghost function Played(s: Shared, moves: seq<Move>): (t: Shared)
    requires Plays(s, moves)
    decreases |moves|
  {
    if moves == [] then s else Played(Make(s, moves[0]), moves[1..])
  }

  function Start(store: Stored): Shared
  {
    Shared(store, map[], [])
  }

  /** The tree before the `k`-th commit, which is the present one when there are only `k`. */
  function TreeAt(s: Shared, k: nat): (st: Stored)
    requires k <= |s.log|
  {
    if k < |s.log| then s.log[k].before else s.store
  }

  /** The committed deltas applied to `m` one after the other. */
  function Replay(m: Leaves, log: seq<Commit>): (r: Leaves)
  {
    if log == [] then m else Merge(Replay(m, log[..|log| - 1]), log[|log| - 1].delta)
  }

  /** A commit is a fast-path exit, or applies its delta to the tree as it is at that very moment. */
  ghost predicate Atomic(c: Commit)
  {
    if FastPath(c.before, c.delta) then c.after == c.before
    else c.after == Saved(Merge(LeavesOf(c.before), c.delta))
  }

  /** Every commit starts from where the one before it ended. */
  predicate Linked(s: Shared, init: Stored)
  {
    && TreeAt(s, 0) == init
    && forall k :: 0 <= k < |s.log| ==> s.log[k].after == TreeAt(s, k + 1)
  }

  ghost predicate Serial(s: Shared, init: Stored)
  {
    Linked(s, init) && AllAtomic(s.log)
  }

  ghost predicate AllAtomic(log: seq<Commit>)
  {
    forall k :: 0 <= k < |log| ==> Atomic(log[k])
  }

  ghost predicate NeedsIt(a: Agent)
  {
    a.Holding? ==> !FastPath(a.seen, a.delta)
  }

  ghost predicate HoldersNeedIt(s: Shared)
  {
    forall f :: f in s.agents ==> NeedsIt(s.agents[f])
  }

  lemma CommitKeepsLinks(s: Shared, init: Stored, c: Commit, t: Shared)
    requires Linked(s, init) && c.before == s.store
    requires t.log == s.log + [c] && t.store == c.after
    ensures Linked(t, init)
  {
    forall k | 0 <= k < |t.log|
      ensures t.log[k].after == TreeAt(t, k + 1)
    {
      if k < |s.log| {
        assert t.log[k] == s.log[k] && TreeAt(t, k + 1) == TreeAt(s, k + 1);
      }
    }
  }

  lemma AppendAtomic(log: seq<Commit>, c: Commit)
    requires AllAtomic(log) && Atomic(c)
    ensures AllAtomic(log + [c])
  {
    forall k | 0 <= k < |log + [c]|
      ensures Atomic((log + [c])[k])
    {
      assert (log + [c])[k] == if k < |log| then log[k] else c;
    }
  }

  lemma QuietKeepsLinks(s: Shared, init: Stored, t: Shared)
    requires Linked(s, init) && t.log == s.log && t.store == s.store
    ensures Linked(t, init)
  {
    assert forall k :: 0 <= k <= |s.log| ==> TreeAt(t, k) == TreeAt(s, k);
  }

  lemma LoadIsAtomic(s: Shared, f: nat)
    requires Can(s, Load(f))
    ensures var t := Make(s, Load(f));
      if t.log == s.log then t.store == s.store && NeedsIt(t.agents[f])
      else
        && t.log == s.log + [Commit(s.agents[f].delta, s.store, t.store)]
        && Atomic(Commit(s.agents[f].delta, s.store, t.store))
  {
  }

  lemma SaveIsAtomic(s: Shared, f: nat, ack: Ack)
    requires Can(s, Save(f, ack)) && NeedsIt(s.agents[f])
    ensures var t := Make(s, Save(f, ack));
      if t.log == s.log then t.store == s.store
      else
        && t.log == s.log + [Commit(s.agents[f].delta, s.store, t.store)]
        && Atomic(Commit(s.agents[f].delta, s.store, t.store))
  {
  }

  lemma MoveKeepsSerial(s: Shared, m: Move, init: Stored)
    requires Serial(s, init) && HoldersNeedIt(s) && Can(s, m)
    ensures Serial(Make(s, m), init)
  {
    var t := Make(s, m);
    if m.Load? {
      LoadIsAtomic(s, m.f);
    } else if m.Save? {
      assert NeedsIt(s.agents[m.f]);
      SaveIsAtomic(s, m.f, m.ack);
    }
    if t.log == s.log {
      QuietKeepsLinks(s, init, t);
    } else {
      var c := Commit(s.agents[m.f].delta, s.store, t.store);
      CommitKeepsLinks(s, init, c, t);
      AppendAtomic(s.log, c);
    }
  }

  lemma MoveKeepsHolders(s: Shared, m: Move)
    requires HoldersNeedIt(s) && Can(s, m)
    ensures HoldersNeedIt(Make(s, m))
  {
    var t := Make(s, m);
    if m.Load? {
      LoadIsAtomic(s, m.f);
    }
    forall g | g in t.agents
      ensures NeedsIt(t.agents[g])
    {
      if g != m.f {
        assert g in s.agents && t.agents[g] == s.agents[g];
      }
    }
  }

  lemma {:induction false} PlayKeepsSerial(s: Shared, moves: seq<Move>, init: Stored)
    requires Serial(s, init) && HoldersNeedIt(s) && Plays(s, moves)
    ensures Serial(Played(s, moves), init)
    decreases |moves|
  {
    if moves != [] {
      MoveKeepsSerial(s, moves[0], init);
      MoveKeepsHolders(s, moves[0]);
      PlayKeepsSerial(Make(s, moves[0]), moves[1..], init);
    }
  }

  ghost predicate NoneFooled(s: Shared)
  {
    forall k :: 0 <= k < |s.log| ==> !FalseFastPath(s.log[k].before, s.log[k].delta)
  }

  lemma CommitMerges(c: Commit)
    requires Atomic(c)
    ensures LeavesOf(c.after) == Merge(LeavesOf(c.before), c.delta) <==> !FalseFastPath(c.before, c.delta)
  {
    MergeReflects(LeavesOf(c.before), c.delta);
  }

  lemma ReplayNext(m: Leaves, log: seq<Commit>, k: nat)
    requires k < |log|
    ensures Replay(m, log[..k + 1]) == Merge(Replay(m, log[..k]), log[k].delta)
  {
    assert log[..k + 1][..k] == log[..k];
  }

  lemma TruthfulCommit(m: Leaves, log: seq<Commit>, k: nat)
    requires k < |log| && Atomic(log[k]) && !FalseFastPath(log[k].before, log[k].delta)
    requires LeavesOf(log[k].before) == Replay(m, log[..k])
    ensures LeavesOf(log[k].after) == Replay(m, log[..k + 1])
  {
    ReplayNext(m, log, k);
    CommitMerges(log[k]);
  }

  lemma CommitAt(s: Shared, init: Stored, k: nat)
    requires Serial(s, init) && k < |s.log|
    ensures Atomic(s.log[k]) && s.log[k].before == TreeAt(s, k) && s.log[k].after == TreeAt(s, k + 1)
  {
  }

  lemma {:induction false} TruthfulReplay(s: Shared, init: Stored, k: nat)
    requires Serial(s, init) && NoneFooled(s) && k <= |s.log|
    ensures LeavesOf(TreeAt(s, k)) == Replay(LeavesOf(init), s.log[..k])
  {
    if k > 0 {
      TruthfulReplay(s, init, k - 1);
      CommitAt(s, init, k - 1);
      TruthfulCommit(LeavesOf(init), s.log, k - 1);
    }
  }

  lemma FooledReplay(s: Shared, init: Stored, k: nat)
    requires Serial(s, init) && k < |s.log| && FalseFastPath(s.log[k].before, s.log[k].delta)
    requires LeavesOf(TreeAt(s, k)) == Replay(LeavesOf(init), s.log[..k])
    ensures LeavesOf(TreeAt(s, k + 1)) != Replay(LeavesOf(init), s.log[..k + 1])
  {
    ReplayNext(LeavesOf(init), s.log, k);
    CommitMerges(s.log[k]);
  }

  /** No lost updates. Whatever the finalizers do, concurrently and through any crash, redelivery or lost
      acknowledgement: the stored tree is at all times the initial tree with the committed deltas applied in
      commit order, if and only if no finalizer was ever fooled by an equal root hash. */
  lemma NoLostUpdates(init: Stored, moves: seq<Move>)
    requires Plays(Start(init), moves)
    ensures var s := Played(Start(init), moves);
      NoneFooled(s) <==> forall k :: 0 <= k <= |s.log| ==> LeavesOf(TreeAt(s, k)) == Replay(LeavesOf(init), s.log[..k])
  {
    PlayKeepsSerial(Start(init), moves, init);
    var s := Played(Start(init), moves);
    if NoneFooled(s) {
      forall k | 0 <= k <= |s.log|
        ensures LeavesOf(TreeAt(s, k)) == Replay(LeavesOf(init), s.log[..k])
      {
        TruthfulReplay(s, init, k);
      }
    } else {
      var k :| 0 <= k < |s.log| && FalseFastPath(s.log[k].before, s.log[k].delta);
      if LeavesOf(TreeAt(s, k)) == Replay(LeavesOf(init), s.log[..k]) {
        FooledReplay(s, init, k);
      }
    }
  }

  /** In particular commits that neither bring a path the tree lacks nor delete one it has never get lost. */
  lemma PathKeepingCommitsAreSafe(s: Shared)
    requires forall k :: 0 <= k < |s.log| ==> KeepsPaths(LeavesOf(s.log[k].before), s.log[k].delta)
    ensures NoneFooled(s)
  {
    forall k | 0 <= k < |s.log|
      ensures !FalseFastPath(s.log[k].before, s.log[k].delta)
    {
      FastPathExact(s.log[k].before, s.log[k].delta);
    }
  }
}
