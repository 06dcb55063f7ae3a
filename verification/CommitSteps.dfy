/** The finalizers of one session play the commit log's game: each of their steps in the session machine is none,
    one or two moves of the log, with the same effect on the tree. */
module CommitSteps {
  import opened Merkle
  import opened SyncProtocol
  import CommitLog

  /** Deliveries that are in their commit loop. */
  function AgentsOf(finalizers: map<nat, FinalPhase>): (agents: map<nat, CommitLog.Agent>)
  {
    map f | f in finalizers && (finalizers[f].Loading? || finalizers[f].Saving?) :: AgentOf(finalizers[f])
  }

  function AgentOf(phase: FinalPhase): (agent: CommitLog.Agent)
    requires phase.Loading? || phase.Saving?
  {
    if phase.Loading? then CommitLog.Ready(phase.delta) else CommitLog.Holding(phase.delta, phase.seen)
  }

  function AckOf(reply: Reply): (ack: CommitLog.Ack)
  {
    match reply
    case Acked => CommitLog.Seen
    case Lost => CommitLog.Ack.Lost
    case Refused => CommitLog.Never
  }

  /** The loop used up its attempts with this answer. */
  predicate Exhausts(phase: FinalPhase)
    requires phase.Saving?
  {
    phase.attempt + 1 >= MAX_CAS_ATTEMPTS
  }

  /** The moves of a step. An exhausted loop leaves right after its last save. */
  ghost function MovesOf(s: State, f: nat, a: FinalStep): (moves: seq<CommitLog.Move>)
    requires FinalEnabled(s, f, a)
  {
    if a.DeliverFinal? then []
    else
      var phase := s.finalizers[f];
      match a
      case LoadResults => if EmptyDelta(DeltaOf(s)) then [] else [CommitLog.Arrive(f, DeltaOf(s))]
      case LoadTree => [CommitLog.Load(f)]
      case SaveTree(reply) =>
        if reply.Acked? && s.store != phase.seen && Exhausts(phase)
        then [CommitLog.Save(f, AckOf(reply)), CommitLog.Leave(f)]
        else [CommitLog.Save(f, AckOf(reply))]
      case SaveMissed(written) =>
        if Exhausts(phase) then [CommitLog.Save(f, CommitLog.Missed(written)), CommitLog.Leave(f)]
        else [CommitLog.Save(f, CommitLog.Missed(written))]
      case StorageDead => [CommitLog.Leave(f)]
      case _ => if phase.Loading? || phase.Saving? then [CommitLog.Leave(f)] else []
  }

  lemma NoMove(s: CommitLog.Shared)
    ensures CommitLog.Plays(s, []) && CommitLog.Played(s, []) == s
  {
  }

  lemma OneMove(s: CommitLog.Shared, m: CommitLog.Move)
    requires CommitLog.Can(s, m)
    ensures CommitLog.Plays(s, [m]) && CommitLog.Played(s, [m]) == CommitLog.Make(s, m)
  {
    NoMove(CommitLog.Make(s, m));
    assert [m][1..] == [];
  }

  lemma TwoMoves(s: CommitLog.Shared, m: CommitLog.Move, n: CommitLog.Move)
    requires CommitLog.Can(s, m) && CommitLog.Can(CommitLog.Make(s, m), n)
    ensures CommitLog.Plays(s, [m, n]) && CommitLog.Played(s, [m, n]) == CommitLog.Make(CommitLog.Make(s, m), n)
  {
    OneMove(CommitLog.Make(s, m), n);
    assert [m, n][1..] == [n];
  }

  /** The log has the tree and the agents of the session machine. */
  ghost predicate Mirrors(shared: CommitLog.Shared, store: Stored, finalizers: map<nat, FinalPhase>)
  {
    shared.store == store && shared.agents == AgentsOf(finalizers)
  }

  lemma AgentsWith(finalizers: map<nat, FinalPhase>, f: nat, phase: FinalPhase)
    ensures AgentsOf(finalizers[f := phase]) ==
      if phase.Loading? || phase.Saving? then AgentsOf(finalizers)[f := AgentOf(phase)] else AgentsOf(finalizers) - {f}
  {
  }

  lemma AgentsWithout(finalizers: map<nat, FinalPhase>, f: nat)
    ensures AgentsOf(finalizers - {f}) == AgentsOf(finalizers) - {f}
  {
  }

  lemma LoadIsMove(s: State, f: nat, shared: CommitLog.Shared)
    requires Mirrors(shared, s.store, s.finalizers) && FinalEnabled(s, f, LoadTree)
    ensures CommitLog.Can(shared, CommitLog.Load(f))
    ensures Mirrors(CommitLog.Make(shared, CommitLog.Load(f)), StoreAfter(s, f, LoadTree),
      FinalizersAfter(s, f, LoadTree))
  {
    var phase := s.finalizers[f];
    if FastPath(s.store, phase.delta) {
      AgentsWith(s.finalizers, f, Committed(phase.delta));
    } else {
      AgentsWith(s.finalizers, f, Saving(phase.delta, phase.attempt, s.store));
    }
  }

  lemma SaveIsMove(s: State, f: nat, reply: Reply, shared: CommitLog.Shared)
    requires Mirrors(shared, s.store, s.finalizers) && FinalEnabled(s, f, SaveTree(reply))
    requires !(reply.Acked? && s.store != s.finalizers[f].seen && Exhausts(s.finalizers[f]))
    ensures CommitLog.Can(shared, CommitLog.Save(f, AckOf(reply)))
    ensures Mirrors(CommitLog.Make(shared, CommitLog.Save(f, AckOf(reply))),
                    StoreAfter(s, f, SaveTree(reply)), FinalizersAfter(s, f, SaveTree(reply)))
  {
    var phase := s.finalizers[f];
    AgentsWithout(s.finalizers, f);
    AgentsWith(s.finalizers, f, Committed(phase.delta));
    AgentsWith(s.finalizers, f, Loading(phase.delta, phase.attempt + 1));
  }

  lemma LastSaveIsMoves(s: State, f: nat, reply: Reply, shared: CommitLog.Shared)
    requires Mirrors(shared, s.store, s.finalizers) && FinalEnabled(s, f, SaveTree(reply))
    requires reply.Acked? && s.store != s.finalizers[f].seen && Exhausts(s.finalizers[f])
    ensures CommitLog.Can(shared, CommitLog.Save(f, AckOf(reply)))
    ensures CommitLog.Can(CommitLog.Make(shared, CommitLog.Save(f, AckOf(reply))), CommitLog.Leave(f))
    ensures Mirrors(CommitLog.Make(CommitLog.Make(shared, CommitLog.Save(f, AckOf(reply))), CommitLog.Leave(f)),
                    StoreAfter(s, f, SaveTree(reply)), FinalizersAfter(s, f, SaveTree(reply)))
  {
    AgentsWith(s.finalizers, f, GivingUp("merkle_cas_exhausted"));
  }

  lemma MissIsMoves(s: State, f: nat, written: bool, shared: CommitLog.Shared)
    requires Mirrors(shared, s.store, s.finalizers) && FinalEnabled(s, f, SaveMissed(written))
    ensures CommitLog.Can(shared, CommitLog.Save(f, CommitLog.Missed(written)))
    ensures var t := CommitLog.Make(shared, CommitLog.Save(f, CommitLog.Missed(written)));
      && CommitLog.Can(t, CommitLog.Leave(f))
      && Mirrors(if Exhausts(s.finalizers[f]) then CommitLog.Make(t, CommitLog.Leave(f)) else t,
                 StoreAfter(s, f, SaveMissed(written)), FinalizersAfter(s, f, SaveMissed(written)))
  {
    var phase := s.finalizers[f];
    AgentsWith(s.finalizers, f, GivingUp("merkle_cas_exhausted"));
    AgentsWith(s.finalizers, f, Loading(phase.delta, phase.attempt + 1));
  }

  lemma LeaveIsMove(s: State, f: nat, a: FinalStep, shared: CommitLog.Shared)
    requires Mirrors(shared, s.store, s.finalizers) && FinalEnabled(s, f, a) && !a.DeliverFinal?
    requires s.finalizers[f].Loading? || s.finalizers[f].Saving?
    requires a.StorageDead? || a.ErrFinal? || a.DieFinal?
    ensures CommitLog.Can(shared, CommitLog.Leave(f))
    ensures Mirrors(CommitLog.Make(shared, CommitLog.Leave(f)), StoreAfter(s, f, a), FinalizersAfter(s, f, a))
  {
    AgentsWithout(s.finalizers, f);
    AgentsWith(s.finalizers, f, GivingUp("merkle_storage_permanent"));
  }

  lemma ArriveIsMove(s: State, f: nat, shared: CommitLog.Shared)
    requires Mirrors(shared, s.store, s.finalizers) && FinalEnabled(s, f, LoadResults) && !EmptyDelta(DeltaOf(s))
    ensures CommitLog.Can(shared, CommitLog.Arrive(f, DeltaOf(s)))
    ensures Mirrors(CommitLog.Make(shared, CommitLog.Arrive(f, DeltaOf(s))),
                    StoreAfter(s, f, LoadResults), FinalizersAfter(s, f, LoadResults))
  {
    AgentsWith(s.finalizers, f, Loading(DeltaOf(s), 0));
  }

  /** Before and after its loop a delivery leaves tree and agents alone. */
  lemma OtherIsNoMove(s: State, f: nat, a: FinalStep, shared: CommitLog.Shared)
    requires Mirrors(shared, s.store, s.finalizers) && FinalEnabled(s, f, a) && MovesOf(s, f, a) == []
    ensures Mirrors(shared, StoreAfter(s, f, a), FinalizersAfter(s, f, a))
  {
    AgentsWithout(s.finalizers, f);
    var next := NextFinal(s, f, a);
    if next.Goto? {
      AgentsWith(s.finalizers, f, next.phase);
      NoLoop(s, f, a);
    }
  }

  lemma NoLoop(s: State, f: nat, a: FinalStep)
    requires FinalEnabled(s, f, a) && MovesOf(s, f, a) == [] && NextFinal(s, f, a).Goto?
    ensures !NextFinal(s, f, a).phase.Loading? && !NextFinal(s, f, a).phase.Saving?
    ensures StoreAfter(s, f, a) == s.store && f !in AgentsOf(s.finalizers)
  {
  }

  /** Playing these moves makes the log mirror this tree and these finalizers. */
  ghost predicate PlaysTo(shared: CommitLog.Shared, moves: seq<CommitLog.Move>, store: Stored,
                          finalizers: map<nat, FinalPhase>)
  {
    CommitLog.Plays(shared, moves) && Mirrors(CommitLog.Played(shared, moves), store, finalizers)
  }

  lemma PlayOne(shared: CommitLog.Shared, m: CommitLog.Move, store: Stored, finalizers: map<nat, FinalPhase>)
    requires CommitLog.Can(shared, m) && Mirrors(CommitLog.Make(shared, m), store, finalizers)
    ensures PlaysTo(shared, [m], store, finalizers)
  {
    OneMove(shared, m);
  }

  lemma PlayTwo(shared: CommitLog.Shared, m: CommitLog.Move, n: CommitLog.Move, store: Stored,
                finalizers: map<nat, FinalPhase>)
    requires CommitLog.Can(shared, m) && CommitLog.Can(CommitLog.Make(shared, m), n)
    requires Mirrors(CommitLog.Make(CommitLog.Make(shared, m), n), store, finalizers)
    ensures PlaysTo(shared, [m, n], store, finalizers)
  {
    TwoMoves(shared, m, n);
  }

  lemma SaveIsPlay(s: State, f: nat, reply: Reply, shared: CommitLog.Shared)
    requires Mirrors(shared, s.store, s.finalizers) && FinalEnabled(s, f, SaveTree(reply))
    ensures PlaysTo(shared, MovesOf(s, f, SaveTree(reply)),
                    StoreAfter(s, f, SaveTree(reply)), FinalizersAfter(s, f, SaveTree(reply)))
  {
    var a := SaveTree(reply);
    var save := CommitLog.Save(f, AckOf(reply));
    if reply.Acked? && s.store != s.finalizers[f].seen && Exhausts(s.finalizers[f]) {
      LastSaveIsMoves(s, f, reply, shared);
      PlayTwo(shared, save, CommitLog.Leave(f), StoreAfter(s, f, a), FinalizersAfter(s, f, a));
    } else {
      SaveIsMove(s, f, reply, shared);
      PlayOne(shared, save, StoreAfter(s, f, a), FinalizersAfter(s, f, a));
    }
  }

  lemma MissIsPlay(s: State, f: nat, written: bool, shared: CommitLog.Shared)
    requires Mirrors(shared, s.store, s.finalizers) && FinalEnabled(s, f, SaveMissed(written))
    ensures PlaysTo(shared, MovesOf(s, f, SaveMissed(written)),
                    StoreAfter(s, f, SaveMissed(written)), FinalizersAfter(s, f, SaveMissed(written)))
  {
    var a := SaveMissed(written);
    var save := CommitLog.Save(f, CommitLog.Missed(written));
    MissIsMoves(s, f, written, shared);
    if Exhausts(s.finalizers[f]) {
      PlayTwo(shared, save, CommitLog.Leave(f), StoreAfter(s, f, a), FinalizersAfter(s, f, a));
    } else {
      PlayOne(shared, save, StoreAfter(s, f, a), FinalizersAfter(s, f, a));
    }
  }

  lemma OtherIsPlay(s: State, f: nat, a: FinalStep, shared: CommitLog.Shared)
    requires Mirrors(shared, s.store, s.finalizers) && FinalEnabled(s, f, a) && !a.SaveTree? && !a.SaveMissed?
    ensures PlaysTo(shared, MovesOf(s, f, a), StoreAfter(s, f, a), FinalizersAfter(s, f, a))
  {
    if MovesOf(s, f, a) == [] {
      NoMove(shared);
      OtherIsNoMove(s, f, a, shared);
    } else if a.LoadResults? {
      ArriveIsMove(s, f, shared);
      PlayOne(shared, CommitLog.Arrive(f, DeltaOf(s)), StoreAfter(s, f, a), FinalizersAfter(s, f, a));
    } else if a.LoadTree? {
      LoadIsMove(s, f, shared);
      PlayOne(shared, CommitLog.Load(f), StoreAfter(s, f, a), FinalizersAfter(s, f, a));
    } else {
      LeaveIsMove(s, f, a, shared);
      PlayOne(shared, CommitLog.Leave(f), StoreAfter(s, f, a), FinalizersAfter(s, f, a));
    }
  }

  /** Every step of a finalizer is play of the commit log. */
  lemma StepIsPlay(s: State, f: nat, a: FinalStep, shared: CommitLog.Shared)
    requires Mirrors(shared, s.store, s.finalizers) && FinalEnabled(s, f, a)
    ensures PlaysTo(shared, MovesOf(s, f, a), DoFinal(s, f, a).store, DoFinal(s, f, a).finalizers)
  {
    if a.SaveTree? {
      SaveIsPlay(s, f, a.reply, shared);
    } else if a.SaveMissed? {
      MissIsPlay(s, f, a.written, shared);
    } else {
      OtherIsPlay(s, f, a, shared);
    }
  }
}
