/** The finalizer as the code runs it (consumers/finalize_sync_consumer.go): the processed sets are rebuilt
    from the terminal rows in loops, and committed in a bounded compare-and-swap loop, while other writers
    may store trees of their own between any two of its calls. */
module FinalizeConsumer {
  import opened Merkle
  import opened SyncProtocol
  import opened SyncInvariants
  import opened SyncReceipts

  // ---------------------------------------------------------------------------
  // Rebuilding the processed sets
  // ---------------------------------------------------------------------------

  predicate Processes(row: Row, p: Path)
  {
    p in row.files && p !in row.failedFiles
  }

  predicate ProcessesDelete(row: Row, p: Path)
  {
    p in row.deletes && p !in row.failedDeletes
  }

  ghost predicate IsTerminalRow(rows: Rows, row: Row)
  {
    row.state != Pending && exists id :: id in rows && rows[id] == row
  }

  /** Every non-pending row, in some order. */
  method LoadTerminalResults(rows: Rows) returns (terminal: seq<Row>)
    ensures forall row :: row in terminal <==> IsTerminalRow(rows, row)
  {
    terminal := [];
    var todo := rows.Keys;
    while todo != {}
      invariant todo <= rows.Keys
      invariant forall row :: row in terminal ==> IsTerminalRow(rows, row)
      invariant forall id :: id in rows && id !in todo && rows[id].state != Pending ==> rows[id] in terminal
      decreases |todo|
    {
      var id :| id in todo;
      todo := todo - {id};
      if rows[id].state != Pending {
        terminal := terminal + [rows[id]];
      }
    }
  }

  /** The files of one row that did not fail, laid over `files`. */
  method AddProcessedFiles(row: Row, files: Leaves) returns (r: Leaves)
    ensures forall p :: p in r <==> p in files || Processes(row, p)
    ensures forall p :: p in r ==> r[p] == if Processes(row, p) then row.files[p] else files[p]
  {
    r := files;
    var todo := row.files.Keys;
    while todo != {}
      invariant todo <= row.files.Keys
      invariant forall p :: p in r <==> p in files || (Processes(row, p) && p !in todo)
      invariant forall p :: p in r ==> r[p] == if Processes(row, p) && p !in todo then row.files[p] else files[p]
      decreases |todo|
    {
      var p :| p in todo;
      todo := todo - {p};
      if p in row.failedFiles {
        continue;
      }
      r := r[p := row.files[p]];
    }
  }

  /** The deletes of one row that did not fail, appended to `deletes`. */
  method AddProcessedDeletes(row: Row, deletes: seq<Path>) returns (r: seq<Path>)
    ensures forall p :: p in r <==> p in deletes || ProcessesDelete(row, p)
  {
    r := deletes;
    for i := 0 to |row.deletes|
      invariant forall p :: p in r <==> p in deletes || (p in row.deletes[..i] && p !in row.failedDeletes)
    {
      if row.deletes[i] !in row.failedDeletes {
        r := r + [row.deletes[i]];
      }
    }
  }

  ghost predicate SomeProcesses(terminal: seq<Row>, p: Path)
  {
    exists i :: 0 <= i < |terminal| && Processes(terminal[i], p)
  }

  ghost predicate SomeProcessesDelete(terminal: seq<Row>, p: Path)
  {
    exists i :: 0 <= i < |terminal| && ProcessesDelete(terminal[i], p)
  }

  lemma OneMore(terminal: seq<Row>, i: nat, p: Path)
    requires i < |terminal|
    ensures SomeProcesses(terminal[..i + 1], p) <==> SomeProcesses(terminal[..i], p) || Processes(terminal[i], p)
    ensures SomeProcessesDelete(terminal[..i + 1], p)
      <==> SomeProcessesDelete(terminal[..i], p) || ProcessesDelete(terminal[i], p)
  {
    var more, less := terminal[..i + 1], terminal[..i];
    assert more[i] == terminal[i] && forall j :: 0 <= j < i ==> more[j] == less[j];
  }

  /** The whole reconstruction. Its result is the delta the session's rows stand for, whatever the order in
      which the rows, and the paths in them, are visited. */
  method ProcessedSets(ghost expected: Leaves, rows: Rows) returns (files: Leaves, deletes: seq<Path>)
    requires RowsAgree(expected, rows)
    ensures Delta(files, Elements(deletes)) == Processed(expected, rows)
  {
    var terminal := LoadTerminalResults(rows);
    files, deletes := map[], [];
    for i := 0 to |terminal|
      invariant forall p :: p in files <==> SomeProcesses(terminal[..i], p)
      invariant forall p :: p in files ==> p in expected && files[p] == expected[p]
      invariant forall p :: p in deletes <==> SomeProcessesDelete(terminal[..i], p)
    {
      RowAgrees(expected, rows, terminal, i);
      forall p
        ensures SomeProcesses(terminal[..i + 1], p) <==> SomeProcesses(terminal[..i], p) || Processes(terminal[i], p)
        ensures SomeProcessesDelete(terminal[..i + 1], p)
          <==> SomeProcessesDelete(terminal[..i], p) || ProcessesDelete(terminal[i], p)
      {
        OneMore(terminal, i, p);
      }
      files := AddProcessedFiles(terminal[i], files);
      deletes := AddProcessedDeletes(terminal[i], deletes);
    }
    assert terminal[..|terminal|] == terminal;
    forall p
      ensures p in ProcessedPaths(rows) <==> SomeProcesses(terminal, p)
      ensures p in ProcessedDeletes(rows) <==> SomeProcessesDelete(terminal, p)
    {
      VisitedFiles(rows, terminal, p);
      VisitedDeletes(rows, terminal, p);
    }
  }

  lemma RowAgrees(expected: Leaves, rows: Rows, terminal: seq<Row>, i: nat)
    requires RowsAgree(expected, rows) && i < |terminal|
    requires forall row :: row in terminal <==> IsTerminalRow(rows, row)
    ensures forall p :: p in terminal[i].files ==> p in expected && terminal[i].files[p] == expected[p]
  {
    assert terminal[i] in terminal;
    var id :| id in rows && rows[id] == terminal[i];
  }

  lemma VisitedFiles(rows: Rows, terminal: seq<Row>, p: Path)
    requires forall row :: row in terminal <==> IsTerminalRow(rows, row)
    ensures p in ProcessedPaths(rows) <==> SomeProcesses(terminal, p)
  {
    if p in ProcessedPaths(rows) {
      var id :| id in rows && rows[id].state != Pending && p in rows[id].files && p !in rows[id].failedFiles;
      assert IsTerminalRow(rows, rows[id]);
      var i :| 0 <= i < |terminal| && terminal[i] == rows[id];
      assert Processes(terminal[i], p);
    }
    if SomeProcesses(terminal, p) {
      var i :| 0 <= i < |terminal| && Processes(terminal[i], p);
      assert terminal[i] in terminal;
      var id :| id in rows && rows[id] == terminal[i];
      assert rows[id].state != Pending && p in rows[id].files && p !in rows[id].failedFiles;
    }
  }

  lemma VisitedDeletes(rows: Rows, terminal: seq<Row>, p: Path)
    requires forall row :: row in terminal <==> IsTerminalRow(rows, row)
    ensures p in ProcessedDeletes(rows) <==> SomeProcessesDelete(terminal, p)
  {
    if p in ProcessedDeletes(rows) {
      var id :| id in rows && rows[id].state != Pending && p in rows[id].deletes && p !in rows[id].failedDeletes;
      assert IsTerminalRow(rows, rows[id]);
      var i :| 0 <= i < |terminal| && terminal[i] == rows[id];
      assert ProcessesDelete(terminal[i], p);
    }
    if SomeProcessesDelete(terminal, p) {
      var i :| 0 <= i < |terminal| && ProcessesDelete(terminal[i], p);
      assert terminal[i] in terminal;
      var id :| id in rows && rows[id] == terminal[i];
      assert rows[id].state != Pending && p in rows[id].deletes && p !in rows[id].failedDeletes;
    }
  }

  // ---------------------------------------------------------------------------
  // What a finalizer delivery sees and does, step by step
  // ---------------------------------------------------------------------------

  /** The part of the state a finalizer changes. */
  datatype Local = Local(session: Session, store: Stored)

  datatype Config = Config(local: Local, next: Next<FinalPhase>)

  /** A call of the handler's own, or a tree stored by somebody else. */
  datatype Act = Own(step: FinalStep) | Rival(tree: Stored)

  predicate CanStep(c: Config, a: Act)
  {
    c.next.Goto? && (a.Own? ==> AllowsFinal(c.next.phase, a.step))
  }

  ghost function LocalStep(c: Config, results: Delta, a: Act): (d: Config)
    requires CanStep(c, a)
  {
    match a
    case Rival(tree) => Config(c.local.(store := tree), c.next)
    case Own(step) =>
      Config(Local(MarkedSession(c.local.session, c.next.phase, step), SavedStore(c.local.store, c.next.phase, step)),
             FinalPhaseAfter(c.local.session, results, c.local.store, c.next.phase, step))
  }

  ghost predicate Executes(c: Config, results: Delta, trace: seq<Act>, d: Config)
    decreases |trace|
  {
    if trace == [] then c == d
    else CanStep(c, trace[0]) && Executes(LocalStep(c, results, trace[0]), results, trace[1..], d)
  }

  lemma ExecutesFrom(c: Config, results: Delta, a: Act, rest: seq<Act>, d: Config)
    requires CanStep(c, a) && Executes(LocalStep(c, results, a), results, rest, d)
    ensures Executes(c, results, [a] + rest, d)
  {
    assert ([a] + rest)[0] == a && ([a] + rest)[1..] == rest;
  }

  function StepsOf(f: nat, trace: seq<Act>): (steps: seq<Step>)
    ensures |steps| == |trace|
  {
    if trace == [] then []
    else
      var step := match trace[0] case Own(step) => Final(f, step) case Rival(tree) => World(OtherWrite(tree));
      [step] + StepsOf(f, trace[1..])
  }

  lemma OwnStepIsFinal(s: State, f: nat, step: FinalStep)
    requires f in s.finalizers && AllowsFinal(s.finalizers[f], step)
    ensures var t, d := DoFinal(s, f, step),
      LocalStep(Config(Local(s.session, s.store), Goto(s.finalizers[f])), DeltaOf(s), Own(step));
      && Local(t.session, t.store) == d.local
      && t.queue == QueueAfter(s.queue, Finalize, d.next)
      && t.rows == s.rows && t.expectedFiles == s.expectedFiles
      && (if d.next.Goto? then f in t.finalizers && t.finalizers[f] == d.next.phase else f !in t.finalizers)
  {
  }

  /** Every execution of the finalizer, rivals included, is a run of the session machine. */
  lemma {:induction false} ExecutionIsRun(s: State, f: nat, trace: seq<Act>, d: Config)
    requires f in s.finalizers
    requires Executes(Config(Local(s.session, s.store), Goto(s.finalizers[f])), DeltaOf(s), trace, d) && !d.next.Goto?
    ensures Runs(s, StepsOf(f, trace))
    ensures var t := After(s, StepsOf(f, trace));
      && Local(t.session, t.store) == d.local && t.rows == s.rows
      && t.queue == QueueAfter(s.queue, Finalize, d.next)
      && f !in t.finalizers
    decreases |trace|
  {
    var c := Config(Local(s.session, s.store), Goto(s.finalizers[f]));
    var rest := StepsOf(f, trace[1..]);
    var t := match trace[0] case Own(step) => DoFinal(s, f, step) case Rival(tree) => DoWorld(s, OtherWrite(tree));
    assert StepsOf(f, trace)[1..] == rest;
    if trace[0].Own? {
      OwnStepIsFinal(s, f, trace[0].step);
    }
    var next := LocalStep(c, DeltaOf(s), trace[0]).next;
    if next.Goto? {
      assert DeltaOf(t) == DeltaOf(s);
      ExecutionIsRun(t, f, trace[1..], d);
    } else {
      assert trace[1..] == [];
    }
  }

  lemma {:induction false} ExecutesOn(c: Config, results: Delta, first: seq<Act>, d: Config, second: seq<Act>,
          e: Config)
    requires Executes(c, results, first, d) && Executes(d, results, second, e)
    ensures Executes(c, results, first + second, e)
    decreases |first|
  {
    if first == [] {
      assert first + second == second;
    } else {
      assert (first + second)[0] == first[0] && (first + second)[1..] == first[1..] + second;
      ExecutesOn(LocalStep(c, results, first[0]), results, first[1..], d, second, e);
    }
  }

  // ---------------------------------------------------------------------------
  // The stores behind it
  // ---------------------------------------------------------------------------

  datatype Result = Success | Failure(error: string)

  datatype SaveResult = SavedIt | VersionMismatch | SaveFailed

  /** How a put is answered when the versions agree: as it went, or as a mismatch all the same. */
  datatype SaveAnswer = Plain(reply: Reply) | Missed(written: bool)

  predicate Puts(answer: SaveAnswer)
  {
    match answer
    case Plain(reply) => !reply.Refused?
    case Missed(written) => written
  }

  function SaveStep(answer: SaveAnswer): (step: FinalStep)
  {
    match answer
    case Plain(reply) => SaveTree(reply)
    case Missed(written) => SaveMissed(written)
  }

  /** The version token is a digest of the stored bytes; equal tokens mean equal trees. */
  type Version = Stored

  class Backend {
    var session: Session
    var rows: Rows
    var tree: Stored

    constructor (session: Session, rows: Rows, tree: Stored)
      ensures this.session == session && this.rows == rows && this.tree == tree
    {
      this.session, this.rows, this.tree := session, rows, tree;
    }

    ghost function View(): Local
      reads this
    {
      Local(session, tree)
    }

    /** UPDATE ... WHERE status = 'finalizing'; matching no row is no error. */
    method MarkDone(reply: Reply) returns (r: Result)
      modifies this`session
      ensures session == if !reply.Refused? && old(session) == Present(Finalizing) then Present(Done) else old(session)
      ensures r.Success? <==> reply.Acked?
    {
      if session == Present(Finalizing) && !reply.Refused? {
        session := Present(Done);
      }
      r := if reply.Acked? then Success else Failure("mark session done");
    }

    /** UPDATE ... WHERE status NOT IN ('done', 'failed', 'expired'). */
    method MarkFailed(reason: string, reply: Reply) returns (r: Result)
      modifies this`session
      ensures if !reply.Refused? && old(session).Present? && !old(session).status.Done?
          && !old(session).status.Failed? && !old(session).status.Expired?
        then session == Present(Failed(reason)) else session == old(session)
      ensures r.Success? <==> reply.Acked?
    {
      if session.Present? && !Terminal(session.status) && !reply.Refused? {
        session := Present(Failed(reason));
      }
      r := if reply.Acked? then Success else Failure("mark session failed");
    }

    method LoadTreeWithVersion() returns (loaded: Stored, version: Version)
      ensures loaded == tree && version == tree
    {
      loaded, version := tree, tree;
    }

    /** A conditional put: it takes effect only if the stored version is still `version`. A mismatch may be
        reported although there was none, with the put done or not. */
    method SaveTreeIfUnchanged(updated: Leaves, version: Version, answer: SaveAnswer) returns (r: SaveResult)
      modifies this`tree
      ensures tree == if Puts(answer) && old(tree) == version then Saved(updated) else old(tree)
      ensures r == match answer
        case Missed(_) => VersionMismatch
        case Plain(reply) =>
          if !reply.Acked? then SaveFailed else if old(tree) == version then SavedIt else VersionMismatch
    {
      var same := tree == version;
      if same && Puts(answer) {
        tree := Saved(updated);
      }
      if answer.Missed? {
        return VersionMismatch;
      }
      r := if !answer.reply.Acked? then SaveFailed else if same then SavedIt else VersionMismatch;
    }

    /** Somebody else's write, or none. */
    method Interfere(rival: Interference)
      modifies this`tree
      ensures tree == if rival.Overwrite? then rival.tree else old(tree)
    {
      if rival.Overwrite? {
        tree := rival.tree;
      }
    }
  }

  datatype Interference = Quiet | Overwrite(tree: Stored)

  datatype StorageAnswer = Works | Permanent | Transient

  /** What one round of the loop meets: the load's answer, a rival before and after it, and how the save goes. */
  datatype Attempt = Attempt(before: Interference, load: StorageAnswer, between: Interference, dead: bool,
                             save: SaveAnswer)

  datatype Calls = Calls(sessionFails: bool, resultsFail: bool, attempts: seq<Attempt>, mark: Reply)

  /** The acts that what one round meets can account for. */
  predicate FromAttempt(a: Attempt, act: Act)
  {
    match act
    case Rival(tree) => a.before == Overwrite(tree) || a.between == Overwrite(tree)
    case Own(LoadTree) => a.load.Works?
    case Own(SaveTree(reply)) => !a.dead && a.save == Plain(reply)
    case Own(SaveMissed(written)) => !a.dead && a.save == Missed(written)
    case Own(StorageDead) => a.load.Permanent? || a.dead
    case Own(ErrFinal) => a.load.Transient?
    case _ => false
  }

  predicate FromLoop(attempts: seq<Attempt>, act: Act)
  {
    exists i :: 0 <= i < |attempts| && FromAttempt(attempts[i], act)
  }

  predicate Answered(calls: Calls, act: Act)
  {
    || FromLoop(calls.attempts, act)
    || match act
       case Own(CheckStatus) => !calls.sessionFails
       case Own(LoadResults) => !calls.resultsFail
       case Own(ErrFinal) => calls.sessionFails || calls.resultsFail
       case Own(MarkSession(reply)) => reply == calls.mark
       case Own(ReturnFinal) => true
       case _ => false
  }

  function RivalActs(rival: Interference): (acts: seq<Act>)
  {
    if rival.Overwrite? then [Rival(rival.tree)] else []
  }

  lemma RivalExecutes(c: Config, results: Delta, rival: Interference, rest: seq<Act>, d: Config)
    requires c.next.Goto?
    requires Executes(if rival.Overwrite? then Config(c.local.(store := rival.tree), c.next) else c, results, rest, d)
    ensures Executes(c, results, RivalActs(rival) + rest, d)
  {
    if rival.Overwrite? {
      ExecutesFrom(c, results, Rival(rival.tree), rest, d);
    } else {
      assert RivalActs(rival) + rest == rest;
    }
  }

  // ---------------------------------------------------------------------------
  // The compare-and-swap loop
  // ---------------------------------------------------------------------------

  datatype Round = Through | Conflict | Dead | Broken

  /** A write of the finalizer's own: the tree it replaced, and what it replaced it with. */
  datatype Write = Write(before: Stored, after: Stored)

  ghost predicate OwnWrite(d: Delta, w: Write)
  {
    w.after == Saved(Merge(LeavesOf(w.before), d))
  }

  ghost function RoundEnd(d: Delta, attempt: nat, round: Round): (next: Next<FinalPhase>)
  {
    match round
    case Through => Goto(Committed(d))
    case Conflict => Goto(NextAttempt(d, attempt))
    case Dead => Goto(GivingUp("merkle_storage_permanent"))
    case Broken => Error
  }

  /** The put is done and answered as a mismatch. */
  predicate Hides(a: Attempt)
  {
    a.save == Missed(true)
  }

  function HiddenPuts(attempts: seq<Attempt>): (n: nat)
  {
    if attempts == [] then 0
    else HiddenPuts(attempts[..|attempts| - 1]) + if Hides(attempts[|attempts| - 1]) then 1 else 0
  }

  /** The storage answers that it is dead: at the load, or at the save. */
  predicate FindsDead(a: Attempt)
  {
    a.load.Permanent? || a.dead
  }

  /** The save comes too late, after a rival's, or is answered as if it did. */
  predicate ComesLate(a: Attempt)
  {
    a.load.Works? && !a.dead && (a.save.Missed? || (a.save == Plain(Acked) && a.between.Overwrite?))
  }

  /** The tree is the last thing that was written, or a tree that the fast path takes to hold the delta. */
  ghost predicate Settled(tree: Stored, d: Delta, writes: seq<Write>)
  {
    (writes != [] && tree == writes[|writes| - 1].after) || FastPath(tree, d)
  }

  lemma SettledOn(tree: Stored, d: Delta, writes: seq<Write>, own: seq<Write>)
    requires Settled(tree, d, own)
    ensures Settled(tree, d, writes + own)
  {
  }

  /** What a round ends with, from what it met. */
  ghost predicate RoundMet(round: Round, a: Attempt, tree: Stored, d: Delta, writes: seq<Write>)
  {
    match round
    case Through => a.load.Works? && Settled(tree, d, writes)
    case Conflict => ComesLate(a)
    case Dead => FindsDead(a)
    case Broken => a.load.Transient? || (a.load.Works? && a.save.Plain? && !a.save.reply.Acked?)
  }

  /** One round: load, apply, stop if the root hash does not change, else save against the loaded version. */
  method TryCommit(b: Backend, files: Leaves, deletes: seq<Path>, attempt: nat, a: Attempt, ghost results: Delta)
      returns (round: Round, ghost trace: seq<Act>, ghost writes: seq<Write>)
    requires attempt < MAX_CAS_ATTEMPTS
    modifies b`tree
    ensures var d := Delta(files, Elements(deletes));
      && Executes(Config(old(b.View()), Goto(Loading(d, attempt))), results, trace,
        Config(b.View(), RoundEnd(d, attempt, round)))
      && |writes| <= 1 && (forall w :: w in writes ==> OwnWrite(d, w))
      && (round.Dead? || (round.Conflict? && !Hides(a)) ==> writes == [])
      && (forall act :: act in trace ==> FromAttempt(a, act))
      && RoundMet(round, a, b.tree, d, writes)
  {
    ghost var d := Delta(files, Elements(deletes));
    ghost var c := Config(b.View(), Goto(Loading(d, attempt)));
    b.Interfere(a.before);
    ghost var rest;
    round, rest, writes := LoadRound(b, files, deletes, attempt, a, results);
    RivalExecutes(c, results, a.before, rest, Config(b.View(), RoundEnd(d, attempt, round)));
    trace := RivalActs(a.before) + rest;
  }

  method LoadRound(b: Backend, files: Leaves, deletes: seq<Path>, attempt: nat, a: Attempt, ghost results: Delta)
      returns (round: Round, ghost trace: seq<Act>, ghost writes: seq<Write>)
    requires attempt < MAX_CAS_ATTEMPTS
    modifies b`tree
    ensures var d := Delta(files, Elements(deletes));
      && Executes(Config(old(b.View()), Goto(Loading(d, attempt))), results, trace,
        Config(b.View(), RoundEnd(d, attempt, round)))
      && |writes| <= 1 && (forall w :: w in writes ==> OwnWrite(d, w))
      && (round.Dead? || (round.Conflict? && !Hides(a)) ==> writes == [])
      && (forall act :: act in trace ==> FromAttempt(a, act))
      && RoundMet(round, a, b.tree, d, writes)
  {
    ghost var d := Delta(files, Elements(deletes));
    ghost var c := Config(b.View(), Goto(Loading(d, attempt)));
    writes := [];
    if a.load.Permanent? {
      ExecutesFrom(c, results, Own(StorageDead), [], Config(b.View(), RoundEnd(d, attempt, Dead)));
      return Dead, [Own(StorageDead)] + [], [];
    }
    if a.load.Transient? {
      ExecutesFrom(c, results, Own(ErrFinal), [], Config(b.View(), RoundEnd(d, attempt, Broken)));
      return Broken, [Own(ErrFinal)] + [], [];
    }
    var tree, version := b.LoadTreeWithVersion();
    var updated := Merge(LeavesOf(tree), Delta(files, Elements(deletes)));
    if HashOf(Rebuild(updated)) == RootHash(tree) {
      LoadPasses(c, results, d, attempt);
      return Through, [Own(LoadTree)] + [], [];
    }
    ghost var rest;
    round, rest, writes := SaveRound(b, files, deletes, attempt, a, tree, version, results);
    LoadGoesOn(c, results, d, attempt, rest, Config(b.View(), RoundEnd(d, attempt, round)));
    trace := [Own(LoadTree)] + rest;
  }

  lemma LoadPasses(c: Config, results: Delta, d: Delta, attempt: nat)
    requires c.next == Goto(Loading(d, attempt)) && FastPath(c.local.store, d)
    ensures Executes(c, results, [Own(LoadTree)] + [], Config(c.local, Goto(Committed(d))))
  {
    ExecutesFrom(c, results, Own(LoadTree), [], Config(c.local, Goto(Committed(d))));
  }

  lemma LoadGoesOn(c: Config, results: Delta, d: Delta, attempt: nat, rest: seq<Act>, e: Config)
    requires c.next == Goto(Loading(d, attempt)) && !FastPath(c.local.store, d)
    requires Executes(Config(c.local, Goto(Saving(d, attempt, c.local.store))), results, rest, e)
    ensures Executes(c, results, [Own(LoadTree)] + rest, e)
  {
    ExecutesFrom(c, results, Own(LoadTree), rest, e);
  }

  lemma SaveMet(a: Attempt, round: Round, before: Stored, loaded: Stored, tree: Stored, d: Delta, writes: seq<Write>)
    requires a.load.Works? && !a.dead && (before != loaded ==> a.between.Overwrite?)
    requires round == match a.save
      case Missed(_) => Conflict
      case Plain(reply) => if !reply.Acked? then Broken else if before == loaded then Through else Conflict
    requires writes == if before == loaded && Puts(a.save) then [Write(before, tree)] else []
    ensures RoundMet(round, a, tree, d, writes)
  {
  }

  method SaveRound(b: Backend, files: Leaves, deletes: seq<Path>, attempt: nat, a: Attempt, loaded: Stored,
          version: Version, ghost results: Delta)
      returns (round: Round, ghost trace: seq<Act>, ghost writes: seq<Write>)
    requires attempt < MAX_CAS_ATTEMPTS && version == loaded == b.tree && a.load.Works?
    modifies b`tree
    ensures var d := Delta(files, Elements(deletes));
      && Executes(Config(old(b.View()), Goto(Saving(d, attempt, loaded))), results, trace,
        Config(b.View(), RoundEnd(d, attempt, round)))
      && |writes| <= 1 && (forall w :: w in writes ==> OwnWrite(d, w))
      && (round.Dead? || (round.Conflict? && !Hides(a)) ==> writes == [])
      && (forall act :: act in trace ==> FromAttempt(a, act))
      && RoundMet(round, a, b.tree, d, writes)
  {
    ghost var d := Delta(files, Elements(deletes));
    ghost var c := Config(b.View(), Goto(Saving(d, attempt, loaded)));
    b.Interfere(a.between);
    ghost var before := b.tree;
    ghost var c1 := Config(b.View(), Goto(Saving(d, attempt, loaded)));
    if a.dead {
      round, writes := Dead, [];
      ExecutesFrom(c1, results, Own(StorageDead), [], Config(b.View(), RoundEnd(d, attempt, round)));
      RivalExecutes(c, results, a.between, [Own(StorageDead)] + [], Config(b.View(), RoundEnd(d, attempt, round)));
      trace := RivalActs(a.between) + ([Own(StorageDead)] + []);
      return;
    }
    var updated := Merge(LeavesOf(loaded), Delta(files, Elements(deletes)));
    var saved := b.SaveTreeIfUnchanged(updated, version, a.save);
    round := match saved case SavedIt => Through case VersionMismatch => Conflict case SaveFailed => Broken;
    writes := if before == loaded && Puts(a.save) then [Write(before, b.tree)] else [];
    SaveMet(a, round, before, loaded, b.tree, d, writes);
    ExecutesFrom(c1, results, Own(SaveStep(a.save)), [], Config(b.View(), RoundEnd(d, attempt, round)));
    RivalExecutes(c, results, a.between, [Own(SaveStep(a.save))] + [], Config(b.View(), RoundEnd(d, attempt, round)));
    trace := RivalActs(a.between) + ([Own(SaveStep(a.save))] + []);
  }

  datatype LoopEnd = InTree | CasExhausted | StoragePermanent | Transiently(error: string)

  ghost function AfterLoop(d: Delta, end: LoopEnd): (next: Next<FinalPhase>)
  {
    match end
    case InTree => Goto(Committed(d))
    case CasExhausted => Goto(GivingUp("merkle_cas_exhausted"))
    case StoragePermanent => Goto(GivingUp("merkle_storage_permanent"))
    case Transiently(_) => Error
  }

  /** What the loop ends with: in the tree; or without, for want of attempts, all of which came late; or because
      one of them found the storage dead. */
  ghost predicate LoopMet(end: LoopEnd, attempts: seq<Attempt>, tree: Stored, d: Delta, writes: seq<Write>)
  {
    match end
    case InTree => Settled(tree, d, writes)
    case CasExhausted => forall i :: 0 <= i < |attempts| ==> ComesLate(attempts[i])
    case StoragePermanent => exists i :: 0 <= i < |attempts| && FindsDead(attempts[i])
    case Transiently(_) => true
  }

  /** The bounded loop. However it ends, and whatever the rivals did, at most one write of ours took place,
      and none if the loop gave up, but for puts that were answered as mismatches; and each write put the delta
      onto exactly the tree that it replaced. */
  method CommitLoop(b: Backend, files: Leaves, deletes: seq<Path>, attempts: seq<Attempt>, ghost results: Delta)
      returns (end: LoopEnd, ghost trace: seq<Act>, ghost writes: seq<Write>)
    requires |attempts| == MAX_CAS_ATTEMPTS
    modifies b`tree
    ensures var d := Delta(files, Elements(deletes));
      && Executes(Config(old(b.View()), Goto(Loading(d, 0))), results, trace, Config(b.View(), AfterLoop(d, end)))
      && |writes| <= HiddenPuts(attempts) + 1 && (forall w :: w in writes ==> OwnWrite(d, w))
      && (end.CasExhausted? || end.StoragePermanent? ==> |writes| <= HiddenPuts(attempts))
      && LoopMet(end, attempts, b.tree, d, writes)
      && (forall act :: act in trace ==> FromLoop(attempts, act))
  {
    ghost var d := Delta(files, Elements(deletes));
    ghost var c := Config(b.View(), Goto(Loading(d, 0)));
    trace, writes := [], [];
    var attempt := 0;
    while attempt < MAX_CAS_ATTEMPTS
      invariant 0 <= attempt <= MAX_CAS_ATTEMPTS
      invariant |writes| <= HiddenPuts(attempts[..attempt]) && forall w :: w in writes ==> OwnWrite(d, w)
      invariant forall act :: act in trace ==> FromLoop(attempts, act)
      invariant forall i :: 0 <= i < attempt ==> ComesLate(attempts[i])
      invariant Executes(c, results, trace, Config(b.View(),
        if attempt < MAX_CAS_ATTEMPTS then Goto(Loading(d, attempt)) else Goto(GivingUp("merkle_cas_exhausted"))))
      decreases MAX_CAS_ATTEMPTS - attempt
    {
      ghost var c1 := Config(b.View(), Goto(Loading(d, attempt)));
      var round;
      ghost var more, own;
      round, more, own := TryCommit(b, files, deletes, attempt, attempts[attempt], results);
      ghost var before := writes;
      writes := writes + own;
      HiddenNext(attempts, attempt);
      ExecutesOn(c, results, trace, c1, more, Config(b.View(), RoundEnd(d, attempt, round)));
      trace := trace + more;
      match round {
        case Through =>
          SettledOn(b.tree, d, before, own);
          end := InTree;
          return;
        case Dead => end := StoragePermanent; return;
        case Broken => end := Transiently("merkle tree"); return;
        case Conflict => attempt := attempt + 1;
      }
    }
    end := CasExhausted;
    assert attempts[..MAX_CAS_ATTEMPTS] == attempts;
  }

  lemma {:induction false} HiddenGrows(attempts: seq<Attempt>, i: nat)
    requires i <= |attempts|
    ensures HiddenPuts(attempts[..i]) <= HiddenPuts(attempts)
    decreases |attempts|
  {
    if i < |attempts| {
      HiddenGrows(attempts[..|attempts| - 1], i);
      assert attempts[..|attempts| - 1][..i] == attempts[..i];
    } else {
      assert attempts[..i] == attempts;
    }
  }

  lemma HiddenNext(attempts: seq<Attempt>, i: nat)
    requires i < |attempts|
    ensures HiddenPuts(attempts[..i + 1]) == HiddenPuts(attempts[..i]) + if Hides(attempts[i]) then 1 else 0
    ensures HiddenPuts(attempts[..i + 1]) <= HiddenPuts(attempts)
  {
    assert attempts[..i + 1][..i] == attempts[..i];
    HiddenGrows(attempts, i + 1);
  }

  // ---------------------------------------------------------------------------
  // The handler
  // ---------------------------------------------------------------------------

  /** Stamp the session and end the delivery. */
  lemma MarkAndReturn(c: Config, results: Delta, reply: Reply, session: Session)
    requires c.next.Goto? && (c.next.phase.Committed? || c.next.phase.GivingUp?)
    requires session == MarkedSession(c.local.session, c.next.phase, MarkSession(reply))
    ensures Executes(c, results, MarkActs(reply),
      Config(c.local.(session := session), if reply.Acked? then Ack else Error))
  {
    var local := c.local.(session := session);
    if reply.Acked? {
      ExecutesFrom(Config(local, Goto(Ending)), results, Own(ReturnFinal), [], Config(local, Ack));
      ExecutesFrom(c, results, Own(MarkSession(reply)), [Own(ReturnFinal)] + [], Config(local, Ack));
    } else {
      ExecutesFrom(c, results, Own(MarkSession(reply)), [], Config(local, Error));
    }
  }

  function MarkActs(reply: Reply): (acts: seq<Act>)
  {
    if reply.Acked? then [Own(MarkSession(reply))] + ([Own(ReturnFinal)] + []) else [Own(MarkSession(reply))] + []
  }

  /** Why the session was stamped, if it was: done, with the delta in the tree; or failed, because nothing went
      through, because all attempts came late, or because one of them found the storage dead. */
  ghost predicate StampedFor(session: Session, tree: Stored, d: Delta, writes: seq<Write>, attempts: seq<Attempt>)
  {
    || (session == Present(Done) && Settled(tree, d, writes))
    || (session == Present(Failed("all_operations_failed")) && EmptyDelta(d) && writes == [])
    || (session == Present(Failed("merkle_cas_exhausted"))
        && forall i :: 0 <= i < |attempts| ==> ComesLate(attempts[i]))
    || (session == Present(Failed("merkle_storage_permanent"))
        && exists i :: 0 <= i < |attempts| && FindsDead(attempts[i]))
  }

  function EndOf(r: Result): (next: Next<FinalPhase>)
  {
    if r.Success? then Ack else Error
  }

  /** Commit the processed sets, then stamp the session. */
  method CommitAndMark(b: Backend, files: Leaves, deletes: seq<Path>, calls: Calls, ghost results: Delta)
      returns (r: Result, ghost trace: seq<Act>, ghost writes: seq<Write>)
    requires |calls.attempts| == MAX_CAS_ATTEMPTS
    modifies b`tree, b`session
    ensures var d := Delta(files, Elements(deletes));
      && Executes(Config(old(b.View()), Goto(Loading(d, 0))), results, trace, Config(b.View(), EndOf(r)))
      && |writes| <= HiddenPuts(calls.attempts) + 1 && (forall w :: w in writes ==> OwnWrite(d, w))
      && (b.session != old(b.session) && b.session.Present? && b.session.status.Failed? ==>
           |writes| <= HiddenPuts(calls.attempts))
      && (r.Success? ==> b.session != Present(Finalizing))
      && (forall act :: act in trace ==> Answered(calls, act))
      && (b.session == old(b.session) || StampedFor(b.session, b.tree, d, writes, calls.attempts))
  {
    ghost var d := Delta(files, Elements(deletes));
    ghost var c := Config(b.View(), Goto(Loading(d, 0)));
    var end;
    ghost var loop;
    end, loop, writes := CommitLoop(b, files, deletes, calls.attempts, results);
    ghost var c1 := Config(b.View(), AfterLoop(d, end));
    if end.Transiently? {
      return Failure(end.error), loop, writes;
    }
    r := match end
      case InTree => Success
      case CasExhausted => Failure("merkle_cas_exhausted")
      case StoragePermanent => Failure("merkle_storage_permanent");
    if end.InTree? {
      r := b.MarkDone(calls.mark);
    } else {
      r := b.MarkFailed(if end.CasExhausted? then "merkle_cas_exhausted" else "merkle_storage_permanent", calls.mark);
    }
    MarkAndReturn(c1, results, calls.mark, b.session);
    ExecutesOn(c, results, loop, c1, MarkActs(calls.mark), Config(b.View(), EndOf(r)));
    trace := loop + MarkActs(calls.mark);
  }

  /** A delivery that found the session finalizing. */
  method Finish(b: Backend, ghost expected: Leaves, calls: Calls)
      returns (r: Result, ghost trace: seq<Act>, ghost writes: seq<Write>)
    requires RowsAgree(expected, b.rows)
    requires |calls.attempts| == MAX_CAS_ATTEMPTS && !calls.sessionFails && b.session == Present(Finalizing)
    modifies b`tree, b`session
    ensures var d := Processed(expected, b.rows);
      && Executes(Config(old(b.View()), Goto(Admitted)), d, trace, Config(b.View(), EndOf(r)))
      && |writes| <= HiddenPuts(calls.attempts) + 1 && (forall w :: w in writes ==> OwnWrite(d, w))
      && (EmptyDelta(d) ==> b.tree == old(b.tree) && writes == [])
      && (b.session == old(b.session) || StampedFor(b.session, b.tree, d, writes, calls.attempts))
    ensures b.session != old(b.session) && b.session.Present? && b.session.status.Failed? ==>
      |writes| <= HiddenPuts(calls.attempts)
    ensures r.Success? ==> b.session != Present(Finalizing)
    ensures forall act :: act in trace ==> Answered(calls, act)
  {
    ghost var d := Processed(expected, b.rows);
    ghost var c := Config(b.View(), Goto(Admitted));
    if calls.resultsFail {
      ExecutesFrom(c, d, Own(ErrFinal), [], Config(b.View(), Error));
      return Failure("load terminal batch results"), [Own(ErrFinal)] + [], [];
    }
    writes := [];
    var files, deletes := ProcessedSets(expected, b.rows);
    ghost var rest;
    if files == map[] && deletes == [] {
      assert EmptyDelta(d);
      r := b.MarkFailed("all_operations_failed", calls.mark);
      MarkAndReturn(Config(old(b.View()), Goto(GivingUp("all_operations_failed"))), d, calls.mark, b.session);
      rest := MarkActs(calls.mark);
    } else {
      assert !EmptyDelta(d) by { NotEmpty(files, deletes); }
      r, rest, writes := CommitAndMark(b, files, deletes, calls, d);
    }
    ExecutesFrom(c, d, Own(LoadResults), rest, Config(b.View(), EndOf(r)));
    trace := [Own(LoadResults)] + rest;
  }

  /** One delivery of the finalize task: a run of the session machine, rivals included. A session that is
      not finalizing is left alone, and so is the tree then; the tree is written at most once, and never when
      the session is stamped failed, but for puts that were answered as mismatches; every write puts the delta of
      the session's terminal rows onto exactly the tree that it replaces; and the session is stamped for the reason
      that there was. */
  method Handle(b: Backend, ghost expected: Leaves, calls: Calls)
      returns (r: Result, ghost trace: seq<Act>, ghost writes: seq<Write>)
    requires RowsAgree(expected, b.rows)
    requires |calls.attempts| == MAX_CAS_ATTEMPTS
    modifies b`tree, b`session
    ensures var d := Processed(expected, b.rows);
      && Executes(Config(old(b.View()), Goto(Begin)), d, trace, Config(b.View(), EndOf(r)))
      && |writes| <= HiddenPuts(calls.attempts) + 1 && (forall w :: w in writes ==> OwnWrite(d, w))
      && (EmptyDelta(d) ==> b.tree == old(b.tree) && writes == [])
      && (b.session == old(b.session) || StampedFor(b.session, b.tree, d, writes, calls.attempts))
    ensures old(b.session) != Present(Finalizing) ==> b.View() == old(b.View()) && writes == []
    ensures b.session != old(b.session) && b.session.Present? && b.session.status.Failed? ==>
      |writes| <= HiddenPuts(calls.attempts)
    ensures r.Success? ==> b.session != Present(Finalizing)
    ensures forall act :: act in trace ==> Answered(calls, act)
  {
    ghost var d := Processed(expected, b.rows);
    ghost var c := Config(b.View(), Goto(Begin));
    writes := [];
    if calls.sessionFails {
      ExecutesFrom(c, d, Own(ErrFinal), [], Config(b.View(), Error));
      return Failure("load session"), [Own(ErrFinal)] + [], [];
    }
    if b.session != Present(Finalizing) {
      ExecutesFrom(Config(b.View(), Goto(Ending)), d, Own(ReturnFinal), [], Config(b.View(), Ack));
      ExecutesFrom(c, d, Own(CheckStatus), [Own(ReturnFinal)] + [], Config(b.View(), Ack));
      return Success, [Own(CheckStatus)] + ([Own(ReturnFinal)] + []), [];
    }
    ghost var rest;
    r, rest, writes := Finish(b, expected, calls);
    ExecutesFrom(c, d, Own(CheckStatus), rest, Config(b.View(), EndOf(r)));
    trace := [Own(CheckStatus)] + rest;
  }

  lemma NotEmpty(files: Leaves, deletes: seq<Path>)
    requires files != map[] || deletes != []
    ensures !EmptyDelta(Delta(files, Elements(deletes)))
  {
    if deletes != [] {
      assert deletes[0] in Elements(deletes);
    }
  }
}
