/** Uploading the batches of a sync (crates/context-sync/src/streamer.rs): one retry loop per batch, at most
    ten of them at a time, and an abort that leaves nothing running. */
module Upload {

  const STREAM_CONCURRENCY: nat := 10
  const MAX_RETRY_ATTEMPTS: nat := 3

  /** What comes back from a POST: 202 with its counts, 202 with an unreadable body, 200, 410, 400,
      401/403/404, any other status, a timeout or refused connection, any other transport error. */
  datatype Answer =
    | Queued(files: nat, deletes: nat, bytes: nat)
    | Garbled
    | AlreadyThere
    | Gone
    | BadRequest
    | Unauthorized
    | OtherStatus
    | Unreachable
    | Broken

  datatype Outcome = Outcome(files: nat, deletes: nat, bytes: nat, duplicate: bool)

  datatype TaskResult = Uploaded(outcome: Outcome) | FailedWith(error: string)

  datatype Verdict = Finish(result: TaskResult) | TryAgain

  /** The server took the batch, now or before. */
  predicate Good(a: Answer)
  {
    a.Queued? || a.AlreadyThere?
  }

  /** The outcome counts what the server said it queued; a duplicate counts for nothing else. */
  predicate Reports(a: Answer, o: Outcome)
  {
    match a
    case Queued(files, deletes, bytes) => o.files == files && o.deletes == deletes && o.bytes == bytes && !o.duplicate
    case AlreadyThere => o.files == o.deletes == o.bytes == 0 && o.duplicate
    case _ => false
  }

  predicate Retryable(a: Answer)
  {
    a.OtherStatus? || a.Unreachable?
  }

  /** The error that an answer ends an upload with. */
  predicate Blames(a: Answer, error: string)
  {
    match a
    case Gone => error == "sync_expired"
    case BadRequest => error == "bad_request"
    case Unauthorized => error == "auth_required"
    case Garbled => error == "http"
    case Broken => error == "http"
    case OtherStatus => error == "http"
    case Unreachable => error == "http"
    case Queued(_, _, _) => false
    case AlreadyThere => false
  }

  function Judge(a: Answer, attempt: nat): (v: Verdict)
  {
    match a
    case Queued(files, deletes, bytes) => Finish(Uploaded(Outcome(files, deletes, bytes, false)))
    case Garbled => Finish(FailedWith("http"))
    case AlreadyThere => Finish(Uploaded(Outcome(0, 0, 0, true)))
    case Gone => Finish(FailedWith("sync_expired"))
    case BadRequest => Finish(FailedWith("bad_request"))
    case Unauthorized => Finish(FailedWith("auth_required"))
    case OtherStatus => if attempt < MAX_RETRY_ATTEMPTS then TryAgain else Finish(FailedWith("http"))
    case Unreachable => if attempt < MAX_RETRY_ATTEMPTS then TryAgain else Finish(FailedWith("http"))
    case Broken => Finish(FailedWith("http"))
  }

  /** The i-th POST is the first that is not retried, and is good. */
  predicate Succeeds(answers: seq<Answer>, cancelled: seq<bool>, i: nat)
    requires i < |answers| == |cancelled|
  {
    && Good(answers[i])
    && (forall j :: 0 <= j < i ==> Retryable(answers[j]))
    && (forall j :: 0 <= j <= i ==> !cancelled[j])
  }

  /** One batch. `answers[i]` is what the i-th POST would bring, `cancelled[i]` whether the token is found
      cancelled before it. Success means that some POST was accepted or a duplicate, after nothing but
      retryable answers; and there are at most four POSTs. Failure is a cancellation found before the next POST,
      or what the last answer calls for. */
  method StreamOneBatch(answers: seq<Answer>, cancelled: seq<bool>) returns (result: TaskResult, posts: nat)
    requires |answers| == |cancelled| == MAX_RETRY_ATTEMPTS + 1
    ensures posts <= MAX_RETRY_ATTEMPTS + 1
    ensures forall i :: 0 <= i < posts - 1 ==> Retryable(answers[i])
    ensures result.Uploaded? ==> posts > 0 && Good(answers[posts - 1]) && Reports(answers[posts - 1], result.outcome)
    ensures result.Uploaded? <==> exists i :: 0 <= i <= MAX_RETRY_ATTEMPTS && Succeeds(answers, cancelled, i)
    ensures forall i :: 0 <= i < posts ==> !cancelled[i]
    ensures result.FailedWith? ==>
      || (posts <= MAX_RETRY_ATTEMPTS && cancelled[posts] && result.error == "cancelled"
          && forall i :: 0 <= i < posts ==> Retryable(answers[i]))
      || (posts > 0 && Blames(answers[posts - 1], result.error)
          && (Retryable(answers[posts - 1]) ==> posts == MAX_RETRY_ATTEMPTS + 1))
  {
    var attempt := 0;
    posts := 0;
    while true
      invariant attempt == posts <= MAX_RETRY_ATTEMPTS
      invariant forall i :: 0 <= i < posts ==> Retryable(answers[i]) && !cancelled[i]
      decreases MAX_RETRY_ATTEMPTS + 1 - attempt
    {
      if cancelled[attempt] {
        assert forall i :: 0 <= i <= MAX_RETRY_ATTEMPTS && Succeeds(answers, cancelled, i) ==> i < attempt;
        return FailedWith("cancelled"), posts;
      }
      var answer := answers[attempt];
      posts := posts + 1;
      var verdict := Judge(answer, attempt);
      if verdict.Finish? {
        assert Good(answer) ==> Succeeds(answers, cancelled, attempt);
        assert forall i :: 0 <= i <= MAX_RETRY_ATTEMPTS && Succeeds(answers, cancelled, i) ==> i == attempt;
        return verdict.result, posts;
      }
      attempt := attempt + 1;
    }
  }

  // ---------------------------------------------------------------------------
  // All batches: the spawning and joining loops as a step machine
  // ---------------------------------------------------------------------------

  datatype Phase =
    | Checking
    | Acquiring
    | Joining
    | Aborting(error: string)
    | ReturnedOk
    | ReturnedErr(error: string)

  /** `spawned`: how many of the batches have a task; `running`: tasks holding a permit, with their attempt;
      `finished`: results not joined yet; `joined`: outcomes already added to the totals. `posted` and `taken`,
      the good answers, are history. */
  datatype State = State(
    count: nat,
    phase: Phase,
    spawned: nat,
    running: map<nat, nat>,
    finished: map<nat, TaskResult>,
    joined: map<nat, Outcome>,
    stats: BatchStats,
    childCancelled: bool,
    parentCancelled: bool,
    posted: map<nat, nat>,
    taken: map<nat, Answer>)

  datatype BatchStats = BatchStats(files: nat, deletes: nat, bytes: nat, duplicates: nat)

  function AddOutcome(s: BatchStats, o: Outcome): (t: BatchStats)
  {
    BatchStats(s.files + o.files, s.deletes + o.deletes, s.bytes + o.bytes, s.duplicates + if o.duplicate then 1 else 0)
  }

  datatype Step =
    | PassCheck
    | Spawn
    | SeeCancelled
    | AllSpawned
    | Post(b: nat, answer: Answer)
    | StopTask(b: nat)
    | Panic(b: nat)
    | Join(b: nat)
    | ReturnOk
    | Kill(b: nat)
    | Drain(b: nat)
    | ReturnErr
    | CancelParent

  function Start(count: nat, cancelled: bool): State
  {
    State(count, Checking, 0, map[], map[], map[], BatchStats(0, 0, 0, 0), false, cancelled, map[], map[])
  }

  /** The token is tested before the wait for a permit, so a task can be spawned after a cancellation. */
  predicate Enabled(s: State, step: Step)
  {
    match step
    case PassCheck => s.phase.Checking? && s.spawned < s.count && !s.parentCancelled
    case Spawn => s.phase.Acquiring? && |s.running| < STREAM_CONCURRENCY
    case SeeCancelled => s.phase.Checking? && s.spawned < s.count && s.parentCancelled
    case AllSpawned => s.phase.Checking? && s.spawned == s.count
    case Post(b, _) => b in s.running
    case StopTask(b) => b in s.running && (s.childCancelled || s.parentCancelled)
    case Panic(b) => b in s.running
    case Join(b) => s.phase.Joining? && b in s.finished
    case ReturnOk => s.phase.Joining? && s.running == map[] && s.finished == map[]
    case Kill(b) => s.phase.Aborting? && b in s.running
    case Drain(b) => s.phase.Aborting? && b in s.finished
    case ReturnErr => s.phase.Aborting? && s.running == map[] && s.finished == map[]
    case CancelParent => true
  }

  function PostsOf(posted: map<nat, nat>, b: nat): nat
  {
    if b in posted then posted[b] else 0
  }

  function DoPost(s: State, b: nat, answer: Answer, verdict: Verdict): (t: State)
    requires b in s.running
  {
    s.(posted := s.posted[b := PostsOf(s.posted, b) + 1],
       taken := if Good(answer) then s.taken[b := answer] else s.taken,
       running := if verdict.TryAgain? then s.running[b := s.running[b] + 1] else s.running - {b},
       finished := if verdict.TryAgain? then s.finished else s.finished[b := verdict.result])
  }

  function DoJoin(s: State, b: nat): (t: State)
    requires b in s.finished
  {
    var result := s.finished[b];
    s.(finished := s.finished - {b},
       joined := if result.Uploaded? then s.joined[b := result.outcome] else s.joined,
       stats := if result.Uploaded? then AddOutcome(s.stats, result.outcome) else s.stats,
       phase := if result.Uploaded? then s.phase else Aborting(result.error),
       childCancelled := s.childCancelled || result.FailedWith?)
  }

  function Do(s: State, step: Step): (t: State)
    requires Enabled(s, step)
  {
    match step
    case PassCheck => s.(phase := Acquiring)
    case Spawn => s.(running := s.running[s.spawned := 0], spawned := s.spawned + 1, phase := Checking)
    case SeeCancelled => s.(phase := Aborting("cancelled"), childCancelled := true)
    case AllSpawned => s.(phase := Joining)
    case Post(b, answer) => DoPost(s, b, answer, Judge(answer, s.running[b]))
    case StopTask(b) => s.(running := s.running - {b}, finished := s.finished[b := FailedWith("cancelled")])
    case Panic(b) => s.(running := s.running - {b}, finished := s.finished[b := FailedWith("join")])
    case Join(b) => DoJoin(s, b)
    case ReturnOk => s.(phase := ReturnedOk)
    case Kill(b) => s.(running := s.running - {b}, finished := s.finished[b := FailedWith("aborted")])
    case Drain(b) => s.(finished := s.finished - {b})
    case ReturnErr => s.(phase := ReturnedErr(s.phase.error))
    case CancelParent => s.(parentCancelled := true)
  }

  predicate Runs(s: State, trace: seq<Step>)
    decreases |trace|
  {
    trace == [] || (Enabled(s, trace[0]) && Runs(Do(s, trace[0]), trace[1..]))
  }

  function After(s: State, trace: seq<Step>): (t: State)
    requires Runs(s, trace)
    decreases |trace|
  {
    if trace == [] then s else After(Do(s, trace[0]), trace[1..])
  }

  // ---- the invariant ----

  /** The outcomes of the batches below `n`, added up in the order of the batches. */
  function Total(joined: map<nat, Outcome>, n: nat): (s: BatchStats)
  {
    if n == 0 then BatchStats(0, 0, 0, 0)
    else
      var rest := Total(joined, n - 1);
      if n - 1 in joined then AddOutcome(rest, joined[n - 1]) else rest
  }

  lemma {:induction false} TotalJoins(joined: map<nat, Outcome>, n: nat, b: nat, o: Outcome)
    requires b !in joined
    ensures Total(joined[b := o], n) == if b < n then AddOutcome(Total(joined, n), o) else Total(joined, n)
  {
    if n > 0 {
      TotalJoins(joined, n - 1, b, o);
    }
  }

  /** What the server said about the batches below `n`. */
  function Reported(taken: map<nat, Answer>, n: nat): (s: BatchStats)
  {
    if n == 0 then BatchStats(0, 0, 0, 0)
    else
      var rest := Reported(taken, n - 1);
      if n - 1 !in taken then rest
      else
        match taken[n - 1]
        case Queued(files, deletes, bytes) =>
          rest.(files := rest.files + files, deletes := rest.deletes + deletes, bytes := rest.bytes + bytes)
        case AlreadyThere => rest.(duplicates := rest.duplicates + 1)
        case _ => rest
  }

  lemma {:induction false} TotalIsReported(joined: map<nat, Outcome>, taken: map<nat, Answer>, n: nat)
    requires forall b :: 0 <= b < n ==> b in joined && b in taken && Reports(taken[b], joined[b])
    ensures Total(joined, n) == Reported(taken, n)
    ensures forall b :: 0 <= b < n ==> Good(taken[b])
  {
    if n > 0 {
      TotalIsReported(joined, taken, n - 1);
    }
  }

  lemma {:induction false} TotalOfNothing(n: nat)
    ensures Total(map[], n) == BatchStats(0, 0, 0, 0)
  {
    if n > 0 {
      TotalOfNothing(n - 1);
    }
  }

  predicate Bounded(running: map<nat, nat>, posted: map<nat, nat>)
  {
    && |running| <= STREAM_CONCURRENCY
    && (forall b :: b in running ==> running[b] <= MAX_RETRY_ATTEMPTS && PostsOf(posted, b) == running[b])
    && (forall b :: b in posted ==> posted[b] <= MAX_RETRY_ATTEMPTS + 1)
  }

  /** Every batch spawned so far is in one place, unless an abort threw it away. */
  ghost predicate Placed(count: nat, phase: Phase, spawned: nat, running: map<nat, nat>, finished: map<nat, TaskResult>,
                   joined: map<nat, Outcome>, posted: map<nat, nat>, taken: map<nat, Answer>)
  {
    && spawned <= count && (phase.Acquiring? ==> spawned < count)
    && (phase.Joining? || phase.ReturnedOk? ==> spawned == count)
    && (forall b :: b in running || b in finished || b in joined || b in posted || b in taken ==> b < spawned)
    && running.Keys !! finished.Keys && running.Keys !! joined.Keys && finished.Keys !! joined.Keys
    && (!phase.Aborting? && !phase.ReturnedErr? ==>
         forall b :: 0 <= b < spawned ==> b in running || b in finished || b in joined)
    && (phase.ReturnedOk? || phase.ReturnedErr? ==> running == map[] && finished == map[])
  }

  /** Every outcome is what the server answered for that batch, once. */
  predicate Honest(running: map<nat, nat>, finished: map<nat, TaskResult>, joined: map<nat, Outcome>,
                   taken: map<nat, Answer>)
  {
    && (forall b :: b in taken ==> b !in running)
    && (forall b :: b in finished && finished[b].Uploaded? ==> b in taken && Reports(taken[b], finished[b].outcome))
    && (forall b :: b in joined ==> b in taken && Reports(taken[b], joined[b]))
  }

  ghost predicate Invariant(s: State)
  {
    && Bounded(s.running, s.posted)
    && Placed(s.count, s.phase, s.spawned, s.running, s.finished, s.joined, s.posted, s.taken)
    && Honest(s.running, s.finished, s.joined, s.taken)
    && s.stats == Total(s.joined, s.count)
  }

  lemma Smaller(running: map<nat, nat>, b: nat)
    requires b in running
    ensures |running - {b}| < |running|
  {
    assert (running - {b}).Keys == running.Keys - {b};
  }

  lemma RetryBounded(running: map<nat, nat>, posted: map<nat, nat>, b: nat)
    requires Bounded(running, posted) && b in running && running[b] < MAX_RETRY_ATTEMPTS
    ensures Bounded(running[b := running[b] + 1], posted[b := PostsOf(posted, b) + 1])
  {
    assert running[b := running[b] + 1].Keys == running.Keys;
  }

  lemma DoneBounded(running: map<nat, nat>, posted: map<nat, nat>, b: nat)
    requires Bounded(running, posted) && b in running
    ensures Bounded(running - {b}, posted[b := PostsOf(posted, b) + 1])
  {
    Smaller(running, b);
  }

  lemma PostBounded(s: State, b: nat, answer: Answer, verdict: Verdict)
    requires Bounded(s.running, s.posted) && b in s.running
    requires verdict.TryAgain? ==> s.running[b] < MAX_RETRY_ATTEMPTS
    ensures var t := DoPost(s, b, answer, verdict); Bounded(t.running, t.posted)
  {
    if verdict.TryAgain? {
      RetryBounded(s.running, s.posted, b);
    } else {
      DoneBounded(s.running, s.posted, b);
    }
  }

  lemma PostPlaced(s: State, b: nat, answer: Answer, verdict: Verdict)
    requires Placed(s.count, s.phase, s.spawned, s.running, s.finished, s.joined, s.posted, s.taken) && b in s.running
    ensures var t := DoPost(s, b, answer, verdict);
      Placed(t.count, t.phase, t.spawned, t.running, t.finished, t.joined, t.posted, t.taken)
  {
  }

  lemma PostHonest(s: State, b: nat, answer: Answer, verdict: Verdict)
    requires Honest(s.running, s.finished, s.joined, s.taken) && b in s.running
    requires b !in s.joined && b !in s.finished
    requires verdict.Finish? && verdict.result.Uploaded? ==> Good(answer) && Reports(answer, verdict.result.outcome)
    requires verdict.TryAgain? ==> !Good(answer)
    ensures var t := DoPost(s, b, answer, verdict); Honest(t.running, t.finished, t.joined, t.taken)
  {
  }

  lemma PostKeeps(s: State, b: nat, answer: Answer)
    requires Invariant(s) && Enabled(s, Post(b, answer))
    ensures Invariant(Do(s, Post(b, answer)))
  {
    var verdict := Judge(answer, s.running[b]);
    PostBounded(s, b, answer, verdict);
    PostPlaced(s, b, answer, verdict);
    PostHonest(s, b, answer, verdict);
  }

  lemma SpawnBounded(s: State)
    requires Bounded(s.running, s.posted) && Enabled(s, Spawn)
    requires Placed(s.count, s.phase, s.spawned, s.running, s.finished, s.joined, s.posted, s.taken)
    ensures var t := Do(s, Spawn); Bounded(t.running, t.posted)
  {
    OneMore(s.running, s.spawned);
    assert s.spawned !in s.posted;
  }

  lemma OneMore(running: map<nat, nat>, b: nat)
    ensures |running[b := 0]| <= |running| + 1
  {
    assert running[b := 0].Keys == running.Keys + {b};
  }

  lemma SpawnPlaced(s: State)
    requires Placed(s.count, s.phase, s.spawned, s.running, s.finished, s.joined, s.posted, s.taken)
      && Enabled(s, Spawn)
    ensures var t := Do(s, Spawn);
      Placed(t.count, t.phase, t.spawned, t.running, t.finished, t.joined, t.posted, t.taken)
  {
  }

  lemma SpawnKeeps(s: State)
    requires Invariant(s) && Enabled(s, Spawn)
    ensures Invariant(Do(s, Spawn))
  {
    SpawnBounded(s);
    SpawnPlaced(s);
  }

  /** A task that ends without an answer of the server. */
  lemma EndKeeps(s: State, b: nat, why: string)
    requires Invariant(s) && b in s.running
    ensures Invariant(s.(running := s.running - {b}, finished := s.finished[b := FailedWith(why)]))
  {
    Smaller(s.running, b);
  }

  lemma JoinPlaced(s: State, b: nat)
    requires Placed(s.count, s.phase, s.spawned, s.running, s.finished, s.joined, s.posted, s.taken)
      && s.phase.Joining? && b in s.finished
    ensures var t := DoJoin(s, b);
      Placed(t.count, t.phase, t.spawned, t.running, t.finished, t.joined, t.posted, t.taken)
  {
  }

  lemma JoinHonest(s: State, b: nat)
    requires Honest(s.running, s.finished, s.joined, s.taken) && s.phase.Joining? && b in s.finished
    ensures var t := DoJoin(s, b); Honest(t.running, t.finished, t.joined, t.taken)
  {
  }

  lemma JoinKeeps(s: State, b: nat)
    requires Invariant(s) && Enabled(s, Join(b))
    ensures Invariant(Do(s, Join(b)))
  {
    JoinPlaced(s, b);
    JoinHonest(s, b);
    if s.finished[b].Uploaded? {
      TotalJoins(s.joined, s.count, b, s.finished[b].outcome);
    }
  }

  lemma StepKeeps(s: State, step: Step)
    requires Invariant(s) && Enabled(s, step)
    ensures Invariant(Do(s, step))
  {
    match step
    case Spawn => SpawnKeeps(s);
    case Post(b, answer) => PostKeeps(s, b, answer);
    case StopTask(b) => EndKeeps(s, b, "cancelled");
    case Panic(b) => EndKeeps(s, b, "join");
    case Kill(b) => EndKeeps(s, b, "aborted");
    case Join(b) => JoinKeeps(s, b);
    case _ =>
  }

  lemma StepLeavesParent(s: State, step: Step)
    requires Enabled(s, step)
    ensures Do(s, step).count == s.count
    ensures !step.CancelParent? ==> Do(s, step).parentCancelled == s.parentCancelled
  {
  }

  lemma {:induction false} RunKeeps(s: State, trace: seq<Step>)
    requires Invariant(s) && Runs(s, trace)
    ensures Invariant(After(s, trace)) && After(s, trace).count == s.count
    ensures (forall i :: 0 <= i < |trace| ==> !trace[i].CancelParent?) ==>
      After(s, trace).parentCancelled == s.parentCancelled
    decreases |trace|
  {
    if trace != [] {
      StepKeeps(s, trace[0]);
      StepLeavesParent(s, trace[0]);
      RunKeeps(Do(s, trace[0]), trace[1..]);
    }
  }

  /** How many tasks can still be spawned once the parent token is cancelled. */
  function LateSpawns(phase: Phase): (n: nat)
  {
    if phase.Acquiring? then 1 else 0
  }

  lemma StepStopsSpawning(s: State, step: Step)
    requires Enabled(s, step) && s.parentCancelled
    ensures var t := Do(s, step);
      t.parentCancelled && t.spawned + LateSpawns(t.phase) <= s.spawned + LateSpawns(s.phase)
  {
  }

  lemma {:induction false} CancelStopsSpawning(s: State, trace: seq<Step>)
    requires Runs(s, trace) && s.parentCancelled
    ensures After(s, trace).spawned + LateSpawns(After(s, trace).phase) <= s.spawned + LateSpawns(s.phase)
    decreases |trace|
  {
    if trace != [] {
      StepStopsSpawning(s, trace[0]);
      CancelStopsSpawning(Do(s, trace[0]), trace[1..]);
    }
  }

  /** That one late spawn does happen. */
  lemma LateSpawn()
    ensures var trace := [PassCheck, CancelParent, Spawn];
      && Runs(Start(1, false), trace)
      && After(Start(1, false), trace).parentCancelled && 0 in After(Start(1, false), trace).running
  {
    var s := Start(1, false);
    var trace := [PassCheck, CancelParent, Spawn];
    assert trace[1..] == [CancelParent, Spawn] && trace[1..][1..] == [Spawn] && trace[1..][1..][1..] == [];
    var t := Do(Do(s, PassCheck), CancelParent);
    assert Runs(t, [Spawn]);
    assert Runs(Do(s, PassCheck), [CancelParent, Spawn]);
  }

  // ---- what an aborted upload reports ----

  lemma {:induction false} RunsSplit(s: State, trace: seq<Step>, n: nat)
    requires Runs(s, trace) && n <= |trace|
    ensures Runs(s, trace[..n]) && Runs(After(s, trace[..n]), trace[n..])
    ensures After(s, trace) == After(After(s, trace[..n]), trace[n..])
    decreases |trace|
  {
    if n == 0 {
      assert trace[..0] == [] && trace[0..] == trace;
    } else {
      RunsSplit(Do(s, trace[0]), trace[1..], n - 1);
      assert trace[..n][0] == trace[0] && trace[..n][1..] == trace[1..][..n - 1] && trace[1..][n - 1..] == trace[n..];
    }
  }

  lemma RunsStep(s: State, trace: seq<Step>, n: nat)
    requires Runs(s, trace) && n < |trace|
    ensures Runs(s, trace[..n]) && Runs(s, trace[..n + 1])
    ensures var t := After(s, trace[..n]); Enabled(t, trace[n]) && After(s, trace[..n + 1]) == Do(t, trace[n])
  {
    RunsSplit(s, trace, n + 1);
    RunsSplit(s, trace[..n + 1], n);
    assert trace[..n + 1][..n] == trace[..n];
    var rest := trace[..n + 1][n..];
    assert rest[0] == trace[n] && rest[1..] == [];
  }

  /** The step ends the task of batch `b` with this error: by the answer to a POST, which if retryable is the
      answer to the fourth one; by the token; by a panic; or because the upload is being aborted. */
  predicate EndsTask(s: State, step: Step, b: nat, error: string)
  {
    match step
    case Post(c, answer) =>
      && c == b && b in s.running && Blames(answer, error)
      && (Retryable(answer) ==> PostsOf(s.posted, b) == MAX_RETRY_ATTEMPTS)
    case StopTask(c) => c == b && error == "cancelled" && (s.childCancelled || s.parentCancelled)
    case Panic(c) => c == b && error == "join"
    case Kill(c) => c == b && error == "aborted"
    case _ => false
  }

  predicate Aborted(phase: Phase)
  {
    phase.Aborting? || phase.ReturnedErr?
  }

  /** Until the abort no result of a task that failed has been joined, and no task been killed. */
  predicate Calm(init: State, trace: seq<Step>, n: nat)
    requires n <= |trace|
  {
    forall i :: 0 <= i < n ==> !trace[i].Kill? && (trace[i].Join? ==> JoinsSuccess(init, trace, i))
  }

  predicate JoinsSuccess(init: State, trace: seq<Step>, i: nat)
    requires i < |trace| && trace[i].Join?
  {
    && Runs(init, trace[..i])
    && var s := After(init, trace[..i]); trace[i].b in s.finished && s.finished[trace[i].b].Uploaded?
  }

  predicate EndedAt(init: State, trace: seq<Step>, j: nat, b: nat, error: string)
    requires j < |trace|
  {
    Runs(init, trace[..j]) && EndsTask(After(init, trace[..j]), trace[j], b, error)
  }

  predicate Ended(init: State, trace: seq<Step>, n: nat, b: nat, error: string)
    requires n <= |trace|
  {
    exists j :: 0 <= j < n && EndedAt(init, trace, j, b, error)
  }

  /** Every failed result that waits to be joined has its reason in the run. */
  predicate Explained(init: State, trace: seq<Step>, n: nat, finished: map<nat, TaskResult>)
    requires n <= |trace|
  {
    forall b :: b in finished && finished[b].FailedWith? ==> Ended(init, trace, n, b, finished[b].error)
  }

  /** The n-th step aborts the upload, with this error: the parent token is found cancelled between two spawns,
      or the first failed result is joined, and it is the error of that. */
  predicate AbortsAt(init: State, trace: seq<Step>, n: nat, error: string)
    requires n < |trace|
  {
    && Calm(init, trace, n)
    && match trace[n]
       case SeeCancelled =>
         error == "cancelled" && Runs(init, trace[..n]) && After(init, trace[..n]).parentCancelled
       case Join(b) => Ended(init, trace, n, b, error)
       case _ => false
  }

  ghost predicate Accounted(init: State, trace: seq<Step>, n: nat, error: string)
    requires n <= |trace|
  {
    exists i :: 0 <= i < n && AbortsAt(init, trace, i, error)
  }

  lemma PostExplains(s: State, b: nat, answer: Answer, c: nat)
    requires Bounded(s.running, s.posted) && b in s.running
    ensures var t := Do(s, Post(b, answer));
      c in t.finished && t.finished[c].FailedWith? ==>
        (c in s.finished && s.finished[c] == t.finished[c]) || EndsTask(s, Post(b, answer), c, t.finished[c].error)
  {
  }

  lemma StepExplains(s: State, step: Step, b: nat)
    requires Bounded(s.running, s.posted) && Enabled(s, step)
    ensures var t := Do(s, step);
      b in t.finished && t.finished[b].FailedWith? ==>
        (b in s.finished && s.finished[b] == t.finished[b]) || EndsTask(s, step, b, t.finished[b].error)
  {
    if step.Post? {
      PostExplains(s, step.b, step.answer, b);
    }
  }

  lemma StepAborts(s: State, step: Step)
    requires Enabled(s, step)
    ensures Aborted(s.phase) ==> Aborted(Do(s, step).phase) && Do(s, step).phase.error == s.phase.error
    ensures !Aborted(s.phase) && Aborted(Do(s, step).phase) ==>
      || (step == SeeCancelled && Do(s, step).phase.error == "cancelled" && s.parentCancelled)
      || (step.Join? && step.b in s.finished && s.finished[step.b] == FailedWith(Do(s, step).phase.error))
    ensures !Aborted(Do(s, step).phase) ==> !step.Kill? && (step.Join? ==> s.finished[step.b].Uploaded?)
  {
  }

  lemma ExplainedOn(init: State, trace: seq<Step>, n: nat)
    requires n < |trace| && Runs(init, trace[..n]) && Runs(init, trace[..n + 1])
    requires var s := After(init, trace[..n]);
      && Bounded(s.running, s.posted) && Enabled(s, trace[n]) && After(init, trace[..n + 1]) == Do(s, trace[n])
      && Explained(init, trace, n, s.finished)
    ensures Explained(init, trace, n + 1, After(init, trace[..n + 1]).finished)
  {
    var s, t := After(init, trace[..n]), After(init, trace[..n + 1]);
    forall b | b in t.finished && t.finished[b].FailedWith?
      ensures Ended(init, trace, n + 1, b, t.finished[b].error)
    {
      StepExplains(s, trace[n], b);
      if b in s.finished && s.finished[b] == t.finished[b] {
        var j :| 0 <= j < n && EndedAt(init, trace, j, b, t.finished[b].error);
        assert EndedAt(init, trace, j, b, t.finished[b].error);
      } else {
        assert EndedAt(init, trace, n, b, t.finished[b].error);
      }
    }
  }

  /** The run so far: calm, or aborted with its reason. */
  ghost predicate Told(init: State, trace: seq<Step>, n: nat)
    requires n <= |trace|
  {
    && Runs(init, trace[..n])
    && var s := After(init, trace[..n]);
       && Explained(init, trace, n, s.finished)
       && (if Aborted(s.phase) then Accounted(init, trace, n, s.phase.error) else Calm(init, trace, n))
  }

  lemma AccountedOn(init: State, trace: seq<Step>, n: nat)
    requires n < |trace| && Runs(init, trace[..n])
    requires var s := After(init, trace[..n]);
      && Enabled(s, trace[n]) && Explained(init, trace, n, s.finished)
      && (if Aborted(s.phase) then Accounted(init, trace, n, s.phase.error) else Calm(init, trace, n))
    ensures var s := After(init, trace[..n]);
      var t := Do(s, trace[n]);
      if Aborted(t.phase) then Accounted(init, trace, n + 1, t.phase.error) else Calm(init, trace, n + 1)
  {
    var s := After(init, trace[..n]);
    StepAborts(s, trace[n]);
    var t := Do(s, trace[n]);
    if Aborted(s.phase) {
      var i :| 0 <= i < n && AbortsAt(init, trace, i, s.phase.error);
      assert AbortsAt(init, trace, i, t.phase.error);
    } else if Aborted(t.phase) {
      assert AbortsAt(init, trace, n, t.phase.error);
    }
  }

  lemma ToldOn(init: State, trace: seq<Step>, n: nat)
    requires n < |trace| && Told(init, trace, n) && Runs(init, trace[..n + 1])
    requires var s := After(init, trace[..n]);
      Bounded(s.running, s.posted) && Enabled(s, trace[n]) && After(init, trace[..n + 1]) == Do(s, trace[n])
    ensures Told(init, trace, n + 1)
  {
    ExplainedOn(init, trace, n);
    AccountedOn(init, trace, n);
  }

  lemma StartTold(count: nat, cancelled: bool, trace: seq<Step>)
    ensures Told(Start(count, cancelled), trace, 0)
  {
    assert trace[..0] == [];
  }

  lemma RunBounded(count: nat, cancelled: bool, trace: seq<Step>)
    requires Runs(Start(count, cancelled), trace)
    ensures var s := After(Start(count, cancelled), trace); Bounded(s.running, s.posted)
  {
    TotalOfNothing(count);
    RunKeeps(Start(count, cancelled), trace);
  }

  lemma {:induction false} RunTold(count: nat, cancelled: bool, trace: seq<Step>, n: nat)
    requires Runs(Start(count, cancelled), trace) && n <= |trace|
    ensures Told(Start(count, cancelled), trace, n)
  {
    if n == 0 {
      StartTold(count, cancelled, trace);
    } else {
      RunTold(count, cancelled, trace, n - 1);
      RunsStep(Start(count, cancelled), trace, n - 1);
      RunBounded(count, cancelled, trace[..n - 1]);
      ToldOn(Start(count, cancelled), trace, n - 1);
    }
  }

  lemma ErrorIsFirstFailure(count: nat, cancelled: bool, trace: seq<Step>)
    requires Runs(Start(count, cancelled), trace)
    ensures var phase := After(Start(count, cancelled), trace).phase;
      Aborted(phase) ==> Accounted(Start(count, cancelled), trace, |trace|, phase.error)
  {
    RunTold(count, cancelled, trace, |trace|);
    assert trace[..|trace|] == trace;
  }

  /** In every run, at every moment: at most ten uploads are in flight, and no batch was posted more than
      four times. `Ok` means that the server took every batch, and the totals add up what it said about each,
      batch by batch, whatever order the answers came in. `Err` leaves no task behind, and carries the error of the
      first failed result that was joined, or of the cancellation found while spawning. And the parent token is
      cancelled only from outside. */
  lemma BoundedUploadCleanAbort(count: nat, cancelled: bool, trace: seq<Step>)
    requires Runs(Start(count, cancelled), trace)
    ensures var s := After(Start(count, cancelled), trace);
      && |s.running| <= STREAM_CONCURRENCY
      && (forall b :: b in s.posted ==> b < count && s.posted[b] <= MAX_RETRY_ATTEMPTS + 1)
      && (s.phase.ReturnedOk? ==>
           && (forall b :: 0 <= b < count ==> b in s.taken && Good(s.taken[b]))
           && s.stats == Reported(s.taken, count))
      && (s.phase.ReturnedErr? ==>
           && s.running == map[] && s.finished == map[]
           && Accounted(Start(count, cancelled), trace, |trace|, s.phase.error))
      && ((forall i :: 0 <= i < |trace| ==> !trace[i].CancelParent?) ==> s.parentCancelled == cancelled)
  {
    TotalOfNothing(count);
    RunKeeps(Start(count, cancelled), trace);
    ErrorIsFirstFailure(count, cancelled, trace);
    var s := After(Start(count, cancelled), trace);
    if s.phase.ReturnedOk? {
      TotalIsReported(s.joined, s.taken, count);
    }
  }
}
