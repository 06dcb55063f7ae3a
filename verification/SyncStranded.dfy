/** Why the no-lost-wakeup theorem asks that no stamp of the last batch was refused: a run in which every
    trigger transaction commits and no job is archived, and which ends with a session that could be finalized
    and nothing left to do it. Two deliveries of one job run at once; the first has its stamp refused, goes
    on, and is acknowledged, which deletes that job; the second stamps the row and dies. */
module SyncStranded {
  import opened Merkle
  import opened SyncProtocol
  import opened SyncRuns
  import opened SyncTheorems
  import opened SyncDrive
  import opened SyncWedge
  import opened SyncRename

  const UNREADABLE := StampingFailed("decode_error")

  ghost function Sent(a: Name, b: Name, sha: Hash): State
  {
    Queued(a, b, sha).(claims := map[], outbox := map[Batch(ID) := Enqueued])
  }

  ghost function OneWorker(a: Name, b: Name, sha: Hash): State
  {
    Sent(a, b, sha).(workers := map[0 := Worker(ID, 0, Start)])
  }

  ghost function TwoWorkers(a: Name, b: Name, sha: Hash, first: Phase, second: Phase): State
  {
    Sent(a, b, sha).(workers := map[0 := Worker(ID, 0, first), 1 := Worker(ID, 0, second)])
  }

  /** The first worker's stamp was refused. */
  ghost function Refusal(a: Name, b: Name, sha: Hash): State
  {
    TwoWorkers(a, b, sha, Finishing, UNREADABLE).(unmarked := {ID})
  }

  ghost function WithoutContent(a: Name, b: Name, sha: Hash, first: Phase): State
  {
    TwoWorkers(a, b, sha, first, UNREADABLE).(unmarked := {ID}, content := {})
  }

  ghost function Acknowledged(a: Name, b: Name, sha: Hash): State
  {
    Sent(a, b, sha).(unmarked := {ID}, content := {}, queue := map[], workers := map[1 := Worker(ID, 0, UNREADABLE)])
  }

  function FailedRow(a: Name, b: Name, sha: Hash): Row
  {
    Row(map[[b] := sha], [[a]], RowState.Rejected, map[[b] := "decode_error"], [[a]])
  }

  ghost function Stamped(a: Name, b: Name, sha: Hash): State
  {
    Acknowledged(a, b, sha).(rows := map[ID := FailedRow(a, b, sha)], workers := map[1 := Worker(ID, 0, Finishing)])
  }

  ghost function Stranded(a: Name, b: Name, sha: Hash): State
  {
    Stamped(a, b, sha).(workers := map[])
  }

  // ---- its steps ----

  lemma Confirm(a: Name, b: Name, sha: Hash)
    ensures Steps(Queued(a, b, sha), Dispatch(ConfirmSent(0)), Sent(a, b, sha))
  {
    var s := Queued(a, b, sha);
    assert s.claims - {0} == map[];
    assert DoDispatch(s, ConfirmSent(0)) == Sent(a, b, sha);
  }

  lemma DeliverOnce(a: Name, b: Name, sha: Hash)
    ensures Steps(Sent(a, b, sha), Work(0, Deliver(ID)), OneWorker(a, b, sha))
  {
  }

  lemma DeliverTwice(a: Name, b: Name, sha: Hash)
    ensures Steps(OneWorker(a, b, sha), Work(1, Deliver(ID)), TwoWorkers(a, b, sha, Start, Start))
  {
    var s, t := OneWorker(a, b, sha), TwoWorkers(a, b, sha, Start, Start);
    assert WorkersAfter(s, 1, Deliver(ID)) == t.workers;
    assert DoWork(s, 1, Deliver(ID)) == t;
    WorkIsStep(s, 1, Deliver(ID), t);
  }

  lemma FetchFirst(a: Name, b: Name, sha: Hash)
    ensures Steps(TwoWorkers(a, b, sha, Start, Start), Work(0, FetchContent(false)),
      TwoWorkers(a, b, sha, UNREADABLE, Start))
  {
    var s, t := TwoWorkers(a, b, sha, Start, Start), TwoWorkers(a, b, sha, UNREADABLE, Start);
    assert WorkersAfter(s, 0, FetchContent(false)) == t.workers;
    assert DoWork(s, 0, FetchContent(false)) == t;
    WorkIsStep(s, 0, FetchContent(false), t);
  }

  lemma FetchSecond(a: Name, b: Name, sha: Hash)
    ensures Steps(TwoWorkers(a, b, sha, UNREADABLE, Start), Work(1, FetchContent(false)),
      TwoWorkers(a, b, sha, UNREADABLE, UNREADABLE))
  {
    var s, t := TwoWorkers(a, b, sha, UNREADABLE, Start), TwoWorkers(a, b, sha, UNREADABLE, UNREADABLE);
    assert WorkersAfter(s, 1, FetchContent(false)) == t.workers;
    assert DoWork(s, 1, FetchContent(false)) == t;
    WorkIsStep(s, 1, FetchContent(false), t);
  }

  lemma RefuseStamp(a: Name, b: Name, sha: Hash)
    ensures Steps(TwoWorkers(a, b, sha, UNREADABLE, UNREADABLE), Work(0, StampFailed(Refused)), Refusal(a, b, sha))
  {
    var s, t := TwoWorkers(a, b, sha, UNREADABLE, UNREADABLE), Refusal(a, b, sha);
    assert WorkersAfter(s, 0, StampFailed(Refused)) == t.workers;
    assert s.unmarked + {ID} == t.unmarked;
    assert DoWork(s, 0, StampFailed(Refused)) == t;
    WorkIsStep(s, 0, StampFailed(Refused), t);
  }

  lemma DropFirst(a: Name, b: Name, sha: Hash)
    ensures Steps(Refusal(a, b, sha), Work(0, DropContent(true)), WithoutContent(a, b, sha, Triggering))
  {
    var s, t := Refusal(a, b, sha), WithoutContent(a, b, sha, Triggering);
    assert WorkersAfter(s, 0, DropContent(true)) == t.workers;
    assert s.content - {ID} == t.content;
    assert DoWork(s, 0, DropContent(true)) == t;
    WorkIsStep(s, 0, DropContent(true), t);
  }

  lemma TriggerInVain(a: Name, b: Name, sha: Hash)
    ensures Steps(WithoutContent(a, b, sha, Triggering), Work(0, Trigger(Acked)), WithoutContent(a, b, sha, Returning))
  {
    var s, t := WithoutContent(a, b, sha, Triggering), WithoutContent(a, b, sha, Returning);
    assert ID in s.rows && s.rows[ID].state == Pending;
    assert !ReadyToFinalize(s);
    assert WorkersAfter(s, 0, Trigger(Acked)) == t.workers;
    assert DoWork(s, 0, Trigger(Acked)) == t;
    WorkIsStep(s, 0, Trigger(Acked), t);
  }

  lemma AckIsStep(s: State, w: nat)
    requires w in s.workers && s.workers[w].phase == Returning
    ensures Steps(s, Work(w, Return), s.(workers := s.workers - {w}, queue := s.queue - {Batch(s.workers[w].id)}))
  {
  }

  lemma AckFirst(a: Name, b: Name, sha: Hash)
    ensures Steps(WithoutContent(a, b, sha, Returning), Work(0, Return), Acknowledged(a, b, sha))
  {
    var s, t := WithoutContent(a, b, sha, Returning), Acknowledged(a, b, sha);
    assert s.workers - {0} == t.workers;
    assert s.queue - {Batch(ID)} == t.queue;
    AckIsStep(s, 0);
  }

  lemma RejectMove(a: Name, b: Name, sha: Hash, why: string)
    ensures Reject(map[ID := Accepted(a, b, sha, Pending)], ID, why)
      == map[ID := Row(map[[b] := sha], [[a]], RowState.Rejected, map[[b] := why], [[a]])]
  {
    var files: Leaves := map[[b] := sha];
    assert (map p | p in files :: why) == map[[b] := why];
  }

  lemma StampIsStep(s: State, w: nat, why: string)
    requires w in s.workers && s.workers[w].phase == StampingFailed(why) && s.workers[w].id == s.last
    ensures Steps(s, Work(w, StampFailed(Acked)),
                  s.(rows := Reject(s.rows, s.workers[w].id, why),
                    workers := s.workers[w := s.workers[w].(phase := Finishing)]))
  {
  }

  lemma StampSecond(a: Name, b: Name, sha: Hash)
    ensures Steps(Acknowledged(a, b, sha), Work(1, StampFailed(Acked)), Stamped(a, b, sha))
  {
    var s, t := Acknowledged(a, b, sha), Stamped(a, b, sha);
    RejectMove(a, b, sha, "decode_error");
    assert s.workers[1 := s.workers[1].(phase := Finishing)] == t.workers;
    StampIsStep(s, 1, "decode_error");
  }

  lemma SecondDies(a: Name, b: Name, sha: Hash)
    ensures Steps(Stamped(a, b, sha), Work(1, Die), Stranded(a, b, sha))
  {
    var s, t := Stamped(a, b, sha), Stranded(a, b, sha);
    assert s.workers - {1} == t.workers;
    assert DoWork(s, 1, Die) == t;
    WorkIsStep(s, 1, Die, t);
  }

  // ---- the run ----

  lemma WorkersRun(a: Name, b: Name, sha: Hash)
    ensures Leads(Queued(a, b, sha), Stranded(a, b, sha))
  {
    var end := Stranded(a, b, sha);
    Stay(end);
    SecondDies(a, b, sha);
    Prepend(Stamped(a, b, sha), Work(1, Die), end, end);
    StampSecond(a, b, sha);
    Prepend(Acknowledged(a, b, sha), Work(1, StampFailed(Acked)), Stamped(a, b, sha), end);
    AckFirst(a, b, sha);
    Prepend(WithoutContent(a, b, sha, Returning), Work(0, Return), Acknowledged(a, b, sha), end);
    TriggerInVain(a, b, sha);
    Prepend(WithoutContent(a, b, sha, Triggering), Work(0, Trigger(Acked)), WithoutContent(a, b, sha, Returning), end);
    DropFirst(a, b, sha);
    Prepend(Refusal(a, b, sha), Work(0, DropContent(true)), WithoutContent(a, b, sha, Triggering), end);
    RefuseStamp(a, b, sha);
    Prepend(TwoWorkers(a, b, sha, UNREADABLE, UNREADABLE), Work(0, StampFailed(Refused)), Refusal(a, b, sha), end);
    FetchSecond(a, b, sha);
    Prepend(TwoWorkers(a, b, sha, UNREADABLE, Start), Work(1, FetchContent(false)),
            TwoWorkers(a, b, sha, UNREADABLE, UNREADABLE), end);
    FetchFirst(a, b, sha);
    Prepend(TwoWorkers(a, b, sha, Start, Start), Work(0, FetchContent(false)),
      TwoWorkers(a, b, sha, UNREADABLE, Start), end);
    DeliverTwice(a, b, sha);
    Prepend(OneWorker(a, b, sha), Work(1, Deliver(ID)), TwoWorkers(a, b, sha, Start, Start), end);
    DeliverOnce(a, b, sha);
    Prepend(Sent(a, b, sha), Work(0, Deliver(ID)), OneWorker(a, b, sha), end);
    Confirm(a, b, sha);
    Prepend(Queued(a, b, sha), Dispatch(ConfirmSent(0)), Sent(a, b, sha), end);
  }

  lemma NothingToCome(s: State)
    requires s.session == Present(Processing) && s.queue == map[] && s.claims == map[] && s.workers == map[]
    requires forall k :: k in s.outbox ==> s.outbox[k] == Enqueued
    ensures forall key :: !TaskToCome(s, key)
    ensures s.rows != map[] && AllTerminal(s.rows) ==> !CanFlip(s)
  {
    assert forall id :: !Triggerable(s, id);
    if s.rows != map[] && AllTerminal(s.rows) {
      CanFlipIff(s);
    }
  }

  lemma StrandedIs(a: Name, b: Name, sha: Hash)
    ensures var s := Stranded(a, b, sha);
      && ReadyToFinalize(s) && s.misfired == {} && s.dropped == {} && s.unmarked == {s.last} && s.workers == map[]
      && s.queue == map[] && s.claims == map[] && forall k :: k in s.outbox ==> s.outbox[k] == Enqueued
  {
    assert ID in Stranded(a, b, sha).rows;
  }

  /** The stranded session: ready to finalize, no trigger lost, no task archived, and no task of any kind to
      come and no delivery running. So no run ever brings it to its finalization. */
  lemma RefusedStampStrands(a: Name, b: Name, sha: Hash) returns (trace: seq<Step>, s: State)
    requires a != b
    ensures Reachable(s, trace, map[[b] := sha], [[a]], Before(a, sha))
    ensures ReadyToFinalize(s) && s.misfired == {} && s.dropped == {} && s.unmarked == {s.last} && s.workers == map[]
    ensures forall key :: !TaskToCome(s, key)
    ensures !CanFlip(s)
  {
    WorkersRun(a, b, sha);
    AdmissionRuns(a, b, sha, Stranded(a, b, sha));
    s := Stranded(a, b, sha);
    trace :| Runs(Created(a, b, sha), trace) && After(Created(a, b, sha), trace) == s && Alone(trace);
    StrandedIs(a, b, sha);
    NothingToCome(s);
  }
}
