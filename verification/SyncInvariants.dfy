/** The inductive invariant of the sync session machine, and what it gives for every run.

    Each part of the invariant is a predicate on just the fields it speaks of, so that a step which
    leaves those fields alone keeps it for free. */
module SyncInvariants {
  import opened Merkle
  import opened SyncProtocol

  // ---------------------------------------------------------------------------
  // Rows, outbox and tasks
  // ---------------------------------------------------------------------------

  type Rows = map<BatchId, Row>

  ghost predicate RowsAgree(expected: Leaves, rows: Rows)
  {
    forall id, p :: id in rows && p in rows[id].files ==> p in expected && rows[id].files[p] == expected[p]
  }

  ghost predicate RequestsValid(files: Leaves, deletes: seq<Path>, requests: map<nat, Request>)
  {
    forall r :: r in requests ==> ValidRequest(files, deletes, requests[r])
  }

  ghost predicate OutboxMatches(session: Session, rows: Rows, outbox: map<Key, OutboxStatus>)
  {
    && (session.Gone? ==> rows == map[] && outbox == map[])
    && (forall id :: Batch(id) in outbox <==> id in rows)
  }

  /** What a task may name: a batch whose row is there (unless the session was collected), or the
      finalization that was entered. */
  ghost predicate Known(session: Session, rows: Rows, flips: nat, key: Key)
  {
    match key
    case Batch(id) => session.Gone? || id in rows
    case Finalize => flips >= 1
  }

  ghost predicate HandedKnown(session: Session, rows: Rows, flips: nat, handed: set<Key>)
  {
    forall key :: key in handed ==> Known(session, rows, flips, key)
  }

  ghost predicate ClaimsTraced(session: Session, rows: Rows, flips: nat, claims: map<nat, Claim>, handed: set<Key>)
  {
    forall c :: c in claims ==>
      Known(session, rows, flips, claims[c].key) && (claims[c].sent ==> claims[c].key in handed)
  }

  /** Tasks come from outbox rows: through a claim into the queue, and from the queue to a delivery. */
  ghost predicate TasksTraced(outbox: map<Key, OutboxStatus>, queue: map<Key, nat>, workers: map<nat, Worker>,
                              finalizers: map<nat, FinalPhase>, handed: set<Key>, dropped: set<Key>)
  {
    && queue.Keys <= handed && dropped <= handed
    && (forall key :: key in outbox && outbox[key] == Enqueued ==> key in handed)
    && (forall w :: w in workers ==> Batch(workers[w].id) in handed)
    && (finalizers != map[] ==> Finalize in handed)
  }

  /** Finalization is entered at most once, together with its outbox row, and only on terminal rows. */
  ghost predicate FlippedOnce(session: Session, rows: Rows, outbox: map<Key, OutboxStatus>, flips: nat)
  {
    && flips <= 1
    && (session.Present? ==>
      && (flips == 1 <==> Finalize in outbox)
      && (flips == 1 ==> AllTerminal(rows))
      && (session.status.Receiving? || session.status.Processing? ==> flips == 0)
      && (session.status.Finalizing? ==> flips == 1)
      && (session.status.Done? && rows != map[] ==> flips == 1))
  }

  ghost predicate Invariant(s: State)
  {
    && RowsAgree(s.expectedFiles, s.rows)
    && RequestsValid(s.expectedFiles, s.expectedDeletes, s.requests)
    && OutboxMatches(s.session, s.rows, s.outbox)
    && HandedKnown(s.session, s.rows, s.flips, s.handed)
    && ClaimsTraced(s.session, s.rows, s.flips, s.claims, s.handed)
    && TasksTraced(s.outbox, s.queue, s.workers, s.finalizers, s.handed, s.dropped)
    && FlippedOnce(s.session, s.rows, s.outbox, s.flips)
  }

  lemma NewRowAgrees(files: Leaves, deletes: seq<Path>, rows: Rows, q: Request)
    requires RowsAgree(files, rows) && ValidRequest(files, deletes, q)
    ensures RowsAgree(files, rows[q.id := NewRow(q)])
  {
  }

  lemma AdmitKeepsRows(s: State, q: Request)
    requires OutboxMatches(s.session, s.rows, s.outbox) && FlippedOnce(s.session, s.rows, s.outbox, s.flips)
    requires Admissible(s, q)
    ensures var t := AdmitRow(s, q);
      OutboxMatches(t.session, t.rows, t.outbox) && FlippedOnce(t.session, t.rows, t.outbox, t.flips)
  {
  }

  lemma AdmitKeepsTasks(s: State, q: Request)
    requires HandedKnown(s.session, s.rows, s.flips, s.handed)
    requires ClaimsTraced(s.session, s.rows, s.flips, s.claims, s.handed)
    requires TasksTraced(s.outbox, s.queue, s.workers, s.finalizers, s.handed, s.dropped)
    requires Admissible(s, q)
    ensures var t := AdmitRow(s, q);
      HandedKnown(t.session, t.rows, t.flips, t.handed) && ClaimsTraced(t.session, t.rows, t.flips, t.claims, t.handed)
      && TasksTraced(t.outbox, t.queue, t.workers, t.finalizers, t.handed, t.dropped)
  {
  }

  lemma AdmitRowKeeps(s: State, q: Request)
    requires Invariant(s) && ValidRequest(s.expectedFiles, s.expectedDeletes, q) && Admissible(s, q)
    ensures Invariant(AdmitRow(s, q))
  {
    NewRowAgrees(s.expectedFiles, s.expectedDeletes, s.rows, q);
    AdmitKeepsRows(s, q);
    AdmitKeepsTasks(s, q);
  }

  lemma StreamKeeps(s: State, a: StreamStep)
    requires Invariant(s) && StreamEnabled(s, a)
    ensures Invariant(DoStream(s, a))
  {
    if a.Admit? {
      var t := s.(requests := s.requests - {a.r});
      if Admissible(t, s.requests[a.r]) {
        AdmitRowKeeps(t, s.requests[a.r]);
      }
    }
  }

  lemma SendKeeps(s: State, c: nat, reply: Reply)
    requires Invariant(s) && DispatchEnabled(s, Send(c, reply))
    ensures Invariant(DoDispatch(s, Send(c, reply)))
  {
  }

  lemma ClaimKeeps(s: State, c: nat, key: Key)
    requires Invariant(s) && DispatchEnabled(s, TakeClaim(c, key))
    ensures Invariant(DoDispatch(s, TakeClaim(c, key)))
  {
  }

  lemma ConfirmKeeps(s: State, c: nat)
    requires Invariant(s) && DispatchEnabled(s, ConfirmSent(c))
    ensures Invariant(DoDispatch(s, ConfirmSent(c)))
  {
  }

  lemma DispatchKeeps(s: State, a: DispatchStep)
    requires Invariant(s) && DispatchEnabled(s, a)
    ensures Invariant(DoDispatch(s, a))
  {
    match a
    case TakeClaim(c, key) => ClaimKeeps(s, c, key);
    case Send(c, reply) => SendKeeps(s, c, reply);
    case ConfirmSent(c) => ConfirmKeeps(s, c);
    case _ =>
  }

  /** A stamp may only take rows out of `pending`. */
  ghost predicate Stamps(rows: Rows, stamped: Rows)
  {
    && stamped.Keys == rows.Keys
    && forall id :: id in rows ==>
         && stamped[id].files == rows[id].files && stamped[id].deletes == rows[id].deletes
         && (rows[id].state != Pending ==> stamped[id] == rows[id])
  }

  lemma SuccessStamps(rows: Rows, id: BatchId, failedFiles: map<Path, string>, failedDeletes: seq<Path>)
    ensures Stamps(rows, Succeed(rows, id, failedFiles, failedDeletes))
  {
    assert id in rows ==> rows.Keys + {id} == rows.Keys;
  }

  lemma FailureStamps(rows: Rows, id: BatchId, why: string)
    ensures Stamps(rows, Reject(rows, id, why))
  {
    assert id in rows ==> rows.Keys + {id} == rows.Keys;
  }

  lemma WorkerStamps(s: State, w: nat, a: WorkStep)
    requires WorkEnabled(s, w, a)
    ensures Stamps(s.rows, RowsAfter(s, w, a))
  {
    if a.StampOk? {
      SuccessStamps(s.rows, s.workers[w].id, s.workers[w].phase.failedFiles, s.workers[w].phase.failedDeletes);
    } else if a.StampFailed? {
      FailureStamps(s.rows, s.workers[w].id, s.workers[w].phase.why);
    }
  }

  lemma WorkKeepsRows(s: State, w: nat, a: WorkStep)
    requires WorkEnabled(s, w, a)
    requires RowsAgree(s.expectedFiles, s.rows) && OutboxMatches(s.session, s.rows, s.outbox)
    requires FlippedOnce(s.session, s.rows, s.outbox, s.flips)
    ensures var t := DoWork(s, w, a);
      RowsAgree(t.expectedFiles, t.rows) && OutboxMatches(t.session, t.rows, t.outbox)
      && FlippedOnce(t.session, t.rows, t.outbox, t.flips)
  {
    WorkerStamps(s, w, a);
  }

  lemma WorkKeepsTasks(s: State, w: nat, a: WorkStep)
    requires WorkEnabled(s, w, a)
    requires HandedKnown(s.session, s.rows, s.flips, s.handed)
    requires ClaimsTraced(s.session, s.rows, s.flips, s.claims, s.handed)
    requires TasksTraced(s.outbox, s.queue, s.workers, s.finalizers, s.handed, s.dropped)
    ensures var t := DoWork(s, w, a);
      HandedKnown(t.session, t.rows, t.flips, t.handed) && ClaimsTraced(t.session, t.rows, t.flips, t.claims, t.handed)
      && TasksTraced(t.outbox, t.queue, t.workers, t.finalizers, t.handed, t.dropped)
  {
    WorkerStamps(s, w, a);
  }

  lemma WorkKeeps(s: State, w: nat, a: WorkStep)
    requires Invariant(s) && WorkEnabled(s, w, a)
    ensures Invariant(DoWork(s, w, a))
  {
    WorkKeepsRows(s, w, a);
    WorkKeepsTasks(s, w, a);
  }

  lemma FinalKeeps(s: State, f: nat, a: FinalStep)
    requires Invariant(s) && FinalEnabled(s, f, a)
    ensures Invariant(DoFinal(s, f, a))
  {
  }

  lemma WorldKeeps(s: State, a: WorldStep)
    requires Invariant(s) && WorldEnabled(s, a)
    ensures Invariant(DoWorld(s, a))
  {
  }

  lemma StepKeeps(s: State, step: Step)
    requires Invariant(s) && Enabled(s, step)
    ensures Invariant(Do(s, step))
  {
    match step
    case Stream(a) => StreamKeeps(s, a);
    case Dispatch(a) => DispatchKeeps(s, a);
    case Work(w, a) => WorkKeeps(s, w, a);
    case Final(f, a) => FinalKeeps(s, f, a);
    case World(a) => WorldKeeps(s, a);
  }
}
