/** The transactional outbox as the code runs it (repositories/impl/sync_outbox_repository_impl.go,
    services/impl/outbox_dispatcher_impl.go): guarded transitions of the rows, and one round of the
    dispatcher's claim, enqueue and mark. */
module OutboxDispatcher {
  import opened SyncProtocol

  type Outbox = map<Key, OutboxStatus>

  /** Rows in `Enqueuing` that are among `keys` go to `next`; nothing else moves. */
  function ReleaseAll(outbox: Outbox, keys: set<Key>, next: OutboxStatus): (o: Outbox)
  {
    map k | k in outbox :: if k in keys && outbox[k] == Enqueuing then next else outbox[k]
  }

  /** Guarded transitions of several rows are the guarded transitions one by one, in any order. */
  lemma ReleaseAllIsRelease(outbox: Outbox, keys: set<Key>, key: Key, next: OutboxStatus)
    ensures ReleaseAll(outbox, keys + {key}, next) == Release(ReleaseAll(outbox, keys, next), key, next)
  {
  }

  /** Jobs whose enqueue is acknowledged, and those whose acknowledgement is lost; the rest fail. */
  datatype Replies = Replies(acked: set<Key>, lost: set<Key>)

  function ReplyTo(replies: Replies, key: Key): (reply: Reply)
  {
    if key in replies.acked then Acked else if key in replies.lost then Lost else Refused
  }

  /** What a round makes of a row. */
  function RoundEnd(before: OutboxStatus, claimed: bool, acked: bool, marked: bool, reset: bool): (after: OutboxStatus)
  {
    if !claimed then before
    else if acked then (if marked then Enqueued else Enqueuing)
    else if reset then Unclaimed else Enqueuing
  }

  /** Jobs that were in the queue keep their retry count, and the new ones are of `keys`, whose ids were free,
      and start at none. */
  predicate OnlyEnqueues(before: map<Key, nat>, archived: set<Key>, keys: set<Key>, after: map<Key, nat>)
  {
    && (forall k :: k in before ==> k in after && after[k] == before[k])
    && (forall k :: k in after && k !in before ==> k in keys && k !in archived && after[k] == 0)
  }

  lemma OnlyEnqueuesOn(before: map<Key, nat>, archived: set<Key>, keys: set<Key>, queue: map<Key, nat>, key: Key,
          after: map<Key, nat>)
    requires OnlyEnqueues(before, archived, keys, queue) && OnlyEnqueues(queue, archived, {key}, after)
    requires key in keys || after == queue
    ensures OnlyEnqueues(before, archived, keys, after)
  {
  }

  class OutboxTable {
    var outbox: Outbox
    // the job queue: jobs by their deterministic id, with their retry count
    var queue: map<Key, nat>
    // the queue's archive of failed jobs, whose ids stay taken
    var archived: set<Key>
    // every task ever handed to the queue
    ghost var handed: set<Key>

    constructor (outbox: Outbox, queue: map<Key, nat>, archived: set<Key>)
      requires forall k :: k in outbox && outbox[k] == Enqueued ==> k in queue || k in archived
      ensures this.outbox == outbox && this.queue == queue && this.archived == archived && Valid()
    {
      this.outbox, this.queue, this.archived, this.handed := outbox, queue, archived, queue.Keys + archived;
    }

    /** An enqueued row's task was handed over. */
    ghost predicate Valid()
      reads this
    {
      && queue.Keys <= handed && archived <= handed
      && forall k :: k in outbox && outbox[k] == Enqueued ==> k in handed
    }

    /** Up to `limit` pending rows become `Enqueuing`, atomically. */
    method ClaimPending(limit: nat) returns (claimed: set<Key>)
      modifies this`outbox
      ensures |claimed| <= limit
      ensures claimed <= old(outbox).Keys && forall k :: k in claimed ==> old(outbox)[k] == Unclaimed
      ensures outbox == map k | k in old(outbox) :: if k in claimed then Enqueuing else old(outbox)[k]
      ensures |claimed| < limit ==> forall k :: k in outbox ==> outbox[k] != Unclaimed
    {
      ghost var before := outbox;
      claimed := {};
      while |claimed| < limit && exists k :: k in outbox && outbox[k] == Unclaimed
        invariant |claimed| <= limit
        invariant claimed <= before.Keys && forall k :: k in claimed ==> before[k] == Unclaimed
        invariant outbox.Keys == before.Keys
        invariant forall k :: k in outbox ==> outbox[k] == if k in claimed then Enqueuing else before[k]
        decreases limit - |claimed|
      {
        var k :| k in outbox && outbox[k] == Unclaimed;
        outbox := outbox[k := Enqueuing];
        claimed := claimed + {k};
      }
    }

    method MarkEnqueued(keys: set<Key>)
      modifies this`outbox
      ensures outbox == ReleaseAll(old(outbox), keys, Enqueued) && outbox.Keys == old(outbox).Keys
      ensures forall k :: k in outbox ==>
        outbox[k] == if k in keys && old(outbox)[k] == Enqueuing then Enqueued else old(outbox)[k]
    {
      outbox := map k | k in outbox :: if k in keys && outbox[k] == Enqueuing then Enqueued else outbox[k];
    }

    method ResetToPending(keys: set<Key>)
      modifies this`outbox
      ensures outbox == ReleaseAll(old(outbox), keys, Unclaimed) && outbox.Keys == old(outbox).Keys
      ensures forall k :: k in outbox ==>
        outbox[k] == if k in keys && old(outbox)[k] == Enqueuing then Unclaimed else old(outbox)[k]
    {
      outbox := map k | k in outbox :: if k in keys && outbox[k] == Enqueuing then Unclaimed else outbox[k];
    }

    /** A task id that is taken, by a job in the queue or in its archive, is no error and changes nothing. */
    method EnqueueOne(key: Key, reply: Reply) returns (ok: bool)
      modifies this`queue, this`handed
      ensures queue == EnqueuedIn(old(queue), archived, key, reply)
      ensures handed == if reply.Refused? then old(handed) else old(handed) + {key}
      ensures ok <==> reply.Acked?
      ensures OnlyEnqueues(old(queue), archived, {key}, queue)
      ensures if reply.Refused? then queue == old(queue) else key in queue || key in archived
      ensures old(queue).Keys <= old(handed) ==> queue.Keys <= handed
    {
      if !reply.Refused? {
        if key !in queue && key !in archived {
          queue := queue[key := 0];
        }
        handed := handed + {key};
      }
      ok := reply.Acked?;
    }

    /** Hand over every claimed task, without holding any row. `replies` says how each enqueue goes. */
    method EnqueueAll(claimed: set<Key>, replies: Replies) returns (ok: set<Key>, fail: set<Key>)
      requires Valid()
      modifies this`queue, this`handed
      ensures Valid() && OnlyEnqueues(old(queue), archived, claimed * (replies.acked + replies.lost), queue)
      ensures claimed * (replies.acked + replies.lost) <= queue.Keys + archived
      ensures ok == claimed * replies.acked && fail == claimed - replies.acked
      ensures ok <= queue.Keys + archived
    {
      ok, fail := {}, {};
      ghost var reached := claimed * (replies.acked + replies.lost);
      var todo := claimed;
      while todo != {}
        invariant todo <= claimed && ok <= claimed && fail <= claimed
        invariant forall j :: j in claimed ==> j in todo || j in ok || j in fail
        invariant forall j :: j in ok ==> j in replies.acked
        invariant forall j :: j in fail ==> j !in replies.acked
        invariant queue.Keys <= handed && archived <= handed && old(handed) <= handed
        invariant OnlyEnqueues(old(queue), archived, reached, queue)
        invariant forall j :: j in reached ==> j in todo || j in queue || j in archived
        decreases |todo|
      {
        var k :| k in todo;
        todo := todo - {k};
        ghost var before := queue;
        var sent := EnqueueOne(k, ReplyTo(replies, k));
        OnlyEnqueuesOn(old(queue), archived, reached, before, k, queue);
        if sent {
          ok := ok + {k};
        } else {
          fail := fail + {k};
        }
      }
    }

    /** One round. Every claimed row ends enqueued, with its task in the queue or its archive, or pending again,
        or (when a mark fails) in `Enqueuing` for the reaper; no other row moves; no task is ever lost from the
        queue. */
    method DrainRound(limit: nat, replies: Replies, marked: bool, reset: bool) returns (claimed: set<Key>)
      requires Valid()
      modifies this
      ensures Valid()
      ensures outbox.Keys == old(outbox).Keys
      ensures OnlyEnqueues(old(queue), archived, claimed * (replies.acked + replies.lost), queue)
      ensures forall k :: k in outbox ==>
        outbox[k] == RoundEnd(old(outbox)[k], k in claimed, k in replies.acked, marked, reset)
      ensures claimed <= old(outbox).Keys && claimed * (replies.acked + replies.lost) <= queue.Keys + archived
      ensures archived == old(archived)
      ensures forall k :: k in claimed ==> old(outbox)[k] == Unclaimed
      ensures claimed == {} && limit > 0 ==> forall k :: k in outbox ==> outbox[k] != Unclaimed
    {
      claimed := ClaimPending(limit);
      var ok, fail := EnqueueAll(claimed, replies);
      if marked {
        MarkEnqueued(ok);
      }
      if reset {
        ResetToPending(fail);
      }
    }

    /** The reaper: stuck rows become pending again, so that their tasks are offered once more. */
    method ReapStuck(stuck: set<Key>)
      requires Valid()
      modifies this`outbox
      ensures Valid() && outbox.Keys == old(outbox).Keys
      ensures forall k :: k in outbox ==>
        outbox[k] == if k in stuck && old(outbox)[k] == Enqueuing then Unclaimed else old(outbox)[k]
    {
      ResetToPending(stuck);
    }
  }
}
