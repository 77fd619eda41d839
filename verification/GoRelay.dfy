/** The outbox repository and the relay of the two Go services (they differ only in table names). */
module GoRelay {
  import opened Base
  import opened Messages
  import opened Outbox

  /** Where the claiming transaction fails, if anywhere; `AtClaim(k)` is the k-th UPDATE. */
  datatype ClaimFault = NoFault | AtQuery | AtClaim(k: nat) | AtCommit

  class OutboxRepository {
    var rows: seq<Row>

    constructor ()
      ensures rows == []
    {
      rows := [];
    }

    method Save(message: Message, maxRetries: int, now: int)
      modifies this
      ensures rows == old(rows) + [Inserted(message, maxRetries, now)]
    {
      rows := rows + [Inserted(message, maxRetries, now)];
    }

    /** One transaction: select the oldest eligible rows that nobody else has row-locked, mark them
        PROCESSING, commit. An error anywhere rolls everything back. */
    method FindAndLockPendingEvents(limit: nat, now: int, rowLocked: set<nat>, fault: ClaimFault)
      returns (ok: bool, ids: seq<nat>, events: seq<Row>)
      modifies this
      ensures !ok ==> rows == old(rows) && ids == [] && events == []
      ensures ok ==>
                && InRange(old(rows), ids)
                && IsOldest(old(rows), Candidates(old(rows), now) - rowLocked, limit, ids)
                && rows == ClaimAll(old(rows), ids, now)
                && |events| == |ids| && forall k | 0 <= k < |ids| :: events[k] == old(rows)[ids[k]]
      ensures fault.NoFault? ==> ok
      ensures fault.AtQuery? || fault.AtCommit? ==> !ok
      ensures ok && fault.AtClaim? ==> |ids| <= fault.k
    {
      if fault.AtQuery? {
        return false, [], [];
      }
      var rowsAtBegin := rows;
      var batch := SelectOldest(rows, Candidates(rows, now) - rowLocked, limit);

      ids, events := Scan(batch);
      ok := ClaimEach(ids, now, fault);
      if ok && fault.AtCommit? {
        rows := rowsAtBegin;
        ok := false;
      }
      if !ok {
        ids, events := [], [];
      }
    }

    /** Read the selected rows one after the other. */
    method Scan(batch: seq<nat>) returns (ids: seq<nat>, events: seq<Row>)
      requires InRange(rows, batch)
      ensures ids == batch && |events| == |batch| && forall k | 0 <= k < |batch| :: events[k] == rows[batch[k]]
    {
      ids, events := [], [];
      for k := 0 to |batch|
        invariant ids == batch[..k]
        invariant |events| == k && forall j | 0 <= j < k :: events[j] == rows[batch[j]]
      {
        events := events + [rows[batch[k]]];
        ids := ids + [batch[k]];
      }
      assert ids == batch;
    }

    /** Update the selected rows one after the other; a failing UPDATE rolls the earlier ones back. */
    method ClaimEach(ids: seq<nat>, now: int, fault: ClaimFault) returns (ok: bool)
      requires InRange(rows, ids)
      modifies this
      ensures rows == if ok then ClaimAll(old(rows), ids, now) else old(rows)
      ensures ok <==> !(fault.AtClaim? && fault.k < |ids|)
    {
      var rowsAtBegin := rows;
      for k := 0 to |ids|
        invariant |rows| == |rowsAtBegin|
        invariant rows == ClaimAll(rowsAtBegin, ids[..k], now)
        invariant fault.AtClaim? ==> k <= fault.k
      {
        if fault == AtClaim(k) {
          rows := rowsAtBegin;
          return false;
        }
        assert ids[..k + 1][..k] == ids[..k];
        rows := rows[ids[k] := Claimed(rows[ids[k]], now)];
      }
      assert ids[..|ids|] == ids;
      ok := true;
    }

    method MarkEventAsSent(id: nat, stored: bool)
      requires id < |rows|
      modifies this
      ensures rows == old(rows)[id := Marked(old(rows)[id], true, stored)]
    {
      if stored {
        rows := rows[id := rows[id].(status := Sent)];
      }
    }

    method MarkEventAsFailed(id: nat, stored: bool)
      requires id < |rows|
      modifies this
      ensures rows == old(rows)[id := Marked(old(rows)[id], false, stored)]
    {
      if stored {
        var row := rows[id];
        var status := if row.retries + 1 >= row.maxRetries then DeadLetter else Failed;
        rows := rows[id := row.(status := status, retries := row.retries + 1)];
      }
    }
  }

  /** A topic without a writer is never written to. */
  predicate Acked(writers: set<Topic>, row: Row, a: Attempt) {
    TopicOf(row.message) in writers && a.acked
  }

  predicate Reached(writers: set<Topic>, row: Row, a: Attempt) {
    TopicOf(row.message) in writers && (a.acked || a.reached)
  }

  function Acks(writers: set<Topic>, events: seq<Row>, attempts: seq<Attempt>): (acks: seq<bool>)
    requires |events| == |attempts|
    ensures |acks| == |events| && forall k | 0 <= k < |acks| :: acks[k] == Acked(writers, events[k], attempts[k])
  {
    seq(|events|, k requires 0 <= k < |events| => Acked(writers, events[k], attempts[k]))
  }

  function Stores(attempts: seq<Attempt>): (stored: seq<bool>)
    ensures |stored| == |attempts| && forall k | 0 <= k < |stored| :: stored[k] == attempts[k].stored
  {
    seq(|attempts|, k requires 0 <= k < |attempts| => attempts[k].stored)
  }

  /** The messages of a batch that reach the broker, in order. */
  function Arrivals(writers: set<Topic>, events: seq<Row>, attempts: seq<Attempt>): seq<Message>
    requires |events| == |attempts|
  {
    if events == [] then []
    else
      var last := |events| - 1;
      Arrivals(writers, events[..last], attempts[..last])
      + (if Reached(writers, events[last], attempts[last]) then [events[last].message] else [])
  }

  /** What one poll does to an event it claimed: PROCESSING under a lease of now, and then its mark. The event
      is SENT exactly if its topic has a writer and the broker acknowledged it. */
  predicate Tried(before: Row, after: Row, now: int, writers: set<Topic>, attempt: Attempt) {
    MarkedBy(Row(before.message, Processing, before.retries, before.maxRetries, before.createdAt, Some(now)), after,
             TopicOf(before.message) in writers && attempt.acked, attempt.stored)
  }

  /** The table after a poll, row by row. */
  lemma PollEffect(rows: seq<Row>, now: int, ids: seq<nat>, events: seq<Row>, writers: set<Topic>,
                   attempts: seq<Attempt>)
    requires InRange(rows, ids) && Distinct(ids) && |events| == |ids| == |attempts|
    requires forall k | 0 <= k < |ids| :: events[k] == rows[ids[k]]
    ensures var after := MarkAll(ClaimAll(rows, ids, now), ids, Acks(writers, events, attempts), Stores(attempts));
            && (forall k | 0 <= k < |ids| :: Tried(rows[ids[k]], after[ids[k]], now, writers, attempts[k]))
            && (forall i | 0 <= i < |rows| && i !in ids :: after[i] == rows[i])
  {
    var claimed := ClaimAll(rows, ids, now);
    var acks, stored := Acks(writers, events, attempts), Stores(attempts);
    forall k | 0 <= k < |ids|
      ensures Tried(rows[ids[k]], MarkAll(claimed, ids, acks, stored)[ids[k]], now, writers, attempts[k])
    {
      assert MarkAll(claimed, ids, acks, stored)[ids[k]] == Marked(claimed[ids[k]], acks[k], stored[k]);
      assert claimed[ids[k]] == Claimed(rows[ids[k]], now);
    }
  }

  class OutboxRelay {
    const repository: OutboxRepository
    const writers: set<Topic>
    const batchSize: nat
    var broker: seq<Message>   // everything ever written, in order

    constructor (repository: OutboxRepository, writers: set<Topic>, batchSize: nat)
      ensures this.repository == repository && this.writers == writers && this.batchSize == batchSize
      ensures broker == []
    {
      this.repository, this.writers, this.batchSize := repository, writers, batchSize;
      broker := [];
    }

    /** Publish one claimed event and mark it. */
    method Deliver(id: nat, event: Row, attempt: Attempt)
      requires id < |repository.rows|
      modifies this, repository
      ensures |repository.rows| == |old(repository.rows)|
      ensures repository.rows == old(repository.rows)[id := repository.rows[id]]
      ensures MarkedBy(old(repository.rows)[id], repository.rows[id],
                       TopicOf(event.message) in writers && attempt.acked, attempt.stored)
      ensures broker == old(broker) + (if TopicOf(event.message) in writers && (attempt.acked || attempt.reached)
                                       then [event.message] else [])
    {
      if TopicOf(event.message) !in writers {
        repository.MarkEventAsFailed(id, attempt.stored);
        return;
      }

      if attempt.acked || attempt.reached {
        broker := broker + [event.message];
      }
      if !attempt.acked {
        repository.MarkEventAsFailed(id, attempt.stored);
        return;
      }

      repository.MarkEventAsSent(id, attempt.stored);
    }

    /** One iteration of a poll's loop, seen from the table and the broker as they were after the claim. */
    method DeliverNext(ghost claimed: seq<Row>, ghost sent: seq<Message>,
                       ids: seq<nat>, events: seq<Row>, attempts: seq<Attempt>, k: nat)
      requires InRange(claimed, ids) && Distinct(ids) && |events| == |ids| == |attempts| && k < |ids|
      requires repository.rows
               == MarkAll(claimed, ids[..k], Acks(writers, events, attempts)[..k], Stores(attempts)[..k])
      requires broker == sent + Arrivals(writers, events[..k], attempts[..k])
      modifies this, repository
      ensures |repository.rows| == |claimed|
      ensures repository.rows
              == MarkAll(claimed, ids[..k + 1], Acks(writers, events, attempts)[..k + 1], Stores(attempts)[..k + 1])
      ensures broker == sent + Arrivals(writers, events[..k + 1], attempts[..k + 1])
    {
      MarkAllStep(claimed, ids, Acks(writers, events, attempts), Stores(attempts), k);
      assert events[..k + 1][..k] == events[..k] && attempts[..k + 1][..k] == attempts[..k];
      Deliver(ids[k], events[k], attempts[k]);
    }

    /** The loop of a poll over the events it claimed. */
    method DeliverAll(ids: seq<nat>, events: seq<Row>, attempts: seq<Attempt>)
      requires InRange(repository.rows, ids) && Distinct(ids) && |events| == |ids| == |attempts|
      modifies this, repository
      ensures repository.rows == MarkAll(old(repository.rows), ids, Acks(writers, events, attempts), Stores(attempts))
      ensures broker == old(broker) + Arrivals(writers, events, attempts)
    {
      ghost var claimed, sent := repository.rows, broker;
      ghost var acks, stored := Acks(writers, events, attempts), Stores(attempts);
      for k := 0 to |ids|
        invariant |repository.rows| == |claimed|
        invariant repository.rows == MarkAll(claimed, ids[..k], acks[..k], stored[..k])
        invariant broker == sent + Arrivals(writers, events[..k], attempts[..k])
      {
        DeliverNext(claimed, sent, ids, events, attempts, k);
      }
      assert ids[..|ids|] == ids && acks[..|ids|] == acks && stored[..|ids|] == stored;
      assert events[..|ids|] == events && attempts[..|ids|] == attempts;
    }

    /** One poll: claim a batch, then publish and mark its events one by one; `attempts` says what happens
        to the events it will claim. A failed claim touches nothing; each claimed event is tried exactly once. */
    method Poll(now: int, rowLocked: set<nat>, fault: ClaimFault, attempts: seq<Attempt>)
      returns (ids: seq<nat>, events: seq<Row>)
      requires |attempts| >= batchSize
      modifies this, repository
      ensures InRange(old(repository.rows), ids) && Distinct(ids) && |ids| <= batchSize
      ensures |events| == |ids| && forall k | 0 <= k < |ids| :: events[k] == old(repository.rows)[ids[k]]
      ensures ids != [] || fault.NoFault? ==>
                IsOldest(old(repository.rows), Candidates(old(repository.rows), now) - rowLocked, batchSize, ids)
      ensures repository.rows == MarkAll(ClaimAll(old(repository.rows), ids, now), ids,
                                         Acks(writers, events, attempts[..|ids|]), Stores(attempts[..|ids|]))
      ensures broker == old(broker) + Arrivals(writers, events, attempts[..|ids|])
      ensures |repository.rows| == |old(repository.rows)|
      ensures forall i | 0 <= i < |repository.rows| && i !in ids :: repository.rows[i] == old(repository.rows)[i]
      ensures forall k | 0 <= k < |ids| ::
                Tried(old(repository.rows)[ids[k]], repository.rows[ids[k]], now, writers, attempts[k])
    {
      var ok;
      ok, ids, events := repository.FindAndLockPendingEvents(batchSize, now, rowLocked, fault);
      if ok {
        DeliverAll(ids, events, attempts[..|ids|]);
      }
      PollEffect(old(repository.rows), now, ids, events, writers, attempts[..|ids|]);
    }
  }
}
