/** The relay of the inventory service: one transaction for the whole batch. */
module KotlinRelay {
  import opened Base
  import opened Messages
  import opened Outbox

  const BATCH_SIZE: nat := 50

  /** The WHERE clause of `findPendingEvents`; it never looks at retry counters. */
  predicate Waiting(row: Row, now: int) {
    (row.status.Pending? || row.status.Failed?) && (row.lockedAt.None? || LeaseExpired(row, now))
  }

  function WaitingRows(rows: seq<Row>, now: int): set<nat> {
    set i: nat | 0 <= i < |rows| && Waiting(rows[i], now)
  }

  function MarkedAsSent(row: Row): Row {
    row.(status := Sent, lockedAt := None)
  }

  function MarkedAsFailed(row: Row): Row {
    row.(status := Failed, lockedAt := None, retries := row.retries + 1)
  }

  function MarkedAsDeadLetter(row: Row): Row {
    row.(status := DeadLetter, lockedAt := None)
  }

  /** A delivered event is SENT; an undelivered one is retried unless its next failure would be the last. */
  function Resolved(row: Row, acked: bool): Row {
    if acked then MarkedAsSent(row)
    else if row.retries + 1 >= row.maxRetries then MarkedAsDeadLetter(row)
    else MarkedAsFailed(row)
  }

  /** What a committed run leaves of a selected row, in terms of its columns. A dead letter keeps its count. */
  predicate Finally(before: Row, after: Row, acked: bool) {
    var last := before.retries + 1 >= before.maxRetries;
    after == Row(before.message, if acked then Sent else if last then DeadLetter else Failed,
                 if acked || last then before.retries else before.retries + 1,
                 before.maxRetries, before.createdAt, None)
  }

  lemma ResolvedMeans(row: Row, acked: bool)
    ensures Finally(row, Resolved(row, acked), acked)
  {
  }

  /** A row is selected if it waits and is not held by a lock less than five minutes old. */
  lemma WaitingMeans(rows: seq<Row>, now: int, i: nat)
    ensures i in WaitingRows(rows, now) <==>
            && i < |rows|
            && var row := rows[i];
            && (row.status.Pending? || row.status.Failed?)
            && (row.lockedAt.Some? ==> now - row.lockedAt.value > 300)
  {
  }

  /** The committed effect of one run, row by row. */
  function ResolveAll(rows: seq<Row>, batch: seq<nat>, acks: seq<bool>): (after: seq<Row>)
    requires InRange(rows, batch) && |acks| == |batch| && Distinct(batch)
    ensures |after| == |rows|
    ensures forall i | 0 <= i < |rows| && i !in batch :: after[i] == rows[i]
    ensures forall k | 0 <= k < |batch| :: after[batch[k]] == Resolved(rows[batch[k]], acks[k])
  {
    if batch == [] then rows
    else
      var last := |batch| - 1;
      var before := ResolveAll(rows, batch[..last], acks[..last]);
      assert batch == batch[..last] + [batch[last]];
      before[batch[last] := Resolved(before[batch[last]], acks[last])]
  }

  lemma ResolveAllStep(rows: seq<Row>, batch: seq<nat>, acks: seq<bool>, k: nat)
    requires InRange(rows, batch) && |acks| == |batch| && Distinct(batch) && k < |batch|
    ensures var before := ResolveAll(rows, batch[..k], acks[..k]);
            && before[batch[k]] == rows[batch[k]]
            && ResolveAll(rows, batch[..k + 1], acks[..k + 1]) == before[batch[k] := Resolved(before[batch[k]], acks[k])]
  {
    assert batch[..k + 1][..k] == batch[..k] && acks[..k + 1][..k] == acks[..k];
    assert batch[k] !in batch[..k];
  }

  lemma ResolveWhole(rows: seq<Row>, batch: seq<nat>, acks: seq<bool>)
    requires InRange(rows, batch) && |acks| == |batch| && Distinct(batch)
    ensures InRange(rows, batch[..|batch|]) && Distinct(batch[..|batch|])
    ensures ResolveAll(rows, batch[..|batch|], acks[..|batch|]) == ResolveAll(rows, batch, acks)
  {
    assert batch[..|batch|] == batch && acks[..|batch|] == acks;
  }

  /** The lock leaves no trace once every locked row is resolved. */
  lemma {:induction false} LockLeavesNoTrace(rows: seq<Row>, batch: seq<nat>, acks: seq<bool>, now: int)
    requires InRange(rows, batch) && |acks| == |batch| && Distinct(batch)
    ensures ResolveAll(ClaimAll(rows, batch, now), batch, acks) == ResolveAll(rows, batch, acks)
  {
    var locked := ClaimAll(rows, batch, now);
    forall i | 0 <= i < |rows|
      ensures ResolveAll(locked, batch, acks)[i] == ResolveAll(rows, batch, acks)[i]
    {
      if i in batch {
        var k :| 0 <= k < |batch| && batch[k] == i;
        assert ResolveAll(locked, batch, acks)[batch[k]] == Resolved(locked[batch[k]], acks[k]);
      }
    }
  }

  function AckSeq(attempts: seq<Attempt>): (acks: seq<bool>)
    ensures |acks| == |attempts| && forall k | 0 <= k < |acks| :: acks[k] == attempts[k].acked
  {
    seq(|attempts|, k requires 0 <= k < |attempts| => attempts[k].acked)
  }

  function Picked(rows: seq<Row>, ids: seq<nat>): (events: seq<Row>)
    requires InRange(rows, ids)
    ensures |events| == |ids| && forall k | 0 <= k < |ids| :: events[k] == rows[ids[k]]
  {
    seq(|ids|, k requires 0 <= k < |ids| => rows[ids[k]])
  }

  /** What the first sends of a run leave in the broker, in order. */
  function Arrivals(events: seq<Row>, attempts: seq<Attempt>): seq<Message>
    requires |attempts| <= |events|
    decreases |attempts|
  {
    if attempts == [] then []
    else
      var last := |attempts| - 1;
      var a := attempts[last];
      Arrivals(events, attempts[..last]) + (if a.acked || a.reached then [events[last].message] else [])
  }

  lemma ArrivalsStep(events: seq<Row>, attempts: seq<Attempt>, k: nat)
    requires k < |attempts| <= |events|
    ensures Arrivals(events, attempts[..k + 1])
            == Arrivals(events, attempts[..k])
               + (if attempts[k].acked || attempts[k].reached then [events[k].message] else [])
  {
    assert attempts[..k + 1][..k] == attempts[..k];
  }

  /** The table after a committed run: every selected row is resolved by its own outcome, all others are as before. */
  predicate RunDone(before: seq<Row>, after: seq<Row>, ids: seq<nat>, attempts: seq<Attempt>)
    requires InRange(before, ids) && |ids| <= |attempts|
  {
    && |after| == |before|
    && (forall k | 0 <= k < |ids| :: Finally(before[ids[k]], after[ids[k]], attempts[k].acked))
    && (forall i | 0 <= i < |before| && i !in ids :: after[i] == before[i])
  }

  lemma RunEffect(rows: seq<Row>, ids: seq<nat>, attempts: seq<Attempt>)
    requires InRange(rows, ids) && Distinct(ids) && |ids| <= |attempts|
    ensures RunDone(rows, ResolveAll(rows, ids, AckSeq(attempts[..|ids|])), ids, attempts)
  {
    var acks := AckSeq(attempts[..|ids|]);
    forall k | 0 <= k < |ids|
      ensures Finally(rows[ids[k]], ResolveAll(rows, ids, acks)[ids[k]], attempts[k].acked)
    {
      ResolvedMeans(rows[ids[k]], acks[k]);
    }
  }

  /** The loop over `n` events runs to its end or stops right after the first refused mark. */
  predicate Stopped(attempts: seq<Attempt>, n: nat, tried: nat)
    requires tried <= n <= |attempts|
  {
    && (0 < tried ==> forall k | 0 <= k < tried - 1 :: attempts[k].stored)
    && (tried < n ==> 0 < tried && !attempts[tried - 1].stored)
  }

  lemma EmptyRun(rows: seq<Row>, attempts: seq<Attempt>)
    ensures ResolveAll(rows, [], AckSeq(attempts[..0])) == rows && RunDone(rows, rows, [], attempts)
  {
  }

  predicate StoredBefore(attempts: seq<Attempt>, n: nat)
    requires n <= |attempts|
  {
    forall k | 0 <= k < n :: attempts[k].stored
  }

  predicate AllStored(attempts: seq<Attempt>) {
    StoredBefore(attempts, |attempts|)
  }

  /** The attempts of a run are the first of those the environment provides. */
  lemma StoredPrefix(attempts: seq<Attempt>, n: nat, tried: nat)
    requires tried <= n <= |attempts|
    ensures attempts[..n][..tried] == attempts[..tried]
    ensures 0 < tried && StoredBefore(attempts[..n], tried - 1) ==> StoredBefore(attempts, tried - 1)
  {
  }

  lemma StoredStep(attempts: seq<Attempt>, n: nat)
    requires n < |attempts| && StoredBefore(attempts, n)
    ensures attempts[n].stored ==> StoredBefore(attempts, n + 1)
  {
  }

  /** The rows read by the query carry the counters that the table still has. */
  predicate SameCounters(rows: seq<Row>, ids: seq<nat>, events: seq<Row>)
    requires InRange(rows, ids) && |events| == |ids|
  {
    forall k | 0 <= k < |ids| ::
      events[k].retries == rows[ids[k]].retries && events[k].maxRetries == rows[ids[k]].maxRetries
  }

  lemma CountersAt(rows: seq<Row>, ids: seq<nat>, events: seq<Row>, k: nat)
    requires InRange(rows, ids) && |events| == |ids| && SameCounters(rows, ids, events) && k < |ids|
    ensures events[k].retries == rows[ids[k]].retries && events[k].maxRetries == rows[ids[k]].maxRetries
  {
  }

  class OutboxRelayScheduler {
    var rows: seq<Row>
    var broker: seq<Message>

    constructor ()
      ensures rows == [] && broker == []
    {
      rows, broker := [], [];
    }

    method Save(message: Message, maxRetries: int, now: int)
      modifies this`rows
      ensures rows == old(rows) + [Inserted(message, maxRetries, now)]
    {
      rows := rows + [Inserted(message, maxRetries, now)];
    }

    method FindPendingEvents(limit: nat, now: int) returns (ids: seq<nat>)
      ensures IsOldest(rows, WaitingRows(rows, now), limit, ids)
      ensures InRange(rows, ids) && Distinct(ids) && |ids| <= limit
      ensures forall i | i in ids :: Waiting(rows[i], now)
    {
      ids := SelectOldest(rows, WaitingRows(rows, now), limit);
      forall i | i in ids
        ensures i < |rows| && Waiting(rows[i], now)
      {
        assert i in WaitingRows(rows, now);
      }
    }

    /** The bulk UPDATE to PROCESSING, guarded by the status. */
    method LockEvents(ids: seq<nat>, now: int)
      requires InRange(rows, ids) && forall i | i in ids :: Waiting(rows[i], now)
      modifies this`rows
      ensures rows == ClaimAll(old(rows), ids, now)
    {
      var table := rows;
      rows := seq(|table|, i requires 0 <= i < |table| =>
        if i in ids && (table[i].status.Pending? || table[i].status.Failed?) then Claimed(table[i], now) else table[i]);
    }

    /** Send one event and mark it; `ok` is false if the database refused the mark, which aborts the transaction. */
    method SendAndMark(id: nat, event: Row, attempt: Attempt) returns (ok: bool)
      requires id < |rows| && event.retries == rows[id].retries && event.maxRetries == rows[id].maxRetries
      modifies this
      ensures ok == attempt.stored
      ensures broker == old(broker) + (if attempt.acked || attempt.reached then [event.message] else [])
      ensures rows == if ok then old(rows)[id := Resolved(old(rows)[id], attempt.acked)] else old(rows)
    {
      if attempt.acked || attempt.reached {
        broker := broker + [event.message];
      }
      if !attempt.stored {
        return false;
      }
      if attempt.acked {
        rows := rows[id := MarkedAsSent(rows[id])];
      } else if event.retries + 1 >= event.maxRetries {
        rows := rows[id := MarkedAsDeadLetter(rows[id])];
      } else {
        rows := rows[id := MarkedAsFailed(rows[id])];
      }
      return true;
    }

    /** One iteration of a run's loop, seen from the table and the broker as they were after the lock. */
    method SendNext(ghost locked: seq<Row>, ghost sent: seq<Message>,
                    ids: seq<nat>, events: seq<Row>, attempts: seq<Attempt>, k: nat) returns (ok: bool)
      requires InRange(locked, ids) && Distinct(ids) && |events| == |ids| == |attempts| && k < |ids|
      requires SameCounters(locked, ids, events)
      requires rows == ResolveAll(locked, ids[..k], AckSeq(attempts)[..k])
      requires broker == sent + Arrivals(events, attempts[..k])
      modifies this
      ensures ok == attempts[k].stored && |rows| == |locked|
      ensures ok ==> rows == ResolveAll(locked, ids[..k + 1], AckSeq(attempts)[..k + 1])
      ensures broker == sent + Arrivals(events, attempts[..k + 1])
    {
      ArrivalsStep(events, attempts, k);
      ResolveAllStep(locked, ids, AckSeq(attempts), k);
      CountersAt(locked, ids, events, k);
      ok := SendAndMark(ids[k], events[k], attempts[k]);
    }

    /** The loop of a run; it stops at the first mark the database refuses. */
    method SendAll(ids: seq<nat>, events: seq<Row>, attempts: seq<Attempt>) returns (ok: bool, tried: nat)
      requires InRange(rows, ids) && Distinct(ids) && |events| == |ids| == |attempts|
      requires SameCounters(rows, ids, events)
      modifies this
      ensures tried <= |ids| && |rows| == |old(rows)|
      ensures ok ==> AllStored(attempts)
      ensures !ok ==> 0 < tried && !attempts[tried - 1].stored && StoredBefore(attempts, tried - 1)
      ensures ok ==> tried == |ids| && rows == ResolveAll(old(rows), ids, AckSeq(attempts))
      ensures broker == old(broker) + Arrivals(events, attempts[..tried])
    {
      ghost var locked, sent, acks := rows, broker, AckSeq(attempts);
      tried := 0;
      while tried < |ids|
        invariant tried <= |ids| && |rows| == |locked|
        invariant StoredBefore(attempts, tried)
        invariant rows == ResolveAll(locked, ids[..tried], acks[..tried])
        invariant broker == sent + Arrivals(events, attempts[..tried])
      {
        StoredStep(attempts, tried);
        ok := SendNext(locked, sent, ids, events, attempts, tried);
        tried := tried + 1;
        if !ok {
          return;
        }
      }
      ResolveWhole(locked, ids, acks);
      ok := true;
    }

    /** Lock, send and mark a selected batch, and commit; or roll everything back, from the first mark the
        database refuses or a failing commit. */
    method RelayBatch(ids: seq<nat>, now: int, attempts: seq<Attempt>, commits: bool)
      returns (committed: bool, tried: nat)
      requires InRange(rows, ids) && Distinct(ids) && |ids| <= |attempts|
      requires forall i | i in ids :: Waiting(rows[i], now)
      modifies this
      ensures tried <= |ids|
      ensures Stopped(attempts, |ids|, tried)
      ensures committed <==> commits && AllStored(attempts[..|ids|])
      ensures committed ==> tried == |ids| && rows == ResolveAll(old(rows), ids, AckSeq(attempts[..|ids|]))
      ensures !committed ==> rows == old(rows)
      ensures broker == old(broker) + Arrivals(Picked(old(rows), ids), attempts[..tried])
    {
      var rowsAtBegin := rows;
      var events := Picked(rows, ids);
      LockEvents(ids, now);
      var ok;
      ok, tried := SendAll(ids, events, attempts[..|ids|]);
      StoredPrefix(attempts, |ids|, tried);
      if !ok || !commits {
        rows := rowsAtBegin;
        return false, tried;
      }
      LockLeavesNoTrace(rowsAtBegin, ids, AckSeq(attempts[..|ids|]), now);
      return true, tried;
    }

    /** One run; `attempts` says what happens to the events it will select. It either commits, with every
        selected event resolved and nothing left PROCESSING by it, or restores the table exactly; messages
        sent before a rollback stay sent. */
    method Relay(now: int, attempts: seq<Attempt>, commits: bool)
      returns (committed: bool, ids: seq<nat>, tried: nat)
      requires |attempts| >= BATCH_SIZE
      modifies this
      ensures InRange(old(rows), ids) && Distinct(ids) && tried <= |ids| <= BATCH_SIZE
      ensures IsOldest(old(rows), WaitingRows(old(rows), now), 50, ids)
      ensures committed <==> ids == [] || (commits && AllStored(attempts[..|ids|]))
      ensures committed ==> tried == |ids| && rows == ResolveAll(old(rows), ids, AckSeq(attempts[..|ids|]))
      ensures Stopped(attempts, |ids|, tried)
      ensures committed ==> RunDone(old(rows), rows, ids, attempts)
      ensures !committed ==> rows == old(rows)
      ensures broker == old(broker) + Arrivals(Picked(old(rows), ids), attempts[..tried])
    {
      ids := FindPendingEvents(BATCH_SIZE, now);
      if ids == [] {
        EmptyRun(rows, attempts);
        return true, ids, 0;
      }

      committed, tried := RelayBatch(ids, now, attempts, commits);
      RunEffect(old(rows), ids, attempts);
    }
  }

  /** Every row between two runs: nothing PROCESSING, no lock, and a retry left unless finished. */
  predicate AtRest(rows: seq<Row>) {
    forall i | 0 <= i < |rows| :: RowOk(rows[i]) && !rows[i].status.Processing? && rows[i].lockedAt.None?
  }

  /** A committed run leaves no PROCESSING row: every selected event is SENT, FAILED or a dead letter. */
  lemma ResolveStaysAtRest(rows: seq<Row>, batch: seq<nat>, acks: seq<bool>)
    requires AtRest(rows) && InRange(rows, batch) && |acks| == |batch| && Distinct(batch)
    requires forall k | 0 <= k < |batch| :: !Finished(rows[batch[k]])
    ensures AtRest(ResolveAll(rows, batch, acks))
    ensures forall i | 0 <= i < |rows| && i in batch :: ResolveAll(rows, batch, acks)[i].status in {Sent, Failed, DeadLetter}
  {
    var after := ResolveAll(rows, batch, acks);
    forall i | 0 <= i < |rows| && i in batch
      ensures RowOk(after[i]) && after[i].status in {Sent, Failed, DeadLetter} && after[i].lockedAt.None?
    {
      var k :| 0 <= k < |batch| && batch[k] == i;
      assert after[batch[k]] == Resolved(rows[batch[k]], acks[k]);
    }
  }
}
