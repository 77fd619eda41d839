/** An outbox table and what the two relay implementations do to its rows.
    A row is known by its position: rows are inserted and updated, never deleted. */
module Outbox {
  import opened Base
  import opened Messages

  datatype Status = Pending | Processing | Sent | Failed | DeadLetter

  datatype Row = Row(
    message: Message,
    status: Status,
    retries: int,
    maxRetries: int,
    createdAt: int,
    lockedAt: Option<int>)

  /** Five minutes, in the seconds of the database clock. */
  const LEASE: int := 300

  predicate Finished(row: Row) {
    row.status.Sent? || row.status.DeadLetter?
  }

  /** What inserts and markings keep: an unfinished row has a retry left. */
  predicate RowOk(row: Row) {
    && 0 <= row.retries <= row.maxRetries
    && (!Finished(row) ==> row.retries < row.maxRetries)
    && (row.status.Processing? ==> row.lockedAt.Some?)
  }

  predicate TableOk(rows: seq<Row>) {
    forall i | 0 <= i < |rows| :: RowOk(rows[i])
  }

  predicate LeaseExpired(row: Row, now: int) {
    row.lockedAt.Some? && row.lockedAt.value < now - LEASE
  }

  /** The WHERE clause of the Go relays; AND binds tighter than OR. */
  predicate Eligible(row: Row, now: int) {
    || ((row.status.Pending? || row.status.Failed?) && row.retries < row.maxRetries)
    || (row.status.Processing? && LeaseExpired(row, now))
  }

  function Candidates(rows: seq<Row>, now: int): set<nat> {
    set i: nat | 0 <= i < |rows| && Eligible(rows[i], now)
  }

  /** Every position in the batch is a row of the table. */
  predicate InRange(rows: seq<Row>, batch: seq<nat>) {
    forall k | 0 <= k < |batch| :: batch[k] < |rows|
  }

  // ---- ORDER BY created_at ASC LIMIT n ----

  predicate Distinct(batch: seq<nat>) {
    forall j, k | 0 <= j < k < |batch| :: batch[j] != batch[k]
  }

  /** `batch` is an answer to "the `limit` oldest of these candidates, oldest first". */
  predicate IsOldest(rows: seq<Row>, candidates: set<nat>, limit: nat, batch: seq<nat>)
    requires forall i | i in candidates :: i < |rows|
  {
    && |batch| <= limit
    && Distinct(batch)
    && (forall k | 0 <= k < |batch| :: batch[k] in candidates)
    && (forall j, k | 0 <= j < k < |batch| :: rows[batch[j]].createdAt <= rows[batch[k]].createdAt)
    && (forall i | i in candidates && i !in batch ::
          |batch| == limit && forall k | 0 <= k < |batch| :: rows[batch[k]].createdAt <= rows[i].createdAt)
  }

  predicate IsFirst(rows: seq<Row>, candidates: set<nat>, i: nat)
    requires forall j | j in candidates :: j < |rows|
  {
    i in candidates && forall j | j in candidates :: rows[i].createdAt <= rows[j].createdAt
  }

  lemma {:induction false} FirstExists(rows: seq<Row>, candidates: set<nat>) returns (i: nat)
    requires candidates != {} && forall j | j in candidates :: j < |rows|
    ensures IsFirst(rows, candidates, i)
    decreases |candidates|
  {
    var x :| x in candidates;
    var rest := candidates - {x};
    assert forall j | j in candidates :: j == x || j in rest;
    if rest == {} {
      return x;
    }
    var y := FirstExists(rows, rest);
    i := if rows[x].createdAt <= rows[y].createdAt then x else y;
  }

  method Oldest(rows: seq<Row>, candidates: set<nat>) returns (i: nat)
    requires candidates != {} && forall j | j in candidates :: j < |rows|
    ensures IsFirst(rows, candidates, i)
  {
    ghost var first := FirstExists(rows, candidates);
    i :| i in candidates && IsFirst(rows, candidates, i);
  }

  /** Halfway through the query: `batch` is picked, oldest first, and `left` is not yet. */
  predicate PartlyPicked(rows: seq<Row>, candidates: set<nat>, left: set<nat>, batch: seq<nat>)
    requires forall i | i in candidates :: i < |rows|
  {
    && left <= candidates
    && InRange(rows, batch) && Distinct(batch)
    && (forall x | x in batch :: x in candidates && x !in left)
    && (forall i | i in candidates :: i in left || i in batch)
    && (forall j, k | 0 <= j < k < |batch| :: rows[batch[j]].createdAt <= rows[batch[k]].createdAt)
    && (forall i, x | i in left && x in batch :: rows[x].createdAt <= rows[i].createdAt)
  }

  lemma PickNext(rows: seq<Row>, candidates: set<nat>, left: set<nat>, batch: seq<nat>, i: nat)
    requires forall j | j in candidates :: j < |rows|
    requires PartlyPicked(rows, candidates, left, batch) && IsFirst(rows, left, i)
    ensures PartlyPicked(rows, candidates, left - {i}, batch + [i])
  {
    forall j | j in left - {i}, x | x in batch + [i]
      ensures rows[x].createdAt <= rows[j].createdAt
    {
      assert x in batch || x == i;
    }
  }

  /** The query of both relays, as the database answers it. */
  method SelectOldest(rows: seq<Row>, candidates: set<nat>, limit: nat) returns (batch: seq<nat>)
    requires forall i | i in candidates :: i < |rows|
    ensures IsOldest(rows, candidates, limit, batch)
  {
    batch := [];
    var left := candidates;
    while |batch| < limit && left != {}
      invariant |batch| <= limit && PartlyPicked(rows, candidates, left, batch)
      decreases limit - |batch|
    {
      var i := Oldest(rows, left);
      PickNext(rows, candidates, left, batch, i);
      batch, left := batch + [i], left - {i};
    }
  }

  // ---- What the relays write to one row ----

  function Claimed(row: Row, now: int): Row {
    row.(status := Processing, lockedAt := Some(now))
  }

  function MarkedSent(row: Row): Row {
    row.(status := Sent)
  }

  /** Both expressions of the UPDATE see the old retry count. */
  function MarkedFailed(row: Row): Row {
    row.(status := if row.retries + 1 >= row.maxRetries then DeadLetter else Failed, retries := row.retries + 1)
  }

  function Inserted(message: Message, maxRetries: int, now: int): Row {
    Row(message, Pending, 0, maxRetries, now, None)
  }

  /** The rows of a batch are claimed one after the other. */
  function ClaimAll(rows: seq<Row>, batch: seq<nat>, now: int): (after: seq<Row>)
    requires InRange(rows, batch)
    ensures |after| == |rows|
    ensures forall i | 0 <= i < |rows| :: after[i] == if i in batch then Claimed(rows[i], now) else rows[i]
  {
    if batch == [] then rows
    else
      var last := |batch| - 1;
      var before := ClaimAll(rows, batch[..last], now);
      assert batch == batch[..last] + [batch[last]];
      before[batch[last] := Claimed(before[batch[last]], now)]
  }

  /** What happened to one event of a batch: whether the broker acknowledged it, whether the message
      reached the topic (an unacknowledged one may have), and whether the mark was stored. */
  datatype Attempt = Attempt(acked: bool, reached: bool, stored: bool)

  function Marked(row: Row, acked: bool, stored: bool): Row {
    if !stored then row else if acked then MarkedSent(row) else MarkedFailed(row)
  }

  /** The marks of a batch, in order; `acks[k]` tells whether the k-th event was delivered. */
  function MarkAll(rows: seq<Row>, batch: seq<nat>, acks: seq<bool>, stored: seq<bool>): (after: seq<Row>)
    requires InRange(rows, batch) && |acks| == |stored| == |batch| && Distinct(batch)
    ensures |after| == |rows|
    ensures forall i | 0 <= i < |rows| && i !in batch :: after[i] == rows[i]
    ensures forall k | 0 <= k < |batch| :: after[batch[k]] == Marked(rows[batch[k]], acks[k], stored[k])
  {
    if batch == [] then rows
    else
      var last := |batch| - 1;
      var before := MarkAll(rows, batch[..last], acks[..last], stored[..last]);
      assert batch == batch[..last] + [batch[last]];
      before[batch[last] := Marked(before[batch[last]], acks[last], stored[last])]
  }

  lemma MarkAllStep(rows: seq<Row>, batch: seq<nat>, acks: seq<bool>, stored: seq<bool>, k: nat)
    requires InRange(rows, batch) && |acks| == |stored| == |batch| && Distinct(batch) && k < |batch|
    ensures var before := MarkAll(rows, batch[..k], acks[..k], stored[..k]);
            MarkAll(rows, batch[..k + 1], acks[..k + 1], stored[..k + 1])
            == before[batch[k] := Marked(before[batch[k]], acks[k], stored[k])]
  {
    assert batch[..k + 1][..k] == batch[..k] && acks[..k + 1][..k] == acks[..k] && stored[..k + 1][..k] == stored[..k];
  }

  // ---- What is written and what is selected, in terms of the columns alone ----

  /** A row is selected if it waits with a retry left, or if its claim is more than 300 seconds old. */
  lemma CandidateMeans(rows: seq<Row>, now: int, i: nat)
    ensures i in Candidates(rows, now) <==>
            && i < |rows|
            && var row := rows[i];
            || ((row.status.Pending? || row.status.Failed?) && row.retries < row.maxRetries)
            || (row.status.Processing? && row.lockedAt.Some? && now - row.lockedAt.value > 300)
  {
  }

  lemma RowWrites(message: Message, maxRetries: int, row: Row, now: int)
    ensures Inserted(message, maxRetries, now) == Row(message, Pending, 0, maxRetries, now, None)
    ensures Claimed(row, now)
            == Row(row.message, Processing, row.retries, row.maxRetries, row.createdAt, Some(now))
    ensures MarkedBy(row, MarkedSent(row), true, true) && MarkedBy(row, MarkedFailed(row), false, true)
  {
  }

  /** The mark of an event: SENT exactly if it was delivered; otherwise one retry more, and dead if that was the
      last one. A mark that is not stored leaves the row alone. */
  predicate MarkedBy(before: Row, after: Row, delivered: bool, stored: bool) {
    if !stored then after == before
    else if delivered then
      after == Row(before.message, Sent, before.retries, before.maxRetries, before.createdAt, before.lockedAt)
    else
      after == Row(before.message, if before.retries + 1 >= before.maxRetries then DeadLetter else Failed,
                   before.retries + 1, before.maxRetries, before.createdAt, before.lockedAt)
  }
}
