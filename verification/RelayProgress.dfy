/** One Go relay with working storage: how fast the outbox empties, and that no event starves
    however many new ones keep arriving. */
module RelayProgress {
  import opened Messages
  import opened Outbox
  import GoRelay

  /** One poll (with all marks stored), then the insertion of new events. */
  datatype Round = Round(now: int, batch: seq<nat>, acks: seq<bool>, inserted: seq<Row>)

  function Always(n: nat): (s: seq<bool>)
    ensures |s| == n && forall k | 0 <= k < n :: s[k]
  {
    seq(n, _ => true)
  }

  predicate RoundOk(rows: seq<Row>, r: Round, limit: nat) {
    && InRange(rows, r.batch) && |r.acks| == |r.batch|
    && IsOldest(rows, Candidates(rows, r.now), limit, r.batch)
    && (forall i | 0 <= i < |r.inserted| :: r.inserted[i].status.Pending? && RowOk(r.inserted[i]))
  }

  function AfterPoll(rows: seq<Row>, r: Round): (after: seq<Row>)
    requires InRange(rows, r.batch) && |r.acks| == |r.batch| && Distinct(r.batch)
    ensures |after| == |rows|
  {
    MarkAll(ClaimAll(rows, r.batch, r.now), r.batch, r.acks, Always(|r.batch|))
  }

  function AfterRound(rows: seq<Row>, r: Round): seq<Row>
    requires InRange(rows, r.batch) && |r.acks| == |r.batch| && Distinct(r.batch)
  {
    AfterPoll(rows, r) + r.inserted
  }

  /** A poll of the relay class, alone on the table and with working storage, is the poll of a round. */
  method PollRound(relay: GoRelay.OutboxRelay, now: int, attempts: seq<Attempt>) returns (r: Round)
    requires |attempts| >= relay.batchSize && forall k | 0 <= k < |attempts| :: attempts[k].stored
    modifies relay, relay.repository
    ensures r.now == now && r.inserted == []
    ensures RoundOk(old(relay.repository.rows), r, relay.batchSize)
    ensures relay.repository.rows == AfterPoll(old(relay.repository.rows), r)
  {
    var ids, events := relay.Poll(now, {}, GoRelay.NoFault, attempts);
    assert Candidates(old(relay.repository.rows), now) - {} == Candidates(old(relay.repository.rows), now);
    assert GoRelay.Stores(attempts[..|ids|]) == Always(|ids|);
    r := Round(now, ids, GoRelay.Acks(relay.writers, events, attempts[..|ids|]), []);
  }

  /** A poll publishes every event it acknowledges, hence every event it marks SENT, and nothing but
      events it claimed from the table. */
  lemma PollPublishes(rows: seq<Row>, ids: seq<nat>, events: seq<Row>, writers: set<Topic>, attempts: seq<Attempt>)
    requires InRange(rows, ids) && |events| == |ids| == |attempts|
    requires forall k | 0 <= k < |ids| :: events[k] == rows[ids[k]]
    ensures forall k | 0 <= k < |ids| && GoRelay.Acks(writers, events, attempts)[k] ::
              rows[ids[k]].message in GoRelay.Arrivals(writers, events, attempts)
    ensures forall m | m in GoRelay.Arrivals(writers, events, attempts) ::
              exists k | 0 <= k < |ids| :: rows[ids[k]].message == m
  {
    forall k | 0 <= k < |ids| && GoRelay.Acked(writers, events[k], attempts[k])
      ensures events[k].message in GoRelay.Arrivals(writers, events, attempts)
    {
      AckedArrives(writers, events, attempts, k);
    }
    forall m | m in GoRelay.Arrivals(writers, events, attempts)
      ensures exists k | 0 <= k < |ids| :: rows[ids[k]].message == m
    {
      var k := ArrivalIsEvent(writers, events, attempts, m);
      assert rows[ids[k]].message == m;
    }
  }

  lemma {:induction false} AckedArrives(writers: set<Topic>, events: seq<Row>, attempts: seq<Attempt>, k: nat)
    requires |events| == |attempts| && k < |events| && GoRelay.Acked(writers, events[k], attempts[k])
    ensures events[k].message in GoRelay.Arrivals(writers, events, attempts)
    decreases |events|
  {
    var last := |events| - 1;
    if k < last {
      AckedArrives(writers, events[..last], attempts[..last], k);
    }
  }

  lemma {:induction false} ArrivalIsEvent(writers: set<Topic>, events: seq<Row>, attempts: seq<Attempt>, m: Message)
    returns (k: nat)
    requires |events| == |attempts| && m in GoRelay.Arrivals(writers, events, attempts)
    ensures k < |events| && events[k].message == m
    decreases |events|
  {
    var last := |events| - 1;
    if m in GoRelay.Arrivals(writers, events[..last], attempts[..last]) {
      k := ArrivalIsEvent(writers, events[..last], attempts[..last], m);
    } else {
      k := last;
    }
  }

  /** The clock does not run backwards. */
  predicate RoundsOk(rows: seq<Row>, rounds: seq<Round>, limit: nat)
    decreases |rounds|
  {
    rounds == [] ||
    (&& RoundOk(rows, rounds[0], limit)
     && (|rounds| > 1 ==> rounds[0].now <= rounds[1].now)
     && RoundsOk(AfterRound(rows, rounds[0]), rounds[1..], limit))
  }

  function AfterRounds(rows: seq<Row>, rounds: seq<Round>, limit: nat): seq<Row>
    requires RoundsOk(rows, rounds, limit)
    decreases |rounds|
  {
    if rounds == [] then rows else AfterRounds(AfterRound(rows, rounds[0]), rounds[1..], limit)
  }

  /** No lease is running: whatever is PROCESSING has been abandoned. */
  predicate NoLiveLease(rows: seq<Row>, now: int) {
    forall i | 0 <= i < |rows| && rows[i].status.Processing? :: LeaseExpired(rows[i], now)
  }

  // ---- The potential ----

  function RetriesLeft(row: Row, bound: int): int {
    if !Finished(row) && row.createdAt <= bound then row.maxRetries - row.retries else 0
  }

  /** Attempts that the unfinished events not newer than `bound` can still take. */
  function Potential(rows: seq<Row>, bound: int): int {
    if rows == [] then 0
    else Potential(rows[..|rows| - 1], bound) + RetriesLeft(rows[|rows| - 1], bound)
  }

  lemma {:induction false} PotentialUpdate(rows: seq<Row>, i: nat, row: Row, bound: int)
    requires i < |rows|
    ensures Potential(rows[i := row], bound)
            == Potential(rows, bound) - RetriesLeft(rows[i], bound) + RetriesLeft(row, bound)
  {
    var last := |rows| - 1;
    if i == last {
      assert rows[i := row][..last] == rows[..last];
    } else {
      assert rows[i := row][..last] == rows[..last][i := row];
      PotentialUpdate(rows[..last], i, row, bound);
    }
  }

  lemma {:induction false} PotentialAppend(rows: seq<Row>, more: seq<Row>, bound: int)
    ensures Potential(rows + more, bound) == Potential(rows, bound) + Potential(more, bound)
  {
    if more == [] {
      assert rows + more == rows;
    } else {
      var last := |more| - 1;
      assert (rows + more)[..|rows + more| - 1] == rows + more[..last];
      PotentialAppend(rows, more[..last], bound);
    }
  }

  lemma {:induction false} PotentialAtLeast(rows: seq<Row>, i: nat, bound: int)
    requires TableOk(rows) && i < |rows|
    ensures Potential(rows, bound) >= RetriesLeft(rows[i], bound)
  {
    var last := |rows| - 1;
    if i < last {
      PotentialAtLeast(rows[..last], i, bound);
    } else if last > 0 {
      PotentialAtLeast(rows[..last], 0, bound);
    }
  }

  /** Claiming moves no retry counter and finishes nothing. */
  lemma {:induction false} ClaimKeepsPotential(rows: seq<Row>, batch: seq<nat>, now: int, bound: int)
    requires InRange(rows, batch) && forall k | 0 <= k < |batch| :: !Finished(rows[batch[k]])
    ensures Potential(ClaimAll(rows, batch, now), bound) == Potential(rows, bound)
  {
    if batch != [] {
      var last := |batch| - 1;
      var before := ClaimAll(rows, batch[..last], now);
      ClaimKeepsPotential(rows, batch[..last], now, bound);
      PotentialUpdate(before, batch[last], Claimed(before[batch[last]], now), bound);
    }
  }

  /** How many events of a batch are not newer than `bound`. */
  function OldOnes(rows: seq<Row>, batch: seq<nat>, bound: int): nat
    requires InRange(rows, batch)
  {
    if batch == [] then 0
    else
      var last := |batch| - 1;
      OldOnes(rows, batch[..last], bound) + (if rows[batch[last]].createdAt <= bound then 1 else 0)
  }

  /** Every stored mark of an unfinished event spends at least one attempt. */
  lemma {:induction false} MarkSpends(rows: seq<Row>, batch: seq<nat>, acks: seq<bool>, stored: seq<bool>, bound: int)
    requires InRange(rows, batch) && Distinct(batch) && |acks| == |stored| == |batch|
    requires forall k | 0 <= k < |batch| :: RowOk(rows[batch[k]]) && !Finished(rows[batch[k]]) && stored[k]
    ensures Potential(MarkAll(rows, batch, acks, stored), bound) <= Potential(rows, bound) - OldOnes(rows, batch, bound)
  {
    if batch != [] {
      var last := |batch| - 1;
      var before := MarkAll(rows, batch[..last], acks[..last], stored[..last]);
      MarkSpends(rows, batch[..last], acks[..last], stored[..last], bound);
      assert batch[last] !in batch[..last];
      PotentialUpdate(before, batch[last], Marked(before[batch[last]], acks[last], stored[last]), bound);
    }
  }

  lemma {:induction false} OldOnesClaimed(rows: seq<Row>, batch: seq<nat>, part: seq<nat>, now: int, bound: int)
    requires InRange(rows, batch) && InRange(rows, part)
    ensures OldOnes(ClaimAll(rows, batch, now), part, bound) == OldOnes(rows, part, bound)
  {
    if part != [] {
      OldOnesClaimed(rows, batch, part[..|part| - 1], now, bound);
    }
  }

  lemma {:induction false} AllOld(rows: seq<Row>, batch: seq<nat>, bound: int)
    requires InRange(rows, batch) && forall k | 0 <= k < |batch| :: rows[batch[k]].createdAt <= bound
    ensures OldOnes(rows, batch, bound) == |batch|
  {
    if batch != [] {
      AllOld(rows, batch[..|batch| - 1], bound);
    }
  }

  lemma EligibleIsUnfinished(rows: seq<Row>, r: Round, limit: nat)
    requires TableOk(rows) && RoundOk(rows, r, limit)
    ensures forall k | 0 <= k < |r.batch| :: !Finished(rows[r.batch[k]]) && RowOk(rows[r.batch[k]])
  {
    forall k | 0 <= k < |r.batch|
      ensures !Finished(rows[r.batch[k]])
    {
      assert r.batch[k] in Candidates(rows, r.now);
    }
  }

  /** A poll spends at least one attempt of every event it claims. */
  lemma PollSpends(rows: seq<Row>, r: Round, limit: nat, bound: int)
    requires TableOk(rows) && RoundOk(rows, r, limit)
    ensures Potential(AfterPoll(rows, r), bound) <= Potential(rows, bound) - OldOnes(rows, r.batch, bound)
  {
    EligibleIsUnfinished(rows, r, limit);
    var claimed := ClaimAll(rows, r.batch, r.now);
    ClaimKeepsPotential(rows, r.batch, r.now, bound);
    assert forall k | 0 <= k < |r.batch| :: r.batch[k] in r.batch;
    MarkSpends(claimed, r.batch, r.acks, Always(|r.batch|), bound);
    OldOnesClaimed(rows, r.batch, r.batch, r.now, bound);
  }

  /** A poll keeps every row well formed, and leaves no live lease of its own behind. */
  lemma PollKeepsTable(rows: seq<Row>, r: Round, limit: nat)
    requires TableOk(rows) && RoundOk(rows, r, limit)
    ensures TableOk(AfterPoll(rows, r))
    ensures NoLiveLease(rows, r.now) ==> NoLiveLease(AfterPoll(rows, r), r.now)
    ensures forall i | 0 <= i < |rows| && i !in r.batch :: AfterPoll(rows, r)[i] == rows[i]
    ensures forall i | 0 <= i < |rows| :: AfterPoll(rows, r)[i].createdAt == rows[i].createdAt
  {
    EligibleIsUnfinished(rows, r, limit);
    var claimed, after := ClaimAll(rows, r.batch, r.now), AfterPoll(rows, r);
    forall i | 0 <= i < |rows| && i in r.batch
      ensures RowOk(after[i]) && !after[i].status.Processing? && after[i].createdAt == rows[i].createdAt
    {
      var k :| 0 <= k < |r.batch| && r.batch[k] == i;
      assert after[r.batch[k]] == Marked(claimed[r.batch[k]], r.acks[k], true);
    }
  }

  lemma RoundKeepsTable(rows: seq<Row>, r: Round, limit: nat)
    requires TableOk(rows) && RoundOk(rows, r, limit)
    ensures TableOk(AfterRound(rows, r))
    ensures forall later | NoLiveLease(rows, r.now) && r.now <= later :: NoLiveLease(AfterRound(rows, r), later)
  {
    PollKeepsTable(rows, r, limit);
  }

  // ---- Termination ----

  /** Without live leases an unfinished event makes the next poll non-empty. */
  lemma UnfinishedMakesWork(rows: seq<Row>, r: Round, limit: nat, i: nat)
    requires TableOk(rows) && RoundOk(rows, r, limit) && NoLiveLease(rows, r.now)
    requires limit > 0 && i < |rows| && !Finished(rows[i])
    ensures r.batch != []
  {
    assert i in Candidates(rows, r.now);
  }

  predicate NotNewer(rows: seq<Row>, bound: int) {
    forall i | 0 <= i < |rows| :: rows[i].createdAt <= bound
  }

  lemma {:induction false} PotentialNonNegative(rows: seq<Row>, bound: int)
    requires TableOk(rows)
    ensures Potential(rows, bound) >= 0
  {
    if rows != [] {
      PotentialNonNegative(rows[..|rows| - 1], bound);
    }
  }

  /** A poll of a table with unfinished events strictly lowers the potential of the whole table. */
  lemma PollLowersPotential(rows: seq<Row>, r: Round, limit: nat, bound: int)
    requires TableOk(rows) && RoundOk(rows, r, limit) && NoLiveLease(rows, r.now)
    requires limit > 0 && NotNewer(rows, bound) && exists i | 0 <= i < |rows| :: !Finished(rows[i])
    ensures Potential(AfterPoll(rows, r), bound) < Potential(rows, bound)
  {
    var i :| 0 <= i < |rows| && !Finished(rows[i]);
    UnfinishedMakesWork(rows, r, limit, i);
    PollSpends(rows, r, limit, bound);
    AllOld(rows, r.batch, bound);
  }

  lemma {:induction false} FinishedStays(rows: seq<Row>, rounds: seq<Round>, limit: nat, i: nat)
    requires TableOk(rows) && RoundsOk(rows, rounds, limit) && i < |rows| && Finished(rows[i])
    ensures i < |AfterRounds(rows, rounds, limit)| && AfterRounds(rows, rounds, limit)[i] == rows[i]
    decreases |rounds|
  {
    if rounds != [] {
      var r := rounds[0];
      assert i !in r.batch by {
        EligibleIsUnfinished(rows, r, limit);
      }
      PollKeepsTable(rows, r, limit);
      RoundKeepsTable(rows, r, limit);
      FinishedStays(AfterRound(rows, r), rounds[1..], limit, i);
    }
  }

  /** A round without new events, on a table with unfinished ones, leaves a table with less to do. */
  lemma RoundDrains(rows: seq<Row>, r: Round, limit: nat, bound: int)
    requires limit > 0 && TableOk(rows) && NotNewer(rows, bound) && RoundOk(rows, r, limit) && r.inserted == []
    requires NoLiveLease(rows, r.now) && exists i | 0 <= i < |rows| :: !Finished(rows[i])
    ensures var after := AfterRound(rows, r);
            && |after| == |rows| && TableOk(after) && NotNewer(after, bound)
            && (forall later | r.now <= later :: NoLiveLease(after, later))
            && Potential(after, bound) < Potential(rows, bound)
  {
    PollLowersPotential(rows, r, limit, bound);
    RoundKeepsTable(rows, r, limit);
    PollKeepsTable(rows, r, limit);
    assert AfterRound(rows, r) == AfterPoll(rows, r);
  }

  /** With no new events, as many polls as there are attempts left bring every event to SENT or DEAD_LETTER. */
  lemma {:induction false} RelayTerminates(rows: seq<Row>, rounds: seq<Round>, limit: nat, bound: int)
    requires limit > 0 && TableOk(rows) && NotNewer(rows, bound) && RoundsOk(rows, rounds, limit)
    requires forall k | 0 <= k < |rounds| :: rounds[k].inserted == []
    requires rounds != [] ==> NoLiveLease(rows, rounds[0].now)
    requires |rounds| >= Potential(rows, bound)
    ensures var after := AfterRounds(rows, rounds, limit);
            |after| == |rows| && forall i | 0 <= i < |after| :: Finished(after[i])
    decreases |rounds|
  {
    if forall i | 0 <= i < |rows| :: Finished(rows[i]) {
      NothingToDo(rows, rounds, limit);
    } else {
      var i :| 0 <= i < |rows| && !Finished(rows[i]);
      PotentialAtLeast(rows, i, bound);
      RoundDrains(rows, rounds[0], limit, bound);
      RelayTerminates(AfterRound(rows, rounds[0]), rounds[1..], limit, bound);
    }
  }

  lemma {:induction false} NothingToDo(rows: seq<Row>, rounds: seq<Round>, limit: nat)
    requires TableOk(rows) && RoundsOk(rows, rounds, limit)
    requires forall k | 0 <= k < |rounds| :: rounds[k].inserted == []
    requires forall i | 0 <= i < |rows| :: Finished(rows[i])
    ensures AfterRounds(rows, rounds, limit) == rows
    decreases |rounds|
  {
    if rounds != [] {
      EligibleIsUnfinished(rows, rounds[0], limit);
      assert rounds[0].batch == [];
      assert AfterRound(rows, rounds[0]) == rows;
      NothingToDo(rows, rounds[1..], limit);
    }
  }

  lemma {:induction false} RoundsAppend(rows: seq<Row>, rounds: seq<Round>, r: Round, limit: nat)
    requires RoundsOk(rows, rounds, limit) && RoundOk(AfterRounds(rows, rounds, limit), r, limit)
    requires rounds != [] ==> rounds[|rounds| - 1].now <= r.now
    ensures RoundsOk(rows, rounds + [r], limit)
    ensures AfterRounds(rows, rounds + [r], limit) == AfterRound(AfterRounds(rows, rounds, limit), r)
    decreases |rounds|
  {
    if rounds == [] {
      assert ([] + [r])[1..] == [];
      assert RoundsOk(AfterRound(rows, r), [], limit);
    } else {
      assert (rounds + [r])[1..] == rounds[1..] + [r];
      RoundsAppend(AfterRound(rows, rounds[0]), rounds[1..], r, limit);
    }
  }

  /** Rounds that follow the ticks of a clock and insert nothing. */
  predicate Follows(rounds: seq<Round>, ticks: seq<int>) {
    |rounds| <= |ticks| && forall j | 0 <= j < |rounds| :: rounds[j].now == ticks[j] && rounds[j].inserted == []
  }

  predicate Forward(ticks: seq<int>) {
    forall j, k | 0 <= j < k < |ticks| :: ticks[j] <= ticks[k]
  }

  lemma FollowsAppend(rounds: seq<Round>, ticks: seq<int>, r: Round)
    requires Follows(rounds, ticks) && |rounds| < |ticks| && r.now == ticks[|rounds|] && r.inserted == []
    ensures Follows(rounds + [r], ticks)
  {
  }

  lemma Drained(rows: seq<Row>, rounds: seq<Round>, limit: nat, bound: int, ticks: seq<int>)
    requires limit > 0 && TableOk(rows) && NotNewer(rows, bound) && RoundsOk(rows, rounds, limit)
    requires Follows(rounds, ticks) && |rounds| == |ticks|
    requires ticks != [] ==> NoLiveLease(rows, ticks[0])
    ensures |ticks| >= Potential(rows, bound) ==>
              var after := AfterRounds(rows, rounds, limit);
              |after| == |rows| && forall i | 0 <= i < |after| :: Finished(after[i])
  {
    if |ticks| >= Potential(rows, bound) {
      RelayTerminates(rows, rounds, limit, bound);
    }
  }

  /** The relay's ticker: one poll per tick of a clock that does not run backwards. With working storage
      and no live lease at the first tick, enough ticks finish every event of the table. */
  method Start(relay: GoRelay.OutboxRelay, ticks: seq<int>, attempts: seq<seq<Attempt>>, bound: int)
    requires relay.batchSize > 0 && |attempts| == |ticks|
    requires forall k | 0 <= k < |attempts| ::
               |attempts[k]| >= relay.batchSize && forall i | 0 <= i < |attempts[k]| :: attempts[k][i].stored
    requires Forward(ticks)
    requires TableOk(relay.repository.rows) && NotNewer(relay.repository.rows, bound)
    requires ticks != [] ==> NoLiveLease(relay.repository.rows, ticks[0])
    modifies relay, relay.repository
    ensures |ticks| >= Potential(old(relay.repository.rows), bound) ==>
              && |relay.repository.rows| == |old(relay.repository.rows)|
              && forall i | 0 <= i < |relay.repository.rows| :: Finished(relay.repository.rows[i])
  {
    ghost var rows, limit := relay.repository.rows, relay.batchSize;
    ghost var rounds: seq<Round> := [];
    for k := 0 to |ticks|
      invariant |rounds| == k && Follows(rounds, ticks) && RoundsOk(rows, rounds, limit)
      invariant relay.repository.rows == AfterRounds(rows, rounds, limit)
    {
      var r := PollRound(relay, ticks[k], attempts[k]);
      RoundsAppend(rows, rounds, r, limit);
      FollowsAppend(rounds, ticks, r);
      rounds := rounds + [r];
    }
    Drained(rows, rounds, limit, bound, ticks);
  }

  // ---- No starvation ----

  /** If an eligible event is passed over, the whole batch went to events that are not newer. */
  lemma PassedOver(rows: seq<Row>, r: Round, limit: nat, t: nat)
    requires TableOk(rows) && RoundOk(rows, r, limit) && NoLiveLease(rows, r.now)
    requires t < |rows| && !Finished(rows[t]) && t !in r.batch
    ensures OldOnes(rows, r.batch, rows[t].createdAt) == limit
  {
    assert t in Candidates(rows, r.now);
    AllOld(rows, r.batch, rows[t].createdAt);
  }

  /** Attempts brought along by later insertions that are not newer than `bound`: the database clock
      counts in whole seconds, so an event may share its instant with one that is already waiting. */
  function Arriving(rounds: seq<Round>, bound: int): int {
    if rounds == [] then 0 else Potential(rounds[0].inserted, bound) + Arriving(rounds[1..], bound)
  }

  lemma RoundWithout(rows: seq<Row>, r: Round, limit: nat, t: nat)
    requires TableOk(rows) && RoundOk(rows, r, limit) && NoLiveLease(rows, r.now)
    requires t < |rows| && !Finished(rows[t]) && t !in r.batch
    ensures var after, bound := AfterRound(rows, r), rows[t].createdAt;
            && t < |after| && after[t] == rows[t]
            && Potential(after, bound) <= Potential(rows, bound) + Potential(r.inserted, bound) - limit
  {
    PassedOver(rows, r, limit, t);
    PollSpends(rows, r, limit, rows[t].createdAt);
    PollKeepsTable(rows, r, limit);
    PotentialAppend(AfterPoll(rows, r), r.inserted, rows[t].createdAt);
  }

  lemma {:induction false} WaitingIsBounded(rows: seq<Row>, rounds: seq<Round>, limit: nat, t: nat)
    requires TableOk(rows) && RoundsOk(rows, rounds, limit)
    requires rounds != [] ==> NoLiveLease(rows, rounds[0].now)
    requires t < |rows| && !Finished(rows[t])
    requires forall k | 0 <= k < |rounds| :: t !in rounds[k].batch
    ensures limit * |rounds| < Potential(rows, rows[t].createdAt) + Arriving(rounds, rows[t].createdAt)
    decreases |rounds|
  {
    if rounds == [] {
      PotentialAtLeast(rows, t, rows[t].createdAt);
    } else {
      var rest := rounds[1..];
      RoundWithout(rows, rounds[0], limit, t);
      RoundKeepsTable(rows, rounds[0], limit);
      WaitingIsBounded(AfterRound(rows, rounds[0]), rest, limit, t);
      OneMore(limit, |rest|);
    }
  }

  /** Whatever keeps arriving after it, an unfinished event is tried within potential / batch size + 1
      polls, where the potential counts the events not newer than itself, already there or arriving. */
  lemma NoStarvation(rows: seq<Row>, rounds: seq<Round>, limit: nat, t: nat)
    requires limit > 0 && TableOk(rows) && RoundsOk(rows, rounds, limit)
    requires rounds != [] && NoLiveLease(rows, rounds[0].now)
    requires t < |rows| && !Finished(rows[t])
    requires |rounds|
             >= (Potential(rows, rows[t].createdAt) + Arriving(rounds, rows[t].createdAt)) / limit + 1
    ensures exists k | 0 <= k < |rounds| :: t in rounds[k].batch
  {
    if forall k | 0 <= k < |rounds| :: t !in rounds[k].batch {
      WaitingIsBounded(rows, rounds, limit, t);
      Division(Potential(rows, rows[t].createdAt) + Arriving(rounds, rows[t].createdAt), limit, |rounds|);
      assert false;
    }
  }

  /** In particular newer events never count, however many there are. */
  lemma {:induction false} NewerNeverCount(rounds: seq<Round>, bound: int)
    requires forall k, i | 0 <= k < |rounds| && 0 <= i < |rounds[k].inserted| :: rounds[k].inserted[i].createdAt > bound
    ensures Arriving(rounds, bound) == 0
  {
    if rounds != [] {
      NewerRows(rounds[0].inserted, bound);
      NewerNeverCount(rounds[1..], bound);
    }
  }

  lemma {:induction false} NewerRows(rows: seq<Row>, bound: int)
    requires forall i | 0 <= i < |rows| :: rows[i].createdAt > bound
    ensures Potential(rows, bound) == 0
  {
    if rows != [] {
      NewerRows(rows[..|rows| - 1], bound);
    }
  }

  lemma OneMore(limit: nat, n: nat)
    ensures limit * (n + 1) == limit + limit * n
  {
  }

  lemma Division(w: int, limit: nat, n: nat)
    requires limit > 0 && n >= w / limit + 1
    ensures limit * n >= w
  {
    assert w < limit * (w / limit + 1);
    assert limit * (w / limit + 1) <= limit * n;
  }
}
