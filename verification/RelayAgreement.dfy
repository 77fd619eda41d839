/** The Go and the Kotlin retry machines, run side by side with the same publish outcomes. */
module RelayAgreement {
  import opened Outbox
  import opened RelayProgress
  import KotlinRelay

  /** Same event, same status; a dead letter shows max retries in Go and one less in Kotlin. */
  predicate RowsAgree(go: Row, kt: Row) {
    && go.message == kt.message && go.maxRetries == kt.maxRetries && go.createdAt == kt.createdAt
    && go.status == kt.status && !go.status.Processing?
    && kt.lockedAt.None?
    && RowOk(go)
    && (if go.status.DeadLetter? then go.retries == go.maxRetries && kt.retries == kt.maxRetries - 1
        else go.retries == kt.retries)
  }

  predicate Agree(go: seq<Row>, kt: seq<Row>) {
    |go| == |kt| && forall i | 0 <= i < |go| :: RowsAgree(go[i], kt[i])
  }

  /** Both relays look for the same events, whatever the clock says. */
  lemma SameCandidates(go: seq<Row>, kt: seq<Row>, goNow: int, ktNow: int)
    requires Agree(go, kt)
    ensures Candidates(go, goNow) == KotlinRelay.WaitingRows(kt, ktNow)
  {
    forall i: nat
      ensures i in Candidates(go, goNow) <==> i in KotlinRelay.WaitingRows(kt, ktNow)
    {
      if i < |go| {
        assert RowsAgree(go[i], kt[i]);
      }
    }
  }

  lemma SameBatches(go: seq<Row>, kt: seq<Row>, goNow: int, ktNow: int, limit: nat, batch: seq<nat>)
    requires Agree(go, kt)
    ensures IsOldest(go, Candidates(go, goNow), limit, batch)
            <==> IsOldest(kt, KotlinRelay.WaitingRows(kt, ktNow), limit, batch)
  {
    SameCandidates(go, kt, goNow, ktNow);
    assert forall i | 0 <= i < |go| :: RowsAgree(go[i], kt[i]);
  }

  function KotlinRound(kt: seq<Row>, r: Round): seq<Row>
    requires InRange(kt, r.batch) && |r.acks| == |r.batch| && Distinct(r.batch)
  {
    KotlinRelay.ResolveAll(kt, r.batch, r.acks) + r.inserted
  }

  lemma ResolvedRowsAgree(go: Row, kt: Row, acked: bool, now: int)
    requires RowsAgree(go, kt) && !Finished(go)
    ensures RowsAgree(Marked(Claimed(go, now), acked, true), KotlinRelay.Resolved(kt, acked))
  {
  }

  predicate InsertsAtRest(r: Round) {
    forall i | 0 <= i < |r.inserted| :: r.inserted[i].lockedAt.None?
  }

  /** One round keeps the two tables in step. */
  lemma RoundAgrees(go: seq<Row>, kt: seq<Row>, r: Round, limit: nat)
    requires Agree(go, kt) && RoundOk(go, r, limit) && InsertsAtRest(r)
    ensures Agree(AfterRound(go, r), KotlinRound(kt, r))
  {
    var claimed := ClaimAll(go, r.batch, r.now);
    var goAfter, ktAfter := AfterPoll(go, r), KotlinRelay.ResolveAll(kt, r.batch, r.acks);
    forall i | 0 <= i < |go|
      ensures RowsAgree(goAfter[i], ktAfter[i])
    {
      assert RowsAgree(go[i], kt[i]);
      if i in r.batch {
        var k :| 0 <= k < |r.batch| && r.batch[k] == i;
        assert r.batch[k] in Candidates(go, r.now);
        assert goAfter[r.batch[k]] == Marked(claimed[r.batch[k]], r.acks[k], true);
        assert ktAfter[r.batch[k]] == KotlinRelay.Resolved(kt[r.batch[k]], r.acks[k]);
        ResolvedRowsAgree(go[i], kt[i], r.acks[k], r.now);
      }
    }
    forall i | 0 <= i < |r.inserted|
      ensures RowsAgree(r.inserted[i], r.inserted[i])
    {
    }
  }

  /** The rounds are runs of the Kotlin relay: each batch is an answer to its own query. */
  predicate KotlinRoundsOk(kt: seq<Row>, rounds: seq<Round>, limit: nat)
    decreases |rounds|
  {
    rounds == [] ||
    (&& InRange(kt, rounds[0].batch) && |rounds[0].acks| == |rounds[0].batch|
     && IsOldest(kt, KotlinRelay.WaitingRows(kt, rounds[0].now), limit, rounds[0].batch)
     && KotlinRoundsOk(KotlinRound(kt, rounds[0]), rounds[1..], limit))
  }

  function KotlinRounds(kt: seq<Row>, rounds: seq<Round>, limit: nat): seq<Row>
    requires KotlinRoundsOk(kt, rounds, limit)
    decreases |rounds|
  {
    if rounds == [] then kt else KotlinRounds(KotlinRound(kt, rounds[0]), rounds[1..], limit)
  }

  /** A run of the relay class with working storage is one round of the Kotlin relay. */
  method KotlinRelayRound(relay: KotlinRelay.OutboxRelayScheduler, now: int, attempts: seq<Attempt>) returns (r: Round)
    requires |attempts| >= KotlinRelay.BATCH_SIZE && forall k | 0 <= k < |attempts| :: attempts[k].stored
    modifies relay
    ensures r.now == now && r.inserted == []
    ensures KotlinRoundsOk(old(relay.rows), [r], KotlinRelay.BATCH_SIZE)
    ensures relay.rows == KotlinRound(old(relay.rows), r)
  {
    var committed, ids, tried := relay.Relay(now, attempts, true);
    r := Round(now, ids, KotlinRelay.AckSeq(attempts[..|ids|]), []);
  }

  /** Given equal batch limits and publish outcomes, every run of the Go relay is a run of the Kotlin
      relay, and the statuses agree event by event at its end. */
  lemma {:induction false} RunsAgree(go: seq<Row>, kt: seq<Row>, rounds: seq<Round>, limit: nat)
    requires Agree(go, kt) && RoundsOk(go, rounds, limit)
    requires forall k | 0 <= k < |rounds| :: InsertsAtRest(rounds[k])
    ensures KotlinRoundsOk(kt, rounds, limit)
    ensures Agree(AfterRounds(go, rounds, limit), KotlinRounds(kt, rounds, limit))
    decreases |rounds|
  {
    if rounds != [] {
      var r := rounds[0];
      assert RoundOk(go, r, limit);
      SameBatches(go, kt, r.now, r.now, limit, r.batch);
      RoundAgrees(go, kt, r, limit);
      RunsAgree(AfterRound(go, r), KotlinRound(kt, r), rounds[1..], limit);
    }
  }

  /** No sequence of Kotlin runs, with inserts in between, ever leaves a PROCESSING row or a lock. */
  lemma {:induction false} KotlinStaysAtRest(kt: seq<Row>, rounds: seq<Round>, limit: nat)
    requires KotlinRelay.AtRest(kt) && KotlinRoundsOk(kt, rounds, limit)
    requires forall k | 0 <= k < |rounds| :: KotlinRelay.AtRest(rounds[k].inserted)
    ensures KotlinRelay.AtRest(KotlinRounds(kt, rounds, limit))
    decreases |rounds|
  {
    if rounds != [] {
      var r := rounds[0];
      forall k | 0 <= k < |r.batch|
        ensures !Finished(kt[r.batch[k]])
      {
        assert r.batch[k] in KotlinRelay.WaitingRows(kt, r.now);
      }
      KotlinRelay.ResolveStaysAtRest(kt, r.batch, r.acks);
      KotlinStaysAtRest(KotlinRound(kt, r), rounds[1..], limit);
    }
  }

  // ---- How often an event is tried ----

  /** The attempts of event `t` in a run. */
  function Tries(rounds: seq<Round>, t: nat): nat {
    if rounds == [] then 0
    else (if t in rounds[0].batch then 1 else 0) + Tries(rounds[1..], t)
  }

  predicate FailsIn(r: Round, t: nat)
    requires |r.acks| == |r.batch|
  {
    forall k | 0 <= k < |r.batch| && r.batch[k] == t :: !r.acks[k]
  }

  lemma FailedTry(rows: seq<Row>, r: Round, limit: nat, t: nat)
    requires TableOk(rows) && RoundOk(rows, r, limit) && t < |rows| && FailsIn(r, t)
    ensures var after := AfterRound(rows, r);
            && t < |after|
            && if t in r.batch
               then after[t] == MarkedFailed(Claimed(rows[t], r.now)) && !Finished(rows[t])
               else after[t] == rows[t]
  {
    PollKeepsTable(rows, r, limit);
    if t in r.batch {
      var k :| 0 <= k < |r.batch| && r.batch[k] == t;
      EligibleIsUnfinished(rows, r, limit);
      assert AfterPoll(rows, r)[r.batch[k]] == Marked(ClaimAll(rows, r.batch, r.now)[r.batch[k]], false, true);
    }
  }

  /** An event whose every attempt fails uses up one retry per attempt, and becomes a dead letter at
      exactly the last one: it is tried max_retries times, never more. */
  lemma {:induction false} TriedUntilDead(rows: seq<Row>, rounds: seq<Round>, limit: nat, t: nat)
    requires TableOk(rows) && RoundsOk(rows, rounds, limit) && t < |rows| && !rows[t].status.Sent?
    requires forall k | 0 <= k < |rounds| :: |rounds[k].acks| == |rounds[k].batch| && FailsIn(rounds[k], t)
    requires rows[t].status.DeadLetter? ==> rows[t].retries == rows[t].maxRetries
    ensures var after := AfterRounds(rows, rounds, limit);
            && t < |after| && after[t].maxRetries == rows[t].maxRetries
            && after[t].retries == rows[t].retries + Tries(rounds, t) <= rows[t].maxRetries
            && (after[t].status.DeadLetter? <==> Tries(rounds, t) == rows[t].maxRetries - rows[t].retries)
    decreases |rounds|
  {
    if rounds != [] {
      FailedTry(rows, rounds[0], limit, t);
      RoundKeepsTable(rows, rounds[0], limit);
      TriedUntilDead(AfterRound(rows, rounds[0]), rounds[1..], limit, t);
    }
  }

  /** Side by side: a new event that always fails is tried the same number of times by both relays; at
      most max_retries times, and when it is dead Go shows max_retries and Kotlin one less. */
  lemma BothGiveUpTogether(go: seq<Row>, kt: seq<Row>, rounds: seq<Round>, limit: nat, t: nat)
    requires Agree(go, kt) && RoundsOk(go, rounds, limit)
    requires forall k | 0 <= k < |rounds| :: InsertsAtRest(rounds[k])
    requires t < |go| && go[t].status.Pending? && go[t].retries == 0
    requires forall k | 0 <= k < |rounds| :: |rounds[k].acks| == |rounds[k].batch| && FailsIn(rounds[k], t)
    ensures KotlinRoundsOk(kt, rounds, limit)
    ensures var a, b := AfterRounds(go, rounds, limit), KotlinRounds(kt, rounds, limit);
            && t < |a| == |b| && a[t].status == b[t].status
            && Tries(rounds, t) <= go[t].maxRetries
            && (a[t].status.DeadLetter? <==> Tries(rounds, t) == go[t].maxRetries)
            && a[t].retries == Tries(rounds, t)
            && b[t].retries == Tries(rounds, t) - (if b[t].status.DeadLetter? then 1 else 0)
  {
    RunsAgree(go, kt, rounds, limit);
    assert forall i | 0 <= i < |go| :: RowsAgree(go[i], kt[i]);
    TriedUntilDead(go, rounds, limit, t);
    assert RowsAgree(AfterRounds(go, rounds, limit)[t], KotlinRounds(kt, rounds, limit)[t]);
  }
}
