/** Any number of Go relays on one outbox, interleaved statement by statement, with storage errors and
    crashes anywhere: `SKIP LOCKED` while claiming, a five-minute lease while publishing. */
module RelayFleet {
  import opened Base
  import opened Messages
  import opened Outbox

  /** A relay inside a poll; one that is not in the map is between polls. */
  datatype Relay =
    | Selecting(batch: seq<nat>)                                        // rows locked, claim not committed
    | Working(todo: seq<nat>, since: int)                               // claim committed at `since`
    | Marking(event: nat, acked: bool, todo: seq<nat>, since: int)      // published, not yet marked

  /** `topic` is what the broker received, `published` the rows it was received from. */
  datatype Fleet = Fleet(rows: seq<Row>, now: int, relays: map<nat, Relay>, topic: set<Message>, published: set<nat>)

  datatype Step =
    | Insert(message: Message, maxRetries: int)
    | Tick(now: int)
    | Select(relay: nat, limit: nat, batch: seq<nat>)
    | CommitClaim(relay: nat)
    | Publish(relay: nat, attempt: Attempt)
    | Mark(relay: nat, stored: bool)
    | Leave(relay: nat)   // end of the poll, a rollback of the claim, or a crash

  /** Events a relay believes to be its own. */
  function HeldBy(relay: Relay): seq<nat> {
    match relay
    case Selecting(_) => []
    case Working(todo, _) => todo
    case Marking(event, _, todo, _) => [event] + todo
  }

  /** Rows that a claiming transaction has locked. */
  predicate RowLocked(f: Fleet, i: nat) {
    exists r | r in f.relays :: f.relays[r].Selecting? && i in f.relays[r].batch
  }

  /** Candidates of the query that are not skipped because of a row lock. */
  function Free(f: Fleet): set<nat> {
    set i | i in Candidates(f.rows, f.now) && !RowLocked(f, i)
  }

  /** What a locking read may return: some of the unlocked candidates, up to the limit. It is not always the
      oldest of them, because rows that other reads have locked are skipped even if those reads leave them. */
  predicate Claimable(f: Fleet, limit: nat, batch: seq<nat>) {
    |batch| <= limit && Distinct(batch) && forall k | 0 <= k < |batch| :: batch[k] in Free(f)
  }

  predicate Enabled(f: Fleet, step: Step) {
    match step
    case Insert(_, maxRetries) => maxRetries >= 1
    case Tick(now) => now >= f.now
    case Select(r, limit, batch) => r !in f.relays && Claimable(f, limit, batch)
    case CommitClaim(r) => r in f.relays && f.relays[r].Selecting? && InRange(f.rows, f.relays[r].batch)
    case Publish(r, _) => r in f.relays && f.relays[r].Working? && f.relays[r].todo != []
                          && f.relays[r].todo[0] < |f.rows|
    case Mark(r, _) => r in f.relays && f.relays[r].Marking? && f.relays[r].event < |f.rows|
                       && !RowLocked(f, f.relays[r].event)
    case Leave(r) => r in f.relays
  }

  function Next(f: Fleet, step: Step): Fleet
    requires Enabled(f, step)
  {
    match step
    case Insert(message, maxRetries) => f.(rows := f.rows + [Inserted(message, maxRetries, f.now)])
    case Tick(now) => f.(now := now)
    case Select(r, _, batch) => f.(relays := f.relays[r := Selecting(batch)])
    case CommitClaim(r) =>
      f.(rows := ClaimAll(f.rows, f.relays[r].batch, f.now),
         relays := f.relays[r := Working(f.relays[r].batch, f.now)])
    case Publish(r, a) =>
      var relay := f.relays[r];
      var event := relay.todo[0];
      f.(relays := f.relays[r := Marking(event, a.acked, relay.todo[1..], relay.since)],
         topic := if a.acked || a.reached then f.topic + {f.rows[event].message} else f.topic,
         published := if a.acked || a.reached then f.published + {event} else f.published)
    case Mark(r, stored) =>
      var relay := f.relays[r];
      f.(rows := f.rows[relay.event := Marked(f.rows[relay.event], relay.acked, stored)],
         relays := f.relays[r := Working(relay.todo, relay.since)])
    case Leave(r) => f.(relays := f.relays - {r})
  }

  function Begin(now: int): Fleet {
    Fleet([], now, map[], {}, {})
  }

  predicate Feasible(f: Fleet, steps: seq<Step>)
    decreases |steps|
  {
    steps == [] || (Enabled(f, steps[0]) && Feasible(Next(f, steps[0]), steps[1..]))
  }

  function Exec(f: Fleet, steps: seq<Step>): Fleet
    requires Feasible(f, steps)
    decreases |steps|
  {
    if steps == [] then f else Exec(Next(f, steps[0]), steps[1..])
  }

  // ---- Nothing is lost or invented, in every interleaving ----

  predicate RowSafe(row: Row, wasPublished: bool) {
    && (row.status.Sent? ==> wasPublished)
    && (row.status.Pending? || row.status.Failed? ==> row.retries < row.maxRetries)
    && (row.status.Processing? ==> row.lockedAt.Some?)
  }

  predicate RelaySafe(rows: seq<Row>, published: set<nat>, relay: Relay) {
    && InRange(rows, HeldBy(relay))
    && (relay.Selecting? ==> InRange(rows, relay.batch))
    && (relay.Marking? && relay.acked ==> relay.event in published)
  }

  /** The broker holds the message of every published row ... */
  predicate Delivered(rows: seq<Row>, topic: set<Message>, published: set<nat>) {
    forall i | i in published :: i < |rows| && rows[i].message in topic
  }

  predicate IsMessageOf(rows: seq<Row>, published: set<nat>, m: Message) {
    exists i | i in published :: i < |rows| && rows[i].message == m
  }

  /** ... and nothing else. */
  predicate Sourced(rows: seq<Row>, topic: set<Message>, published: set<nat>) {
    forall m | m in topic :: IsMessageOf(rows, published, m)
  }

  predicate TopicBacked(rows: seq<Row>, topic: set<Message>, published: set<nat>) {
    Delivered(rows, topic, published) && Sourced(rows, topic, published)
  }

  predicate Safe(f: Fleet) {
    && (forall i | 0 <= i < |f.rows| :: RowSafe(f.rows[i], i in f.published))
    && (forall r | r in f.relays :: RelaySafe(f.rows, f.published, f.relays[r]))
    && TopicBacked(f.rows, f.topic, f.published)
  }

  /** Steps keep the message of every row, so a relay's claims about rows stay meaningful. */
  predicate SameMessages(before: seq<Row>, after: seq<Row>) {
    |before| <= |after| && forall i | 0 <= i < |before| :: after[i].message == before[i].message
  }

  lemma StepKeepsMessages(f: Fleet, step: Step)
    requires Enabled(f, step)
    ensures SameMessages(f.rows, Next(f, step).rows)
    ensures f.topic <= Next(f, step).topic && f.published <= Next(f, step).published
  {
  }

  lemma RowsStaySafe(f: Fleet, step: Step)
    requires Safe(f) && Enabled(f, step)
    ensures var t := Next(f, step); forall i | 0 <= i < |t.rows| :: RowSafe(t.rows[i], i in t.published)
  {
    var t := Next(f, step);
    forall i | 0 <= i < |t.rows|
      ensures RowSafe(t.rows[i], i in t.published)
    {
      if i >= |f.rows| {
        assert step.Insert?;
      } else {
        assert RowSafe(f.rows[i], i in f.published);
        if step.Mark? {
          assert RelaySafe(f.rows, f.published, f.relays[step.relay]);
        }
      }
    }
  }

  lemma RelaySafeGrows(before: seq<Row>, after: seq<Row>, p0: set<nat>, p1: set<nat>, relay: Relay)
    requires RelaySafe(before, p0, relay) && SameMessages(before, after) && p0 <= p1
    ensures RelaySafe(after, p1, relay)
  {
  }

  /** A relay moves on to its next statement. */
  lemma MovedRelaySafe(f: Fleet, step: Step)
    requires Safe(f) && Enabled(f, step) && (step.Publish? || step.Mark?)
    ensures var t := Next(f, step); RelaySafe(f.rows, t.published, t.relays[step.relay])
  {
    var relay, moved := f.relays[step.relay], Next(f, step).relays[step.relay];
    assert RelaySafe(f.rows, f.published, relay);
    if step.Publish? {
      assert HeldBy(moved) == HeldBy(relay);
    } else {
      assert HeldBy(moved) == HeldBy(relay)[1..];
    }
  }

  lemma RelaysStaySafe(f: Fleet, step: Step)
    requires Safe(f) && Enabled(f, step)
    ensures var t := Next(f, step); forall r | r in t.relays :: RelaySafe(t.rows, t.published, t.relays[r])
  {
    var t := Next(f, step);
    StepKeepsMessages(f, step);
    forall r | r in t.relays
      ensures RelaySafe(t.rows, t.published, t.relays[r])
    {
      if (step.Publish? || step.Mark?) && r == step.relay {
        MovedRelaySafe(f, step);
        RelaySafeGrows(f.rows, t.rows, t.published, t.published, t.relays[r]);
      } else if r in f.relays && t.relays[r] == f.relays[r] {
        RelaySafeGrows(f.rows, t.rows, f.published, t.published, f.relays[r]);
      } else {
        ClaimedRelaySafe(f, step);
      }
    }
  }

  lemma ClaimedRelaySafe(f: Fleet, step: Step)
    requires Safe(f) && Enabled(f, step) && (step.Select? || step.CommitClaim?)
    ensures var t := Next(f, step); RelaySafe(t.rows, t.published, t.relays[step.relay])
  {
    if step.Select? {
      forall k | 0 <= k < |step.batch|
        ensures step.batch[k] < |f.rows|
      {
        assert step.batch[k] in Free(f);
      }
    }
  }

  lemma DeliveredAsRowsGrow(before: seq<Row>, after: seq<Row>, topic: set<Message>, published: set<nat>)
    requires Delivered(before, topic, published) && SameMessages(before, after)
    ensures Delivered(after, topic, published)
  {
  }

  lemma SourcedAsRowsGrow(before: seq<Row>, after: seq<Row>, topic: set<Message>, published: set<nat>)
    requires Sourced(before, topic, published) && SameMessages(before, after)
    ensures Sourced(after, topic, published)
  {
    forall m | m in topic
      ensures IsMessageOf(after, published, m)
    {
      assert IsMessageOf(before, published, m);
    }
  }

  lemma DeliveredAsPublished(rows: seq<Row>, topic: set<Message>, published: set<nat>, event: nat)
    requires Delivered(rows, topic, published) && event < |rows|
    ensures Delivered(rows, topic + {rows[event].message}, published + {event})
  {
  }

  lemma SourcedAsPublished(rows: seq<Row>, topic: set<Message>, published: set<nat>, event: nat)
    requires Sourced(rows, topic, published) && event < |rows|
    ensures Sourced(rows, topic + {rows[event].message}, published + {event})
  {
    forall m | m in topic + {rows[event].message}
      ensures IsMessageOf(rows, published + {event}, m)
    {
      if m in topic {
        var i :| i in published && i < |rows| && rows[i].message == m;
        assert i in published + {event};
      } else {
        assert event in published + {event};
      }
    }
  }

  lemma TopicStaysBacked(f: Fleet, step: Step)
    requires Safe(f) && Enabled(f, step)
    ensures var t := Next(f, step); TopicBacked(t.rows, t.topic, t.published)
  {
    StepKeepsMessages(f, step);
    if step.Publish? {
      DeliveredAsPublished(f.rows, f.topic, f.published, f.relays[step.relay].todo[0]);
      SourcedAsPublished(f.rows, f.topic, f.published, f.relays[step.relay].todo[0]);
    } else {
      DeliveredAsRowsGrow(f.rows, Next(f, step).rows, f.topic, f.published);
      SourcedAsRowsGrow(f.rows, Next(f, step).rows, f.topic, f.published);
    }
  }

  lemma {:induction false} RunStaysSafe(f: Fleet, steps: seq<Step>)
    requires Safe(f) && Feasible(f, steps)
    ensures Safe(Exec(f, steps))
    decreases |steps|
  {
    if steps != [] {
      RowsStaySafe(f, steps[0]);
      RelaysStaySafe(f, steps[0]);
      TopicStaysBacked(f, steps[0]);
      RunStaysSafe(Next(f, steps[0]), steps[1..]);
    }
  }

  /** Eligible now, or as soon as the lease on it has run out. */
  predicate WillBeTried(row: Row, now: int) {
    || Eligible(row, now)
    || (row.status.Processing? && row.lockedAt.Some? && Eligible(row, row.lockedAt.value + LEASE + 1))
  }

  /** In every interleaving, even with relays that outlive their lease: every SENT event was itself
      published, every event that is neither SENT nor DEAD_LETTER will be tried, and the broker holds the
      messages of the published events and nothing else. */
  lemma NothingLostOrInvented(now: int, steps: seq<Step>)
    requires Feasible(Begin(now), steps)
    ensures var f := Exec(Begin(now), steps);
            && (forall i | 0 <= i < |f.rows| && f.rows[i].status.Sent? :: i in f.published)
            && (forall i | 0 <= i < |f.rows| && !Finished(f.rows[i]) :: WillBeTried(f.rows[i], f.now))
            && TopicBacked(f.rows, f.topic, f.published)
  {
    RunStaysSafe(Begin(now), steps);
    var f := Exec(Begin(now), steps);
    forall i | 0 <= i < |f.rows|
      ensures f.rows[i].status.Sent? ==> i in f.published
      ensures !Finished(f.rows[i]) ==> WillBeTried(f.rows[i], f.now)
    {
      assert RowSafe(f.rows[i], i in f.published);
    }
  }

  // ---- What can change a finished event ----

  /** Row locks of claims in progress: on eligible rows, and each row at most once. */
  predicate LocksOk(f: Fleet) {
    && (forall r | r in f.relays && f.relays[r].Selecting? ::
          InRange(f.rows, f.relays[r].batch) && forall i | i in f.relays[r].batch :: Eligible(f.rows[i], f.now))
    && (forall q, r | q in f.relays && r in f.relays && q != r && f.relays[q].Selecting? && f.relays[r].Selecting? ::
          Apart(f.relays[q].batch, f.relays[r].batch))
  }

  predicate Apart(a: seq<nat>, b: seq<nat>) {
    forall i | i in a :: i !in b
  }

  lemma FreeBatch(f: Fleet, limit: nat, batch: seq<nat>)
    requires Claimable(f, limit, batch)
    ensures forall i | i in batch :: i < |f.rows| && Eligible(f.rows[i], f.now) && !RowLocked(f, i)
  {
    forall i | i in batch
      ensures i < |f.rows| && Eligible(f.rows[i], f.now) && !RowLocked(f, i)
    {
      var k :| 0 <= k < |batch| && batch[k] == i;
      assert batch[k] in Free(f);
    }
  }

  lemma StepKeepsLocks(f: Fleet, step: Step)
    requires LocksOk(f) && Enabled(f, step)
    ensures LocksOk(Next(f, step))
  {
    if step.Select? {
      FreeBatch(f, step.limit, step.batch);
    } else if step.Mark? {
      assert forall r | r in f.relays && f.relays[r].Selecting? :: f.relays[step.relay].event !in f.relays[r].batch;
    }
  }

  lemma {:induction false} RunKeepsLocks(f: Fleet, steps: seq<Step>)
    requires LocksOk(f) && Feasible(f, steps)
    ensures LocksOk(Exec(f, steps))
    decreases |steps|
  {
    if steps != [] {
      StepKeepsLocks(f, steps[0]);
      RunKeepsLocks(Next(f, steps[0]), steps[1..]);
    }
  }

  /** A finished event changes in exactly one way, whatever the clock does: a stored mark of it by a relay
      whose claim is over, unless it is SENT and marked SENT again. */
  lemma FinishedChanges(f: Fleet, step: Step, i: nat)
    requires LocksOk(f) && Enabled(f, step) && i < |f.rows| && Finished(f.rows[i])
    ensures i < |Next(f, step).rows|
    ensures Next(f, step).rows[i] != f.rows[i] <==>
            && step.Mark? && step.stored && f.relays[step.relay].event == i
            && !(f.relays[step.relay].acked && f.rows[i].status.Sent?)
  {
  }

  /** So it is in every fleet that any run leads to. */
  lemma FinishedChangesInRuns(now: int, steps: seq<Step>, step: Step, i: nat)
    requires Feasible(Begin(now), steps) && Enabled(Exec(Begin(now), steps), step)
    requires i < |Exec(Begin(now), steps).rows| && Finished(Exec(Begin(now), steps).rows[i])
    ensures var f := Exec(Begin(now), steps);
            && i < |Next(f, step).rows|
            && (Next(f, step).rows[i] != f.rows[i] <==>
                  && step.Mark? && step.stored && f.relays[step.relay].event == i
                  && !(f.relays[step.relay].acked && f.rows[i].status.Sent?))
  {
    RunKeepsLocks(Begin(now), steps);
    FinishedChanges(Exec(Begin(now), steps), step, i);
  }

  predicate InLease(row: Row, since: int) {
    row.status.Processing? && row.lockedAt == Some(since)
  }

  /** A stored mark is the owner's: the row still carries the claim of the relay that marks it. */
  predicate OwnMark(f: Fleet, step: Step)
    requires Enabled(f, step)
  {
    step.Mark? && step.stored ==> InLease(f.rows[f.relays[step.relay].event], f.relays[step.relay].since)
  }

  predicate AllOwnMarks(f: Fleet, steps: seq<Step>)
    requires Feasible(f, steps)
    decreases |steps|
  {
    steps == [] || (OwnMark(f, steps[0]) && AllOwnMarks(Next(f, steps[0]), steps[1..]))
  }

  /** SENT and DEAD_LETTER are final as long as only owners mark, even if relays do outlive their leases. */
  lemma {:induction false} FinalWhileOwned(f: Fleet, steps: seq<Step>, i: nat)
    requires LocksOk(f) && Feasible(f, steps) && AllOwnMarks(f, steps)
    requires i < |f.rows| && Finished(f.rows[i])
    ensures i < |Exec(f, steps).rows| && Exec(f, steps).rows[i] == f.rows[i]
    decreases |steps|
  {
    if steps != [] {
      FinishedChanges(f, steps[0], i);
      StepKeepsLocks(f, steps[0]);
      FinalWhileOwned(Next(f, steps[0]), steps[1..], i);
    }
  }

  // ---- Lease exclusion, when nobody outlives a lease ----

  /** Time passes only as long as every relay that still holds events is within its five minutes. */
  predicate Punctual(f: Fleet, step: Step) {
    step.Tick? ==> forall r | r in f.relays && HeldBy(f.relays[r]) != [] :: step.now <= f.relays[r].since + LEASE
  }

  predicate AllPunctual(f: Fleet, steps: seq<Step>)
    requires Feasible(f, steps)
    decreases |steps|
  {
    steps == [] || (Punctual(f, steps[0]) && AllPunctual(Next(f, steps[0]), steps[1..]))
  }

  /** What one relay may rely on. */
  predicate RelayOk(rows: seq<Row>, now: int, relay: Relay) {
    && InRange(rows, HeldBy(relay)) && Distinct(HeldBy(relay))
    && (relay.Selecting? ==>
          && InRange(rows, relay.batch) && Distinct(relay.batch)
          && forall i | i in relay.batch :: Eligible(rows[i], now))
    && (!relay.Selecting? ==>
          && (HeldBy(relay) != [] ==> now <= relay.since + LEASE)
          && forall i | i in HeldBy(relay) :: InLease(rows[i], relay.since))
  }

  /** What a relay has row-locked or holds. */
  function Footprint(relay: Relay): seq<nat> {
    if relay.Selecting? then relay.batch else HeldBy(relay)
  }

  predicate Exclusive(f: Fleet) {
    && TableOk(f.rows)
    && (forall r | r in f.relays :: RelayOk(f.rows, f.now, f.relays[r]))
    && (forall q, r | q in f.relays && r in f.relays && q != r ::
          Apart(Footprint(f.relays[q]), Footprint(f.relays[r])))
  }

  lemma SelectKeeps(f: Fleet, step: Step)
    requires Exclusive(f) && step.Select? && Enabled(f, step)
    ensures Exclusive(Next(f, step))
  {
    FreeBatch(f, step.limit, step.batch);
    forall q | q in f.relays
      ensures Apart(step.batch, Footprint(f.relays[q])) && Apart(Footprint(f.relays[q]), step.batch)
    {
      assert RelayOk(f.rows, f.now, f.relays[q]);
    }
  }

  /** Relays that do not touch the changed rows keep what they rely on. */
  lemma OthersKeep(f: Fleet, rows: seq<Row>, r: nat)
    requires Exclusive(f) && r in f.relays && |rows| == |f.rows|
    requires forall i | 0 <= i < |rows| && i !in Footprint(f.relays[r]) :: rows[i] == f.rows[i]
    ensures forall q | q in f.relays && q != r :: RelayOk(rows, f.now, f.relays[q])
  {
    forall q | q in f.relays && q != r
      ensures RelayOk(rows, f.now, f.relays[q])
    {
      assert RelayOk(f.rows, f.now, f.relays[q]);
      assert Apart(Footprint(f.relays[q]), Footprint(f.relays[r]));
    }
  }

  /** A relay that moves on within its own rows disturbs nobody. */
  lemma MoveKeeps(f: Fleet, t: Fleet, r: nat)
    requires Exclusive(f) && r in f.relays && r in t.relays && t.relays == f.relays[r := t.relays[r]]
    requires t.now == f.now && TableOk(t.rows) && |t.rows| == |f.rows|
    requires forall i | 0 <= i < |t.rows| && i !in Footprint(f.relays[r]) :: t.rows[i] == f.rows[i]
    requires RelayOk(t.rows, t.now, t.relays[r])
    requires forall i | i in Footprint(t.relays[r]) :: i in Footprint(f.relays[r])
    ensures Exclusive(t)
  {
    OthersKeep(f, t.rows, r);
  }

  lemma CommitClaimKeeps(f: Fleet, r: nat)
    requires Exclusive(f) && Enabled(f, CommitClaim(r))
    ensures Exclusive(Next(f, CommitClaim(r)))
  {
    assert RelayOk(f.rows, f.now, f.relays[r]);
    MoveKeeps(f, Next(f, CommitClaim(r)), r);
  }

  lemma PublishKeeps(f: Fleet, step: Step)
    requires Exclusive(f) && step.Publish? && Enabled(f, step)
    ensures Exclusive(Next(f, step))
  {
    var relay, t := f.relays[step.relay], Next(f, step);
    assert RelayOk(f.rows, f.now, relay);
    assert [relay.todo[0]] + relay.todo[1..] == relay.todo;
    assert HeldBy(t.relays[step.relay]) == HeldBy(relay);
    MoveKeeps(f, t, step.relay);
  }

  /** The row being marked is the relay's own, and not finished yet. */
  lemma MarkedRow(f: Fleet, r: nat)
    requires Exclusive(f) && r in f.relays && f.relays[r].Marking?
    ensures var relay := f.relays[r];
            && relay.event < |f.rows| && RowOk(f.rows[relay.event]) && InLease(f.rows[relay.event], relay.since)
            && relay.event in HeldBy(relay) && relay.event !in relay.todo
            && Distinct(relay.todo) && InRange(f.rows, relay.todo)
            && forall i | i in relay.todo :: i in HeldBy(relay)
  {
    var relay := f.relays[r];
    assert RelayOk(f.rows, f.now, relay);
    assert HeldBy(relay)[0] == relay.event && HeldBy(relay)[1..] == relay.todo;
    TailDistinct(relay.event, relay.todo);
    forall k | 0 <= k < |relay.todo|
      ensures relay.todo[k] < |f.rows|
    {
      assert HeldBy(relay)[k + 1] == relay.todo[k];
    }
  }

  lemma MarkKeeps(f: Fleet, step: Step)
    requires Exclusive(f) && step.Mark? && Enabled(f, step)
    ensures Exclusive(Next(f, step))
    ensures !Finished(f.rows[f.relays[step.relay].event])
  {
    var relay, t := f.relays[step.relay], Next(f, step);
    MarkedRow(f, step.relay);
    assert RelayOk(f.rows, f.now, relay);
    assert t.relays[step.relay] == Working(relay.todo, relay.since);
    assert RowOk(t.rows[relay.event]);
    assert TableOk(t.rows);
    assert RelayOk(t.rows, t.now, t.relays[step.relay]);
    MoveKeeps(f, t, step.relay);
  }

  lemma TailDistinct(first: nat, rest: seq<nat>)
    requires Distinct([first] + rest)
    ensures Distinct(rest) && first !in rest
  {
    forall k | 0 <= k < |rest|
      ensures rest[k] != first && ([first] + rest)[k + 1] == rest[k]
    {
      assert ([first] + rest)[0] != ([first] + rest)[k + 1];
    }
  }

  /** Inserts and the passing of time: an eligible row stays eligible, a claim stays within its lease. */
  lemma EnvironmentKeeps(f: Fleet, step: Step)
    requires Exclusive(f) && Enabled(f, step) && Punctual(f, step) && (step.Insert? || step.Tick?)
    ensures Exclusive(Next(f, step))
  {
    var t := Next(f, step);
    forall r | r in f.relays
      ensures RelayOk(t.rows, t.now, t.relays[r])
    {
      assert RelayOk(f.rows, f.now, f.relays[r]);
    }
  }

  lemma LeaveKeeps(f: Fleet, r: nat)
    requires Exclusive(f) && r in f.relays
    ensures Exclusive(Next(f, Leave(r)))
  {
  }

  lemma StepKeepsExclusive(f: Fleet, step: Step)
    requires Exclusive(f) && Enabled(f, step) && Punctual(f, step)
    ensures Exclusive(Next(f, step))
  {
    match step
    case Select(_, _, _) => SelectKeeps(f, step);
    case CommitClaim(r) => CommitClaimKeeps(f, r);
    case Publish(_, _) => PublishKeeps(f, step);
    case Mark(_, _) => MarkKeeps(f, step);
    case Insert(_, _) => EnvironmentKeeps(f, step);
    case Tick(_) => EnvironmentKeeps(f, step);
    case Leave(r) => LeaveKeeps(f, r);
  }

  lemma {:induction false} RunStaysExclusive(f: Fleet, steps: seq<Step>)
    requires Exclusive(f) && Feasible(f, steps) && AllPunctual(f, steps)
    ensures Exclusive(Exec(f, steps))
    decreases |steps|
  {
    if steps != [] {
      StepKeepsExclusive(f, steps[0]);
      RunStaysExclusive(Next(f, steps[0]), steps[1..]);
    }
  }

  /** With any number of relays that finish or abandon each claim within the lease, no two of them ever
      hold the same event, and no event is tried more often than it may be. */
  lemma LeaseExclusion(now: int, steps: seq<Step>)
    requires Feasible(Begin(now), steps) && AllPunctual(Begin(now), steps)
    ensures var f := Exec(Begin(now), steps);
            && (forall q, r | q in f.relays && r in f.relays && q != r ::
                  Apart(HeldBy(f.relays[q]), HeldBy(f.relays[r])))
            && (forall i | 0 <= i < |f.rows| :: 0 <= f.rows[i].retries <= f.rows[i].maxRetries)
  {
    RunStaysExclusive(Begin(now), steps);
    var f := Exec(Begin(now), steps);
    forall q, r | q in f.relays && r in f.relays && q != r
      ensures Apart(HeldBy(f.relays[q]), HeldBy(f.relays[r]))
    {
      assert Apart(Footprint(f.relays[q]), Footprint(f.relays[r]));
    }
  }

  lemma ExclusiveLocks(f: Fleet)
    requires Exclusive(f)
    ensures LocksOk(f)
  {
    forall r | r in f.relays && f.relays[r].Selecting?
      ensures InRange(f.rows, f.relays[r].batch) && forall i | i in f.relays[r].batch :: Eligible(f.rows[i], f.now)
    {
      assert RelayOk(f.rows, f.now, f.relays[r]);
    }
    forall q, r | q in f.relays && r in f.relays && q != r && f.relays[q].Selecting? && f.relays[r].Selecting?
      ensures Apart(f.relays[q].batch, f.relays[r].batch)
    {
      assert Apart(Footprint(f.relays[q]), Footprint(f.relays[r]));
    }
  }

  /** Punctual relays mark only what they own. */
  lemma {:induction false} PunctualMeansOwn(f: Fleet, steps: seq<Step>)
    requires Exclusive(f) && Feasible(f, steps) && AllPunctual(f, steps)
    ensures AllOwnMarks(f, steps)
    decreases |steps|
  {
    if steps != [] {
      if steps[0].Mark? {
        MarkedRow(f, steps[0].relay);
      }
      StepKeepsExclusive(f, steps[0]);
      PunctualMeansOwn(Next(f, steps[0]), steps[1..]);
    }
  }

  /** Hence SENT and DEAD_LETTER are final among punctual relays. */
  lemma FinishedForever(f: Fleet, steps: seq<Step>, i: nat)
    requires Exclusive(f) && Feasible(f, steps) && AllPunctual(f, steps)
    requires i < |f.rows| && Finished(f.rows[i])
    ensures i < |Exec(f, steps).rows| && Exec(f, steps).rows[i] == f.rows[i]
  {
    ExclusiveLocks(f);
    PunctualMeansOwn(f, steps);
    FinalWhileOwned(f, steps, i);
  }

  // ---- Why the lease has to be respected ----

  lemma {:induction false} RunThen(f: Fleet, a: seq<Step>, b: seq<Step>)
    requires Feasible(f, a) && Feasible(Exec(f, a), b)
    ensures Feasible(f, a + b) && Exec(f, a + b) == Exec(Exec(f, a), b)
    ensures AllPunctual(f, a + b) ==> AllPunctual(Exec(f, a), b)
    decreases |a|
  {
    if a == [] {
      assert a + b == b;
    } else {
      assert (a + b)[1..] == a[1..] + b;
      RunThen(Next(f, a[0]), a[1..], b);
    }
  }

  lemma {:induction false} PunctualPrefix(f: Fleet, a: seq<Step>, b: seq<Step>)
    requires Feasible(f, a) && Feasible(f, a + b) && AllPunctual(f, a + b)
    ensures AllPunctual(f, a)
    decreases |a|
  {
    if a != [] {
      assert (a + b)[1..] == a[1..] + b;
      PunctualPrefix(Next(f, a[0]), a[1..], b);
    }
  }

  lemma ThenStep(f: Fleet, a: seq<Step>, step: Step)
    requires Feasible(f, a) && Enabled(Exec(f, a), step)
    ensures Feasible(f, a + [step]) && Exec(f, a + [step]) == Next(Exec(f, a), step)
    ensures AllPunctual(f, a + [step]) ==> Punctual(Exec(f, a), step)
  {
    RunThen(f, a, [step]);
  }

  /** Insert one event and let relay 1 claim it at time 0. */
  lemma OneClaim(m: Message) returns (steps: seq<Step>)
    ensures Feasible(Begin(0), steps)
    ensures Exec(Begin(0), steps) ==
            Fleet([Claimed(Inserted(m, 3, 0), 0)], 0, map[1 := Working([0], 0)], {}, {})
  {
    steps := [];
    ThenStep(Begin(0), [], Insert(m, 3));
    steps := [] + [Insert(m, 3)];
    var f := Exec(Begin(0), steps);
    assert f == Fleet([Inserted(m, 3, 0)], 0, map[], {}, {});
    assert Free(f) == {0};
    ThenStep(Begin(0), steps, Select(1, 10, [0]));
    steps := steps + [Select(1, 10, [0])];
    ThenStep(Begin(0), steps, CommitClaim(1));
    steps := steps + [CommitClaim(1)];
  }

  /** From there the lease runs out, and relay 2 claims the event again. */
  lemma SecondClaim(m: Message, f: Fleet) returns (steps: seq<Step>)
    requires f == Fleet([Claimed(Inserted(m, 3, 0), 0)], 0, map[1 := Working([0], 0)], {}, {})
    ensures Feasible(f, steps) && !AllPunctual(f, steps)
    ensures Exec(f, steps) ==
            Fleet([Claimed(Inserted(m, 3, 0), LEASE + 1)], LEASE + 1,
                  map[1 := Working([0], 0), 2 := Working([0], LEASE + 1)], {}, {})
  {
    assert 1 in f.relays && !Punctual(f, Tick(LEASE + 1));
    ThenStep(f, [], Tick(LEASE + 1));
    steps := [] + [Tick(LEASE + 1)];
    var late := Exec(f, steps);
    assert Free(late) == {0};
    ThenStep(f, steps, Select(2, 10, [0]));
    steps := steps + [Select(2, 10, [0])];
    ThenStep(f, steps, CommitClaim(2));
    steps := steps + [CommitClaim(2)];
  }

  /** Relay 2 publishes it and marks it SENT, while relay 1 still believes it to be its own. */
  lemma SecondSend(m: Message, f: Fleet) returns (steps: seq<Step>)
    requires f == Fleet([Claimed(Inserted(m, 3, 0), LEASE + 1)], LEASE + 1,
                        map[1 := Working([0], 0), 2 := Working([0], LEASE + 1)], {}, {})
    ensures Feasible(f, steps)
    ensures Exec(f, steps) ==
            Fleet([MarkedSent(Claimed(Inserted(m, 3, 0), LEASE + 1))], LEASE + 1,
                  map[1 := Working([0], 0), 2 := Working([], LEASE + 1)], {m}, {0})
  {
    ThenStep(f, [], Publish(2, Attempt(true, true, true)));
    steps := [] + [Publish(2, Attempt(true, true, true))];
    ThenStep(f, steps, Mark(2, true));
    steps := steps + [Mark(2, true)];
  }

  /** An owner that wakes up after its lease can turn a SENT event back into FAILED: without
      punctuality SENT is not final. */
  lemma LateOwnerReopensSent(m: Message) returns (before: seq<Step>, after: seq<Step>)
    ensures Feasible(Begin(0), before) && !AllPunctual(Begin(0), before)
    ensures |Exec(Begin(0), before).rows| == 1 && Exec(Begin(0), before).rows[0].status.Sent?
    ensures Feasible(Exec(Begin(0), before), after)
    ensures |Exec(Exec(Begin(0), before), after).rows| == 1
            && Exec(Exec(Begin(0), before), after).rows[0].status.Failed?
  {
    var first := OneClaim(m);
    var second := SecondClaim(m, Exec(Begin(0), first));
    RunThen(Begin(0), first, second);
    before := first + second;
    var third := SecondSend(m, Exec(Begin(0), before));
    RunThen(Begin(0), before, third);
    if AllPunctual(Begin(0), before + third) {
      PunctualPrefix(Begin(0), before, third);
    }
    before := before + third;
    var f := Exec(Begin(0), before);
    after := [Publish(1, Attempt(false, false, true))];
    assert Feasible(f, after);
    ThenStep(f, after, Mark(1, true));
    after := after + [Mark(1, true)];
  }
}
