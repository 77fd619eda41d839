/** Any number of payment workers, each checking for an existing payment and inserting later: the unique
    key makes every interleaving, with rollbacks and crashes anywhere, equal to a serial one. */
module PaymentWorkers {
  import opened Base
  import Payments

  /** A worker between its existence check and its insert. */
  datatype Pending = Pending(event: Payments.ReservedEvent, paymentId: Uuid)

  datatype Pool = Pool(db: Payments.PaymentsState, workers: map<nat, Pending>)

  datatype Step =
    | Check(worker: nat, event: Payments.ReservedEvent, paymentId: Uuid)
    | InsertAndCommit(worker: nat)
    | Rollback(worker: nat)

  predicate Enabled(pool: Pool, step: Step) {
    match step
    case Check(w, _, _) => w !in pool.workers
    case InsertAndCommit(w) => w in pool.workers
    case Rollback(w) => w in pool.workers
  }

  /** The insert tests the keys against the table as it is now, not as the check saw it. */
  function Next(pool: Pool, step: Step): Pool
    requires Enabled(pool, step)
  {
    match step
    case Check(w, event, paymentId) =>
      if Payments.ExistsByOrderId(pool.db.payments, event.orderId) then pool
      else pool.(workers := pool.workers[w := Pending(event, paymentId)])
    case InsertAndCommit(w) =>
      var payment := Payments.Decided(pool.workers[w].event, pool.workers[w].paymentId);
      var db :=
        if Payments.DuplicateKey(pool.db.payments, payment) then pool.db
        else Payments.PaymentsState(pool.db.payments + [payment], pool.db.outbox + [Payments.Announce(payment)]);
      Pool(db, pool.workers - {w})
    case Rollback(w) => pool.(workers := pool.workers - {w})
  }

  predicate Feasible(pool: Pool, steps: seq<Step>)
    decreases |steps|
  {
    steps == [] || (Enabled(pool, steps[0]) && Feasible(Next(pool, steps[0]), steps[1..]))
  }

  function Exec(pool: Pool, steps: seq<Step>): Pool
    requires Feasible(pool, steps)
    decreases |steps|
  {
    if steps == [] then pool else Exec(Next(pool, steps[0]), steps[1..])
  }

  /** The payments attempted by a run, in the order of their inserts. */
  function History(pool: Pool, steps: seq<Step>): seq<Pending>
    requires Feasible(pool, steps)
    decreases |steps|
  {
    if steps == [] then []
    else
      (if steps[0].InsertAndCommit? then [pool.workers[steps[0].worker]] else [])
      + History(Next(pool, steps[0]), steps[1..])
  }

  /** The same payments, processed one after the other by the handler as a single transaction. */
  function Serially(db: Payments.PaymentsState, jobs: seq<Pending>): Payments.PaymentsState
    decreases |jobs|
  {
    if jobs == [] then db
    else Serially(Payments.AfterPayment(db, jobs[0].event, jobs[0].paymentId).state, jobs[1..])
  }

  /** A split handler that reaches its insert has the effect of the atomic handler at that moment,
      whatever happened since its check. */
  lemma CommitIsAtomic(pool: Pool, w: nat)
    requires w in pool.workers
    ensures var job := pool.workers[w];
            Next(pool, InsertAndCommit(w)).db == Payments.AfterPayment(pool.db, job.event, job.paymentId).state
  {
    var payment := Payments.Decided(pool.workers[w].event, pool.workers[w].paymentId);
    if Payments.ExistsByOrderId(pool.db.payments, payment.orderId) {
      var p :| p in pool.db.payments && p.orderId == payment.orderId;
      assert Payments.DuplicateKey(pool.db.payments, payment);
    }
  }

  /** Every interleaving equals a serial run of the atomic handler. */
  lemma {:induction false} Serializable(pool: Pool, steps: seq<Step>)
    requires Feasible(pool, steps)
    ensures Exec(pool, steps).db == Serially(pool.db, History(pool, steps))
    decreases |steps|
  {
    if steps != [] {
      var next, rest := Next(pool, steps[0]), steps[1..];
      Serializable(next, rest);
      if steps[0].InsertAndCommit? {
        CommitIsAtomic(pool, steps[0].worker);
        assert History(pool, steps) == [pool.workers[steps[0].worker]] + History(next, rest);
      } else {
        assert History(pool, steps) == History(next, rest);
      }
    }
  }

  /** Payments and outcome events correspond one to one: each event tells its payment, each payment is decided
      by the rule, and no order or identifier occurs twice. */
  predicate OneEach(db: Payments.PaymentsState) {
    && |db.outbox| == |db.payments|
    && (forall i | 0 <= i < |db.payments| ::
          Payments.ByRule(db.payments[i]) && Payments.Tells(db.outbox[i], db.payments[i]))
    && (forall i, j | 0 <= i < j < |db.payments| ::
          db.payments[i].orderId != db.payments[j].orderId && db.payments[i].id != db.payments[j].id)
  }

  lemma PaymentKeepsOneEach(db: Payments.PaymentsState, event: Payments.ReservedEvent, paymentId: Uuid)
    requires OneEach(db)
    ensures OneEach(Payments.AfterPayment(db, event, paymentId).state)
  {
    Payments.ProcessEffect(db, event, paymentId);
  }

  lemma {:induction false} SeriallyKeepsOneEach(db: Payments.PaymentsState, jobs: seq<Pending>)
    requires OneEach(db)
    ensures OneEach(Serially(db, jobs))
    decreases |jobs|
  {
    if jobs != [] {
      PaymentKeepsOneEach(db, jobs[0].event, jobs[0].paymentId);
      SeriallyKeepsOneEach(Payments.AfterPayment(db, jobs[0].event, jobs[0].paymentId).state, jobs[1..]);
    }
  }

  /** With any number of workers there is at most one payment per order, decided by the rule, and
      exactly one outcome event for it, carrying the same payment identifier. */
  lemma AtMostOnePayment(steps: seq<Step>)
    requires Feasible(Pool(Payments.PaymentsState([], []), map[]), steps)
    ensures OneEach(Exec(Pool(Payments.PaymentsState([], []), map[]), steps).db)
  {
    var pool := Pool(Payments.PaymentsState([], []), map[]);
    Serializable(pool, steps);
    SeriallyKeepsOneEach(pool.db, History(pool, steps));
  }
}
