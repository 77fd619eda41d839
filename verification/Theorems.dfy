/** What holds of every run of the saga. */
module Theorems {
  import opened Base
  import opened Messages
  import opened Rows
  import opened Saga
  import opened Invariant
  import Inventory
  import Payments

  // ---- The invariant holds in every reachable state ----

  lemma StepKeepsInvariant(s: System, step: Step)
    requires Inv(s) && Enabled(s, step)
    ensures Inv(Next(s, step))
    ensures step.Place? ==> Next(s, step) == s || OneEdge(s, Next(s, step), step.id)
    ensures step.Handle? ==> Next(s, step) == s || OneEdge(s, Next(s, step), step.message.orderId)
    ensures !step.Place? && !step.Handle? ==> forall o: Uuid :: ViewOf(Next(s, step), o) == ViewOf(s, o)
  {
    match step
    case Place(id, request) => PlaceStep(s, id, request);
    case Publish(m) => PublishStep(s, m);
    case Abort =>
    case Handle(m, freshId) => HandleStep(s, m, freshId);
    case _ => AdminStep(s, step);
  }

  lemma PublishStep(s: System, m: Message)
    requires Inv(s) && InOutbox(s, m)
    ensures var t := Next(s, Publish(m)); Inv(t) && forall o: Uuid :: ViewOf(t, o) == ViewOf(s, o)
  {
    var t := Next(s, Publish(m));
    forall o: Uuid
      ensures CoherentIn(t, o)
    {
      assert CoherentIn(s, o);
    }
  }

  lemma HandleStep(s: System, m: Message, freshId: Uuid)
    requires Inv(s) && m in s.published
    ensures var t := AfterHandle(s, m, freshId); Inv(t) && (t == s || OneEdge(s, t, m.orderId))
  {
    match m
    case OrderCreated(_, _, _, _) => ReserveStep(s, m, freshId);
    case OrderConfirmed(_) => ReservationConfirmStep(s, m, freshId);
    case InventoryReserved(_, _, _) => PaymentStep(s, m, freshId);
    case InsufficientStock(_, _) => OrderCancelStep(s, m, freshId);
    case InventoryReleased(_, _) => OrderCancelStep(s, m, freshId);
    case PaymentAuthorized(_, _) => OrderConfirmStep(s, m, freshId);
    case PaymentDenied(_, _, _) => ReleaseStep(s, m, freshId);
  }

  lemma {:induction false} RunKeepsInvariant(s: System, steps: seq<Step>)
    requires Inv(s) && Feasible(s, steps)
    ensures Inv(Exec(s, steps))
    decreases |steps|
  {
    if steps != [] {
      StepKeepsInvariant(s, steps[0]);
      RunKeepsInvariant(Next(s, steps[0]), steps[1..]);
    }
  }

  lemma ReachableInvariant(s: System)
    requires Reachable(s)
    ensures Inv(s)
  {
    var steps :| Feasible(START, steps) && Exec(START, steps) == s;
    RunKeepsInvariant(START, steps);
  }

  lemma ReachableOn(s: System, steps: seq<Step>)
    requires Reachable(s) && Feasible(s, steps)
    ensures Reachable(Exec(s, steps))
  {
    var before :| Feasible(START, before) && Exec(START, before) == s;
    ExecAppend(START, before, steps);
  }

  // ---- Refinement ----

  /** Every step leaves all three databases as they are for every order, or moves exactly one order
      along exactly one edge of the saga; a handler that moves nothing changes nothing at all. */
  lemma Refinement(s: System, step: Step)
    requires Reachable(s) && Enabled(s, step)
    ensures var t := Next(s, step);
            || (forall o: Uuid :: ViewOf(t, o) == ViewOf(s, o))
            || (exists o: Uuid :: OneEdge(s, t, o))
    ensures step.Handle? ==> Next(s, step) == s || OneEdge(s, Next(s, step), step.message.orderId)
  {
    ReachableInvariant(s);
    StepKeepsInvariant(s, step);
  }

  /** The phases an order goes through in a run, without the steps that leave it where it is. */
  function Trace(s: System, steps: seq<Step>, o: Uuid): (phases: seq<Phase>)
    ensures phases != [] && phases[0] == PhaseIn(s, o)
    decreases |steps|
  {
    if steps == [] then [PhaseIn(s, o)]
    else
      var t := Next(s, steps[0]);
      (if PhaseIn(t, o) == PhaseIn(s, o) then [] else [PhaseIn(s, o)]) + Trace(t, steps[1..], o)
  }

  /** Over any run, what each order goes through is a path of the abstract saga. */
  lemma {:induction false} TraceIsSagaPath(s: System, steps: seq<Step>, o: Uuid)
    requires Inv(s) && Feasible(s, steps)
    ensures var phases := Trace(s, steps, o);
            && phases[|phases| - 1] == PhaseIn(Exec(s, steps), o)
            && forall k | 0 <= k < |phases| - 1 :: Edge(phases[k], phases[k + 1])
    decreases |steps|
  {
    if steps != [] {
      StepKeepsInvariant(s, steps[0]);
      StepIsEdgeOrStutter(s, steps[0], o);
      TraceIsSagaPath(Next(s, steps[0]), steps[1..], o);
    }
  }

  lemma StepIsEdgeOrStutter(s: System, step: Step, o: Uuid)
    requires Inv(s) && Enabled(s, step)
    ensures PhaseIn(Next(s, step), o) == PhaseIn(s, o) || Edge(PhaseIn(s, o), PhaseIn(Next(s, step), o))
  {
    StepKeepsInvariant(s, step);
    if ViewOf(Next(s, step), o) != ViewOf(s, o) {
      assert OneEdge(s, Next(s, step), o);
    }
  }

  // ---- Which message moves which phase ----

  /** The phase in which handling a message has something to do. */
  function Source(m: Message): Phase {
    match m
    case OrderCreated(_, _, _, _) => Placed
    case OrderConfirmed(_) => Accepted
    case InventoryReserved(_, _, _) => Held
    case InsufficientStock(_, _) => Rejected
    case InventoryReleased(_, _) => Released
    case PaymentAuthorized(_, _) => Approved
    case PaymentDenied(_, _, _) => Denied
  }

  function Rank(a: Phase): (r: nat)
    ensures r <= 5
  {
    match a
    case Absent => 0
    case Placed => 1
    case Rejected => 2
    case Held => 2
    case Approved => 3
    case Denied => 3
    case Accepted => 4
    case Released => 4
    case Done => 5
    case Canceled => 5
  }

  /** The two ways a handler in its source phase can fail by itself. */
  predicate Blocked(s: System, m: Message, freshId: Uuid) {
    || (m.PaymentDenied? && ReleaseOverflows(s, m.orderId))
    || (m.InventoryReserved? && exists p | p in s.payments.payments :: p.id == freshId)
  }

  /** A message exists only once its phase has been reached. */
  lemma MessageMeansPhase(v: View, o: Uuid, prices: map<int, int>, m: Message)
    requires Coherent(v, o, prices) && m.orderId == o
    requires m in v.ordersEvents || m in v.inventoryEvents || m in v.paymentsEvents
    ensures PhaseOf(v) == Source(m) || Rank(PhaseOf(v)) > Rank(Source(m))
  {
  }

  /** A handler changes the system in exactly one phase of its order, and only when it is not blocked. */
  lemma HandlerMoves(s: System, m: Message, freshId: Uuid)
    requires Inv(s) && m in s.published
    ensures AfterHandle(s, m, freshId) != s <==> PhaseIn(s, m.orderId) == Source(m) && !Blocked(s, m, freshId)
    ensures PhaseIn(s, m.orderId) == Source(m) || Rank(PhaseIn(s, m.orderId)) > Rank(Source(m))
  {
    PublishedInView(s, m);
    assert CoherentIn(s, m.orderId);
    MessageMeansPhase(ViewOf(s, m.orderId), m.orderId, s.inventory.products, m);
    match m
    case OrderCreated(_, _, _, _) => ReserveStep(s, m, freshId);
    case OrderConfirmed(_) => ReservationConfirmStep(s, m, freshId);
    case InventoryReserved(_, _, _) => PaymentStep(s, m, freshId);
    case InsufficientStock(_, _) => OrderCancelStep(s, m, freshId);
    case InventoryReleased(_, _) => OrderCancelStep(s, m, freshId);
    case PaymentAuthorized(_, _) => OrderConfirmStep(s, m, freshId);
    case PaymentDenied(_, _, _) => ReleaseStep(s, m, freshId);
  }

  // ---- Redelivery ----

  lemma StepRank(s: System, step: Step, o: Uuid)
    requires Inv(s) && Enabled(s, step)
    ensures PhaseIn(Next(s, step), o) == PhaseIn(s, o) || Rank(PhaseIn(Next(s, step), o)) > Rank(PhaseIn(s, o))
  {
    var t := Next(s, step);
    StepKeepsInvariant(s, step);
    if ViewOf(t, o) != ViewOf(s, o) {
      EdgeRaisesRank(PhaseIn(s, o), PhaseIn(t, o));
    }
  }

  lemma EdgeRaisesRank(a: Phase, b: Phase)
    requires Edge(a, b)
    ensures Rank(b) > Rank(a)
  {
  }

  lemma {:induction false} RankNeverFalls(s: System, steps: seq<Step>, o: Uuid)
    requires Inv(s) && Feasible(s, steps)
    ensures var t := Exec(s, steps);
            PhaseIn(t, o) == PhaseIn(s, o) || Rank(PhaseIn(t, o)) > Rank(PhaseIn(s, o))
    decreases |steps|
  {
    if steps != [] {
      StepKeepsInvariant(s, steps[0]);
      StepRank(s, steps[0], o);
      RankNeverFalls(Next(s, steps[0]), steps[1..], o);
    }
  }

  lemma {:induction false} PublishedStays(s: System, steps: seq<Step>)
    requires Feasible(s, steps)
    ensures s.published <= Exec(s, steps).published
    decreases |steps|
  {
    if steps != [] {
      PublishedStays(Next(s, steps[0]), steps[1..]);
    }
  }

  /** The handler's transaction did not fail; whether it skipped or worked is left open. */
  predicate Succeeds(s: System, m: Message, freshId: Uuid) {
    match m
    case OrderCreated(o, p, q, t) =>
      !Inventory.AfterReserve(s.inventory, Inventory.ReserveCommand(o, p, q, t)).outcome.RolledBack?
    case OrderConfirmed(o) => !Inventory.AfterConfirm(s.inventory, o).outcome.RolledBack?
    case InventoryReserved(o, amount, t) =>
      !Payments.AfterPayment(s.payments, Payments.ReservedEvent(o, amount, t), freshId).outcome.Failed?
    case PaymentDenied(o, _, reason) => !Inventory.AfterRelease(s.inventory, o, reason).outcome.RolledBack?
    case _ => true
  }

  lemma SuccessMeansUnblocked(s: System, m: Message, freshId: Uuid)
    requires Inv(s) && m in s.published && Succeeds(s, m, freshId) && PhaseIn(s, m.orderId) == Source(m)
    ensures !Blocked(s, m, freshId)
  {
    if m.PaymentDenied? {
      ReleaseOutcome(s, m);
    } else if m.InventoryReserved? {
      PaymentExistsInView(s, m.orderId);
      assert CoherentIn(s, m.orderId);
    }
  }

  lemma SuccessPassesPhase(s: System, m: Message, freshId: Uuid)
    requires Inv(s) && m in s.published && Succeeds(s, m, freshId)
    ensures Rank(PhaseIn(AfterHandle(s, m, freshId), m.orderId)) > Rank(Source(m))
  {
    HandlerMoves(s, m, freshId);
    if PhaseIn(s, m.orderId) == Source(m) {
      SuccessMeansUnblocked(s, m, freshId);
      HandleStep(s, m, freshId);
      EdgeRaisesRank(PhaseIn(s, m.orderId), PhaseIn(AfterHandle(s, m, freshId), m.orderId));
    }
  }

  /** Once a handler has succeeded on a message, handling that message again in any later state,
      after any further steps, changes no table and emits no event. */
  lemma RedeliveryIsNoOp(s: System, m: Message, firstId: Uuid, steps: seq<Step>, secondId: Uuid)
    requires Reachable(s) && m in s.published && Succeeds(s, m, firstId)
    requires Feasible(AfterHandle(s, m, firstId), steps)
    ensures var later := Exec(AfterHandle(s, m, firstId), steps);
            Enabled(later, Handle(m, secondId)) && Next(later, Handle(m, secondId)) == later
  {
    ReachableInvariant(s);
    var t := AfterHandle(s, m, firstId);
    HandleStep(s, m, firstId);
    SuccessPassesPhase(s, m, firstId);
    RunKeepsInvariant(t, steps);
    RankNeverFalls(t, steps, m.orderId);
    PublishedStays(t, steps);
    HandlerMoves(Exec(t, steps), m, secondId);
  }

  // ---- Cross-service agreement ----

  /** The payment row of an order, as the unique key finds it. */
  function PaymentRow(s: System, o: Uuid): Lookup {
    Find(s.payments.payments, Payments.PaymentOrder, o)
  }

  function ReservationRow(s: System, o: Uuid): Lookup {
    Find(s.inventory.reservations, Inventory.ReservationOrder, o)
  }

  predicate Paid(s: System, o: Uuid, status: Payments.PaymentStatus) {
    var r := PaymentRow(s, o);
    r.OneRow? && s.payments.payments[r.position].status == status
  }

  /** Stock is booked for exactly this order's product and quantity, with a status in `allowed`. */
  predicate Booked(s: System, o: Uuid, allowed: set<Inventory.ReservationStatus>)
    requires o in s.orders.orders
  {
    var r := ReservationRow(s, o);
    var order := s.orders.orders[o];
    && r.OneRow?
    && var row := s.inventory.reservations[r.position];
    row.productId == order.productId && row.quantity == order.quantity && row.status in allowed
  }

  lemma RowsInView(s: System, o: Uuid)
    ensures PaymentRow(s, o).NoRow? <==> ViewOf(s, o).payments == []
    ensures PaymentRow(s, o).ManyRows? <==> |ViewOf(s, o).payments| >= 2
    ensures PaymentRow(s, o).OneRow? ==> ViewOf(s, o).payments == [s.payments.payments[PaymentRow(s, o).position]]
    ensures ReservationRow(s, o).NoRow? <==> ViewOf(s, o).reservations == []
    ensures ReservationRow(s, o).ManyRows? <==> |ViewOf(s, o).reservations| >= 2
    ensures ReservationRow(s, o).OneRow? ==>
              ViewOf(s, o).reservations == [s.inventory.reservations[ReservationRow(s, o).position]]
  {
    FindOf(s.payments.payments, Payments.PaymentOrder, o);
    FindOf(s.inventory.reservations, Inventory.ReservationOrder, o);
  }

  /** In every reachable state the three services agree on every order. */
  lemma Agreement(s: System, o: Uuid)
    requires Reachable(s) && o in s.orders.orders
    ensures s.orders.orders[o].status.Confirmed? ==>
              Paid(s, o, Payments.Authorized) && Booked(s, o, {Inventory.Reserved, Inventory.Confirmed})
    ensures s.orders.orders[o].status.Canceled? ==>
              || (ReservationRow(s, o).NoRow? && PaymentRow(s, o).NoRow?)
              || (Booked(s, o, {Inventory.Released}) && Paid(s, o, Payments.Denied))
    ensures !PaymentRow(s, o).ManyRows? && !ReservationRow(s, o).ManyRows?
    ensures Paid(s, o, Payments.Authorized) ==> Booked(s, o, {Inventory.Reserved, Inventory.Confirmed})
    ensures PaymentRow(s, o).NoRow? && !ReservationRow(s, o).NoRow? ==> Booked(s, o, {Inventory.Reserved})
  {
    ReachableInvariant(s);
    RowsInView(s, o);
    assert CoherentIn(s, o);
  }

  /** An identifier under which no order exists is unknown to all three services. */
  lemma NoOrderNoTrace(s: System, o: Uuid)
    requires Reachable(s) && o !in s.orders.orders
    ensures PaymentRow(s, o).NoRow? && ReservationRow(s, o).NoRow?
    ensures forall m: Message | InOutbox(s, m) || m in s.published :: m.orderId != o
  {
    ReachableInvariant(s);
    RowsInView(s, o);
    assert CoherentIn(s, o);
    forall m: Message | InOutbox(s, m)
      ensures m.orderId != o
    {
      PublishedInView(s, m);
    }
  }
}
