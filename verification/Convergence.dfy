/** Where the saga comes to rest, that it always can, and on which side it ends. */
module Convergence {
  import opened Base
  import opened Messages
  import opened Rows
  import opened Saga
  import opened Invariant
  import opened Theorems
  import Inventory
  import Payments

  // ---- The message an unfinished order is waiting for ----

  /** An order that has not finished always has an event on record whose handler would move it. */
  lemma PendingMessage(s: System, o: Uuid) returns (m: Message)
    requires Inv(s) && o in s.orders.orders && !Terminal(PhaseIn(s, o))
    ensures InOutbox(s, m) && m.orderId == o && Source(m) == PhaseIn(s, o)
  {
    var v := ViewOf(s, o);
    assert CoherentIn(s, o);
    m := match PhaseOf(v)
      case Placed => v.ordersEvents[0]
      case Accepted => v.ordersEvents[1]
      case Rejected => v.inventoryEvents[0]
      case Held => v.inventoryEvents[0]
      case Released => v.inventoryEvents[1]
      case Approved => v.paymentsEvents[0]
      case Denied => v.paymentsEvents[0];
    OfMember(s.orders.outbox, OrderOf, o, m);
    OfMember(s.inventory.outbox, OrderOf, o, m);
    OfMember(s.payments.outbox, OrderOf, o, m);
  }

  function MaxId(payments: seq<Payments.Payment>): (n: Uuid)
    ensures forall p | p in payments :: p.id <= n
  {
    if payments == [] then 0
    else
      var last := |payments| - 1;
      var n := MaxId(payments[..last]);
      if payments[last].id > n then payments[last].id else n
  }

  function UnusedId(s: System): (id: Uuid)
    ensures forall p | p in s.payments.payments :: p.id != id
  {
    MaxId(s.payments.payments) + 1
  }

  // ---- Quiescence ----

  /** Every event has been published, and no handler would change anything any more. */
  ghost predicate Quiescent(s: System) {
    && (forall m: Message | InOutbox(s, m) :: m in s.published)
    && (forall m: Message, freshId: Uuid | m in s.published :: AfterHandle(s, m, freshId) == s)
  }

  /** Held stock that can never be given back as long as nobody lowers the available quantity. */
  predicate Stuck(s: System, o: Uuid) {
    PhaseIn(s, o) == Denied && ReleaseOverflows(s, o)
  }

  /** The system is at rest exactly when every event is published and every order has finished,
      or is denied with stock too large to restore. */
  lemma QuiescentIffFinished(s: System)
    requires Reachable(s)
    ensures Quiescent(s) <==>
              && (forall m: Message | InOutbox(s, m) :: m in s.published)
              && (forall o: Uuid | o in s.orders.orders :: Terminal(PhaseIn(s, o)) || Stuck(s, o))
  {
    ReachableInvariant(s);
    if Quiescent(s) {
      forall o: Uuid | o in s.orders.orders
        ensures Terminal(PhaseIn(s, o)) || Stuck(s, o)
      {
        RestMeansFinished(s, o);
      }
    }
    if (forall m: Message | InOutbox(s, m) :: m in s.published)
       && (forall o: Uuid | o in s.orders.orders :: Terminal(PhaseIn(s, o)) || Stuck(s, o))
    {
      forall m: Message, freshId: Uuid | m in s.published
        ensures AfterHandle(s, m, freshId) == s
      {
        PublishedInView(s, m);
        FinishedMeansRest(s, m, freshId);
      }
    }
  }

  lemma RestMeansFinished(s: System, o: Uuid)
    requires Inv(s) && Quiescent(s) && o in s.orders.orders
    ensures Terminal(PhaseIn(s, o)) || Stuck(s, o)
  {
    if !Terminal(PhaseIn(s, o)) {
      var m := PendingMessage(s, o);
      HandlerMoves(s, m, UnusedId(s));
    }
  }

  lemma FinishedMeansRest(s: System, m: Message, freshId: Uuid)
    requires Inv(s) && m in s.published
    requires Terminal(PhaseIn(s, m.orderId)) || Stuck(s, m.orderId)
    ensures AfterHandle(s, m, freshId) == s
  {
    HandlerMoves(s, m, freshId);
    if !Terminal(PhaseIn(s, m.orderId)) && m.InventoryReserved? {
      assert Source(m) == Held;
    }
  }

  /** At rest, as the tables show it: confirmed, paid and booked; or canceled with nothing held. */
  predicate Settled(s: System, o: Uuid)
    requires o in s.orders.orders
  {
    var status := s.orders.orders[o].status;
    || (status.Confirmed? && Paid(s, o, Payments.Authorized) && Booked(s, o, {Inventory.Confirmed}))
    || (status.Canceled? && PaymentRow(s, o).NoRow? && ReservationRow(s, o).NoRow?)
    || (status.Canceled? && Paid(s, o, Payments.Denied) && Booked(s, o, {Inventory.Released}))
  }

  lemma TerminalIffSettled(s: System, o: Uuid)
    requires Reachable(s) && o in s.orders.orders
    ensures Terminal(PhaseIn(s, o)) <==> Settled(s, o)
  {
    ReachableInvariant(s);
    RowsInView(s, o);
    assert CoherentIn(s, o);
  }

  /** Convergence: at rest every order is settled in all three databases, unless its release overflows. */
  lemma Converges(s: System, o: Uuid)
    requires Reachable(s) && Quiescent(s) && o in s.orders.orders
    ensures Settled(s, o) <==> !Stuck(s, o)
  {
    QuiescentIffFinished(s);
    TerminalIffSettled(s, o);
  }

  /** At rest a reservation is still RESERVED exactly if its order is stuck. */
  lemma RestHoldsNothing(s: System, i: nat)
    requires Reachable(s) && Quiescent(s) && i < |s.inventory.reservations|
    ensures s.inventory.reservations[i].orderId in s.orders.orders
    ensures s.inventory.reservations[i].status.Reserved? <==> Stuck(s, s.inventory.reservations[i].orderId)
  {
    var row := s.inventory.reservations[i];
    ReachableInvariant(s);
    QuiescentIffFinished(s);
    OfMember(s.inventory.reservations, Inventory.ReservationOrder, row.orderId, row);
    assert CoherentIn(s, row.orderId);
  }

  // ---- Every order can finish, and its end is already decided ----

  predicate InStock(inv: Inventory.InventoryState, p: int, quantity: int) {
    p in inv.products && p in inv.stocks && quantity <= inv.stocks[p]
  }

  /** How the order ends if from now on only its own messages are handled. */
  function Verdict(s: System, o: Uuid): Phase
    requires o in s.orders.orders
  {
    match PhaseIn(s, o)
    case Placed =>
      var order := s.orders.orders[o];
      if InStock(s.inventory, order.productId, order.quantity) then AfterDecision(s, o) else Canceled
    case Held => AfterDecision(s, o)
    case Approved => Done
    case Accepted => Done
    case Done => Done
    case _ => Canceled
  }

  function AfterDecision(s: System, o: Uuid): Phase
    requires o in s.orders.orders
  {
    var order := s.orders.orders[o];
    var price := if order.productId in s.inventory.products then s.inventory.products[order.productId] else 0;
    var event := Payments.ReservedEvent(o, Inventory.Amount(price, order.quantity), order.paymentType);
    if Payments.Evaluate(event).status.Authorized? then Done else Canceled
  }

  /** If the stock this order holds has to be given back, it still fits into its row. */
  predicate CanRelease(s: System, o: Uuid)
    requires o in s.orders.orders
  {
    PhaseIn(s, o) in {Held, Denied} && Verdict(s, o) == Canceled ==> !ReleaseOverflows(s, o)
  }

  /** A handler due for an order that can be finished is not blocked. */
  lemma DueMeansFree(s: System, m: Message, freshId: Uuid)
    requires m.orderId in s.orders.orders && PhaseIn(s, m.orderId) == Source(m) && CanRelease(s, m.orderId)
    requires forall p | p in s.payments.payments :: p.id != freshId
    ensures !Blocked(s, m, freshId)
  {
    SourceShape(m);
  }

  lemma Advance(s: System, o: Uuid) returns (m: Message, freshId: Uuid, p: System, t: System)
    requires Inv(s) && o in s.orders.orders && !Terminal(PhaseIn(s, o)) && CanRelease(s, o)
    ensures InOutbox(s, m) && m.orderId == o && Source(m) == PhaseIn(s, o)
    ensures p == Next(s, Publish(m)) && t == AfterHandle(p, m, freshId)
    ensures Inv(p) && Inv(t) && OneEdge(p, t, o)
  {
    m := PendingMessage(s, o);
    freshId := UnusedId(s);
    p := Next(s, Publish(m));
    PublishStep(s, m);
    PublishKeepsView(s, m, o);
    PublishKeepsVerdict(s, m, o);
    t := AfterHandle(p, m, freshId);
    DueMeansFree(p, m, freshId);
    HandlerMoves(p, m, freshId);
    HandleStep(p, m, freshId);
  }

  lemma PublishKeepsVerdict(s: System, m: Message, o: Uuid)
    requires o in s.orders.orders
    ensures Verdict(Next(s, Publish(m)), o) == Verdict(s, o)
    ensures CanRelease(Next(s, Publish(m)), o) == CanRelease(s, o)
  {
    assert ViewOf(Next(s, Publish(m)), o) == ViewOf(s, o);
  }

  /** The order's row keeps everything but its status and reason. */
  lemma OrderRowKept(s: System, m: Message, freshId: Uuid, o: Uuid)
    requires o in s.orders.orders
    ensures var t := AfterHandle(s, m, freshId);
            && o in t.orders.orders
            && var a, b := s.orders.orders[o], t.orders.orders[o];
            b.productId == a.productId && b.quantity == a.quantity && b.paymentType == a.paymentType
  {
  }

  /** A request is met exactly if the product has enough stock, and only then is stock taken. */
  lemma ReserveFits(inv: Inventory.InventoryState, command: Inventory.ReserveCommand)
    requires TablesOk(inv) && 0 < command.quantity <= INT_MAX
    requires !Inventory.ReserveAnswered(inv.outbox, command.orderId)
    ensures var after := Inventory.AfterReserve(inv, command).state;
            var row := Inventory.Reservation(command.orderId, command.productId, command.quantity, Inventory.Reserved);
            if InStock(inv, command.productId, command.quantity)
            then after.reservations == inv.reservations + [row] && after.products == inv.products
                 && after.stocks == inv.stocks[command.productId := inv.stocks[command.productId] - command.quantity]
            else after.reservations == inv.reservations && after.products == inv.products && after.stocks == inv.stocks
  {
  }

  lemma PhaseByReservation(v: View)
    requires PhaseOf(v) == Placed || Edge(Placed, PhaseOf(v))
    ensures v.reservations != [] <==> PhaseOf(v) == Held
  {
  }

  lemma ReservedPhase(s: System, t: System, o: Uuid, row: Inventory.Reservation)
    requires PhaseIn(s, o) == Placed && Edge(Placed, PhaseIn(t, o)) && row.orderId == o
    ensures t.inventory.reservations == s.inventory.reservations + [row] ==> PhaseIn(t, o) == Held
    ensures t.inventory.reservations == s.inventory.reservations ==> PhaseIn(t, o) == Rejected
  {
    PhaseByReservation(ViewOf(s, o));
    PhaseByReservation(ViewOf(t, o));
    OfMember(t.inventory.reservations, Inventory.ReservationOrder, o, row);
  }

  /** Handling a placed order: where it goes and what it leaves in stock. */
  lemma ReserveResult(s: System, m: Message, freshId: Uuid)
    requires Inv(s) && m in s.published && m.OrderCreated? && PhaseIn(s, m.orderId) == Placed
    ensures var t, o := AfterHandle(s, m, freshId), m.orderId;
            var fits := InStock(s.inventory, m.productId, m.quantity);
            && t.orders == s.orders && t.inventory.products == s.inventory.products
            && PhaseIn(t, o) == (if fits then Held else Rejected)
            && t.inventory.stocks == if fits
                                     then s.inventory.stocks[m.productId := s.inventory.stocks[m.productId] - m.quantity]
                                     else s.inventory.stocks
  {
    var command := Inventory.ReserveCommand(m.orderId, m.productId, m.quantity, m.paymentType);
    var t := AfterHandle(s, m, freshId);
    ReserveDue(s, m);
    ReserveFits(s.inventory, command);
    ReserveMoves(s, m, freshId);
    ReservedPhase(s, t, m.orderId, Inventory.Reservation(m.orderId, m.productId, m.quantity, Inventory.Reserved));
  }

  lemma ReserveVerdict(s: System, m: Message, freshId: Uuid)
    requires Inv(s) && m in s.published && m.OrderCreated? && PhaseIn(s, m.orderId) == Placed
    ensures var t, o := AfterHandle(s, m, freshId), m.orderId;
            && o in s.orders.orders && o in t.orders.orders
            && Verdict(t, o) == Verdict(s, o) && CanRelease(t, o)
  {
    ReserveDue(s, m);
    ReserveResult(s, m, freshId);
    assert TablesOk(s.inventory);
  }

  lemma PaymentVerdict(s: System, t: System, o: Uuid)
    requires Inv(s) && Inv(t) && o in s.orders.orders && t.orders == s.orders && t.inventory == s.inventory
    requires PhaseIn(s, o) == Held && (PhaseIn(t, o) == Approved || PhaseIn(t, o) == Denied)
    requires CanRelease(s, o)
    ensures Verdict(t, o) == Verdict(s, o) && CanRelease(t, o)
  {
    assert CoherentIn(t, o);
  }

  /** In every other phase the verdict depends on the phase alone. */
  lemma LaterVerdict(s: System, t: System, o: Uuid)
    requires o in s.orders.orders && o in t.orders.orders
    requires PhaseIn(s, o) != Placed && PhaseIn(s, o) != Held && PhaseIn(s, o) != Absent
    requires Edge(PhaseIn(s, o), PhaseIn(t, o))
    ensures Verdict(t, o) == Verdict(s, o) && CanRelease(t, o)
  {
  }

  /** Which events belong to the first two phases. */
  lemma SourceShape(m: Message)
    ensures Source(m) == Placed <==> m.OrderCreated?
    ensures Source(m) == Held <==> m.InventoryReserved?
    ensures Source(m) == Denied <==> m.PaymentDenied?
    ensures Source(m) != Absent
  {
  }

  /** A payment leaves the other two services alone. */
  lemma PaymentLeavesRest(s: System, m: Message, freshId: Uuid, t: System)
    requires m.InventoryReserved? && t == AfterHandle(s, m, freshId)
    ensures t.orders == s.orders && t.inventory == s.inventory && t.published == s.published
  {
  }

  lemma OutOfHeld(a: Phase)
    requires Edge(Held, a)
    ensures a == Approved || a == Denied
  {
  }

  lemma HandleKeepsVerdict(s: System, m: Message, freshId: Uuid, t: System)
    requires Inv(s) && m in s.published && m.orderId in s.orders.orders && t == AfterHandle(s, m, freshId)
    requires Inv(t) && Edge(PhaseIn(s, m.orderId), PhaseIn(t, m.orderId))
    requires PhaseIn(s, m.orderId) == Source(m) && CanRelease(s, m.orderId)
    ensures m.orderId in t.orders.orders
    ensures Verdict(t, m.orderId) == Verdict(s, m.orderId) && CanRelease(t, m.orderId)
  {
    SourceShape(m);
    OrderRowKept(s, m, freshId, m.orderId);
    if m.OrderCreated? {
      ReserveVerdict(s, m, freshId);
    } else if m.InventoryReserved? {
      PaymentLeavesRest(s, m, freshId, t);
      OutOfHeld(PhaseIn(t, m.orderId));
      PaymentVerdict(s, t, m.orderId);
    } else {
      LaterVerdict(s, t, m.orderId);
    }
  }

  /** Only publications and handlings of the order's own messages: nobody else does anything. */
  predicate OwnSteps(steps: seq<Step>, o: Uuid) {
    forall k | 0 <= k < |steps| :: (steps[k].Publish? || steps[k].Handle?) && steps[k].message.orderId == o
  }

  lemma PublishThenHandle(s: System, m: Message, freshId: Uuid, rest: seq<Step>)
    requires InOutbox(s, m) && Feasible(AfterHandle(Next(s, Publish(m)), m, freshId), rest)
    ensures var steps := [Publish(m), Handle(m, freshId)] + rest;
            && Feasible(s, steps)
            && Exec(s, steps) == Exec(AfterHandle(Next(s, Publish(m)), m, freshId), rest)
            && (OwnSteps(rest, m.orderId) ==> OwnSteps(steps, m.orderId))
  {
    var steps := [Publish(m), Handle(m, freshId)] + rest;
    assert steps[1..] == [Handle(m, freshId)] + rest && steps[1..][1..] == rest;
  }

  lemma AdvanceVerdict(s: System, p: System, o: Uuid, m: Message, freshId: Uuid, t: System)
    requires Inv(p) && o in s.orders.orders && CanRelease(s, o)
    requires m.orderId == o && Source(m) == PhaseIn(s, o)
    requires p == Next(s, Publish(m)) && t == AfterHandle(p, m, freshId)
    requires Inv(t) && Edge(PhaseIn(p, o), PhaseIn(t, o))
    ensures o in t.orders.orders && Verdict(t, o) == Verdict(s, o) && CanRelease(t, o)
    ensures Rank(PhaseIn(t, o)) > Rank(PhaseIn(s, o))
  {
    PublishKeepsView(s, m, o);
    PublishKeepsVerdict(s, m, o);
    HandleKeepsVerdict(p, m, freshId, t);
    EdgeRaisesRank(PhaseIn(p, o), PhaseIn(t, o));
  }

  lemma PublishKeepsView(s: System, m: Message, o: Uuid)
    ensures ViewOf(Next(s, Publish(m)), o) == ViewOf(s, o) && PhaseIn(Next(s, Publish(m)), o) == PhaseIn(s, o)
    ensures m in Next(s, Publish(m)).published && Next(s, Publish(m)).orders == s.orders
  {
  }

  /** One pair of steps towards the end. */
  lemma AdvanceOnce(s: System, o: Uuid) returns (m: Message, freshId: Uuid, t: System)
    requires Inv(s) && o in s.orders.orders && !Terminal(PhaseIn(s, o)) && CanRelease(s, o)
    ensures InOutbox(s, m) && m.orderId == o && t == AfterHandle(Next(s, Publish(m)), m, freshId)
    ensures Inv(t) && o in t.orders.orders && Verdict(t, o) == Verdict(s, o) && CanRelease(t, o)
    ensures Rank(PhaseIn(t, o)) > Rank(PhaseIn(s, o))
  {
    var p;
    m, freshId, p, t := Advance(s, o);
    AdvanceVerdict(s, p, o, m, freshId, t);
  }

  lemma TerminalVerdict(s: System, o: Uuid)
    requires o in s.orders.orders && Terminal(PhaseIn(s, o))
    ensures Verdict(s, o) == PhaseIn(s, o) && Rank(PhaseIn(s, o)) == 5
  {
  }

  /** An order whose stock can be given back, if it has to be, can be driven to its end by publishing and
      handling its own messages, at most one pair for each phase left, and the end is the one already decided. */
  lemma {:induction false} CanFinish(s: System, o: Uuid) returns (steps: seq<Step>)
    requires Inv(s) && o in s.orders.orders && CanRelease(s, o)
    ensures Feasible(s, steps) && |steps| <= 2 * (5 - Rank(PhaseIn(s, o)))
    ensures OwnSteps(steps, o)
    ensures Inv(Exec(s, steps)) && PhaseIn(Exec(s, steps), o) == Verdict(s, o) && Terminal(Verdict(s, o))
    decreases 5 - Rank(PhaseIn(s, o))
  {
    if Terminal(PhaseIn(s, o)) {
      TerminalVerdict(s, o);
      return [];
    }
    var m, freshId, t := AdvanceOnce(s, o);
    var rest := CanFinish(t, o);
    steps := [Publish(m), Handle(m, freshId)] + rest;
    PublishThenHandle(s, m, freshId, rest);
  }

  // ---- And the orders that cannot release never finish ----

  /** The order holds stock that it will have to give back, and that does not fit back. */
  predicate CannotRelease(s: System, o: Uuid) {
    o in s.orders.orders && !CanRelease(s, o)
  }

  /** A held order that cannot release can only be denied, with the same stock held. */
  lemma HeldCannotRelease(s: System, m: Message, freshId: Uuid, t: System)
    requires Inv(s) && m in s.published && CannotRelease(s, m.orderId) && PhaseIn(s, m.orderId) == Held
    requires t == AfterHandle(s, m, freshId)
    ensures CannotRelease(t, m.orderId)
  {
    HandlerMoves(s, m, freshId);
    SourceShape(m);
    if t != s {
      HandleStep(s, m, freshId);
      PaymentLeavesRest(s, m, freshId, t);
      OutOfHeld(PhaseIn(t, m.orderId));
      assert CoherentIn(t, m.orderId);
    }
  }

  lemma DeniedCannotRelease(s: System, m: Message, freshId: Uuid)
    requires Inv(s) && m in s.published && CannotRelease(s, m.orderId) && PhaseIn(s, m.orderId) == Denied
    ensures AfterHandle(s, m, freshId) == s
  {
    HandlerMoves(s, m, freshId);
    SourceShape(m);
  }

  lemma OwnStepCannotRelease(s: System, step: Step, o: Uuid)
    requires Inv(s) && CannotRelease(s, o) && Enabled(s, step)
    requires (step.Publish? || step.Handle?) && step.message.orderId == o
    ensures CannotRelease(Next(s, step), o)
  {
    if step.Publish? {
      PublishKeepsVerdict(s, step.message, o);
    } else if PhaseIn(s, o) == Held {
      HeldCannotRelease(s, step.message, step.freshId, Next(s, step));
    } else {
      DeniedCannotRelease(s, step.message, step.freshId);
    }
  }

  /** Its own messages never bring such an order to an end. */
  lemma {:induction false} CannotFinish(s: System, o: Uuid, steps: seq<Step>)
    requires Inv(s) && CannotRelease(s, o) && Feasible(s, steps) && OwnSteps(steps, o)
    ensures CannotRelease(Exec(s, steps), o) && !Terminal(PhaseIn(Exec(s, steps), o))
    decreases |steps|
  {
    if steps != [] {
      assert (steps[0].Publish? || steps[0].Handle?) && steps[0].message.orderId == o;
      StepKeepsInvariant(s, steps[0]);
      OwnStepCannotRelease(s, steps[0], o);
      CannotFinish(Next(s, steps[0]), o, steps[1..]);
    }
  }

  /** An order of a reachable state can finish by its own messages exactly if it can release. */
  lemma FinishesIffCanRelease(s: System, o: Uuid)
    requires Reachable(s) && o in s.orders.orders
    ensures CanRelease(s, o) <==>
            exists steps :: Feasible(s, steps) && OwnSteps(steps, o) && Terminal(PhaseIn(Exec(s, steps), o))
  {
    ReachableInvariant(s);
    if CanRelease(s, o) {
      var steps := CanFinish(s, o);
      assert Feasible(s, steps) && OwnSteps(steps, o) && Terminal(PhaseIn(Exec(s, steps), o));
    } else {
      forall steps | Feasible(s, steps) && OwnSteps(steps, o)
        ensures !Terminal(PhaseIn(Exec(s, steps), o))
      {
        CannotFinish(s, o, steps);
      }
    }
  }
}
