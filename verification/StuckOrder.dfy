/** Convergence needs its condition: an overwrite of the stock quantity while stock is held can make the
    release overflow, and then the system comes to rest with an order still pending. */
module StuckOrder {
  import opened Base
  import opened Messages
  import opened Saga
  import opened Invariant
  import opened Theorems
  import opened Convergence
  import Orders
  import Inventory

  lemma BoletoIsDenied(t: System, o: Uuid)
    requires Inv(t) && o in t.orders.orders && t.orders.orders[o].paymentType == Boleto
    requires PhaseIn(t, o) in {Approved, Denied}
    ensures PhaseIn(t, o) == Denied
  {
    assert CoherentIn(t, o);
  }

  /** The run publishes and handles the message the order waits for. */
  lemma Drive(s: System, o: Uuid) returns (m: Message, freshId: Uuid, p: System, t: System)
    requires Reachable(s) && o in s.orders.orders && !Terminal(PhaseIn(s, o)) && CanRelease(s, o)
    ensures Reachable(t) && m.orderId == o && Source(m) == PhaseIn(s, o) && InOutbox(s, m)
    ensures p == Next(s, Publish(m)) && t == AfterHandle(p, m, freshId)
    ensures Inv(p) && Inv(t) && OneEdge(p, t, o)
  {
    ReachableInvariant(s);
    m, freshId, p, t := Advance(s, o);
    PublishThenHandle(s, m, freshId, []);
    ReachableOn(s, [Publish(m), Handle(m, freshId)] + []);
  }

  /** Order 7 is a boleto for five units of product 1, and the only order there is. */
  predicate OnlyOrderSeven(s: System) {
    && s.orders.orders.Keys == {7}
    && var order := s.orders.orders[7];
    order.productId == 1 && order.quantity == 5 && order.paymentType == Boleto
  }

  lemma OneStep(s: System, step: Step)
    requires Reachable(s) && Enabled(s, step)
    ensures Reachable(Next(s, step)) && Inv(Next(s, step))
  {
    assert Exec(s, [step]) == Next(s, step) && Feasible(s, [step]);
    ReachableOn(s, [step]);
    ReachableInvariant(Next(s, step));
  }

  const REQUEST := Orders.OrderRequest(0, 1, 5, Boleto)

  /** Five units in stock, and no order yet. */
  function Stocked(): System {
    START.(inventory := Inventory.InventoryState(map[1 := 1], map[1 := 5], [], []))
  }

  lemma StockedReachable()
    ensures Reachable(Stocked())
  {
    assert Feasible(START, []) && Exec(START, []) == START;
    var s := Next(START, CreateProduct(1, 1));
    OneStep(START, CreateProduct(1, 1));
    OneStep(s, CreateStock(1, 5));
    assert Next(s, CreateStock(1, 5)) == Stocked();
  }

  /** The order placed, with its event. */
  function Ordered(): System {
    Stocked().(orders := Orders.OrdersState(map[7 := Orders.Order(0, 1, 5, Boleto, Orders.Pending, None)],
                                            [OrderCreated(7, 1, 5, Boleto)]))
  }

  lemma OrderedNext()
    ensures Next(Stocked(), Place(7, REQUEST)) == Ordered()
  {
  }

  lemma OrderedIsPlaced()
    ensures OnlyOrderSeven(Ordered()) && PhaseIn(Ordered(), 7) == Placed
  {
  }

  lemma SetUp() returns (s: System)
    ensures Reachable(s) && Inv(s) && OnlyOrderSeven(s) && PhaseIn(s, 7) == Placed
    ensures s.inventory.products == map[1 := 1] && s.inventory.stocks == map[1 := 5]
  {
    s := Ordered();
    StockedReachable();
    OrderedNext();
    OrderedIsPlaced();
    OneStep(Stocked(), Place(7, REQUEST));
  }

  lemma PlacedEvents(s: System, m: Message)
    requires Inv(s) && InOutbox(s, m) && m.OrderCreated? && PhaseIn(s, m.orderId) == Placed
    ensures ViewOf(s, m.orderId).ordersEvents == [m]
    ensures m == Announcement(m.orderId, s.orders.orders[m.orderId])
  {
    PublishedInView(s, m);
    assert CoherentIn(s, m.orderId);
  }

  lemma HeldEvents(s: System, m: Message)
    requires Inv(s) && InOutbox(s, m) && m.InventoryReserved? && PhaseIn(s, m.orderId) == Held
    ensures ViewOf(s, m.orderId).inventoryEvents == [m]
  {
    PublishedInView(s, m);
    assert CoherentIn(s, m.orderId);
  }

  lemma SameOrders(s: System, t: System)
    requires t.orders == s.orders
    ensures ViewOf(t, 7).ordersEvents == ViewOf(s, 7).ordersEvents
    ensures OnlyOrderSeven(s) ==> OnlyOrderSeven(t)
  {
  }

  /** The last unpublished event of the order's own service is out. */
  lemma PlacedOut(s: System, m: Message, t: System)
    requires Inv(s) && InOutbox(s, m) && m.OrderCreated? && m.orderId == 7 && PhaseIn(s, 7) == Placed
    requires t.orders == s.orders && m in t.published
    ensures forall e | e in ViewOf(t, 7).ordersEvents :: e in t.published
  {
    PlacedEvents(s, m);
    SameOrders(s, t);
  }

  lemma SevenAnnounced(s: System, m: Message)
    requires Inv(s) && OnlyOrderSeven(s) && PhaseIn(s, 7) == Placed
    requires InOutbox(s, m) && m.OrderCreated? && m.orderId == 7
    ensures m.productId == 1 && m.quantity == 5
  {
    PlacedEvents(s, m);
  }

  lemma SevenIsHeld(p: System, m: Message, freshId: Uuid, t: System)
    requires Inv(p) && m in p.published && m.OrderCreated? && m.orderId == 7 && PhaseIn(p, 7) == Placed
    requires m.productId == 1 && m.quantity == 5 && t == AfterHandle(p, m, freshId)
    requires 1 in p.inventory.products && 1 in p.inventory.stocks && p.inventory.stocks[1] == 5
    ensures t.orders == p.orders && t.published == p.published && PhaseIn(t, 7) == Held
    ensures 1 in t.inventory.stocks && t.inventory.stocks[1] == 0
  {
    ReserveResult(p, m, freshId);
  }

  /** Reserve: the five units are held. */
  lemma DriveToHeld(s: System) returns (t: System)
    requires Reachable(s) && Inv(s) && OnlyOrderSeven(s) && PhaseIn(s, 7) == Placed
    requires 1 in s.inventory.products && 1 in s.inventory.stocks && s.inventory.stocks[1] == 5
    ensures Reachable(t) && Inv(t) && OnlyOrderSeven(t) && PhaseIn(t, 7) == Held
    ensures 1 in t.inventory.stocks && t.inventory.stocks[1] == 0
    ensures forall e | e in ViewOf(t, 7).ordersEvents :: e in t.published
  {
    var m, freshId, p;
    m, freshId, p, t := Drive(s, 7);
    SourceShape(m);
    SevenAnnounced(s, m);
    PublishKeepsView(s, m, 7);
    SevenIsHeld(p, m, freshId, t);
    PlacedOut(s, m, t);
    SameOrders(s, t);
  }

  lemma HeldOut(s: System, m: Message, t: System)
    requires Inv(s) && InOutbox(s, m) && m.InventoryReserved? && m.orderId == 7 && PhaseIn(s, 7) == Held
    requires forall e | e in ViewOf(s, 7).ordersEvents :: e in s.published
    requires t.orders == s.orders && t.inventory == s.inventory && t.published == s.published + {m}
    ensures EventsPublished(t)
  {
    SameOrders(s, t);
    HeldEvents(s, m);
  }

  lemma PaidTables(s: System, m: Message, freshId: Uuid, p: System, t: System)
    requires m.InventoryReserved? && p == Next(s, Publish(m)) && t == AfterHandle(p, m, freshId)
    ensures t.orders == s.orders && t.inventory == s.inventory && t.published == s.published + {m}
  {
  }

  lemma PaidIsDenied(t: System)
    requires Inv(t) && OnlyOrderSeven(t) && Edge(Held, PhaseIn(t, 7))
    ensures PhaseIn(t, 7) == Denied
  {
    OutOfHeld(PhaseIn(t, 7));
    BoletoIsDenied(t, 7);
  }

  /** Pay: the boleto is denied, with nothing of the order left unpublished but the denial itself. */
  lemma DriveToDenied(s: System) returns (t: System)
    requires Reachable(s) && Inv(s) && OnlyOrderSeven(s) && PhaseIn(s, 7) == Held
    requires 1 in s.inventory.stocks && s.inventory.stocks[1] == 0
    requires forall e | e in ViewOf(s, 7).ordersEvents :: e in s.published
    ensures Reachable(t) && Inv(t) && OnlyOrderSeven(t) && PhaseIn(t, 7) == Denied
    ensures 1 in t.inventory.stocks && EventsPublished(t)
  {
    var m, freshId, p;
    m, freshId, p, t := Drive(s, 7);
    SourceShape(m);
    PublishKeepsView(s, m, 7);
    PaidTables(s, m, freshId, p, t);
    HeldOut(s, m, t);
    SameOrders(s, t);
    PaidIsDenied(t);
  }

  /** Only the payments service still has something to publish about order 7. */
  ghost predicate EventsPublished(s: System) {
    forall m | m in ViewOf(s, 7).ordersEvents || m in ViewOf(s, 7).inventoryEvents :: m in s.published
  }

  /** The administrator sets the available quantity to the largest integer, while five units are out. */
  lemma OverwriteSticks(s: System) returns (t: System)
    requires Reachable(s) && Inv(s) && OnlyOrderSeven(s) && PhaseIn(s, 7) == Denied
    requires 1 in s.inventory.stocks && EventsPublished(s)
    ensures Reachable(t) && Inv(t) && OnlyOrderSeven(t) && Stuck(t, 7) && EventsPublished(t)
  {
    var step := UpdateQuantity(1, INT_MAX);
    t := Next(s, step);
    OneStep(s, step);
    AdminStep(s, step);
    assert ViewOf(t, 7) == ViewOf(s, 7);
  }

  lemma AllPublished(s: System, m: Message, e: Message)
    requires Inv(s) && OnlyOrderSeven(s) && PhaseIn(s, 7) == Denied && EventsPublished(s)
    requires m in s.published && InOutbox(s, m) && m.orderId == 7 && Source(m) == Denied
    requires InOutbox(s, e)
    ensures e in s.published
  {
    PublishedInView(s, e);
    PublishedInView(s, m);
    assert CoherentIn(s, 7);
  }

  lemma PublishLast(s: System) returns (t: System)
    requires Reachable(s) && Inv(s) && OnlyOrderSeven(s) && Stuck(s, 7) && EventsPublished(s)
    ensures Reachable(t) && Inv(t) && OnlyOrderSeven(t) && Stuck(t, 7)
    ensures forall e: Message | InOutbox(t, e) :: e in t.published
  {
    var m := PendingMessage(s, 7);
    t := Next(s, Publish(m));
    OneStep(s, Publish(m));
    assert ViewOf(t, 7) == ViewOf(s, 7);
    forall e: Message | InOutbox(t, e)
      ensures e in t.published
    {
      AllPublished(t, m, e);
    }
  }

  /** A reachable state at rest in which the only order is neither confirmed nor canceled. */
  lemma RestWithoutSettlement() returns (s: System)
    ensures Reachable(s) && Quiescent(s)
    ensures 7 in s.orders.orders && Stuck(s, 7) && !Settled(s, 7)
  {
    s := SetUp();
    s := DriveToHeld(s);
    s := DriveToDenied(s);
    s := OverwriteSticks(s);
    s := PublishLast(s);
    QuiescentIffFinished(s);
    Converges(s, 7);
  }
}
