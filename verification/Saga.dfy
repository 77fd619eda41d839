/** The whole system: three databases that share nothing, and the messages ever published.
    A published message may be handled any number of times, in any order, or never. */
module Saga {
  import opened Base
  import opened Messages
  import opened Rows
  import Orders
  import Inventory
  import Payments

  datatype System = System(
    orders: Orders.OrdersState,
    inventory: Inventory.InventoryState,
    payments: Payments.PaymentsState,
    published: set<Message>)

  const START := System(
    Orders.OrdersState(map[], []),
    Inventory.InventoryState(map[], map[], [], []),
    Payments.PaymentsState([], []),
    {})

  /** One committed transaction, one relay delivery, or one failed attempt. */
  datatype Step =
    | Place(id: Uuid, request: Orders.OrderRequest)
    | CreateProduct(productId: int, price: int)
    | CreateStock(productId: int, quantity: int)
    | UpdateQuantity(productId: int, quantity: int)
    | Publish(message: Message)
    | Handle(message: Message, freshId: Uuid)
    | Abort

  predicate InOutbox(s: System, m: Message) {
    m in s.orders.outbox || m in s.inventory.outbox || m in s.payments.outbox
  }

  predicate Enabled(s: System, step: Step) {
    match step
    case Publish(m) => InOutbox(s, m)
    case Handle(m, _) => m in s.published
    case _ => true
  }

  /** Each topic has one consumer; `freshId` is the UUID it draws if it creates a payment. */
  function AfterHandle(s: System, m: Message, freshId: Uuid): System {
    match m
    case OrderCreated(o, p, q, t) =>
      s.(inventory := Inventory.AfterReserve(s.inventory, Inventory.ReserveCommand(o, p, q, t)).state)
    case OrderConfirmed(o) =>
      s.(inventory := Inventory.AfterConfirm(s.inventory, o).state)
    case InventoryReserved(o, amount, t) =>
      s.(payments := Payments.AfterPayment(s.payments, Payments.ReservedEvent(o, amount, t), freshId).state)
    case InsufficientStock(o, reason) =>
      s.(orders := Orders.AfterCancel(s.orders, o, reason).state)
    case InventoryReleased(o, reason) =>
      s.(orders := Orders.AfterCancel(s.orders, o, reason).state)
    case PaymentAuthorized(o, _) =>
      s.(orders := Orders.AfterConfirm(s.orders, o).state)
    case PaymentDenied(o, _, reason) =>
      s.(inventory := Inventory.AfterRelease(s.inventory, o, reason).state)
  }

  function Next(s: System, step: Step): System {
    match step
    case Place(id, request) => s.(orders := Orders.AfterCreate(s.orders, id, request).state)
    case CreateProduct(p, price) => s.(inventory := Inventory.AfterCreateProduct(s.inventory, p, price).state)
    case CreateStock(p, q) => s.(inventory := Inventory.AfterCreateStock(s.inventory, p, q).state)
    case UpdateQuantity(p, q) => s.(inventory := Inventory.AfterUpdateQuantity(s.inventory, p, q).state)
    case Publish(m) => s.(published := s.published + {m})
    case Handle(m, freshId) => AfterHandle(s, m, freshId)
    case Abort => s
  }

  /** The state a run ends in, and whether each of its steps could be taken. */
  function Exec(s: System, steps: seq<Step>): System
    decreases |steps|
  {
    if steps == [] then s else Exec(Next(s, steps[0]), steps[1..])
  }

  predicate Feasible(s: System, steps: seq<Step>)
    decreases |steps|
  {
    steps == [] || (Enabled(s, steps[0]) && Feasible(Next(s, steps[0]), steps[1..]))
  }

  ghost predicate Reachable(s: System) {
    exists steps :: Feasible(START, steps) && Exec(START, steps) == s
  }

  lemma {:induction false} ExecAppend(s: System, a: seq<Step>, b: seq<Step>)
    ensures Exec(s, a + b) == Exec(Exec(s, a), b)
    ensures Feasible(s, a + b) <==> Feasible(s, a) && Feasible(Exec(s, a), b)
    decreases |a|
  {
    if a == [] {
      assert a + b == b;
    } else {
      assert (a + b)[1..] == a[1..] + b;
      ExecAppend(Next(s, a[0]), a[1..], b);
    }
  }

  // ---- What the three databases say about one order ----

  datatype View = View(
    order: Option<Orders.Order>,
    reservations: seq<Inventory.Reservation>,
    payments: seq<Payments.Payment>,
    ordersEvents: seq<Message>,
    inventoryEvents: seq<Message>,
    paymentsEvents: seq<Message>)

  function ViewOf(s: System, o: Uuid): View {
    View(
      if o in s.orders.orders then Some(s.orders.orders[o]) else None,
      Of(s.inventory.reservations, Inventory.ReservationOrder, o),
      Of(s.payments.payments, Payments.PaymentOrder, o),
      Of(s.orders.outbox, OrderOf, o),
      Of(s.inventory.outbox, OrderOf, o),
      Of(s.payments.outbox, OrderOf, o))
  }

  /** The abstract saga of one order. */
  datatype Phase =
    | Absent | Placed | Rejected | Held | Approved | Denied | Accepted | Released | Done | Canceled

  /** The phase read off the joint state of the three databases. */
  function PhaseOf(v: View): Phase {
    match v.order
    case None => Absent
    case Some(order) =>
      if order.status.Canceled? then Canceled
      else if order.status.Confirmed? then
        if v.reservations != [] && v.reservations[0].status.Confirmed? then Done else Accepted
      else if v.reservations == [] then
        if v.inventoryEvents == [] then Placed else Rejected
      else if v.reservations[0].status.Released? then Released
      else if v.payments == [] then Held
      else if v.payments[0].status.Authorized? then Approved
      else Denied
  }

  function PhaseIn(s: System, o: Uuid): Phase {
    PhaseOf(ViewOf(s, o))
  }

  predicate Edge(a: Phase, b: Phase) {
    match a
    case Absent => b == Placed
    case Placed => b == Rejected || b == Held
    case Rejected => b == Canceled
    case Held => b == Approved || b == Denied
    case Approved => b == Accepted
    case Accepted => b == Done
    case Denied => b == Released
    case Released => b == Canceled
    case Done => false
    case Canceled => false
  }

  predicate Terminal(a: Phase) {
    a == Done || a == Canceled
  }
}
