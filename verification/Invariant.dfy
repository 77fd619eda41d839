/** The inductive invariant that spans the three services, and its preservation by every step. */
module Invariant {
  import opened Base
  import opened Messages
  import opened Rows
  import opened Saga
  import Orders
  import Inventory
  import Payments

  /** The event that announced an order. */
  function Announcement(o: Uuid, order: Orders.Order): Message {
    OrderCreated(o, order.productId, order.quantity, order.paymentType)
  }

  /** What the orders service holds for an existing order, without looking at the other services. */
  predicate OrderSide(v: View, o: Uuid, order: Orders.Order) {
    && 0 < order.quantity <= INT_MAX
    && v.ordersEvents == [Announcement(o, order)] + (if order.status.Confirmed? then [OrderConfirmed(o)] else [])
    && (order.reason.Some? <==> order.status.Canceled?)
  }

  /** No stock was ever held: the order is still waiting, or was refused. */
  predicate NeverHeld(v: View, o: Uuid, order: Orders.Order) {
    && v.payments == [] && v.paymentsEvents == []
    && (v.inventoryEvents == [] ==> order.status.Pending?)
    && (v.inventoryEvents != [] ==>
          && |v.inventoryEvents| == 1 && v.inventoryEvents[0].InsufficientStock?
          && v.inventoryEvents[0].orderId == o
          && !order.status.Confirmed?
          && (order.status.Canceled? ==> order.reason == Some(v.inventoryEvents[0].reason)))
  }

  /** Stock was held once, for exactly what was ordered; the payment decides the rest. */
  predicate OnceHeld(v: View, o: Uuid, order: Orders.Order, prices: map<int, int>) {
    && order.productId in prices
    && var amount := Inventory.Amount(prices[order.productId], order.quantity);
    && var event := Payments.ReservedEvent(o, amount, order.paymentType);
    && |v.reservations| == 1
    && var held := v.reservations[0];
    && held == Inventory.Reservation(o, order.productId, order.quantity, held.status)
    && (v.payments == [] ==>
          && v.paymentsEvents == []
          && v.inventoryEvents == [InventoryReserved(o, amount, order.paymentType)]
          && order.status.Pending? && held.status.Reserved?)
    && (v.payments != [] ==>
          && |v.payments| == 1
          && var payment := v.payments[0];
          && payment == Payments.Decided(event, payment.id)
          && v.paymentsEvents == [Payments.Announce(payment)]
          && (payment.status.Authorized? ==>
                && v.inventoryEvents == [InventoryReserved(o, amount, order.paymentType)]
                && !order.status.Canceled? && !held.status.Released?
                && (held.status.Confirmed? ==> order.status.Confirmed?))
          && (payment.status.Denied? ==>
                && !order.status.Confirmed? && !held.status.Confirmed?
                && (order.status.Canceled? ==> held.status.Released? && order.reason == payment.reason)
                && v.inventoryEvents == [InventoryReserved(o, amount, order.paymentType)]
                                        + (if held.status.Released?
                                           then [InventoryReleased(o, payment.reason.value)] else [])))
  }

  predicate Coherent(v: View, o: Uuid, prices: map<int, int>) {
    match v.order
    case None => v == View(None, [], [], [], [], [])
    case Some(order) =>
      && OrderSide(v, o, order)
      && (v.reservations == [] ==> NeverHeld(v, o, order))
      && (v.reservations != [] ==> OnceHeld(v, o, order, prices))
  }

  predicate CoherentIn(s: System, o: Uuid) {
    Coherent(ViewOf(s, o), o, s.inventory.products)
  }

  predicate KeysUnique(orders: map<Uuid, Orders.Order>) {
    forall a, b | a in orders && b in orders && a != b :: orders[a].idempotencyKey != orders[b].idempotencyKey
  }

  predicate TablesOk(inv: Inventory.InventoryState) {
    && (forall p | p in inv.products :: Inventory.StorableQuantity(inv.products[p]))
    && (forall p | p in inv.stocks :: p in inv.products && Inventory.StorableQuantity(inv.stocks[p]))
    && (forall i | 0 <= i < |inv.reservations| ::
          inv.reservations[i].productId in inv.stocks && 0 < inv.reservations[i].quantity <= INT_MAX)
  }

  ghost predicate Inv(s: System) {
    && TablesOk(s.inventory)
    && KeysUnique(s.orders.orders)
    && (forall m | m in s.published :: InOutbox(s, m))
    && (forall o: Uuid :: CoherentIn(s, o))
  }

  // ---- One step, one order, one edge ----

  /** `t` differs from `s`, as far as orders go, in one edge of the saga of `o`. */
  ghost predicate OneEdge(s: System, t: System, o: Uuid) {
    && Edge(PhaseIn(s, o), PhaseIn(t, o))
    && (forall other: Uuid | other != o :: ViewOf(t, other) == ViewOf(s, other))
  }

  /** A published message is in the sub-outbox of its own order. */
  lemma PublishedInView(s: System, m: Message)
    requires Inv(s) && InOutbox(s, m)
    ensures var v := ViewOf(s, m.orderId);
            m in v.ordersEvents || m in v.inventoryEvents || m in v.paymentsEvents
    ensures ViewOf(s, m.orderId).order.Some?
  {
    OfMember(s.orders.outbox, OrderOf, m.orderId, m);
    OfMember(s.inventory.outbox, OrderOf, m.orderId, m);
    OfMember(s.payments.outbox, OrderOf, m.orderId, m);
    assert CoherentIn(s, m.orderId);
  }

  /** The existence check of the reserve handler reads only the order's own events. */
  lemma ReserveAnsweredInView(s: System, o: Uuid)
    ensures Inventory.ReserveAnswered(s.inventory.outbox, o) <==>
            exists m | m in ViewOf(s, o).inventoryEvents :: m.InventoryReserved? || m.InsufficientStock?
  {
    forall m | m in s.inventory.outbox
      ensures m.orderId == o ==> m in ViewOf(s, o).inventoryEvents
    {
      OfMember(s.inventory.outbox, OrderOf, o, m);
    }
    forall m | m in ViewOf(s, o).inventoryEvents
      ensures m in s.inventory.outbox && m.orderId == o
    {
      OfMember(s.inventory.outbox, OrderOf, o, m);
    }
  }

  lemma ReleaseAnsweredInView(s: System, o: Uuid)
    ensures Inventory.ReleaseAnswered(s.inventory.outbox, o) <==>
            exists m | m in ViewOf(s, o).inventoryEvents :: m.InventoryReleased?
  {
    forall m | m in s.inventory.outbox
      ensures m.orderId == o ==> m in ViewOf(s, o).inventoryEvents
    {
      OfMember(s.inventory.outbox, OrderOf, o, m);
    }
    forall m | m in ViewOf(s, o).inventoryEvents
      ensures m in s.inventory.outbox && m.orderId == o
    {
      OfMember(s.inventory.outbox, OrderOf, o, m);
    }
  }

  lemma PaymentExistsInView(s: System, o: Uuid)
    ensures Payments.ExistsByOrderId(s.payments.payments, o) <==> ViewOf(s, o).payments != []
  {
    var rows := s.payments.payments;
    if ViewOf(s, o).payments != [] {
      OfMember(rows, Payments.PaymentOrder, o, ViewOf(s, o).payments[0]);
    }
    forall p | p in rows && p.orderId == o
      ensures p in ViewOf(s, o).payments
    {
      OfMember(rows, Payments.PaymentOrder, o, p);
    }
  }

  /** To keep the invariant, a step need only look after the tables and the order it touched. */
  lemma Reassemble(s: System, t: System, o: Uuid)
    requires Inv(s)
    requires TablesOk(t.inventory) && KeysUnique(t.orders.orders)
    requires t.published == s.published
    requires s.orders.outbox <= t.orders.outbox
    requires Inventory.Appends(s.inventory, t.inventory)
    requires s.payments.outbox <= t.payments.outbox
    requires forall other: Uuid | other != o :: ViewOf(t, other) == ViewOf(s, other)
    requires CoherentIn(t, o)
    ensures Inv(t)
  {
    PublishedStayWritten(s, t);
    forall other: Uuid
      ensures CoherentIn(t, other)
    {
      assert CoherentIn(s, other);
    }
  }

  lemma PublishedStayWritten(s: System, t: System)
    requires forall m | m in s.published :: InOutbox(s, m)
    requires t.published == s.published
    requires s.orders.outbox <= t.orders.outbox
    requires s.inventory.outbox <= t.inventory.outbox
    requires s.payments.outbox <= t.payments.outbox
    ensures forall m | m in t.published :: InOutbox(t, m)
  {
    forall m | m in t.published
      ensures InOutbox(t, m)
    {
      assert InOutbox(s, m);
    }
  }

  // ---- Creating an order and the administrator's steps ----

  lemma PlaceViews(s: System, id: Uuid, request: Orders.OrderRequest)
    requires Orders.AfterCreate(s.orders, id, request).outcome.Done?
    ensures var t := Next(s, Place(id, request));
            && (forall o: Uuid | o != id :: ViewOf(t, o) == ViewOf(s, o))
            && ViewOf(t, id) == ViewOf(s, id).(
                 order := Some(t.orders.orders[id]),
                 ordersEvents := ViewOf(s, id).ordersEvents + [Announcement(id, t.orders.orders[id])])
  {
    var t := Next(s, Place(id, request));
    forall o: Uuid
      ensures Of(t.orders.outbox, OrderOf, o)
              == Of(s.orders.outbox, OrderOf, o) + (if o == id then [Announcement(id, t.orders.orders[id])] else [])
    {
      OfAppend(s.orders.outbox, Announcement(id, t.orders.orders[id]), OrderOf, o);
    }
  }

  lemma PlaceStep(s: System, id: Uuid, request: Orders.OrderRequest)
    requires Inv(s)
    ensures var t := Next(s, Place(id, request));
            Inv(t) && (t == s || (OneEdge(s, t, id) && PhaseIn(s, id) == Absent && PhaseIn(t, id) == Placed))
  {
    var t := Next(s, Place(id, request));
    if Orders.AfterCreate(s.orders, id, request).outcome.Done? {
      PlaceViews(s, id, request);
      assert CoherentIn(s, id);
      Reassemble(s, t, id);
    }
  }

  lemma AdminTables(s: System, step: Step)
    requires step.CreateProduct? || step.CreateStock? || step.UpdateQuantity?
    ensures var inv, after := s.inventory, Next(s, step).inventory;
            && (TablesOk(inv) ==> TablesOk(after))
            && (forall p | p in inv.products :: p in after.products && after.products[p] == inv.products[p])
            && after.reservations == inv.reservations && after.outbox == inv.outbox
  {
  }

  lemma AdminStep(s: System, step: Step)
    requires Inv(s)
    requires step.CreateProduct? || step.CreateStock? || step.UpdateQuantity?
    ensures Inv(Next(s, step))
    ensures forall o: Uuid :: ViewOf(Next(s, step), o) == ViewOf(s, o)
  {
    var t := Next(s, step);
    AdminTables(s, step);
    forall o: Uuid
      ensures CoherentIn(t, o)
    {
      assert CoherentIn(s, o) && ViewOf(t, o) == ViewOf(s, o);
      CoherentAsProductsGrow(ViewOf(s, o), o, s.inventory.products, t.inventory.products);
    }
  }

  lemma CoherentAsProductsGrow(v: View, o: Uuid, before: map<int, int>, after: map<int, int>)
    requires Coherent(v, o, before)
    requires forall p | p in before :: p in after && after[p] == before[p]
    ensures Coherent(v, o, after)
  {
  }

  // ---- Reserving stock ----

  /** An event appended to the inventory outbox is seen by its own order alone. */
  lemma EventAppended(before: seq<Message>, after: seq<Message>, m: Message)
    requires after == before + [m]
    ensures forall o: Uuid :: Of(after, OrderOf, o) == Of(before, OrderOf, o) + (if o == m.orderId then [m] else [])
  {
    forall o: Uuid
      ensures Of(after, OrderOf, o) == Of(before, OrderOf, o) + (if o == m.orderId then [m] else [])
    {
      OfAppend(before, m, OrderOf, o);
    }
  }

  lemma ReservationAppended(before: seq<Inventory.Reservation>, after: seq<Inventory.Reservation>,
                            row: Inventory.Reservation)
    requires after == before + [row]
    ensures forall o: Uuid :: Of(after, Inventory.ReservationOrder, o)
              == Of(before, Inventory.ReservationOrder, o) + (if o == row.orderId then [row] else [])
  {
    forall o: Uuid
      ensures Of(after, Inventory.ReservationOrder, o)
              == Of(before, Inventory.ReservationOrder, o) + (if o == row.orderId then [row] else [])
    {
      OfAppend(before, row, Inventory.ReservationOrder, o);
    }
  }

  lemma ReserveViews(s: System, command: Inventory.ReserveCommand)
    requires !Inventory.ReserveAnswered(s.inventory.outbox, command.orderId)
    requires Inventory.AfterReserve(s.inventory, command).outcome != Inventory.RolledBack
    ensures var r, o := Inventory.AfterReserve(s.inventory, command), command.orderId;
            var t, v := s.(inventory := r.state), ViewOf(s, o);
            var event := r.state.outbox[|s.inventory.outbox|];
            var row := Inventory.Reservation(o, command.productId, command.quantity, Inventory.Reserved);
            && |r.state.outbox| == |s.inventory.outbox| + 1
            && (forall other: Uuid | other != o :: ViewOf(t, other) == ViewOf(s, other))
            && ViewOf(t, o) == v.(
                 inventoryEvents := v.inventoryEvents + [event],
                 reservations := v.reservations + (if r.outcome.Done? then [row] else []))
  {
    var r := Inventory.AfterReserve(s.inventory, command);
    EventAppended(s.inventory.outbox, r.state.outbox, r.state.outbox[|s.inventory.outbox|]);
    if r.outcome.Done? {
      ReservationAppended(s.inventory.reservations, r.state.reservations,
                          r.state.reservations[|s.inventory.reservations|]);
    }
  }

  lemma ReserveTables(inv: Inventory.InventoryState, command: Inventory.ReserveCommand)
    requires TablesOk(inv) && 0 < command.quantity <= INT_MAX
    ensures Inventory.AfterReserve(inv, command).outcome != Inventory.RolledBack
    ensures TablesOk(Inventory.AfterReserve(inv, command).state)
  {
  }

  /** The event or the reservation that answers a placed order takes it to `Rejected` or `Held`. */
  lemma ReserveEdge(v: View, o: Uuid, prices: map<int, int>, event: Message, rows: seq<Inventory.Reservation>)
    requires Coherent(v, o, prices) && PhaseOf(v) == Placed && event.orderId == o
    requires var order := v.order.value;
             || (rows == [] && event.InsufficientStock?)
             || (&& order.productId in prices
                 && rows == [Inventory.Reservation(o, order.productId, order.quantity, Inventory.Reserved)]
                 && event == InventoryReserved(o, Inventory.Amount(prices[order.productId], order.quantity),
                                               order.paymentType))
    ensures var w := v.(inventoryEvents := v.inventoryEvents + [event], reservations := v.reservations + rows);
            Coherent(w, o, prices) && PhaseOf(w) == if rows == [] then Rejected else Held
  {
  }

  lemma ReserveMeets(v: View, o: Uuid, prices: map<int, int>, m: Message)
    requires Coherent(v, o, prices) && m.OrderCreated? && m.orderId == o
    requires m in v.ordersEvents || m in v.inventoryEvents || m in v.paymentsEvents
    ensures v.order.Some? && m == Announcement(o, v.order.value) && 0 < m.quantity <= INT_MAX
    ensures PhaseOf(v) == Placed <==>
            !exists e | e in v.inventoryEvents :: e.InventoryReserved? || e.InsufficientStock?
  {
    if v.inventoryEvents != [] {
      assert v.inventoryEvents[0] in v.inventoryEvents;
    }
  }

  /** A published order is answered exactly when it has left `Placed`. */
  lemma ReserveDue(s: System, m: Message)
    requires Inv(s) && m in s.published && m.OrderCreated?
    ensures CoherentIn(s, m.orderId)
    ensures ViewOf(s, m.orderId).order.Some? && m == Announcement(m.orderId, ViewOf(s, m.orderId).order.value)
    ensures 0 < m.quantity <= INT_MAX
    ensures PhaseIn(s, m.orderId) == Placed <==> !Inventory.ReserveAnswered(s.inventory.outbox, m.orderId)
  {
    PublishedInView(s, m);
    ReserveAnsweredInView(s, m.orderId);
    assert CoherentIn(s, m.orderId);
    ReserveMeets(ViewOf(s, m.orderId), m.orderId, s.inventory.products, m);
  }

  lemma ReserveCoherent(s: System, command: Inventory.ReserveCommand, t: System)
    requires var v := ViewOf(s, command.orderId);
             && Coherent(v, command.orderId, s.inventory.products) && PhaseOf(v) == Placed
             && Announcement(command.orderId, v.order.value)
                == OrderCreated(command.orderId, command.productId, command.quantity, command.paymentType)
    requires !Inventory.ReserveAnswered(s.inventory.outbox, command.orderId)
    requires Inventory.AfterReserve(s.inventory, command).outcome != Inventory.RolledBack
    requires t == s.(inventory := Inventory.AfterReserve(s.inventory, command).state)
    ensures OneEdge(s, t, command.orderId) && CoherentIn(t, command.orderId)
  {
    var r := Inventory.AfterReserve(s.inventory, command);
    ReserveViews(s, command);
    Inventory.ReserveAppends(s.inventory, command);
    ReserveEdge(ViewOf(s, command.orderId), command.orderId, s.inventory.products,
                r.state.outbox[|s.inventory.outbox|],
                if r.outcome.Done? then r.state.reservations[|s.inventory.reservations|..] else []);
  }

  lemma ReserveMoves(s: System, m: Message, freshId: Uuid)
    requires Inv(s) && m in s.published && m.OrderCreated? && PhaseIn(s, m.orderId) == Placed
    ensures OneEdge(s, AfterHandle(s, m, freshId), m.orderId)
    ensures CoherentIn(AfterHandle(s, m, freshId), m.orderId)
    ensures TablesOk(AfterHandle(s, m, freshId).inventory)
  {
    var command := Inventory.ReserveCommand(m.orderId, m.productId, m.quantity, m.paymentType);
    ReserveDue(s, m);
    ReserveTables(s.inventory, command);
    ReserveCoherent(s, command, AfterHandle(s, m, freshId));
  }

  lemma ReservePlaced(s: System, m: Message, freshId: Uuid)
    requires Inv(s) && m in s.published && m.OrderCreated? && PhaseIn(s, m.orderId) == Placed
    ensures var t := AfterHandle(s, m, freshId); Inv(t) && OneEdge(s, t, m.orderId)
  {
    var t := AfterHandle(s, m, freshId);
    ReserveMoves(s, m, freshId);
    Inventory.ReserveAppends(s.inventory, Inventory.ReserveCommand(m.orderId, m.productId, m.quantity, m.paymentType));
    Reassemble(s, t, m.orderId);
  }

  lemma ReserveStep(s: System, m: Message, freshId: Uuid)
    requires Inv(s) && m in s.published && m.OrderCreated?
    ensures var t := AfterHandle(s, m, freshId); Inv(t) && (t == s || OneEdge(s, t, m.orderId))
    ensures AfterHandle(s, m, freshId) == s <==> PhaseIn(s, m.orderId) != Placed
  {
    ReserveDue(s, m);
    if PhaseIn(s, m.orderId) == Placed {
      ReservePlaced(s, m, freshId);
    }
  }

  // ---- Paying ----

  lemma PaymentViews(s: System, payment: Payments.Payment, m: Message)
    requires m.orderId == payment.orderId
    ensures var t := s.(payments := Payments.PaymentsState(s.payments.payments + [payment], s.payments.outbox + [m]));
            var v := ViewOf(s, m.orderId);
            && (forall other: Uuid | other != m.orderId :: ViewOf(t, other) == ViewOf(s, other))
            && ViewOf(t, m.orderId) == v.(payments := v.payments + [payment], paymentsEvents := v.paymentsEvents + [m])
  {
    forall o: Uuid
      ensures Of(s.payments.outbox + [m], OrderOf, o)
              == Of(s.payments.outbox, OrderOf, o) + (if o == m.orderId then [m] else [])
      ensures Of(s.payments.payments + [payment], Payments.PaymentOrder, o)
              == Of(s.payments.payments, Payments.PaymentOrder, o) + (if o == m.orderId then [payment] else [])
    {
      OfAppend(s.payments.outbox, m, OrderOf, o);
      OfAppend(s.payments.payments, payment, Payments.PaymentOrder, o);
    }
  }

  lemma PaymentEdge(v: View, o: Uuid, prices: map<int, int>, m: Message, freshId: Uuid)
    requires Coherent(v, o, prices) && m.InventoryReserved? && m.orderId == o
    requires m in v.ordersEvents || m in v.inventoryEvents || m in v.paymentsEvents
    ensures PhaseOf(v) == Held <==> v.payments == []
    ensures var payment := Payments.Decided(Payments.ReservedEvent(o, m.amount, m.paymentType), freshId);
            var w := v.(payments := v.payments + [payment],
                        paymentsEvents := v.paymentsEvents + [Payments.Announce(payment)]);
            PhaseOf(v) == Held ==> Coherent(w, o, prices) && Edge(Held, PhaseOf(w))
  {
  }

  lemma PaymentCoherent(s: System, m: Message, freshId: Uuid, t: System)
    requires var v := ViewOf(s, m.orderId);
             && Coherent(v, m.orderId, s.inventory.products) && PhaseOf(v) == Held
             && m.InventoryReserved? && (m in v.ordersEvents || m in v.inventoryEvents || m in v.paymentsEvents)
    requires var payment := Payments.Decided(Payments.ReservedEvent(m.orderId, m.amount, m.paymentType), freshId);
             t == s.(payments := Payments.PaymentsState(s.payments.payments + [payment],
                                                        s.payments.outbox + [Payments.Announce(payment)]))
    ensures OneEdge(s, t, m.orderId) && CoherentIn(t, m.orderId)
  {
    var payment := Payments.Decided(Payments.ReservedEvent(m.orderId, m.amount, m.paymentType), freshId);
    PaymentEdge(ViewOf(s, m.orderId), m.orderId, s.inventory.products, m, freshId);
    PaymentViews(s, payment, Payments.Announce(payment));
  }

  /** A published reservation is unpaid exactly in `Held`, so the handler acts there unless its new
      identifier is taken. */
  lemma PaymentDue(s: System, m: Message, freshId: Uuid)
    requires Inv(s) && m in s.published && m.InventoryReserved?
    ensures CoherentIn(s, m.orderId)
    ensures PhaseIn(s, m.orderId) == Held <==> !Payments.ExistsByOrderId(s.payments.payments, m.orderId)
    ensures AfterHandle(s, m, freshId) == s <==>
            PhaseIn(s, m.orderId) != Held || exists p | p in s.payments.payments :: p.id == freshId
  {
    PublishedInView(s, m);
    PaymentExistsInView(s, m.orderId);
    assert CoherentIn(s, m.orderId);
    PaymentEdge(ViewOf(s, m.orderId), m.orderId, s.inventory.products, m, freshId);
  }

  lemma PaymentMoves(s: System, m: Message, freshId: Uuid)
    requires Inv(s) && m in s.published && m.InventoryReserved? && AfterHandle(s, m, freshId) != s
    ensures OneEdge(s, AfterHandle(s, m, freshId), m.orderId)
    ensures CoherentIn(AfterHandle(s, m, freshId), m.orderId)
  {
    PaymentDue(s, m, freshId);
    PublishedInView(s, m);
    PaymentCoherent(s, m, freshId, AfterHandle(s, m, freshId));
  }

  lemma PaymentStep(s: System, m: Message, freshId: Uuid)
    requires Inv(s) && m in s.published && m.InventoryReserved?
    ensures var t := AfterHandle(s, m, freshId); Inv(t) && (t == s || OneEdge(s, t, m.orderId))
    ensures AfterHandle(s, m, freshId) == s <==>
            PhaseIn(s, m.orderId) != Held || exists p | p in s.payments.payments :: p.id == freshId
  {
    var t := AfterHandle(s, m, freshId);
    PaymentDue(s, m, freshId);
    if t != s {
      PaymentMoves(s, m, freshId);
      Reassemble(s, t, m.orderId);
    }
  }

  // ---- Confirming and canceling the order ----

  lemma OrdersTablesKept(st: Orders.OrdersState, o: Uuid, reason: Reason)
    requires KeysUnique(st.orders)
    ensures KeysUnique(Orders.AfterConfirm(st, o).state.orders)
    ensures KeysUnique(Orders.AfterCancel(st, o, reason).state.orders)
  {
  }

  lemma OrderConfirmViews(s: System, o: Uuid)
    requires Orders.AfterConfirm(s.orders, o).outcome.Done?
    ensures var t, v := s.(orders := Orders.AfterConfirm(s.orders, o).state), ViewOf(s, o);
            && (forall other: Uuid | other != o :: ViewOf(t, other) == ViewOf(s, other))
            && ViewOf(t, o) == v.(order := Some(s.orders.orders[o].(status := Orders.Confirmed)),
                                  ordersEvents := v.ordersEvents + [OrderConfirmed(o)])
  {
    forall other: Uuid {
      OfAppend(s.orders.outbox, OrderConfirmed(o), OrderOf, other);
    }
  }

  lemma OrderConfirmEdge(v: View, o: Uuid, prices: map<int, int>, m: Message)
    requires Coherent(v, o, prices) && m.PaymentAuthorized? && m.orderId == o
    requires m in v.ordersEvents || m in v.inventoryEvents || m in v.paymentsEvents
    ensures v.order.Some? && (PhaseOf(v) == Approved <==> v.order.value.status.Pending?)
    ensures var w := v.(order := Some(v.order.value.(status := Orders.Confirmed)),
                        ordersEvents := v.ordersEvents + [OrderConfirmed(o)]);
            PhaseOf(v) == Approved ==> Coherent(w, o, prices) && Edge(Approved, PhaseOf(w))
  {
  }

  lemma OrderConfirmCoherent(s: System, m: Message, t: System)
    requires var v := ViewOf(s, m.orderId);
             && Coherent(v, m.orderId, s.inventory.products) && PhaseOf(v) == Approved
             && m.PaymentAuthorized? && (m in v.ordersEvents || m in v.inventoryEvents || m in v.paymentsEvents)
    requires t == s.(orders := Orders.AfterConfirm(s.orders, m.orderId).state)
    ensures OneEdge(s, t, m.orderId) && CoherentIn(t, m.orderId)
  {
    OrderConfirmEdge(ViewOf(s, m.orderId), m.orderId, s.inventory.products, m);
    OrderConfirmViews(s, m.orderId);
  }

  lemma OrderConfirmMoves(s: System, m: Message, freshId: Uuid)
    requires Inv(s) && m in s.published && m.PaymentAuthorized? && PhaseIn(s, m.orderId) == Approved
    ensures OneEdge(s, AfterHandle(s, m, freshId), m.orderId)
    ensures CoherentIn(AfterHandle(s, m, freshId), m.orderId)
  {
    PublishedInView(s, m);
    assert CoherentIn(s, m.orderId);
    OrderConfirmCoherent(s, m, AfterHandle(s, m, freshId));
  }

  /** A published authorization is due exactly in `Approved`. */
  lemma OrderConfirmDue(s: System, m: Message, freshId: Uuid)
    requires Inv(s) && m in s.published && m.PaymentAuthorized?
    ensures AfterHandle(s, m, freshId) == s <==> PhaseIn(s, m.orderId) != Approved
  {
    PublishedInView(s, m);
    assert CoherentIn(s, m.orderId);
    OrderConfirmEdge(ViewOf(s, m.orderId), m.orderId, s.inventory.products, m);
  }

  lemma OrderConfirmStep(s: System, m: Message, freshId: Uuid)
    requires Inv(s) && m in s.published && m.PaymentAuthorized?
    ensures var t := AfterHandle(s, m, freshId); Inv(t) && (t == s || OneEdge(s, t, m.orderId))
    ensures AfterHandle(s, m, freshId) == s <==> PhaseIn(s, m.orderId) != Approved
  {
    OrderConfirmDue(s, m, freshId);
    if PhaseIn(s, m.orderId) == Approved {
      OrdersTablesKept(s.orders, m.orderId, ProductNotFound);
      OrderConfirmMoves(s, m, freshId);
      Reassemble(s, AfterHandle(s, m, freshId), m.orderId);
    }
  }

  lemma OrderCancelEdge(v: View, o: Uuid, prices: map<int, int>, m: Message)
    requires Coherent(v, o, prices) && (m.InsufficientStock? || m.InventoryReleased?) && m.orderId == o
    requires m in v.ordersEvents || m in v.inventoryEvents || m in v.paymentsEvents
    ensures v.order.Some? && (PhaseOf(v) == Canceled <==> !v.order.value.status.Pending?)
    ensures PhaseOf(v) == Canceled || PhaseOf(v) == (if m.InsufficientStock? then Rejected else Released)
    ensures var w := v.(order := Some(v.order.value.(status := Orders.Canceled, reason := Some(m.reason))));
            PhaseOf(v) != Canceled ==> Coherent(w, o, prices) && Edge(PhaseOf(v), PhaseOf(w))
  {
  }

  lemma OrderCancelStep(s: System, m: Message, freshId: Uuid)
    requires Inv(s) && m in s.published && (m.InsufficientStock? || m.InventoryReleased?)
    ensures var t := AfterHandle(s, m, freshId); Inv(t) && (t == s || OneEdge(s, t, m.orderId))
    ensures AfterHandle(s, m, freshId) == s <==> PhaseIn(s, m.orderId) == Canceled
    ensures PhaseIn(s, m.orderId) == Canceled
            || PhaseIn(s, m.orderId) == (if m.InsufficientStock? then Rejected else Released)
  {
    var t, o := AfterHandle(s, m, freshId), m.orderId;
    PublishedInView(s, m);
    assert CoherentIn(s, o);
    OrderCancelEdge(ViewOf(s, o), o, s.inventory.products, m);
    if PhaseIn(s, o) != Canceled {
      OrdersTablesKept(s.orders, o, m.reason);
      Reassemble(s, t, o);
    }
  }

  // ---- Confirming and releasing the reservation ----

  /** Where the one reservation of an order that was held is stored. */
  lemma HeldPosition(s: System, o: Uuid) returns (i: nat)
    requires Inv(s) && ViewOf(s, o).reservations != []
    ensures i < |s.inventory.reservations|
    ensures Find(s.inventory.reservations, Inventory.ReservationOrder, o) == OneRow(i)
    ensures ViewOf(s, o).reservations == [s.inventory.reservations[i]]
  {
    assert CoherentIn(s, o);
    FindOf(s.inventory.reservations, Inventory.ReservationOrder, o);
    i := Find(s.inventory.reservations, Inventory.ReservationOrder, o).position;
  }

  lemma StatusViews(s: System, i: nat, status: Inventory.ReservationStatus)
    requires i < |s.inventory.reservations|
    requires var o := s.inventory.reservations[i].orderId;
             Find(s.inventory.reservations, Inventory.ReservationOrder, o) == OneRow(i)
    ensures var row := s.inventory.reservations[i];
            var t := s.(inventory := Inventory.WithStatus(s.inventory, i, status));
            && (forall other: Uuid | other != row.orderId :: ViewOf(t, other) == ViewOf(s, other))
            && ViewOf(t, row.orderId) == ViewOf(s, row.orderId).(reservations := [row.(status := status)])
  {
    forall o: Uuid {
      OfUpdate(s.inventory.reservations, i, s.inventory.reservations[i].(status := status),
               Inventory.ReservationOrder, o);
    }
  }

  lemma ReservationConfirmEdge(v: View, o: Uuid, prices: map<int, int>, m: Message)
    requires Coherent(v, o, prices) && m.OrderConfirmed? && m.orderId == o
    requires m in v.ordersEvents || m in v.inventoryEvents || m in v.paymentsEvents
    ensures |v.reservations| == 1
    ensures PhaseOf(v) == Accepted <==> !v.reservations[0].status.Confirmed?
    ensures var w := v.(reservations := [v.reservations[0].(status := Inventory.Confirmed)]);
            PhaseOf(v) == Accepted ==> Coherent(w, o, prices) && Edge(Accepted, PhaseOf(w))
  {
  }

  lemma StatusTables(inv: Inventory.InventoryState, i: nat, status: Inventory.ReservationStatus)
    requires TablesOk(inv) && i < |inv.reservations|
    ensures TablesOk(Inventory.WithStatus(inv, i, status))
  {
  }

  lemma ReservationConfirmStep(s: System, m: Message, freshId: Uuid)
    requires Inv(s) && m in s.published && m.OrderConfirmed?
    ensures var t := AfterHandle(s, m, freshId); Inv(t) && (t == s || OneEdge(s, t, m.orderId))
    ensures AfterHandle(s, m, freshId) == s <==> PhaseIn(s, m.orderId) != Accepted
    ensures Inventory.AfterConfirm(s.inventory, m.orderId).outcome.Done?
  {
    var t, o := AfterHandle(s, m, freshId), m.orderId;
    PublishedInView(s, m);
    assert CoherentIn(s, o);
    ReservationConfirmEdge(ViewOf(s, o), o, s.inventory.products, m);
    var i := HeldPosition(s, o);
    if PhaseIn(s, o) == Accepted {
      StatusViews(s, i, Inventory.Confirmed);
      StatusTables(s.inventory, i, Inventory.Confirmed);
      Reassemble(s, t, o);
    } else {
      assert t.inventory.reservations == s.inventory.reservations;
    }
  }

  /** Restoring the stock of an order would leave the 32-bit column. */
  predicate ReleaseOverflows(s: System, o: Uuid) {
    && o in s.orders.orders
    && s.orders.orders[o].productId in s.inventory.stocks
    && s.inventory.stocks[s.orders.orders[o].productId] + s.orders.orders[o].quantity > INT_MAX
  }

  lemma ReleaseViews(s: System, o: Uuid, reason: Reason)
    requires Inventory.AfterRelease(s.inventory, o, reason).outcome.Done?
    ensures var t, v := s.(inventory := Inventory.AfterRelease(s.inventory, o, reason).state), ViewOf(s, o);
            var found := Find(s.inventory.reservations, Inventory.ReservationOrder, o);
            && found.OneRow?
            && (forall other: Uuid | other != o :: ViewOf(t, other) == ViewOf(s, other))
            && ViewOf(t, o) == v.(
                 reservations := [s.inventory.reservations[found.position].(status := Inventory.Released)],
                 inventoryEvents := v.inventoryEvents + [InventoryReleased(o, reason)])
  {
    var i := Find(s.inventory.reservations, Inventory.ReservationOrder, o).position;
    StatusViews(s, i, Inventory.Released);
    forall other: Uuid {
      OfAppend(s.inventory.outbox, InventoryReleased(o, reason), OrderOf, other);
    }
  }

  lemma ReleaseEdge(v: View, o: Uuid, prices: map<int, int>, m: Message)
    requires Coherent(v, o, prices) && m.PaymentDenied? && m.orderId == o
    requires m in v.ordersEvents || m in v.inventoryEvents || m in v.paymentsEvents
    ensures v.order.Some? && |v.reservations| == 1
    ensures v.reservations[0].productId == v.order.value.productId
            && v.reservations[0].quantity == v.order.value.quantity
    ensures PhaseOf(v) != Denied <==> exists e | e in v.inventoryEvents :: e.InventoryReleased?
    ensures var w := v.(reservations := [v.reservations[0].(status := Inventory.Released)],
                        inventoryEvents := v.inventoryEvents + [InventoryReleased(o, m.reason)]);
            PhaseOf(v) == Denied ==> Coherent(w, o, prices) && Edge(Denied, PhaseOf(w))
  {
    if PhaseOf(v) != Denied {
      assert v.inventoryEvents[1] in v.inventoryEvents;
    }
  }

  lemma ReleaseTables(inv: Inventory.InventoryState, o: Uuid, reason: Reason)
    requires TablesOk(inv)
    ensures TablesOk(Inventory.AfterRelease(inv, o, reason).state)
  {
  }

  /** What the release handler reads decides its outcome. */
  lemma ReleaseBranch(inv: Inventory.InventoryState, o: Uuid, reason: Reason, i: nat)
    requires TablesOk(inv) && Find(inv.reservations, Inventory.ReservationOrder, o) == OneRow(i)
    ensures var row := inv.reservations[i];
            && row.productId in inv.stocks
            && Inventory.AfterRelease(inv, o, reason).outcome ==
               if Inventory.ReleaseAnswered(inv.outbox, o) then Inventory.AlreadyProcessed
               else if inv.stocks[row.productId] + row.quantity > INT_MAX then Inventory.RolledBack
               else Inventory.Done
  {
  }

  /** The row it reads is the booking of the order, and the answer is there unless the order is denied. */
  lemma ReleaseReads(s: System, m: Message) returns (i: nat)
    requires Inv(s) && m in s.published && m.PaymentDenied?
    ensures ViewOf(s, m.orderId).reservations != [] && m.orderId in s.orders.orders
    ensures Find(s.inventory.reservations, Inventory.ReservationOrder, m.orderId) == OneRow(i)
    ensures s.inventory.reservations[i].productId == s.orders.orders[m.orderId].productId
    ensures s.inventory.reservations[i].quantity == s.orders.orders[m.orderId].quantity
    ensures PhaseIn(s, m.orderId) != Denied <==> Inventory.ReleaseAnswered(s.inventory.outbox, m.orderId)
  {
    var o := m.orderId;
    PublishedInView(s, m);
    ReleaseAnsweredInView(s, o);
    assert CoherentIn(s, o);
    ReleaseEdge(ViewOf(s, o), o, s.inventory.products, m);
    i := HeldPosition(s, o);
  }

  lemma ReleaseOutcome(s: System, m: Message)
    requires Inv(s) && m in s.published && m.PaymentDenied?
    ensures ViewOf(s, m.orderId).reservations != []
    ensures Inventory.AfterRelease(s.inventory, m.orderId, m.reason).outcome ==
            if PhaseIn(s, m.orderId) != Denied then Inventory.AlreadyProcessed
            else if ReleaseOverflows(s, m.orderId) then Inventory.RolledBack
            else Inventory.Done
  {
    var i := ReleaseReads(s, m);
    ReleaseBranch(s.inventory, m.orderId, m.reason, i);
  }

  lemma ReleaseCoherent(s: System, m: Message, t: System)
    requires var v := ViewOf(s, m.orderId);
             && Coherent(v, m.orderId, s.inventory.products) && PhaseOf(v) == Denied
             && m.PaymentDenied? && (m in v.ordersEvents || m in v.inventoryEvents || m in v.paymentsEvents)
    requires Inventory.AfterRelease(s.inventory, m.orderId, m.reason).outcome.Done?
    requires t == s.(inventory := Inventory.AfterRelease(s.inventory, m.orderId, m.reason).state)
    ensures OneEdge(s, t, m.orderId) && CoherentIn(t, m.orderId)
  {
    var o := m.orderId;
    ReleaseEdge(ViewOf(s, o), o, s.inventory.products, m);
    FindOf(s.inventory.reservations, Inventory.ReservationOrder, o);
    ReleaseViews(s, o, m.reason);
    Inventory.ReleaseAppends(s.inventory, o, m.reason);
  }

  /** A release that acts finds its order coherent and denied. */
  lemma ReleaseDue(s: System, m: Message)
    requires Inv(s) && m in s.published && m.PaymentDenied?
    requires Inventory.AfterRelease(s.inventory, m.orderId, m.reason).outcome.Done?
    ensures var v := ViewOf(s, m.orderId);
            && Coherent(v, m.orderId, s.inventory.products) && PhaseOf(v) == Denied
            && (m in v.ordersEvents || m in v.inventoryEvents || m in v.paymentsEvents)
  {
    ReleaseOutcome(s, m);
    PublishedInView(s, m);
    assert CoherentIn(s, m.orderId);
  }

  lemma ReleaseMoves(s: System, m: Message, freshId: Uuid)
    requires Inv(s) && m in s.published && m.PaymentDenied?
    requires Inventory.AfterRelease(s.inventory, m.orderId, m.reason).outcome.Done?
    ensures OneEdge(s, AfterHandle(s, m, freshId), m.orderId)
    ensures CoherentIn(AfterHandle(s, m, freshId), m.orderId)
    ensures TablesOk(AfterHandle(s, m, freshId).inventory)
  {
    ReleaseDue(s, m);
    ReleaseTables(s.inventory, m.orderId, m.reason);
    ReleaseCoherent(s, m, AfterHandle(s, m, freshId));
  }

  lemma ReleaseStep(s: System, m: Message, freshId: Uuid)
    requires Inv(s) && m in s.published && m.PaymentDenied?
    ensures var t := AfterHandle(s, m, freshId); Inv(t) && (t == s || OneEdge(s, t, m.orderId))
    ensures AfterHandle(s, m, freshId) == s <==> PhaseIn(s, m.orderId) != Denied || ReleaseOverflows(s, m.orderId)
  {
    ReleaseOutcome(s, m);
    if Inventory.AfterRelease(s.inventory, m.orderId, m.reason).outcome.Done? {
      ReleaseMoves(s, m, freshId);
      Inventory.ReleaseAppends(s.inventory, m.orderId, m.reason);
      Reassemble(s, AfterHandle(s, m, freshId), m.orderId);
    }
  }
}
