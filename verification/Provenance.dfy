/** Where the rows come from: what is ordered, priced, billed and paid at the end of any run is what the
    customer requested, the administrator set, and the services computed from it on the way. */
module Provenance {
  import opened Base
  import opened Messages
  import opened Rows
  import opened Saga
  import opened Invariant
  import opened Theorems
  import Orders
  import Inventory
  import Payments
  import PaymentWorkers

  // ---- Orders ----

  /** The part of an order that no handler changes. */
  predicate SameTerms(a: Orders.Order, b: Orders.Order) {
    && a.idempotencyKey == b.idempotencyKey && a.productId == b.productId
    && a.quantity == b.quantity && a.paymentType == b.paymentType
  }

  predicate AsRequested(order: Orders.Order, request: Orders.OrderRequest) {
    && order.idempotencyKey == request.idempotencyKey && order.productId == request.productId
    && order.quantity == request.quantity && order.paymentType == request.paymentType
  }

  lemma OrderOneStep(s: System, step: Step, o: Uuid)
    requires o in Next(s, step).orders.orders
    ensures var order := Next(s, step).orders.orders[o];
            || (o in s.orders.orders && SameTerms(order, s.orders.orders[o]))
            || (step.Place? && step.id == o && AsRequested(order, step.request))
  {
    if step.Place? && Orders.AfterCreate(s.orders, step.id, step.request).outcome.Done? {
      Orders.CreateEffect(s.orders, step.id, step.request);
    }
  }

  lemma {:induction false} OrderOrigin(s: System, steps: seq<Step>, o: Uuid)
    requires o in Exec(s, steps).orders.orders
    ensures var order := Exec(s, steps).orders.orders[o];
            || (o in s.orders.orders && SameTerms(order, s.orders.orders[o]))
            || exists k | 0 <= k < |steps| :: steps[k].Place? && steps[k].id == o && AsRequested(order, steps[k].request)
    decreases |steps|
  {
    if steps != [] {
      var t := Next(s, steps[0]);
      var order := Exec(s, steps).orders.orders[o];
      OrderOrigin(t, steps[1..], o);
      if o in t.orders.orders && SameTerms(order, t.orders.orders[o]) {
        OrderOneStep(s, steps[0], o);
      } else {
        var k :| 0 <= k < |steps[1..]| && steps[1..][k].Place? && steps[1..][k].id == o
                 && AsRequested(order, steps[1..][k].request);
        assert steps[k + 1] == steps[1..][k];
      }
    }
  }

  /** After any run, every order is what some request of that run asked for, under the identifier drawn for that
      request, and its announcement tells the inventory exactly that. */
  lemma OrderedAsRequested(steps: seq<Step>, o: Uuid)
    requires Feasible(START, steps) && o in Exec(START, steps).orders.orders
    ensures var s := Exec(START, steps);
            exists k | 0 <= k < |steps| ::
              && steps[k].Place? && steps[k].id == o
              && AsRequested(s.orders.orders[o], steps[k].request)
              && (forall m | m in s.orders.outbox && m.OrderCreated? && m.orderId == o ::
                    && m.productId == steps[k].request.productId && m.quantity == steps[k].request.quantity
                    && m.paymentType == steps[k].request.paymentType)
  {
    var s := Exec(START, steps);
    OrderOrigin(START, steps, o);
    var k :| 0 <= k < |steps| && steps[k].Place? && steps[k].id == o && AsRequested(s.orders.orders[o], steps[k].request);
    RunKeepsInvariant(START, steps);
    forall m | m in s.orders.outbox && m.OrderCreated? && m.orderId == o
      ensures m.productId == steps[k].request.productId && m.quantity == steps[k].request.quantity
      ensures m.paymentType == steps[k].request.paymentType
    {
      AnnouncedAsStored(s, m);
    }
  }

  lemma AnnouncedAsStored(s: System, m: Message)
    requires Inv(s) && InOutbox(s, m) && m.OrderCreated?
    ensures m.orderId in s.orders.orders
    ensures var order := s.orders.orders[m.orderId];
            m.productId == order.productId && m.quantity == order.quantity && m.paymentType == order.paymentType
  {
    PublishedInView(s, m);
    assert CoherentIn(s, m.orderId);
  }

  // ---- Prices ----

  lemma PriceOneStep(s: System, step: Step, p: int)
    requires p in Next(s, step).inventory.products
    ensures var price := Next(s, step).inventory.products[p];
            || (p in s.inventory.products && s.inventory.products[p] == price)
            || step == CreateProduct(p, price)
  {
  }

  /** After any run, every price is one that an administrator gave that product. */
  lemma {:induction false} PriceOrigin(s: System, steps: seq<Step>, p: int)
    requires p in Exec(s, steps).inventory.products
    ensures var price := Exec(s, steps).inventory.products[p];
            || (p in s.inventory.products && s.inventory.products[p] == price)
            || CreateProduct(p, price) in steps
    decreases |steps|
  {
    if steps != [] {
      var t := Next(s, steps[0]);
      PriceOrigin(t, steps[1..], p);
      if p in t.inventory.products && t.inventory.products[p] == Exec(s, steps).inventory.products[p] {
        PriceOneStep(s, steps[0], p);
      }
    }
  }

  // ---- Bills ----

  /** The price of the product ordered times the quantity ordered, in 32 bits. */
  predicate Bills(s: System, o: Uuid, amount: int, paymentType: PaymentType) {
    && o in s.orders.orders
    && var order := s.orders.orders[o];
    && order.productId in s.inventory.products
    && amount == WrapInt(s.inventory.products[order.productId] * order.quantity)
    && paymentType == order.paymentType
  }

  /** In every reachable state, every reservation event ever written or published bills its order's price times
      quantity, by the order's payment type. */
  lemma EventBills(s: System, m: Message)
    requires Reachable(s) && m.InventoryReserved? && (InOutbox(s, m) || m in s.published)
    ensures Bills(s, m.orderId, m.amount, m.paymentType)
  {
    ReachableInvariant(s);
    PublishedInView(s, m);
    assert CoherentIn(s, m.orderId);
  }

  /** So does every payment. */
  lemma PaymentBills(s: System, p: Payments.Payment)
    requires Reachable(s) && p in s.payments.payments
    ensures Bills(s, p.orderId, p.amount, p.paymentType)
  {
    ReachableInvariant(s);
    OfMember(s.payments.payments, Payments.PaymentOrder, p.orderId, p);
    assert CoherentIn(s, p.orderId);
  }

  // ---- Payments ----

  lemma {:induction false} RunKeepsOneEach(s: System, steps: seq<Step>)
    requires PaymentWorkers.OneEach(s.payments)
    ensures PaymentWorkers.OneEach(Exec(s, steps).payments)
    decreases |steps|
  {
    if steps != [] {
      var step := steps[0];
      if step.Handle? && step.message.InventoryReserved? {
        var m := step.message;
        PaymentWorkers.PaymentKeepsOneEach(
          s.payments, Payments.ReservedEvent(m.orderId, m.amount, m.paymentType), step.freshId);
      }
      RunKeepsOneEach(Next(s, step), steps[1..]);
    }
  }

  /** In every reachable state payments and outcome events correspond one to one: same order, same payment
      identifier, same outcome and reason; each payment is decided by the rule. */
  lemma PaymentsTold(s: System)
    requires Reachable(s)
    ensures PaymentWorkers.OneEach(s.payments)
  {
    var steps :| Feasible(START, steps) && Exec(START, steps) == s;
    RunKeepsOneEach(START, steps);
  }

  lemma PaymentOneStep(s: System, step: Step, p: Payments.Payment)
    requires p in Next(s, step).payments.payments
    ensures p in s.payments.payments || step == Handle(InventoryReserved(p.orderId, p.amount, p.paymentType), p.id)
  {
    if step.Handle? && step.message.InventoryReserved? {
      var m := step.message;
      var event := Payments.ReservedEvent(m.orderId, m.amount, m.paymentType);
      Payments.ProcessEffect(s.payments, event, step.freshId);
      var rows := Next(s, step).payments.payments;
      var i :| 0 <= i < |rows| && rows[i] == p;
      assert i < |s.payments.payments| ==> rows[i] == s.payments.payments[i];
    }
  }

  /** After any run, every payment was made by handling an event of its order, amount and type, under the
      identifier drawn by that handler. */
  lemma {:induction false} PaymentOrigin(s: System, steps: seq<Step>, p: Payments.Payment)
    requires p in Exec(s, steps).payments.payments
    ensures p in s.payments.payments || Handle(InventoryReserved(p.orderId, p.amount, p.paymentType), p.id) in steps
    decreases |steps|
  {
    if steps != [] {
      PaymentOrigin(Next(s, steps[0]), steps[1..], p);
      if p in Next(s, steps[0]).payments.payments {
        PaymentOneStep(s, steps[0], p);
      }
    }
  }
}
