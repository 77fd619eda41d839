/** The orders service: its `orders` and `outbox` tables, and the three operations on them. */
module Orders {
  import opened Base
  import opened Messages

  datatype OrderStatus = Pending | Confirmed | Canceled

  datatype Order = Order(
    idempotencyKey: Uuid,
    productId: int,
    quantity: int,
    paymentType: PaymentType,
    status: OrderStatus,
    reason: Option<Reason>)

  datatype OrderRequest = OrderRequest(
    idempotencyKey: Uuid,
    productId: int,
    quantity: int,
    paymentType: PaymentType)

  /** `outbox` holds the events in insertion order; how a relay marks them is modelled in `Outbox`. */
  datatype OrdersState = OrdersState(orders: map<Uuid, Order>, outbox: seq<Message>)

  datatype Outcome = Done | Skipped | Conflict | Failed

  datatype Result = Result(state: OrdersState, outcome: Outcome)

  /** The UNIQUE constraint on `idempotency_key`. */
  predicate KeyTaken(orders: map<Uuid, Order>, key: Uuid) {
    exists id | id in orders :: orders[id].idempotencyKey == key
  }

  /** The CHECK on `quantity` and the INT columns. */
  predicate Storable(request: OrderRequest) {
    0 < request.quantity <= INT_MAX && FitsInt(request.productId)
  }

  function AfterCreate(st: OrdersState, id: Uuid, request: OrderRequest): Result {
    if !Storable(request) then Result(st, Failed)
    else if id in st.orders || KeyTaken(st.orders, request.idempotencyKey) then Result(st, Conflict)
    else
      var order := Order(request.idempotencyKey, request.productId, request.quantity,
                         request.paymentType, Pending, None);
      var event := OrderCreated(id, request.productId, request.quantity, request.paymentType);
      Result(OrdersState(st.orders[id := order], st.outbox + [event]), Done)
  }

  function AfterCancel(st: OrdersState, id: Uuid, reason: Reason): Result {
    if id in st.orders && st.orders[id].status == Pending then
      var order := st.orders[id].(status := Canceled, reason := Some(reason));
      Result(st.(orders := st.orders[id := order]), Done)
    else
      Result(st, Done)
  }

  function AfterConfirm(st: OrdersState, id: Uuid): Result {
    if id in st.orders && st.orders[id].status == Pending then
      var order := st.orders[id].(status := Confirmed);
      Result(OrdersState(st.orders[id := order], st.outbox + [OrderConfirmed(id)]), Done)
    else
      Result(st, Skipped)
  }

  // ---- What the three operations do, in terms of the rows alone ----

  /** An order is created exactly from a storable request under a new identifier and an unused key. Anything
      else changes nothing: a request that cannot be stored fails, any other is a conflict. */
  lemma CreateOutcome(st: OrdersState, id: Uuid, request: OrderRequest)
    ensures AfterCreate(st, id, request).outcome.Failed? <==>
            !(0 < request.quantity <= 0x7FFF_FFFF && -0x8000_0000 <= request.productId <= 0x7FFF_FFFF)
    ensures AfterCreate(st, id, request).outcome.Done? <==>
            && 0 < request.quantity <= 0x7FFF_FFFF && -0x8000_0000 <= request.productId <= 0x7FFF_FFFF
            && id !in st.orders
            && forall other | other in st.orders :: st.orders[other].idempotencyKey != request.idempotencyKey
    ensures !AfterCreate(st, id, request).outcome.Skipped?
    ensures !AfterCreate(st, id, request).outcome.Done? ==> AfterCreate(st, id, request).state == st
  {
    assert KeyTaken(st.orders, request.idempotencyKey) <==>
           exists other | other in st.orders :: st.orders[other].idempotencyKey == request.idempotencyKey;
  }

  /** The new row and its one event carry what was requested, and every other row stays. */
  lemma CreateEffect(st: OrdersState, id: Uuid, request: OrderRequest)
    requires AfterCreate(st, id, request).outcome.Done?
    ensures var after := AfterCreate(st, id, request).state;
            && after.orders.Keys == st.orders.Keys + {id}
            && (forall other | other in st.orders :: after.orders[other] == st.orders[other])
            && after.orders[id] == Order(request.idempotencyKey, request.productId, request.quantity,
                                         request.paymentType, Pending, None)
            && after.outbox == st.outbox + [OrderCreated(id, request.productId, request.quantity, request.paymentType)]
  {
  }

  /** Only a pending order is canceled: its row gets the status and the reason, and there is no event. */
  lemma CancelEffect(st: OrdersState, id: Uuid, reason: Reason)
    ensures var r := AfterCancel(st, id, reason);
            && r.outcome == Done && r.state.outbox == st.outbox && r.state.orders.Keys == st.orders.Keys
            && (forall other | other in st.orders && other != id :: r.state.orders[other] == st.orders[other])
            && (id in st.orders ==>
                  var before, after := st.orders[id], r.state.orders[id];
                  if before.status == Pending
                  then after == Order(before.idempotencyKey, before.productId, before.quantity, before.paymentType,
                                      Canceled, Some(reason))
                  else after == before)
  {
  }

  /** Only a pending order is confirmed, once, with its event; the answer is whether that happened. */
  lemma ConfirmEffect(st: OrdersState, id: Uuid)
    ensures var r := AfterConfirm(st, id);
            && (r.outcome == Done <==> id in st.orders && st.orders[id].status == Pending)
            && (r.outcome != Done ==> r.outcome == Skipped && r.state == st)
            && (r.outcome == Done ==>
                  var before := st.orders[id];
                  && r.state.orders.Keys == st.orders.Keys
                  && (forall other | other in st.orders && other != id :: r.state.orders[other] == st.orders[other])
                  && r.state.orders[id] == Order(before.idempotencyKey, before.productId, before.quantity,
                                                 before.paymentType, Confirmed, before.reason)
                  && r.state.outbox == st.outbox + [OrderConfirmed(id)])
  {
  }

  class OrderService {
    var orders: map<Uuid, Order>
    var outbox: seq<Message>

    constructor ()
      ensures State() == OrdersState(map[], [])
    {
      orders, outbox := map[], [];
    }

    function State(): OrdersState
      reads this
    {
      OrdersState(orders, outbox)
    }

    /** The INSERT of a new order. */
    method Save(id: Uuid, request: OrderRequest, fault: Fault) returns (r: Outcome)
      modifies this`orders
      ensures r == if fault == AtRow then Failed else AfterCreate(old(State()), id, request).outcome
      ensures orders == if r == Done then AfterCreate(old(State()), id, request).state.orders else old(orders)
    {
      if fault == AtRow || !Storable(request) {
        return Failed;
      }
      if id in orders || KeyTaken(orders, request.idempotencyKey) {
        return Conflict;
      }
      orders := orders[id := Order(request.idempotencyKey, request.productId, request.quantity,
                                   request.paymentType, Pending, None)];
      return Done;
    }

    /** The UPDATE to CANCELED, guarded by `status = 'PENDING'`. */
    method UpdateStatusToCanceled(id: Uuid, reason: Reason)
      modifies this`orders
      ensures orders == AfterCancel(old(State()), id, reason).state.orders
    {
      if id in orders && orders[id].status == Pending {
        orders := orders[id := orders[id].(status := Canceled, reason := Some(reason))];
      }
    }

    /** The UPDATE to CONFIRMED, guarded by `status = 'PENDING'`; `updated` is whether it affected a row. */
    method UpdateStatusToConfirmed(id: Uuid) returns (updated: bool)
      modifies this`orders
      ensures updated <==> AfterConfirm(old(State()), id).outcome == Done
      ensures orders == AfterConfirm(old(State()), id).state.orders
    {
      updated := id in orders && orders[id].status == Pending;
      if updated {
        orders := orders[id := orders[id].(status := Confirmed)];
      }
    }

    method CreateOrder(id: Uuid, request: OrderRequest, fault: Fault) returns (r: Outcome)
      modifies this
      ensures fault == NoFault ==> Result(State(), r) == AfterCreate(old(State()), id, request)
      ensures fault != NoFault ==> State() == old(State())
      ensures fault == AtBegin || fault == AtRow ==> r == Failed
      ensures fault == AtOutbox || fault == AtCommit ==>
                var whole := AfterCreate(old(State()), id, request).outcome;
                r == if whole == Done then Failed else whole
    {
      if fault == AtBegin {
        return Failed;
      }
      var ordersAtBegin, outboxAtBegin := orders, outbox;

      r := Save(id, request, fault);
      if r != Done {
        orders, outbox := ordersAtBegin, outboxAtBegin;
        return;
      }

      outbox := outbox + [OrderCreated(id, request.productId, request.quantity, request.paymentType)];
      if fault == AtOutbox || fault == AtCommit {
        orders, outbox := ordersAtBegin, outboxAtBegin;
        return Failed;
      }
    }

    method CancelOrder(id: Uuid, reason: Reason, fault: Fault) returns (r: Outcome)
      modifies this
      ensures fault == NoFault ==> Result(State(), r) == AfterCancel(old(State()), id, reason)
      ensures fault != NoFault ==> State() == old(State()) && r == Failed
    {
      if fault != NoFault {
        return Failed;
      }
      UpdateStatusToCanceled(id, reason);
      return Done;
    }

    method ConfirmOrder(id: Uuid, fault: Fault) returns (r: Outcome)
      modifies this
      ensures fault == NoFault ==> Result(State(), r) == AfterConfirm(old(State()), id)
      ensures fault != NoFault ==> State() == old(State())
      ensures fault == AtBegin || fault == AtRow ==> r == Failed
      ensures fault == AtOutbox || fault == AtCommit ==>
                r == if AfterConfirm(old(State()), id).outcome == Done then Failed else Skipped
    {
      if fault == AtBegin || fault == AtRow {
        return Failed;
      }
      var ordersAtBegin, outboxAtBegin := orders, outbox;

      var updated := UpdateStatusToConfirmed(id);
      if !updated {
        return Skipped;
      }

      outbox := outbox + [OrderConfirmed(id)];
      if fault == AtOutbox || fault == AtCommit {
        orders, outbox := ordersAtBegin, outboxAtBegin;
        return Failed;
      }
      return Done;
    }
  }
}
