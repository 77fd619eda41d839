/** The payments service: its `payments` and `outbox_events` tables. */
module Payments {
  import opened Base
  import opened Messages

  datatype PaymentStatus = Authorized | Denied

  datatype Payment = Payment(
    id: Uuid,
    orderId: Uuid,
    amount: int,
    paymentType: PaymentType,
    status: PaymentStatus,
    reason: Option<Reason>)

  function PaymentOrder(p: Payment): Uuid {
    p.orderId
  }

  datatype PaymentsState = PaymentsState(payments: seq<Payment>, outbox: seq<Message>)

  datatype Outcome = Done | Skipped | Failed

  datatype Result = Result(state: PaymentsState, outcome: Outcome)

  datatype ReservedEvent = ReservedEvent(orderId: Uuid, amount: int, paymentType: PaymentType)

  datatype Decision = Decision(status: PaymentStatus, reason: Option<Reason>)

  const CREDIT_CARD_LIMIT: int := 10000

  function Evaluate(event: ReservedEvent): (d: Decision)
    ensures d.status == Denied <==> event.paymentType == Boleto
                                    || (event.paymentType == CreditCard && event.amount > CREDIT_CARD_LIMIT)
    ensures d.reason == if event.paymentType == Boleto then Some(BoletoNotAccepted)
                        else if d.status == Denied then Some(AmountExceeded) else None
  {
    if event.paymentType == Boleto then Decision(Denied, Some(BoletoNotAccepted))
    else if event.paymentType == CreditCard && event.amount > CREDIT_CARD_LIMIT then Decision(Denied, Some(AmountExceeded))
    else Decision(Authorized, None)
  }

  function Decided(event: ReservedEvent, paymentId: Uuid): Payment {
    var d := Evaluate(event);
    Payment(paymentId, event.orderId, event.amount, event.paymentType, d.status, d.reason)
  }

  /** The outbox event announcing a payment. */
  function Announce(p: Payment): Message
    requires p.status == Denied ==> p.reason.Some?
  {
    if p.status == Authorized then PaymentAuthorized(p.orderId, p.id)
    else PaymentDenied(p.orderId, p.id, p.reason.value)
  }

  predicate ExistsByOrderId(payments: seq<Payment>, o: Uuid) {
    exists p | p in payments :: p.orderId == o
  }

  /** The primary key and UNIQUE (order_id) together. */
  predicate DuplicateKey(payments: seq<Payment>, payment: Payment) {
    exists p | p in payments :: p.orderId == payment.orderId || p.id == payment.id
  }

  function AfterPayment(st: PaymentsState, event: ReservedEvent, paymentId: Uuid): Result {
    var payment := Decided(event, paymentId);
    if ExistsByOrderId(st.payments, event.orderId) then Result(st, Skipped)
    else if DuplicateKey(st.payments, payment) then Result(st, Failed)
    else Result(PaymentsState(st.payments + [payment], st.outbox + [Announce(payment)]), Done)
  }

  /** The limit in figures: the first amount refused by credit card is 10001. */
  lemma LimitInFigures(o: Uuid)
    ensures Evaluate(ReservedEvent(o, 10000, CreditCard)) == Decision(Authorized, None)
    ensures Evaluate(ReservedEvent(o, 10001, CreditCard)) == Decision(Denied, Some(AmountExceeded))
    ensures Evaluate(ReservedEvent(o, 10001, Pix)) == Decision(Authorized, None)
  {
  }

  /** A payment decided by the rule, with the reason that goes with a denial. */
  predicate ByRule(p: Payment) {
    && (p.status == Denied <==> p.paymentType == Boleto || (p.paymentType == CreditCard && p.amount > 10000))
    && p.reason == if p.paymentType == Boleto then Some(BoletoNotAccepted)
                   else if p.paymentType == CreditCard && p.amount > 10000 then Some(AmountExceeded)
                   else None
  }

  /** The event tells the outcome of exactly this payment: its order, its identifier, and the reason of a denial. */
  predicate Tells(m: Message, p: Payment) {
    && (m.PaymentAuthorized? || m.PaymentDenied?)
    && m.orderId == p.orderId && m.paymentId == p.id
    && (m.PaymentAuthorized? <==> p.status == Authorized)
    && (m.PaymentDenied? ==> p.reason == Some(m.reason))
  }

  /** An order is paid at most once, under an identifier not used before; then one payment of the amount and
      type received is stored under that identifier, decided by the rule, with the one event that tells it. */
  lemma ProcessEffect(st: PaymentsState, event: ReservedEvent, paymentId: Uuid)
    ensures var r := AfterPayment(st, event, paymentId);
            var paid := exists p | p in st.payments :: p.orderId == event.orderId;
            var taken := exists p | p in st.payments :: p.id == paymentId;
            && (r.outcome == Skipped <==> paid)
            && (r.outcome == Failed <==> !paid && taken)
            && (r.outcome == Done <==> !paid && !taken)
            && (r.outcome != Done ==> r.state == st)
            && (r.outcome == Done ==>
                  && |r.state.payments| == |st.payments| + 1 && st.payments <= r.state.payments
                  && |r.state.outbox| == |st.outbox| + 1 && st.outbox <= r.state.outbox
                  && var p := r.state.payments[|st.payments|];
                  && p.id == paymentId && p.orderId == event.orderId
                  && p.amount == event.amount && p.paymentType == event.paymentType
                  && ByRule(p) && Tells(r.state.outbox[|st.outbox|], p))
  {
  }

  class PaymentService {
    var payments: seq<Payment>
    var outbox: seq<Message>

    constructor ()
      ensures State() == PaymentsState([], [])
    {
      payments, outbox := [], [];
    }

    function State(): PaymentsState
      reads this
    {
      PaymentsState(payments, outbox)
    }

    /** The INSERT of a payment; a duplicate key is an error. */
    method Save(payment: Payment, fault: Fault) returns (ok: bool)
      modifies this`payments
      ensures ok <==> fault != AtRow && !DuplicateKey(old(payments), payment)
      ensures payments == if ok then old(payments) + [payment] else old(payments)
    {
      ok := fault != AtRow && !DuplicateKey(payments, payment);
      if ok {
        payments := payments + [payment];
      }
    }

    method ProcessPayment(event: ReservedEvent, paymentId: Uuid, fault: Fault) returns (r: Outcome)
      modifies this
      ensures fault == NoFault ==> Result(State(), r) == AfterPayment(old(State()), event, paymentId)
      ensures fault != NoFault ==> State() == old(State())
      ensures fault != NoFault ==> r == if AfterPayment(old(State()), event, paymentId).outcome == Skipped
                                        then Skipped else Failed
    {
      if ExistsByOrderId(payments, event.orderId) {
        return Skipped;
      }

      var decision := Evaluate(event);
      var payment := Payment(paymentId, event.orderId, event.amount, event.paymentType, decision.status, decision.reason);
      var announcement;
      if decision.status == Authorized {
        announcement := PaymentAuthorized(event.orderId, paymentId);
      } else {
        announcement := PaymentDenied(event.orderId, paymentId, decision.reason.value);
      }

      if fault == AtBegin {
        return Failed;
      }
      var paymentsAtBegin, outboxAtBegin := payments, outbox;
      var saved := Save(payment, fault);
      if !saved {
        return Failed;
      }
      outbox := outbox + [announcement];
      if fault == AtOutbox || fault == AtCommit {
        payments, outbox := paymentsAtBegin, outboxAtBegin;
        return Failed;
      }
      return Done;
    }
  }
}
