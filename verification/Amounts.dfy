/** The payment rule end to end: from the price in one service to the confirmed order in another,
    through a product of two 32-bit integers. */
module Amounts {
  import opened Base
  import opened Messages
  import opened Saga
  import opened Invariant
  import opened Theorems
  import Orders
  import Payments
  import Convergence

  /** What the order costs, without any width. */
  function Total(s: System, o: Uuid): int
    requires o in s.orders.orders && s.orders.orders[o].productId in s.inventory.products
  {
    s.inventory.products[s.orders.orders[o].productId] * s.orders.orders[o].quantity
  }

  /** In every reachable state the payment of an order was decided by the rule, on the wrapped total. */
  lemma PaymentRule(s: System, o: Uuid)
    requires Reachable(s) && o in s.orders.orders && !PaymentRow(s, o).NoRow?
    ensures s.orders.orders[o].productId in s.inventory.products
    ensures var order := s.orders.orders[o];
            Paid(s, o, Payments.Authorized) <==>
              && order.paymentType != Boleto
              && !(order.paymentType == CreditCard && WrapInt(Total(s, o)) > Payments.CREDIT_CARD_LIMIT)
  {
    ReachableInvariant(s);
    RowsInView(s, o);
    assert CoherentIn(s, o);
  }

  /** A confirmed order is never a boleto; a confirmed credit-card order respects the limit
      exactly when its total fits in 32 bits. */
  lemma ConfirmedRespectsLimit(s: System, o: Uuid)
    requires Reachable(s) && o in s.orders.orders && s.orders.orders[o].status.Confirmed?
    ensures s.orders.orders[o].productId in s.inventory.products
    ensures s.orders.orders[o].paymentType != Boleto
    ensures s.orders.orders[o].paymentType == CreditCard ==>
              (Total(s, o) <= Payments.CREDIT_CARD_LIMIT <==> FitsInt(Total(s, o)))
  {
    ReachableInvariant(s);
    Agreement(s, o);
    PaymentRule(s, o);
    assert CoherentIn(s, o);
    var order := s.orders.orders[o];
    NonNegativeProduct(s.inventory.products[order.productId], order.quantity);
  }

  lemma NonNegativeProduct(a: int, b: int)
    requires a >= 0 && b >= 0
    ensures a * b >= 0
  {
  }

  /** What was ordered, and what it costs, never changes. */
  predicate BillKept(s: System, t: System, o: Uuid) {
    && (o in s.orders.orders ==>
          && o in t.orders.orders
          && var a, b := s.orders.orders[o], t.orders.orders[o];
          b.productId == a.productId && b.quantity == a.quantity && b.paymentType == a.paymentType)
    && (forall p | p in s.inventory.products ::
          p in t.inventory.products && t.inventory.products[p] == s.inventory.products[p])
  }

  lemma StepKeepsBill(s: System, step: Step, o: Uuid)
    ensures BillKept(s, Next(s, step), o)
  {
  }

  lemma {:induction false} RunKeepsBill(s: System, steps: seq<Step>, o: Uuid)
    ensures BillKept(s, Exec(s, steps), o)
    decreases |steps|
  {
    if steps != [] {
      StepKeepsBill(s, steps[0], o);
      RunKeepsBill(Next(s, steps[0]), steps[1..], o);
    }
  }

  const HIGH_PRICE: int := 0x1_0000

  /** A product of price 65536, as many in stock, and one credit-card order for all of them. */
  const BIG_ORDER: seq<Step> := [
    CreateProduct(1, HIGH_PRICE),
    CreateStock(1, HIGH_PRICE),
    Place(7, Orders.OrderRequest(0, 1, HIGH_PRICE, CreditCard))]

  lemma BigOrderPlaced(s: System)
    requires s == Exec(START, BIG_ORDER)
    ensures Feasible(START, BIG_ORDER) && Inv(s)
    ensures 7 in s.orders.orders && s.orders.orders[7].productId in s.inventory.products
    ensures s.orders.orders[7].paymentType == CreditCard && Total(s, 7) == 0x1_0000_0000
    ensures PhaseIn(s, 7) == Placed && Convergence.Verdict(s, 7) == Done
  {
    var s1 := Next(START, BIG_ORDER[0]);
    var s2 := Next(s1, BIG_ORDER[1]);
    assert BIG_ORDER[1..][0] == BIG_ORDER[1] && BIG_ORDER[1..][1..] == [BIG_ORDER[2]];
    assert Exec(s2, [BIG_ORDER[2]]) == Next(s2, BIG_ORDER[2]) && Feasible(s2, [BIG_ORDER[2]]);
    assert Exec(s1, BIG_ORDER[1..]) == s && Feasible(s1, BIG_ORDER[1..]);
    assert Reachable(s);
    ReachableInvariant(s);
  }

  /** The wrap is real: an order worth 2^32 reaches CONFIRMED although the limit is 10000. */
  lemma LimitMissedByOverflow() returns (s: System)
    ensures Reachable(s)
    ensures 7 in s.orders.orders && s.orders.orders[7].status.Confirmed?
    ensures s.orders.orders[7].paymentType == CreditCard
    ensures s.orders.orders[7].productId in s.inventory.products
    ensures Total(s, 7) > Payments.CREDIT_CARD_LIMIT
  {
    var placed := Exec(START, BIG_ORDER);
    BigOrderPlaced(placed);
    var rest := Convergence.CanFinish(placed, 7);
    s := Exec(placed, rest);
    ExecAppend(START, BIG_ORDER, rest);
    RunKeepsBill(placed, rest, 7);
    DoneMeansConfirmed(s, 7);
  }

  lemma DoneMeansConfirmed(s: System, o: Uuid)
    requires PhaseIn(s, o) == Done
    ensures o in s.orders.orders && s.orders.orders[o].status.Confirmed?
  {
  }
}
