/** The handlers that overwrite a reservation without looking at its status are safe, in every run. */
module Reservations {
  import opened Base
  import opened Messages
  import opened Rows
  import opened Saga
  import opened Invariant
  import opened Theorems
  import Inventory

  /** The first two skips of the release handler and the skip of the confirm handler never happen;
      a release rolls back only on overflow, a reserve never. */
  lemma NoUnexpectedSkips(s: System, m: Message)
    requires Reachable(s) && m in s.published
    ensures m.OrderCreated? ==>
              !Inventory.AfterReserve(s.inventory, Inventory.ReserveCommand(m.orderId, m.productId, m.quantity,
                                                                           m.paymentType)).outcome.RolledBack?
    ensures m.OrderConfirmed? ==> Inventory.AfterConfirm(s.inventory, m.orderId).outcome.Done?
    ensures m.PaymentDenied? ==>
              var outcome := Inventory.AfterRelease(s.inventory, m.orderId, m.reason).outcome;
              && !outcome.NoReservation? && !outcome.NoStock?
              && (outcome.RolledBack? <==> PhaseIn(s, m.orderId) == Denied && ReleaseOverflows(s, m.orderId))
  {
    ReachableInvariant(s);
    match m
    case OrderCreated(o, p, q, t) =>
      ReserveDue(s, m);
      ReserveTables(s.inventory, Inventory.ReserveCommand(o, p, q, t));
    case OrderConfirmed(_) => ReservationConfirmStep(s, m, 0);
    case PaymentDenied(_, _, _) => ReleaseOutcome(s, m);
    case _ =>
  }

  /** Row `i` is still the same booking, and a status other than RESERVED is final. */
  predicate RowKept(s: System, t: System, i: nat)
    requires i < |s.inventory.reservations|
  {
    && i < |t.inventory.reservations|
    && var row, later := s.inventory.reservations[i], t.inventory.reservations[i];
    later == row || (row.status.Reserved? && later == row.(status := later.status))
  }

  /** An accepted or denied order still has its stock reserved. */
  lemma ReservedPosition(s: System, o: Uuid) returns (j: nat)
    requires Inv(s) && (PhaseIn(s, o) == Accepted || PhaseIn(s, o) == Denied)
    ensures j < |s.inventory.reservations| && s.inventory.reservations[j].status.Reserved?
    ensures Find(s.inventory.reservations, Inventory.ReservationOrder, o) == OneRow(j)
  {
    assert CoherentIn(s, o);
    j := HeldPosition(s, o);
  }

  lemma HandlerKeepsRow(s: System, m: Message, freshId: Uuid, i: nat)
    requires Inv(s) && m in s.published && i < |s.inventory.reservations|
    ensures RowKept(s, AfterHandle(s, m, freshId), i)
  {
    HandlerMoves(s, m, freshId);
    if PhaseIn(s, m.orderId) == Source(m) && (m.OrderConfirmed? || m.PaymentDenied?) {
      var j := ReservedPosition(s, m.orderId);
    }
  }

  lemma StepKeepsRow(s: System, step: Step, i: nat)
    requires Inv(s) && Enabled(s, step) && i < |s.inventory.reservations|
    ensures RowKept(s, Next(s, step), i)
  {
    if step.Handle? {
      HandlerKeepsRow(s, step.message, step.freshId, i);
    }
  }

  /** Over every run a reservation row keeps its order, product and quantity, and its status changes
      at most once: RESERVED to CONFIRMED or to RELEASED, never between those two. */
  lemma {:induction false} ReservationHistory(s: System, steps: seq<Step>, i: nat)
    requires Inv(s) && Feasible(s, steps) && i < |s.inventory.reservations|
    ensures RowKept(s, Exec(s, steps), i)
    decreases |steps|
  {
    if steps != [] {
      StepKeepsRow(s, steps[0], i);
      StepKeepsInvariant(s, steps[0]);
      ReservationHistory(Next(s, steps[0]), steps[1..], i);
    }
  }
}
