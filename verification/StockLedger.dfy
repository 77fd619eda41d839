/** Conservation of stock: what is available plus what is held equals what administrators supplied. */
module StockLedger {
  import opened Base
  import opened Messages
  import opened Rows
  import opened Saga
  import opened Invariant
  import opened Theorems
  import Inventory
  import Convergence

  /** Units of product `p` in reservations that have not been released. */
  function HeldUnits(rows: seq<Inventory.Reservation>, p: int): int {
    if rows == [] then 0
    else
      var row := rows[|rows| - 1];
      HeldUnits(rows[..|rows| - 1], p) + (if row.productId == p && !row.status.Released? then row.quantity else 0)
  }

  function Available(inv: Inventory.InventoryState, p: int): int {
    if p in inv.stocks then inv.stocks[p] else 0
  }

  function Balance(inv: Inventory.InventoryState, p: int): int {
    Available(inv, p) + HeldUnits(inv.reservations, p)
  }

  /** What one step supplies: the difference that an administrator's step makes to the stock table. */
  function Supplied(s: System, step: Step, p: int): int {
    if step.CreateProduct? || step.CreateStock? || step.UpdateQuantity?
    then Available(Next(s, step).inventory, p) - Available(s.inventory, p)
    else 0
  }

  /** In figures: a new stock row supplies its quantity, an overwrite the difference to the old one, lower or
      higher; anything else, and anything the database refuses, supplies nothing. */
  lemma SuppliedInFigures(s: System, step: Step, p: int)
    ensures Supplied(s, step, p) ==
            match step
            case CreateStock(product, q) =>
              if product == p && p in s.inventory.products && p !in s.inventory.stocks && 0 <= q <= 0x7FFF_FFFF then q else 0
            case UpdateQuantity(product, q) =>
              if product == p && p in s.inventory.stocks && 0 <= q <= 0x7FFF_FFFF then q - s.inventory.stocks[p] else 0
            case _ => 0
  {
    match step
    case CreateStock(product, q) => Inventory.CreateStockEffect(s.inventory, product, q);
    case UpdateQuantity(product, q) => Inventory.OverwriteEffect(s.inventory, product, q);
    case _ =>
  }

  /** The supply of `p` over a whole run, from the administrators' steps alone. */
  function Supply(s: System, steps: seq<Step>, p: int): int
    decreases |steps|
  {
    if steps == [] then 0
    else Supplied(s, steps[0], p) + Supply(Next(s, steps[0]), steps[1..], p)
  }

  lemma HeldAppend(rows: seq<Inventory.Reservation>, row: Inventory.Reservation, p: int)
    ensures HeldUnits(rows + [row], p)
            == HeldUnits(rows, p) + (if row.productId == p && !row.status.Released? then row.quantity else 0)
  {
    assert (rows + [row])[..|rows|] == rows;
  }

  lemma {:induction false} HeldUpdate(rows: seq<Inventory.Reservation>, i: nat, status: Inventory.ReservationStatus, p: int)
    requires i < |rows|
    ensures var row := rows[i];
            HeldUnits(rows[i := row.(status := status)], p) == HeldUnits(rows, p)
              + (if row.productId != p then 0
                 else (if status.Released? then 0 else row.quantity) - (if row.status.Released? then 0 else row.quantity))
  {
    var last := |rows| - 1;
    var updated := rows[i := rows[i].(status := status)];
    if i == last {
      assert updated[..last] == rows[..last];
    } else {
      assert updated[..last] == rows[..last][i := rows[i].(status := status)];
      HeldUpdate(rows[..last], i, status, p);
    }
  }

  lemma {:induction false} HeldAtLeast(rows: seq<Inventory.Reservation>, i: nat, p: int)
    requires i < |rows| && rows[i].productId == p && !rows[i].status.Released?
    requires forall k | 0 <= k < |rows| :: rows[k].quantity > 0
    ensures HeldUnits(rows, p) >= rows[i].quantity
  {
    if i < |rows| - 1 {
      HeldAtLeast(rows[..|rows| - 1], i, p);
    } else {
      HeldNonNegative(rows[..i], p);
    }
  }

  lemma {:induction false} HeldNonNegative(rows: seq<Inventory.Reservation>, p: int)
    requires forall k | 0 <= k < |rows| :: rows[k].quantity > 0
    ensures HeldUnits(rows, p) >= 0
  {
    if rows != [] {
      HeldNonNegative(rows[..|rows| - 1], p);
    }
  }

  // ---- Each handler conserves the balance ----

  lemma ReserveConserves(inv: Inventory.InventoryState, command: Inventory.ReserveCommand, p: int)
    requires TablesOk(inv)
    ensures Balance(Inventory.AfterReserve(inv, command).state, p) == Balance(inv, p)
  {
    var r := Inventory.AfterReserve(inv, command);
    if r.outcome.Done? {
      assert r.state == Inventory.WithReservation(inv, command, inv.stocks[command.productId] - command.quantity);
      HeldAppend(inv.reservations, Inventory.Reservation(command.orderId, command.productId, command.quantity,
                                                        Inventory.Reserved), p);
    }
  }

  /** Releasing conserves the balance because, when it happens, the row was not released before. */
  lemma ReleaseConserves(s: System, m: Message, p: int)
    requires Inv(s) && m in s.published && m.PaymentDenied?
    ensures Balance(Inventory.AfterRelease(s.inventory, m.orderId, m.reason).state, p) == Balance(s.inventory, p)
  {
    ReleaseOutcome(s, m);
    if PhaseIn(s, m.orderId) == Denied && !ReleaseOverflows(s, m.orderId) {
      var i := HeldPosition(s, m.orderId);
      assert !s.inventory.reservations[i].status.Released?;
      HeldUpdate(s.inventory.reservations, i, Inventory.Released, p);
    }
  }

  /** The row that a confirmation overwrites is not a released one. */
  lemma ConfirmedRow(s: System, m: Message) returns (i: nat)
    requires Inv(s) && m in s.published && m.OrderConfirmed?
    ensures i < |s.inventory.reservations| && !s.inventory.reservations[i].status.Released?
    ensures Find(s.inventory.reservations, Inventory.ReservationOrder, m.orderId) == OneRow(i)
  {
    PublishedInView(s, m);
    assert CoherentIn(s, m.orderId);
    i := HeldPosition(s, m.orderId);
  }

  /** Confirming conserves the balance because the row it overwrites was never a released one. */
  lemma ConfirmConserves(s: System, m: Message, p: int)
    requires Inv(s) && m in s.published && m.OrderConfirmed?
    ensures Balance(Inventory.AfterConfirm(s.inventory, m.orderId).state, p) == Balance(s.inventory, p)
  {
    var i := ConfirmedRow(s, m);
    HeldUpdate(s.inventory.reservations, i, Inventory.Confirmed, p);
  }

  lemma StepConserves(s: System, step: Step, p: int)
    requires Inv(s) && Enabled(s, step)
    ensures Balance(Next(s, step).inventory, p) == Balance(s.inventory, p) + Supplied(s, step, p)
  {
    if step.Handle? {
      var m := step.message;
      match m
      case OrderCreated(o, product, q, t) =>
        ReserveConserves(s.inventory, Inventory.ReserveCommand(o, product, q, t), p);
      case OrderConfirmed(_) => ConfirmConserves(s, m, p);
      case PaymentDenied(_, _, _) => ReleaseConserves(s, m, p);
      case _ =>
    }
  }

  lemma {:induction false} RunConserves(s: System, steps: seq<Step>, p: int)
    requires Inv(s) && Feasible(s, steps)
    ensures Balance(Exec(s, steps).inventory, p) == Balance(s.inventory, p) + Supply(s, steps, p)
    decreases |steps|
  {
    if steps != [] {
      StepConserves(s, steps[0], p);
      StepKeepsInvariant(s, steps[0]);
      RunConserves(Next(s, steps[0]), steps[1..], p);
    }
  }

  /** After any run of the whole system, for every product: available + held = supplied, nothing is
      negative, and so no more is ever held than was supplied. */
  lemma Conservation(steps: seq<Step>, p: int)
    requires Feasible(START, steps)
    ensures var inv := Exec(START, steps).inventory;
            && Available(inv, p) + HeldUnits(inv.reservations, p) == Supply(START, steps, p)
            && 0 <= Available(inv, p) && 0 <= HeldUnits(inv.reservations, p) <= Supply(START, steps, p)
  {
    RunKeepsInvariant(START, steps);
    RunConserves(START, steps, p);
    HeldNonNegative(Exec(START, steps).inventory.reservations, p);
  }

  /** Hence a product supplied within 32 bits never overflows on release: no order gets stuck on it. */
  lemma SuppliedWithinIntNeverSticks(steps: seq<Step>, o: Uuid)
    requires Feasible(START, steps)
    requires var s := Exec(START, steps);
             o in s.orders.orders && Supply(START, steps, s.orders.orders[o].productId) <= INT_MAX
    ensures var s := Exec(START, steps);
            && (PhaseIn(s, o) in {Held, Denied} ==> !ReleaseOverflows(s, o))
            && Convergence.CanRelease(s, o) && !Convergence.Stuck(s, o)
  {
    var s := Exec(START, steps);
    var p := s.orders.orders[o].productId;
    RunKeepsInvariant(START, steps);
    Conservation(steps, p);
    if PhaseIn(s, o) == Held || PhaseIn(s, o) == Denied {
      assert CoherentIn(s, o);
      var i := HeldPosition(s, o);
      HeldAtLeast(s.inventory.reservations, i, p);
    }
  }
}
