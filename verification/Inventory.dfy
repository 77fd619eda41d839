/** The inventory service: products, stocks, stock reservations and its outbox.
    Every handler is one database transaction; a CHECK violation or an exception rolls it back. */
module Inventory {
  import opened Base
  import opened Messages
  import opened Rows

  datatype ReservationStatus = Reserved | Confirmed | Released

  datatype Reservation = Reservation(orderId: Uuid, productId: int, quantity: int, status: ReservationStatus)

  function ReservationOrder(r: Reservation): Uuid {
    r.orderId
  }

  /** `products` maps a product to its price, `stocks` to its available quantity (one row per product).
      `stock_reservations` has no unique order column, so it is a sequence. */
  datatype InventoryState = InventoryState(
    products: map<int, int>,
    stocks: map<int, int>,
    reservations: seq<Reservation>,
    outbox: seq<Message>)

  datatype Outcome =
    | Done              // the transaction committed its writes
    | AlreadyProcessed  // skipped: the outbox already holds the answer
    | Refused           // committed, with a failure event as the only write
    | NoReservation     // skipped: no reservation for this order
    | NoStock           // skipped: no stock row for the product
    | RolledBack        // an exception or a CHECK violation undid everything

  datatype Result = Result(state: InventoryState, outcome: Outcome)

  datatype ReserveCommand = ReserveCommand(orderId: Uuid, productId: int, quantity: int, paymentType: PaymentType)

  /** `existsByAggregateIdAndAggregateType` for the two outcomes of a reservation. */
  predicate ReserveAnswered(outbox: seq<Message>, o: Uuid) {
    exists m | m in outbox :: m.orderId == o && (m.InventoryReserved? || m.InsufficientStock?)
  }

  predicate ReleaseAnswered(outbox: seq<Message>, o: Uuid) {
    exists m | m in outbox :: m.orderId == o && m.InventoryReleased?
  }

  /** CHECK (quantity_available >= 0) on an INTEGER column. */
  predicate StorableQuantity(n: int) {
    0 <= n <= INT_MAX
  }

  /** What the customer pays: a product of two Kotlin `Int`s. */
  function Amount(price: int, quantity: int): int {
    WrapInt(price * quantity)
  }

  function WithEvent(st: InventoryState, m: Message): InventoryState {
    st.(outbox := st.outbox + [m])
  }

  function WithReservation(st: InventoryState, command: ReserveCommand, quantityAvailable: int): InventoryState
    requires command.productId in st.products
  {
    InventoryState(
      st.products,
      st.stocks[command.productId := quantityAvailable],
      st.reservations + [Reservation(command.orderId, command.productId, command.quantity, Reserved)],
      st.outbox + [InventoryReserved(command.orderId, Amount(st.products[command.productId], command.quantity),
                                     command.paymentType)])
  }

  function WithStatus(st: InventoryState, i: nat, status: ReservationStatus): InventoryState
    requires i < |st.reservations|
  {
    st.(reservations := st.reservations[i := st.reservations[i].(status := status)])
  }

  function AfterReserve(st: InventoryState, command: ReserveCommand): Result {
    var o, p := command.orderId, command.productId;
    if ReserveAnswered(st.outbox, o) then Result(st, AlreadyProcessed)
    else if p !in st.products then Result(WithEvent(st, InsufficientStock(o, ProductNotFound)), Refused)
    else if p !in st.stocks then Result(WithEvent(st, InsufficientStock(o, StockNotFound)), Refused)
    else if st.stocks[p] < command.quantity then
      Result(WithEvent(st, InsufficientStock(o, QuantityNotAvailable)), Refused)
    else
      var left := WrapInt(st.stocks[p] - command.quantity);
      if !StorableQuantity(left) || command.quantity <= 0 then Result(st, RolledBack)
      else Result(WithReservation(st, command, left), Done)
  }

  function AfterRelease(st: InventoryState, o: Uuid, reason: Reason): Result {
    if ReleaseAnswered(st.outbox, o) then Result(st, AlreadyProcessed)
    else
      match Find(st.reservations, ReservationOrder, o)
      case NoRow => Result(st, NoReservation)
      case ManyRows => Result(st, RolledBack)
      case OneRow(i) =>
        var row := st.reservations[i];
        if row.productId !in st.stocks then Result(st, NoStock)
        else
          var restored := WrapInt(st.stocks[row.productId] + row.quantity);
          if !StorableQuantity(restored) then Result(st, RolledBack)
          else
            var updated := WithStatus(st.(stocks := st.stocks[row.productId := restored]), i, Released);
            Result(WithEvent(updated, InventoryReleased(o, reason)), Done)
  }

  function AfterConfirm(st: InventoryState, o: Uuid): Result {
    match Find(st.reservations, ReservationOrder, o)
    case NoRow => Result(st, NoReservation)
    case ManyRows => Result(st, RolledBack)
    case OneRow(i) => Result(WithStatus(st, i, Confirmed), Done)
  }

  function AfterCreateProduct(st: InventoryState, p: int, price: int): Result {
    if p in st.products || !StorableQuantity(price) then Result(st, RolledBack)
    else Result(st.(products := st.products[p := price]), Done)
  }

  function AfterCreateStock(st: InventoryState, p: int, quantity: int): Result {
    if p !in st.products then Result(st, RolledBack)
    else if p in st.stocks || !StorableQuantity(quantity) then Result(st, RolledBack)
    else Result(st.(stocks := st.stocks[p := quantity]), Done)
  }

  function AfterUpdateQuantity(st: InventoryState, p: int, quantity: int): Result {
    if p !in st.stocks then Result(st, RolledBack)
    else if !StorableQuantity(quantity) then Result(st, RolledBack)
    else Result(st.(stocks := st.stocks[p := quantity]), Done)
  }

  /** Handlers never touch the product table, and only append to the outbox. */
  predicate Appends(before: InventoryState, after: InventoryState) {
    after.products == before.products && before.outbox <= after.outbox
  }

  lemma ReserveAppends(st: InventoryState, command: ReserveCommand)
    ensures Appends(st, AfterReserve(st, command).state)
  {
  }

  lemma ReleaseAppends(st: InventoryState, o: Uuid, reason: Reason)
    ensures Appends(st, AfterRelease(st, o, reason).state)
  {
  }

  // ---- What the operations do, in terms of the rows alone ----

  /** Four ways out of a reservation. A refusal gives the first reason that applies and touches no stock; a
      reservation takes exactly the quantity ordered and bills the price times the quantity in 32 bits. */
  lemma ReserveEffect(st: InventoryState, command: ReserveCommand)
    ensures var r, o, p, q := AfterReserve(st, command), command.orderId, command.productId, command.quantity;
            var answered := exists m | m in st.outbox :: m.orderId == o && (m.InventoryReserved? || m.InsufficientStock?);
            var enough := p in st.products && p in st.stocks && q <= st.stocks[p];
            var left := if enough then WrapInt(st.stocks[p] - q) else 0;
            && (r.outcome == AlreadyProcessed <==> answered)
            && (r.outcome == Refused <==> !answered && !enough)
            && (r.outcome == RolledBack <==> !answered && enough && !(q > 0 && 0 <= left <= 0x7FFF_FFFF))
            && (r.outcome == Done <==> !answered && enough && q > 0 && 0 <= left <= 0x7FFF_FFFF)
            && (r.outcome == AlreadyProcessed || r.outcome == RolledBack ==> r.state == st)
            && (r.outcome == Refused ==>
                  && r.state.products == st.products && r.state.stocks == st.stocks
                  && r.state.reservations == st.reservations
                  && r.state.outbox == st.outbox + [InsufficientStock(o,
                       if p !in st.products then ProductNotFound
                       else if p !in st.stocks then StockNotFound else QuantityNotAvailable)])
            && (r.outcome == Done ==>
                  && r.state.products == st.products && r.state.stocks.Keys == st.stocks.Keys
                  && r.state.stocks[p] == left
                  && (forall other | other in st.stocks && other != p :: r.state.stocks[other] == st.stocks[other])
                  && r.state.reservations == st.reservations + [Reservation(o, p, q, Reserved)]
                  && r.state.outbox == st.outbox + [InventoryReserved(o, WrapInt(st.products[p] * q), command.paymentType)])
  {
  }

  /** Row `i` is the one reservation of order `o`. */
  predicate OnlyRow(rows: seq<Reservation>, o: Uuid, i: nat) {
    && i < |rows| && rows[i].orderId == o
    && forall k | 0 <= k < |rows| && k != i :: rows[k].orderId != o
  }

  /** The rows after a status of row `i` alone was overwritten. */
  predicate StatusWritten(before: seq<Reservation>, after: seq<Reservation>, i: nat, status: ReservationStatus)
    requires i < |before|
  {
    && |after| == |before|
    && after[i] == Reservation(before[i].orderId, before[i].productId, before[i].quantity, status)
    && forall k | 0 <= k < |before| && k != i :: after[k] == before[k]
  }

  /** When nothing is to be released, nothing changes. */
  lemma ReleaseSkips(st: InventoryState, o: Uuid, reason: Reason)
    ensures var r := AfterRelease(st, o, reason);
            var answered := exists m | m in st.outbox :: m.orderId == o && m.InventoryReleased?;
            && (r.outcome == AlreadyProcessed <==> answered)
            && (r.outcome == NoReservation <==> !answered && forall k | 0 <= k < |st.reservations| ::
                                                                st.reservations[k].orderId != o)
            && (!answered && (exists i, j | 0 <= i < j < |st.reservations| ::
                                st.reservations[i].orderId == o && st.reservations[j].orderId == o) ==>
                  r.outcome == RolledBack)
            && r.outcome != Refused
            && (r.outcome != Done ==> r.state == st)
  {
  }

  /** Otherwise the one reservation gives back exactly what it holds, whatever its status, unless there is no
      row to give it to or it does not fit there. */
  lemma ReleaseEffect(st: InventoryState, o: Uuid, reason: Reason, i: nat)
    requires OnlyRow(st.reservations, o, i) && !exists m | m in st.outbox :: m.orderId == o && m.InventoryReleased?
    ensures var r, p, q := AfterRelease(st, o, reason), st.reservations[i].productId, st.reservations[i].quantity;
            var restored := if p in st.stocks then WrapInt(st.stocks[p] + q) else 0;
            && (r.outcome == NoStock <==> p !in st.stocks)
            && (r.outcome == RolledBack <==> p in st.stocks && !(0 <= restored <= 0x7FFF_FFFF))
            && (r.outcome == Done <==> p in st.stocks && 0 <= restored <= 0x7FFF_FFFF)
            && (r.outcome == Done ==>
                  && r.state.products == st.products && r.state.stocks.Keys == st.stocks.Keys
                  && r.state.stocks[p] == restored
                  && (forall other | other in st.stocks && other != p :: r.state.stocks[other] == st.stocks[other])
                  && StatusWritten(st.reservations, r.state.reservations, i, Released)
                  && r.state.outbox == st.outbox + [InventoryReleased(o, reason)])
  {
  }

  /** A confirmation overwrites the status of the one reservation, whatever it was, and nothing else. */
  lemma ConfirmReservationEffect(st: InventoryState, o: Uuid)
    ensures var r := AfterConfirm(st, o);
            && (r.outcome == NoReservation <==> forall k | 0 <= k < |st.reservations| :: st.reservations[k].orderId != o)
            && (r.outcome == Done <==> exists i :: OnlyRow(st.reservations, o, i))
            && (r.outcome != Done ==> r.state == st && r.outcome in {NoReservation, RolledBack})
            && (r.outcome == Done ==>
                  && r.state.products == st.products && r.state.stocks == st.stocks && r.state.outbox == st.outbox
                  && forall i | OnlyRow(st.reservations, o, i) ::
                       StatusWritten(st.reservations, r.state.reservations, i, Confirmed))
  {
    var found := Find(st.reservations, ReservationOrder, o);
    if found.OneRow? {
      assert OnlyRow(st.reservations, o, found.position);
    }
  }

  /** An overwrite needs its row and a non-negative 32-bit quantity, higher or lower than the old one. */
  lemma OverwriteEffect(st: InventoryState, p: int, quantity: int)
    ensures var r := AfterUpdateQuantity(st, p, quantity);
            && (r.outcome == Done <==> p in st.stocks && 0 <= quantity <= 0x7FFF_FFFF)
            && (r.outcome != Done ==> r.outcome == RolledBack && r.state == st)
            && (r.outcome == Done ==> StockWritten(st, r.state, p, quantity))
  {
  }

  /** A stock row is created for an existing product that has none. */
  lemma CreateStockEffect(st: InventoryState, p: int, quantity: int)
    ensures var r := AfterCreateStock(st, p, quantity);
            && (r.outcome == Done <==> p in st.products && p !in st.stocks && 0 <= quantity <= 0x7FFF_FFFF)
            && (r.outcome != Done ==> r.outcome == RolledBack && r.state == st)
            && (r.outcome == Done ==> StockWritten(st, r.state, p, quantity))
  {
  }

  /** The stock row of `p` holds `quantity`, and nothing else is different. */
  predicate StockWritten(before: InventoryState, after: InventoryState, p: int, quantity: int) {
    && after.stocks.Keys == before.stocks.Keys + {p} && after.stocks[p] == quantity
    && (forall other | other in before.stocks && other != p :: after.stocks[other] == before.stocks[other])
    && after.products == before.products && after.reservations == before.reservations
    && after.outbox == before.outbox
  }

  lemma CreateProductEffect(st: InventoryState, p: int, price: int)
    ensures var r := AfterCreateProduct(st, p, price);
            && (r.outcome == Done <==> p !in st.products && 0 <= price <= 0x7FFF_FFFF)
            && (r.outcome != Done ==> r.outcome == RolledBack && r.state == st)
            && (r.outcome == Done ==>
                  && r.state.products.Keys == st.products.Keys + {p} && r.state.products[p] == price
                  && (forall other | other in st.products :: r.state.products[other] == st.products[other])
                  && r.state.stocks == st.stocks && r.state.reservations == st.reservations
                  && r.state.outbox == st.outbox)
  {
  }

  class InventoryService {
    var products: map<int, int>
    var stocks: map<int, int>
    var reservations: seq<Reservation>
    var outbox: seq<Message>

    constructor ()
      ensures State() == InventoryState(map[], map[], [], [])
    {
      products, stocks, reservations, outbox := map[], map[], [], [];
    }

    function State(): InventoryState
      reads this
    {
      InventoryState(products, stocks, reservations, outbox)
    }

    /** What the database does with a quantity that its CHECK refuses: nothing is stored. */
    method SaveStock(p: int, quantity: int) returns (accepted: bool)
      modifies this`stocks
      ensures accepted <==> StorableQuantity(quantity)
      ensures stocks == if accepted then old(stocks)[p := quantity] else old(stocks)
    {
      accepted := StorableQuantity(quantity);
      if accepted {
        stocks := stocks[p := quantity];
      }
    }

    method SaveFailureEvent(command: ReserveCommand, reason: Reason)
      modifies this`outbox
      ensures outbox == old(outbox) + [InsufficientStock(command.orderId, reason)]
    {
      outbox := outbox + [InsufficientStock(command.orderId, reason)];
    }

    method ReserveStock(command: ReserveCommand) returns (r: Outcome)
      modifies this
      ensures Result(State(), r) == AfterReserve(old(State()), command)
    {
      if ReserveAnswered(outbox, command.orderId) {
        return AlreadyProcessed;
      }
      if command.productId !in products {
        SaveFailureEvent(command, ProductNotFound);
        return Refused;
      }
      if command.productId !in stocks {
        SaveFailureEvent(command, StockNotFound);
        return Refused;
      }
      var quantityAvailable := stocks[command.productId];
      if quantityAvailable < command.quantity {
        SaveFailureEvent(command, QuantityNotAvailable);
        return Refused;
      }

      var stocksAtBegin := stocks;
      var accepted := SaveStock(command.productId, WrapInt(quantityAvailable - command.quantity));
      if !accepted || command.quantity <= 0 {
        stocks := stocksAtBegin;
        return RolledBack;
      }
      reservations := reservations + [Reservation(command.orderId, command.productId, command.quantity, Reserved)];
      var amount := WrapInt(products[command.productId] * command.quantity);
      outbox := outbox + [InventoryReserved(command.orderId, amount, command.paymentType)];
      return Done;
    }

    method ReleaseStock(o: Uuid, reason: Reason) returns (r: Outcome)
      modifies this
      ensures Result(State(), r) == AfterRelease(old(State()), o, reason)
    {
      if ReleaseAnswered(outbox, o) {
        return AlreadyProcessed;
      }
      var found := Find(reservations, ReservationOrder, o);
      if found.NoRow? {
        return NoReservation;
      }
      if found.ManyRows? {
        return RolledBack;
      }
      var reservation := reservations[found.position];
      if reservation.productId !in stocks {
        return NoStock;
      }
      var quantityAvailable := stocks[reservation.productId];
      var accepted := SaveStock(reservation.productId, WrapInt(quantityAvailable + reservation.quantity));
      if !accepted {
        return RolledBack;
      }
      reservations := reservations[found.position := reservation.(status := Released)];
      outbox := outbox + [InventoryReleased(o, reason)];
      return Done;
    }

    method ConfirmReservation(o: Uuid) returns (r: Outcome)
      modifies this
      ensures Result(State(), r) == AfterConfirm(old(State()), o)
    {
      var found := Find(reservations, ReservationOrder, o);
      if found.NoRow? {
        return NoReservation;
      }
      if found.ManyRows? {
        return RolledBack;
      }
      reservations := reservations[found.position := reservations[found.position].(status := Confirmed)];
      return Done;
    }

    /** `p` is the identifier the database serial hands out. */
    method CreateProduct(p: int, price: int) returns (r: Outcome)
      modifies this
      ensures Result(State(), r) == AfterCreateProduct(old(State()), p, price)
    {
      if p in products || !StorableQuantity(price) {
        return RolledBack;
      }
      products := products[p := price];
      return Done;
    }

    method CreateStock(p: int, quantity: int) returns (r: Outcome)
      modifies this
      ensures Result(State(), r) == AfterCreateStock(old(State()), p, quantity)
    {
      if p !in products || p in stocks {
        return RolledBack;
      }
      var accepted := SaveStock(p, quantity);
      return if accepted then Done else RolledBack;
    }

    method UpdateStockQuantity(p: int, quantity: int) returns (r: Outcome)
      modifies this
      ensures Result(State(), r) == AfterUpdateQuantity(old(State()), p, quantity)
    {
      if p !in stocks {
        return RolledBack;
      }
      var accepted := SaveStock(p, quantity);
      return if accepted then Done else RolledBack;
    }
  }
}
