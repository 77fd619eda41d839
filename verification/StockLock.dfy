/** The inventory handlers split where other transactions can run in between. Reserve and release: existence
    check, then the row lock with its read, then the writes and the commit. Confirm: the read, then the write.
    The pessimistic lock on the stock row, and handling the messages of one order on one topic one at a time,
    make every interleaving equal to running the handlers whole, one after the other. */
module StockLock {
  import opened Base
  import opened Messages
  import opened Rows
  import opened Inventory
  import Saga
  import Invariant
  import Theorems

  /** What a handler remembers between two of its statements. */
  datatype Job =
    | CheckedReserve(command: ReserveCommand, price: int)
    | LockedReserve(command: ReserveCommand, price: int, available: int)
    | CheckedRelease(orderId: Uuid, reason: Reason, position: nat, row: Reservation)
    | LockedRelease(orderId: Uuid, reason: Reason, position: nat, row: Reservation, available: int)
    | ReadConfirm(orderId: Uuid, position: nat, row: Reservation)   // takes no lock at all

  datatype Shop = Shop(inv: InventoryState, jobs: map<nat, Job>)

  /** A handler run as one transaction. */
  datatype Op =
    | Reserve(command: ReserveCommand)
    | Release(orderId: Uuid, reason: Reason)
    | Confirm(orderId: Uuid)
    | NewProduct(productId: int, price: int)
    | NewStock(productId: int, quantity: int)
    | Overwrite(productId: int, quantity: int)

  function Perform(inv: InventoryState, op: Op): InventoryState {
    match op
    case Reserve(command) => AfterReserve(inv, command).state
    case Release(o, reason) => AfterRelease(inv, o, reason).state
    case Confirm(o) => AfterConfirm(inv, o).state
    case NewProduct(p, price) => AfterCreateProduct(inv, p, price).state
    case NewStock(p, q) => AfterCreateStock(inv, p, q).state
    case Overwrite(p, q) => AfterUpdateQuantity(inv, p, q).state
  }

  datatype Step =
    | BeginReserve(worker: nat, command: ReserveCommand)
    | BeginRelease(worker: nat, orderId: Uuid, reason: Reason)
    | BeginConfirm(worker: nat, orderId: Uuid)
    | Lock(worker: nat)
    | Commit(worker: nat)
    | Rollback(worker: nat)
    | Single(op: Op)   // an administrator's transaction

  function JobOrder(job: Job): Uuid {
    if IsReserve(job) then job.command.orderId else job.orderId
  }

  function JobProduct(job: Job): int {
    if IsReserve(job) then job.command.productId else job.row.productId
  }

  predicate HoldsLock(job: Job) {
    job.LockedReserve? || job.LockedRelease?
  }

  predicate NeedsLock(job: Job) {
    job.CheckedReserve? || job.CheckedRelease?
  }

  /** No transaction holds the stock row of `p`. */
  predicate Unlocked(shop: Shop, p: int) {
    forall w | w in shop.jobs :: HoldsLock(shop.jobs[w]) ==> JobProduct(shop.jobs[w]) != p
  }

  /** A locking read waits for the row, and so does an overwrite that takes no lock of its own. */
  predicate Enabled(shop: Shop, step: Step) {
    match step
    case BeginReserve(w, _) => w !in shop.jobs
    case BeginRelease(w, _, _) => w !in shop.jobs
    case BeginConfirm(w, _) => w !in shop.jobs
    case Lock(w) => w in shop.jobs && NeedsLock(shop.jobs[w]) && Unlocked(shop, JobProduct(shop.jobs[w]))
    case Commit(w) => w in shop.jobs && !NeedsLock(shop.jobs[w])
    case Rollback(w) => w in shop.jobs
    case Single(op) => !op.Reserve? && !op.Release? && !op.Confirm? && (op.Overwrite? ==> Unlocked(shop, op.productId))
  }

  predicate IsReserve(job: Job) {
    job.CheckedReserve? || job.LockedReserve?
  }

  predicate IsRelease(job: Job) {
    job.CheckedRelease? || job.LockedRelease?
  }

  predicate NoReserveOf(shop: Shop, o: Uuid) {
    forall w | w in shop.jobs && IsReserve(shop.jobs[w]) :: JobOrder(shop.jobs[w]) != o
  }

  predicate NoReleaseOf(shop: Shop, o: Uuid) {
    forall w | w in shop.jobs && IsRelease(shop.jobs[w]) :: JobOrder(shop.jobs[w]) != o
  }

  /** The messages of one order on one topic are handled one at a time. Different topics are free: a
      reserve, a release and a confirmation of the same order may overlap in any way. */
  predicate Serialised(shop: Shop, step: Step) {
    match step
    case BeginReserve(_, command) => NoReserveOf(shop, command.orderId)
    case BeginRelease(_, o, _) => NoReleaseOf(shop, o)
    case _ => true
  }

  // ---- The statements ----

  function AfterBeginReserve(shop: Shop, w: nat, command: ReserveCommand): Shop {
    if ReserveAnswered(shop.inv.outbox, command.orderId) then shop
    else if command.productId !in shop.inv.products then
      shop.(inv := WithEvent(shop.inv, InsufficientStock(command.orderId, ProductNotFound)))
    else shop.(jobs := shop.jobs[w := CheckedReserve(command, shop.inv.products[command.productId])])
  }

  function AfterBeginRelease(shop: Shop, w: nat, o: Uuid, reason: Reason): Shop {
    if ReleaseAnswered(shop.inv.outbox, o) then shop
    else
      var found := Find(shop.inv.reservations, ReservationOrder, o);
      if found.OneRow?
      then shop.(jobs := shop.jobs[w := CheckedRelease(o, reason, found.position, shop.inv.reservations[found.position])])
      else shop
  }

  function AfterBeginConfirm(shop: Shop, w: nat, o: Uuid): Shop {
    var found := Find(shop.inv.reservations, ReservationOrder, o);
    if found.OneRow?
    then shop.(jobs := shop.jobs[w := ReadConfirm(o, found.position, shop.inv.reservations[found.position])])
    else shop
  }

  function AfterLock(shop: Shop, w: nat): Shop
    requires Enabled(shop, Lock(w))
  {
    match shop.jobs[w]
    case CheckedReserve(command, price) =>
      if command.productId in shop.inv.stocks
      then shop.(jobs := shop.jobs[w := LockedReserve(command, price, shop.inv.stocks[command.productId])])
      else Shop(WithEvent(shop.inv, InsufficientStock(command.orderId, StockNotFound)), shop.jobs - {w})
    case CheckedRelease(o, reason, i, row) =>
      if row.productId in shop.inv.stocks
      then shop.(jobs := shop.jobs[w := LockedRelease(o, reason, i, row, shop.inv.stocks[row.productId])])
      else shop.(jobs := shop.jobs - {w})
  }

  /** The writes use only what the job remembered, never the current rows. */
  function Written(inv: InventoryState, job: Job): InventoryState
    requires !NeedsLock(job)
  {
    match job
    case LockedReserve(command, price, available) =>
      if available < command.quantity then
        WithEvent(inv, InsufficientStock(command.orderId, QuantityNotAvailable))
      else
        var left := WrapInt(available - command.quantity);
        if !StorableQuantity(left) || command.quantity <= 0 then inv
        else
          InventoryState(
            inv.products,
            inv.stocks[command.productId := left],
            inv.reservations + [Reservation(command.orderId, command.productId, command.quantity, Reserved)],
            inv.outbox + [InventoryReserved(command.orderId, Amount(price, command.quantity), command.paymentType)])
    case LockedRelease(o, reason, i, row, available) =>
      var restored := WrapInt(available + row.quantity);
      if !StorableQuantity(restored) then inv
      else
        InventoryState(
          inv.products,
          inv.stocks[row.productId := restored],
          if i < |inv.reservations| then inv.reservations[i := row.(status := Released)] else inv.reservations,
          inv.outbox + [InventoryReleased(o, reason)])
    case ReadConfirm(_, i, row) =>
      if i < |inv.reservations|
      then inv.(reservations := inv.reservations[i := row.(status := ReservationStatus.Confirmed)])
      else inv
  }

  /** Row `i` is the reservation as it was read, except perhaps for its status. */
  predicate SameBooking(rows: seq<Reservation>, i: nat, row: Reservation) {
    i < |rows| && rows[i] == row.(status := rows[i].status)
  }

  /** What a job relies on is still true: what it checked, what it read under the lock, and the row it
      read before the lock up to the status, which a confirmation may change meanwhile. */
  predicate JobOk(inv: InventoryState, job: Job) {
    match job
    case CheckedReserve(command, price) =>
      && !ReserveAnswered(inv.outbox, command.orderId)
      && command.productId in inv.products && inv.products[command.productId] == price
    case LockedReserve(command, price, available) =>
      && !ReserveAnswered(inv.outbox, command.orderId)
      && command.productId in inv.products && inv.products[command.productId] == price
      && command.productId in inv.stocks && inv.stocks[command.productId] == available
    case CheckedRelease(o, _, i, row) =>
      && !ReleaseAnswered(inv.outbox, o)
      && Find(inv.reservations, ReservationOrder, o) == OneRow(i) && SameBooking(inv.reservations, i, row)
    case LockedRelease(o, _, i, row, available) =>
      && !ReleaseAnswered(inv.outbox, o)
      && Find(inv.reservations, ReservationOrder, o) == OneRow(i) && SameBooking(inv.reservations, i, row)
      && row.productId in inv.stocks && inv.stocks[row.productId] == available
    case ReadConfirm(o, i, row) =>
      Find(inv.reservations, ReservationOrder, o) == OneRow(i) && SameBooking(inv.reservations, i, row)
  }

  /** Nothing is reserved without an answer in the outbox. */
  predicate AllAnswered(inv: InventoryState) {
    forall k | 0 <= k < |inv.reservations| :: ReserveAnswered(inv.outbox, inv.reservations[k].orderId)
  }

  /** Every job can rely on what it remembers, no two jobs but confirmations share an order,
      no two locks share a row. */
  predicate ShopOk(shop: Shop) {
    && AllAnswered(shop.inv)
    && (forall w | w in shop.jobs :: JobOk(shop.inv, shop.jobs[w]))
    && (forall v, w | v in shop.jobs && w in shop.jobs && v != w ::
          && (!shop.jobs[v].ReadConfirm? && !shop.jobs[w].ReadConfirm? ==>
                JobOrder(shop.jobs[v]) != JobOrder(shop.jobs[w]))
          && (HoldsLock(shop.jobs[v]) && HoldsLock(shop.jobs[w]) ==>
                JobProduct(shop.jobs[v]) != JobProduct(shop.jobs[w])))
  }

  function Next(shop: Shop, step: Step): Shop
    requires Enabled(shop, step)
  {
    match step
    case BeginReserve(w, command) => AfterBeginReserve(shop, w, command)
    case BeginRelease(w, o, reason) => AfterBeginRelease(shop, w, o, reason)
    case BeginConfirm(w, o) => AfterBeginConfirm(shop, w, o)
    case Lock(w) => AfterLock(shop, w)
    case Commit(w) => Shop(Written(shop.inv, shop.jobs[w]), shop.jobs - {w})
    case Rollback(w) => shop.(jobs := shop.jobs - {w})
    case Single(op) => shop.(inv := Perform(shop.inv, op))
  }

  function Exec(shop: Shop, steps: seq<Step>): Shop
    requires Feasible(shop, steps)
    decreases |steps|
  {
    if steps == [] then shop else Exec(Next(shop, steps[0]), steps[1..])
  }

  predicate Feasible(shop: Shop, steps: seq<Step>)
    decreases |steps|
  {
    steps == [] || (Enabled(shop, steps[0]) && Feasible(Next(shop, steps[0]), steps[1..]))
  }

  predicate AllSerialised(shop: Shop, steps: seq<Step>)
    requires Feasible(shop, steps)
    decreases |steps|
  {
    steps == [] || (Serialised(shop, steps[0]) && AllSerialised(Next(shop, steps[0]), steps[1..]))
  }

  // ---- Linearisation ----

  /** The whole handler a step stands for, if it is the step at which that handler takes effect. */
  function TakesEffect(shop: Shop, step: Step): seq<Op>
    requires Enabled(shop, step)
  {
    match step
    case BeginReserve(w, command) =>
      if w in Next(shop, step).jobs then [] else [Reserve(command)]
    case BeginRelease(w, o, reason) =>
      if w in Next(shop, step).jobs then [] else [Release(o, reason)]
    case BeginConfirm(w, o) =>
      if w in Next(shop, step).jobs then [] else [Confirm(o)]
    case Lock(w) =>
      if w in Next(shop, step).jobs then [] else [HandlerOf(shop.jobs[w])]
    case Commit(w) => [HandlerOf(shop.jobs[w])]
    case Rollback(_) => []
    case Single(op) => [op]
  }

  function HandlerOf(job: Job): Op {
    if IsReserve(job) then Reserve(job.command)
    else if IsRelease(job) then Release(job.orderId, job.reason)
    else Confirm(job.orderId)
  }

  /** The handlers that took effect in a run, in the order in which they did. */
  function History(shop: Shop, steps: seq<Step>): seq<Op>
    requires Feasible(shop, steps)
    decreases |steps|
  {
    if steps == [] then []
    else TakesEffect(shop, steps[0]) + History(Next(shop, steps[0]), steps[1..])
  }

  function PerformAll(inv: InventoryState, ops: seq<Op>): InventoryState
    decreases |ops|
  {
    if ops == [] then inv else PerformAll(Perform(inv, ops[0]), ops[1..])
  }

  /** A step of the split handlers changes the tables as the handler run whole would at that moment. */
  lemma StepIsAtomic(shop: Shop, step: Step)
    requires ShopOk(shop) && Enabled(shop, step)
    ensures Next(shop, step).inv == PerformAll(shop.inv, TakesEffect(shop, step))
  {
    match step
    case Commit(w) => WrittenIsAtomic(shop.inv, shop.jobs[w]);
    case _ =>
  }

  lemma WrittenIsAtomic(inv: InventoryState, job: Job)
    requires !NeedsLock(job) && JobOk(inv, job)
    ensures Written(inv, job) == Perform(inv, HandlerOf(job))
  {
  }

  // ---- What jobs remember stays true ----

  /** The effect of a transaction of order `o` (or of an administrator) seen by everybody else. */
  ghost predicate Foreign(before: InventoryState, after: InventoryState, o: Uuid) {
    && (forall p | p in before.products :: p in after.products && after.products[p] == before.products[p])
    && (forall p | p in before.stocks :: p in after.stocks)
    && before.outbox <= after.outbox
    && (forall k | |before.outbox| <= k < |after.outbox| :: after.outbox[k].orderId == o)
    && (forall other: Uuid | other != o ::
          && Find(after.reservations, ReservationOrder, other) == Find(before.reservations, ReservationOrder, other)
          && (Find(before.reservations, ReservationOrder, other).OneRow? ==>
                after.reservations[Find(before.reservations, ReservationOrder, other).position]
                == before.reservations[Find(before.reservations, ReservationOrder, other).position]))
  }

  lemma JobSurvives(before: InventoryState, after: InventoryState, o: Uuid, job: Job)
    requires JobOk(before, job) && JobOrder(job) != o && Foreign(before, after, o)
    requires HoldsLock(job) && JobProduct(job) in before.stocks ==>
               JobProduct(job) in after.stocks && after.stocks[JobProduct(job)] == before.stocks[JobProduct(job)]
    ensures JobOk(after, job)
  {
    assert forall m | m in after.outbox :: m in before.outbox || m.orderId == o;
  }

  lemma ReserveForeign(inv: InventoryState, command: ReserveCommand)
    ensures var after := AfterReserve(inv, command).state;
            && Foreign(inv, after, command.orderId)
            && forall p | p in inv.stocks && p != command.productId :: after.stocks[p] == inv.stocks[p]
  {
    var after := AfterReserve(inv, command).state;
    forall other: Uuid | other != command.orderId
      ensures Find(after.reservations, ReservationOrder, other) == Find(inv.reservations, ReservationOrder, other)
    {
      FindAppend(inv.reservations,
                 Reservation(command.orderId, command.productId, command.quantity, ReservationStatus.Reserved),
                 ReservationOrder, other);
    }
  }

  lemma StatusForeign(rows: seq<Reservation>, i: nat, status: ReservationStatus)
    requires i < |rows|
    ensures var after := rows[i := rows[i].(status := status)];
            forall other: Uuid :: Find(after, ReservationOrder, other) == Find(rows, ReservationOrder, other)
  {
    forall other: Uuid
      ensures Find(rows[i := rows[i].(status := status)], ReservationOrder, other) == Find(rows, ReservationOrder, other)
    {
      FindUpdate(rows, i, rows[i].(status := status), ReservationOrder, other);
    }
  }

  lemma ReleaseForeign(inv: InventoryState, o: Uuid, reason: Reason)
    ensures var after, found := AfterRelease(inv, o, reason).state, Find(inv.reservations, ReservationOrder, o);
            && Foreign(inv, after, o)
            && (found.OneRow? ==>
                  forall p | p in inv.stocks && p != inv.reservations[found.position].productId ::
                    after.stocks[p] == inv.stocks[p])
  {
    var found := Find(inv.reservations, ReservationOrder, o);
    if found.OneRow? {
      StatusForeign(inv.reservations, found.position, ReservationStatus.Released);
    }
  }

  lemma AdminForeign(inv: InventoryState, op: Op, o: Uuid)
    requires op.NewProduct? || op.NewStock? || op.Overwrite?
    ensures Foreign(inv, Perform(inv, op), o)
    ensures forall p | p in inv.stocks :: (op.Overwrite? ==> p != op.productId) ==>
              Perform(inv, op).stocks[p] == inv.stocks[p]
  {
  }

  /** Other jobs survive a step that removes job `w` and changes the tables as a transaction of order `o`
      that touches no stock row locked by them. */
  lemma OthersSurvive(shop: Shop, after: InventoryState, o: Uuid, keep: set<nat>)
    requires ShopOk(shop) && keep <= shop.jobs.Keys
    requires Foreign(shop.inv, after, o)
    requires forall w | w in keep :: JobOrder(shop.jobs[w]) != o
    requires forall w | w in keep && HoldsLock(shop.jobs[w]) ::
               after.stocks[JobProduct(shop.jobs[w])] == shop.inv.stocks[JobProduct(shop.jobs[w])]
    ensures forall w | w in keep :: JobOk(after, shop.jobs[w])
  {
    forall w | w in keep
      ensures JobOk(after, shop.jobs[w])
    {
      JobSurvives(shop.inv, after, o, shop.jobs[w]);
    }
  }

  /** Every operation run whole keeps reservations answered. */
  lemma PerformKeepsAnswered(inv: InventoryState, op: Op)
    requires AllAnswered(inv)
    ensures AllAnswered(Perform(inv, op))
  {
    var after := Perform(inv, op);
    assert forall m | m in inv.outbox :: m in after.outbox;
    forall k | 0 <= k < |after.reservations|
      ensures ReserveAnswered(after.outbox, after.reservations[k].orderId)
    {
      if k < |inv.reservations| {
        assert after.reservations[k].orderId == inv.reservations[k].orderId;
        assert ReserveAnswered(inv.outbox, inv.reservations[k].orderId);
      } else {
        assert after.outbox[|inv.outbox|] in after.outbox;
      }
    }
  }

  /** A release or confirmation that has found its row excludes an unfinished reserve of the same order. */
  lemma FoundMeansAnswered(shop: Shop, w: nat)
    requires ShopOk(shop) && w in shop.jobs
    ensures IsReserve(shop.jobs[w]) <==> !ReserveAnswered(shop.inv.outbox, JobOrder(shop.jobs[w]))
  {
    assert JobOk(shop.inv, shop.jobs[w]);
  }

  lemma BeginReserveKeeps(shop: Shop, w: nat, command: ReserveCommand)
    requires ShopOk(shop) && Enabled(shop, BeginReserve(w, command)) && NoReserveOf(shop, command.orderId)
    ensures ShopOk(Next(shop, BeginReserve(w, command)))
  {
    var t := Next(shop, BeginReserve(w, command));
    if t == shop {
      return;
    }
    forall v | v in shop.jobs
      ensures JobOrder(shop.jobs[v]) != command.orderId
    {
      FoundMeansAnswered(shop, v);
    }
    ReserveForeign(shop.inv, command);
    if w !in t.jobs {
      PerformKeepsAnswered(shop.inv, Reserve(command));
      OthersSurvive(shop, t.inv, command.orderId, shop.jobs.Keys);
    }
  }

  /** A row found is the answered reservation of its order, so no unfinished reserve shares that order. */
  lemma RowMeansNoReserve(shop: Shop, o: Uuid)
    requires ShopOk(shop) && Find(shop.inv.reservations, ReservationOrder, o).OneRow?
    ensures NoReserveOf(shop, o)
  {
    forall v | v in shop.jobs && IsReserve(shop.jobs[v])
      ensures JobOrder(shop.jobs[v]) != o
    {
      FoundMeansAnswered(shop, v);
    }
  }

  lemma BeginReleaseKeeps(shop: Shop, w: nat, o: Uuid, reason: Reason)
    requires ShopOk(shop) && Enabled(shop, BeginRelease(w, o, reason)) && NoReleaseOf(shop, o)
    ensures ShopOk(Next(shop, BeginRelease(w, o, reason)))
  {
    if Next(shop, BeginRelease(w, o, reason)) != shop {
      RowMeansNoReserve(shop, o);
    }
  }

  /** The lock is obtained, and the row read. */
  lemma LockedKeeps(shop: Shop, w: nat)
    requires ShopOk(shop) && Enabled(shop, Lock(w)) && JobProduct(shop.jobs[w]) in shop.inv.stocks
    ensures ShopOk(Next(shop, Lock(w)))
  {
    var t := Next(shop, Lock(w));
    assert JobOk(shop.inv, shop.jobs[w]);
    assert JobOrder(t.jobs[w]) == JobOrder(shop.jobs[w]) && JobProduct(t.jobs[w]) == JobProduct(shop.jobs[w]);
  }

  /** There is no row to lock: the handler ends here. */
  lemma LockMissedKeeps(shop: Shop, w: nat)
    requires ShopOk(shop) && Enabled(shop, Lock(w)) && JobProduct(shop.jobs[w]) !in shop.inv.stocks
    ensures ShopOk(Next(shop, Lock(w)))
  {
    var job, t := shop.jobs[w], Next(shop, Lock(w));
    if job.CheckedReserve? {
      PerformKeepsAnswered(shop.inv, Reserve(job.command));
      ReserveForeign(shop.inv, job.command);
      forall v | v in t.jobs
        ensures JobOrder(shop.jobs[v]) != JobOrder(job)
      {
        FoundMeansAnswered(shop, v);
        FoundMeansAnswered(shop, w);
      }
      OthersSurvive(shop, t.inv, job.command.orderId, t.jobs.Keys);
    }
  }

  lemma CommitReserveKeeps(shop: Shop, w: nat)
    requires ShopOk(shop) && Enabled(shop, Commit(w)) && shop.jobs[w].LockedReserve?
    ensures ShopOk(Next(shop, Commit(w)))
  {
    var job, t := shop.jobs[w], Next(shop, Commit(w));
    WrittenIsAtomic(shop.inv, job);
    PerformKeepsAnswered(shop.inv, HandlerOf(job));
    ReserveForeign(shop.inv, job.command);
    forall v | v in t.jobs
      ensures JobOrder(shop.jobs[v]) != JobOrder(job)
    {
      FoundMeansAnswered(shop, v);
      FoundMeansAnswered(shop, w);
    }
    OthersSurvive(shop, t.inv, JobOrder(job), t.jobs.Keys);
  }

  /** The other jobs of the order of a release are confirmations. */
  lemma CommitReleaseKeeps(shop: Shop, w: nat)
    requires ShopOk(shop) && Enabled(shop, Commit(w)) && shop.jobs[w].LockedRelease?
    ensures ShopOk(Next(shop, Commit(w)))
  {
    var job, t := shop.jobs[w], Next(shop, Commit(w));
    WrittenIsAtomic(shop.inv, job);
    PerformKeepsAnswered(shop.inv, HandlerOf(job));
    ReleaseForeign(shop.inv, job.orderId, job.reason);
    var confirms := set v | v in t.jobs && t.jobs[v].ReadConfirm?;
    FoundMeansAnswered(shop, w);
    forall v | v in t.jobs.Keys - confirms
      ensures JobOrder(shop.jobs[v]) != JobOrder(job)
    {
      FoundMeansAnswered(shop, v);
    }
    OthersSurvive(shop, t.inv, JobOrder(job), t.jobs.Keys - confirms);
    forall v | v in confirms
      ensures JobOk(t.inv, t.jobs[v])
    {
      ReleaseSparesConfirm(shop.inv, job.orderId, job.reason, shop.jobs[v]);
    }
  }

  /** A release keeps the booking that a confirmation of the same order has read. */
  lemma ReleaseSparesConfirm(inv: InventoryState, o: Uuid, reason: Reason, job: Job)
    requires JobOk(inv, job) && job.ReadConfirm?
    ensures JobOk(AfterRelease(inv, o, reason).state, job)
  {
    var found := Find(inv.reservations, ReservationOrder, o);
    if found.OneRow? {
      StatusForeign(inv.reservations, found.position, ReservationStatus.Released);
    }
  }

  lemma CommitConfirmKeeps(shop: Shop, w: nat)
    requires ShopOk(shop) && Enabled(shop, Commit(w)) && shop.jobs[w].ReadConfirm?
    ensures ShopOk(Next(shop, Commit(w)))
  {
    var job, t := shop.jobs[w], Next(shop, Commit(w));
    WrittenIsAtomic(shop.inv, job);
    PerformKeepsAnswered(shop.inv, HandlerOf(job));
    forall v | v in t.jobs
      ensures JobOk(t.inv, t.jobs[v])
    {
      ConfirmDisturbsNobody(shop.inv, job.orderId, shop.jobs[v]);
    }
  }

  /** A confirmation changes one status, which nobody relies on. */
  lemma ConfirmDisturbsNobody(inv: InventoryState, o: Uuid, job: Job)
    requires JobOk(inv, job)
    ensures JobOk(AfterConfirm(inv, o).state, job)
  {
    var found := Find(inv.reservations, ReservationOrder, o);
    if found.OneRow? {
      StatusForeign(inv.reservations, found.position, ReservationStatus.Confirmed);
    }
  }

  lemma SingleKeeps(shop: Shop, op: Op)
    requires ShopOk(shop) && Enabled(shop, Single(op))
    ensures ShopOk(Next(shop, Single(op)))
  {
    PerformKeepsAnswered(shop.inv, op);
    forall w | w in shop.jobs
      ensures JobOk(Perform(shop.inv, op), shop.jobs[w])
    {
      var nobody := JobOrder(shop.jobs[w]) + 1;
      AdminForeign(shop.inv, op, nobody);
      JobSurvives(shop.inv, Perform(shop.inv, op), nobody, shop.jobs[w]);
    }
  }

  lemma StepKeepsShopOk(shop: Shop, step: Step)
    requires ShopOk(shop) && Enabled(shop, step) && Serialised(shop, step)
    ensures ShopOk(Next(shop, step))
  {
    match step
    case BeginReserve(w, command) => BeginReserveKeeps(shop, w, command);
    case BeginRelease(w, o, reason) => BeginReleaseKeeps(shop, w, o, reason);
    case Lock(w) =>
      if JobProduct(shop.jobs[w]) in shop.inv.stocks {
        LockedKeeps(shop, w);
      } else {
        LockMissedKeeps(shop, w);
      }
    case BeginConfirm(_, _) =>
    case Commit(w) =>
      match shop.jobs[w] {
        case LockedReserve(_, _, _) => CommitReserveKeeps(shop, w);
        case LockedRelease(_, _, _, _, _) => CommitReleaseKeeps(shop, w);
        case ReadConfirm(_, _, _) => CommitConfirmKeeps(shop, w);
      }
    case Rollback(_) =>
    case Single(op) => SingleKeeps(shop, op);
  }

  lemma {:induction false} PerformAppend(inv: InventoryState, a: seq<Op>, b: seq<Op>)
    ensures PerformAll(inv, a + b) == PerformAll(PerformAll(inv, a), b)
    decreases |a|
  {
    if a == [] {
      assert a + b == b;
    } else {
      assert (a + b)[1..] == a[1..] + b;
      PerformAppend(Perform(inv, a[0]), a[1..], b);
    }
  }

  /** Every interleaving of split handlers, confirmations, overwrites and rollbacks leaves the tables as the
      handlers run whole, one after the other, in the order in which they took effect; only the messages of
      one order on one topic have to wait for each other. */
  lemma {:induction false} Linearizable(shop: Shop, steps: seq<Step>)
    requires ShopOk(shop) && Feasible(shop, steps) && AllSerialised(shop, steps)
    ensures Exec(shop, steps).inv == PerformAll(shop.inv, History(shop, steps))
    ensures ShopOk(Exec(shop, steps))
    decreases |steps|
  {
    if steps != [] {
      var next := Next(shop, steps[0]);
      StepKeepsShopOk(shop, steps[0]);
      StepIsAtomic(shop, steps[0]);
      Linearizable(next, steps[1..]);
      PerformAppend(shop.inv, TakesEffect(shop, steps[0]), History(next, steps[1..]));
    }
  }

  /** The tables of every reachable state of the system are a start for such a run. */
  lemma ReachableIsShopOk(s: Saga.System)
    requires Saga.Reachable(s)
    ensures ShopOk(Shop(s.inventory, map[]))
  {
    Theorems.ReachableInvariant(s);
    forall k | 0 <= k < |s.inventory.reservations|
      ensures ReserveAnswered(s.inventory.outbox, s.inventory.reservations[k].orderId)
    {
      var row := s.inventory.reservations[k];
      OfMember(s.inventory.reservations, ReservationOrder, row.orderId, row);
      Invariant.ReserveAnsweredInView(s, row.orderId);
      assert Invariant.CoherentIn(s, row.orderId);
      var v := Saga.ViewOf(s, row.orderId);
      assert v.inventoryEvents[0] in v.inventoryEvents;
    }
  }

  // ---- The snapshot, for every run whatsoever ----

  /** What the lock holders read is what the rows hold, and no two of them hold the same row. */
  predicate SnapshotsOk(shop: Shop) {
    && (forall w | w in shop.jobs && HoldsLock(shop.jobs[w]) ::
          && JobProduct(shop.jobs[w]) in shop.inv.stocks
          && shop.inv.stocks[JobProduct(shop.jobs[w])] == shop.jobs[w].available)
    && (forall v, w | v in shop.jobs && w in shop.jobs && v != w && HoldsLock(shop.jobs[v]) && HoldsLock(shop.jobs[w]) ::
          JobProduct(shop.jobs[v]) != JobProduct(shop.jobs[w]))
  }

  lemma CommitKeepsSnapshots(shop: Shop, w: nat)
    requires SnapshotsOk(shop) && Enabled(shop, Commit(w))
    ensures SnapshotsOk(Next(shop, Commit(w)))
  {
    var job, after := shop.jobs[w], Written(shop.inv, shop.jobs[w]);
    assert HoldsLock(job) ==> forall p | p in shop.inv.stocks && p != JobProduct(job) ::
                                p in after.stocks && after.stocks[p] == shop.inv.stocks[p];
  }

  lemma LockKeepsSnapshots(shop: Shop, w: nat)
    requires SnapshotsOk(shop) && Enabled(shop, Lock(w))
    ensures SnapshotsOk(Next(shop, Lock(w)))
  {
  }

  lemma StepKeepsSnapshots(shop: Shop, step: Step)
    requires SnapshotsOk(shop) && Enabled(shop, step)
    ensures SnapshotsOk(Next(shop, step))
  {
    match step
    case Commit(w) => CommitKeepsSnapshots(shop, w);
    case Lock(w) => LockKeepsSnapshots(shop, w);
    case _ =>
  }

  lemma {:induction false} RunKeepsSnapshots(shop: Shop, steps: seq<Step>)
    requires SnapshotsOk(shop) && Feasible(shop, steps)
    ensures SnapshotsOk(Exec(shop, steps))
    decreases |steps|
  {
    if steps != [] {
      StepKeepsSnapshots(shop, steps[0]);
      RunKeepsSnapshots(Next(shop, steps[0]), steps[1..]);
    }
  }

  /** The snapshot of a lock holder is always the stock row as it is, in every run from any tables, however
      the messages of an order are distributed over workers. */
  lemma SnapshotIsCurrent(inv: InventoryState, steps: seq<Step>, w: nat)
    requires Feasible(Shop(inv, map[]), steps)
    requires var t := Exec(Shop(inv, map[]), steps); w in t.jobs && HoldsLock(t.jobs[w])
    ensures var t := Exec(Shop(inv, map[]), steps);
            && JobProduct(t.jobs[w]) in t.inv.stocks
            && t.inv.stocks[JobProduct(t.jobs[w])] == t.jobs[w].available
  {
    RunKeepsSnapshots(Shop(inv, map[]), steps);
  }

  // ---- Why the messages of one order on one topic have to wait for each other ----

  const ONE_PRODUCT := InventoryState(map[1 := 5], map[1 := 10], [], [])
  const TWO_UNITS := ReserveCommand(7, 1, 2, Pix)

  lemma FirstThen(shop: Shop, step: Step, rest: seq<Step>)
    requires Enabled(shop, step) && Feasible(Next(shop, step), rest)
    ensures Feasible(shop, [step] + rest) && Exec(shop, [step] + rest) == Exec(Next(shop, step), rest)
    ensures AllSerialised(shop, [step] + rest) ==> AllSerialised(Next(shop, step), rest)
  {
    assert ([step] + rest)[1..] == rest;
  }

  /** A worker that has passed its checks takes the lock and commits, adding a second row for the order. */
  lemma LockAndCommit(inv: InventoryState, w: nat, jobs: map<nat, Job>)
    requires inv.products == ONE_PRODUCT.products && 1 in inv.stocks && 2 <= inv.stocks[1] <= 10
    requires w in jobs && jobs[w] == CheckedReserve(TWO_UNITS, 5)
    requires forall v | v in jobs :: !HoldsLock(jobs[v])
    ensures var shop, steps := Shop(inv, jobs), [Lock(w), Commit(w)];
            && Feasible(shop, steps)
            && var after := Exec(shop, steps);
            && after.jobs == jobs - {w} && after.inv.products == inv.products
            && after.inv.stocks == inv.stocks[1 := inv.stocks[1] - 2]
            && after.inv.reservations == inv.reservations + [Reservation(7, 1, 2, ReservationStatus.Reserved)]
  {
    var shop := Shop(inv, jobs);
    var locked := Next(shop, Lock(w));
    FirstThen(locked, Commit(w), []);
    FirstThen(shop, Lock(w), [Commit(w)]);
    assert [Lock(w)] + [Commit(w)] == [Lock(w), Commit(w)] && [Commit(w)] + [] == [Commit(w)];
  }

  lemma {:induction false} RunThen(shop: Shop, a: seq<Step>, b: seq<Step>)
    requires Feasible(shop, a) && Feasible(Exec(shop, a), b)
    ensures Feasible(shop, a + b) && Exec(shop, a + b) == Exec(Exec(shop, a), b)
    decreases |a|
  {
    if a == [] {
      assert a + b == b;
    } else {
      assert (a + b)[1..] == a[1..] + b;
      RunThen(Next(shop, a[0]), a[1..], b);
    }
  }

  /** The existence check precedes the lock, so two workers given the same order both pass it and
      both reserve: the serialisation of the reserves of an order cannot be dropped. */
  lemma SameOrderTwiceReservesTwice() returns (steps: seq<Step>)
    ensures Feasible(Shop(ONE_PRODUCT, map[]), steps)
    ensures !AllSerialised(Shop(ONE_PRODUCT, map[]), steps)
    ensures Find(Exec(Shop(ONE_PRODUCT, map[]), steps).inv.reservations, ReservationOrder, 7).ManyRows?
  {
    var start := Shop(ONE_PRODUCT, map[]);
    var one := Next(start, BeginReserve(1, TWO_UNITS));
    var two := Next(one, BeginReserve(2, TWO_UNITS));
    LockAndCommit(two.inv, 1, two.jobs);
    var three := Exec(two, [Lock(1), Commit(1)]);
    LockAndCommit(three.inv, 2, three.jobs);
    RunThen(two, [Lock(1), Commit(1)], [Lock(2), Commit(2)]);
    steps := [Lock(1), Commit(1)] + [Lock(2), Commit(2)];
    FirstThen(one, BeginReserve(2, TWO_UNITS), steps);
    steps := [BeginReserve(2, TWO_UNITS)] + steps;
    assert !Serialised(one, steps[0]);
    FirstThen(start, BeginReserve(1, TWO_UNITS), steps);
    steps := [BeginReserve(1, TWO_UNITS)] + steps;
    TwoRows(Reservation(7, 1, 2, ReservationStatus.Reserved));
  }

  const TWO_HELD := InventoryState(map[1 := 5], map[1 := 8], [Reservation(7, 1, 2, ReservationStatus.Reserved)],
                                   [InventoryReserved(7, 10, Pix)])

  /** A worker that has passed its checks takes the lock and commits, giving two units back. */
  lemma LockAndRestore(inv: InventoryState, w: nat, jobs: map<nat, Job>)
    requires 1 in inv.stocks && 0 <= inv.stocks[1] <= 10
    requires w in jobs && jobs[w] == CheckedRelease(7, AmountExceeded, 0, TWO_HELD.reservations[0])
    requires forall v | v in jobs :: !HoldsLock(jobs[v])
    ensures var shop, steps := Shop(inv, jobs), [Lock(w), Commit(w)];
            && Feasible(shop, steps)
            && var after := Exec(shop, steps);
            after.jobs == jobs - {w} && after.inv.stocks == inv.stocks[1 := inv.stocks[1] + 2]
  {
    var shop := Shop(inv, jobs);
    var locked := Next(shop, Lock(w));
    FirstThen(locked, Commit(w), []);
    FirstThen(shop, Lock(w), [Commit(w)]);
    assert [Lock(w)] + [Commit(w)] == [Lock(w), Commit(w)] && [Commit(w)] + [] == [Commit(w)];
  }

  /** The same for releases: two workers given the same denial both give the two units back, so twelve are
      available where eight were available and two held. */
  lemma SameDenialTwiceReleasesTwice() returns (steps: seq<Step>)
    ensures ShopOk(Shop(TWO_HELD, map[])) && Feasible(Shop(TWO_HELD, map[]), steps)
    ensures !AllSerialised(Shop(TWO_HELD, map[]), steps)
    ensures Exec(Shop(TWO_HELD, map[]), steps).inv.stocks == map[1 := 12]
  {
    var start := Shop(TWO_HELD, map[]);
    assert TWO_HELD.outbox[0] in TWO_HELD.outbox;
    assert Find(TWO_HELD.reservations, ReservationOrder, 7) == OneRow(0);
    var one := Next(start, BeginRelease(1, 7, AmountExceeded));
    var two := Next(one, BeginRelease(2, 7, AmountExceeded));
    LockAndRestore(two.inv, 1, two.jobs);
    var three := Exec(two, [Lock(1), Commit(1)]);
    LockAndRestore(three.inv, 2, three.jobs);
    RunThen(two, [Lock(1), Commit(1)], [Lock(2), Commit(2)]);
    steps := [Lock(1), Commit(1)] + [Lock(2), Commit(2)];
    FirstThen(one, BeginRelease(2, 7, AmountExceeded), steps);
    steps := [BeginRelease(2, 7, AmountExceeded)] + steps;
    assert !Serialised(one, steps[0]);
    FirstThen(start, BeginRelease(1, 7, AmountExceeded), steps);
    steps := [BeginRelease(1, 7, AmountExceeded)] + steps;
  }

  lemma TwoRows(row: Reservation)
    ensures Find([] + [row] + [row], ReservationOrder, row.orderId).ManyRows?
  {
    assert ([] + [row] + [row])[..1] == [row];
  }
}
