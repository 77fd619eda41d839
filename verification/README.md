# Saga verification

A Dafny model of the order saga: the orders, inventory and payments services, the three databases they keep
to themselves, the outbox relays that carry messages between them, and proofs of what the protocol as a whole
promises. `dafny verify dfyconfig.toml` checks everything.

## How it is organised

| module | what it holds |
|---|---|
| `Base`, `Messages`, `Rows` | 32-bit integers, the seven events, tables without a unique order column |
| `Orders`, `Inventory`, `Payments` | one class per service whose methods update its tables, each method proved against a function from old state to new state and outcome; the lemmas `...Effect` spell each function out in terms of the rows |
| `Saga` | the three states and the set of messages ever published; one step per transaction, publication, administrator action or failed attempt; the abstract saga (`Phase`, `Edge`) and the phase read off the three databases (`PhaseIn`) |
| `Invariant`, `Theorems` | the inductive invariant across the three services; refinement, agreement, redelivery |
| `Reservations`, `Termination`, `Convergence`, `StuckOrder` | reservation history, the bound of eight steps, where the system comes to rest and when it does not |
| `StockLedger`, `Amounts`, `Provenance` | conservation of stock; the payment rule from price to confirmed order; every order, bill and payment traced back to the request and the price it comes from |
| `PaymentWorkers`, `StockLock`, `SplitHandlers` | handlers split into their statements and interleaved, first per service, then in the whole system |
| `Outbox`, `GoRelay`, `KotlinRelay` | the outbox row and the two relay implementations, as classes |
| `RelayFleet`, `RelayProgress`, `RelayAgreement` | any number of relays interleaved; termination and starvation; the Go and Kotlin retry machines compared |
| `Idempotency` | the Redis fast path in front of the unique key |

The abstract saga is `Absent -> Placed`, then `Placed -> Rejected -> Canceled`,
`Placed -> Held -> Approved -> Accepted -> Done`, or `Placed -> Held -> Denied -> Released -> Canceled`.
Handlers never see the phase: it is computed from the rows of all three services.

## Reading the model

- A published message may be handled any number of times, in any order, or never: that covers loss, duplication
  and reordering, including consumers that move on after a failed message. Publishing is possible for any event
  in an outbox, as often as wanted.
- A transaction that fails, or whose outcome is unknown to its caller, is a step that changes nothing or the
  whole transaction; both are steps of the system.
- Order, reservation and payment identifiers are compared and nothing else. That a new order or payment
  identifier is fresh is not assumed: a collision meets the primary key and fails. Reservation and outbox rows
  are known by their position.
- Topic names are the defaults, and each topic has the consumer that the root README.md:255-263 lists.
- Prices never change, because no code updates them.
- In `Saga` every handler is one step. `PaymentWorkers` and `StockLock` prove that the payment and inventory
  handlers, split into their statements, leave the tables of whole handlers, and `SplitHandlers` that a system
  of split handlers reaches no state that `Saga` does not, so the results about `Saga` carry over. The inventory
  side needs one assumption (`Serialised`): messages of one order *on one topic* are handled one at a time,
  because each listener reads its topic partition by partition and all messages of an order on `orders.created`,
  like all copies of its one `payments.denied`, carry the same key
  (orders-service/internal/relay/outbox.go:70, payments-service/internal/relay/outbox.go:79). The keys of
  different topics differ and so do the listeners, so handlers of one order from different topics may overlap,
  and confirmations may even overlap each other. Two concrete interleavings (`SameOrderTwiceReservesTwice`,
  `SameDenialTwiceReleasesTwice`) show that the assumption cannot be dropped for either handler.
- `Int` arithmetic of the inventory service wraps at 32 bits (`WrapInt`); a stored quantity must satisfy the
  column's CHECK, otherwise the transaction rolls back.
- The outcome of each publication, of each stored mark and of the claiming transaction (`Attempt`,
  `ClaimFault`, `Fault`) is a parameter chosen by the environment. An unacknowledged message may have reached
  its topic. `MarkEventAsFailed` decides on the retry count from before the update: the CASE comes first.
- A mark that PostgreSQL refuses aborts the Kotlin relay's transaction, including the second mark attempted in
  its `catch`.
- `RelayFleet` interleaves the Go relays statement by statement. A claim takes any unlocked candidates up to the
  limit, since a locking read also skips rows that another read has locked and will not return. `Punctual` says
  that time passes only while every relay that still holds events is within its five minutes; only lease
  exclusion, the bound on retries and `FinishedForever` depend on it.
- `created_at` has a resolution of one second. In `RelayProgress.NoStarvation` an event that arrives in the same
  instant as the waiting one counts as not newer, and its attempts enter the bound.

## Where the promises hold, and where they do not

- Convergence fails in one case, and `Convergence.Converges` says exactly which: a denied order whose stock no
  longer fits back into its 32-bit row, because an administrator overwrote the quantity while stock was held.
  The release then rolls back for as long as the quantity stays that high. `StuckOrder.RestWithoutSettlement`
  is such a run; `StockLedger.SuppliedWithinIntNeverSticks` is the condition that rules it out.
- The credit-card limit (payments-service/README.md:46-47) is applied to the product of two 32-bit integers
  after it has wrapped. `Amounts.ConfirmedRespectsLimit` says exactly when the limit holds for a confirmed
  order; `Amounts.LimitMissedByOverflow` is a confirmed order worth 2^32.
- SENT is final only while relays mark what they own, since the marks are not guarded by the current status:
  `RelayFleet.FinishedChanges` says exactly which step changes a finished event, `FinalWhileOwned` and
  `PunctualMeansOwn` draw the consequences, and `LateOwnerReopensSent` is a run that turns SENT back into FAILED.

The code differs from the documentation in three more places, and the model follows the code: README.md:374-382
shows every relay selecting with FOR UPDATE SKIP LOCKED, which the Kotlin relay does not do; README.md:3 speaks
of guaranteed delivery, while an event becomes a dead letter after its last retry; and only the release and
reserve handlers are guarded by an outbox lookup (README.md:393), the confirmation is not.

## Model

| member | source | states |
|---|---|---|
| `Theorems.Refinement` | README.md:159-247 | in every reachable state, under any loss, duplication and reordering, every step leaves what the three databases say about every order as it was, or moves exactly one order along exactly one edge of the saga; a handler that moves nothing changes nothing at all |
| `Theorems.TraceIsSagaPath` | README.md:191-247 | over any run the phases an order goes through, read off the three databases, form a path of the acyclic saga |
| `Theorems.StepIsEdgeOrStutter` | README.md:159-247 | one step leaves the phase of an order alone or takes one edge of the saga |
| `Theorems.Agreement` | orders-service/internal/service/order.go:90-155 | in every reachable state: a confirmed order has its one payment AUTHORIZED and its one reservation, of the same product and quantity, not RELEASED; a canceled one has neither row, or a DENIED payment and a RELEASED reservation; no order has two payments or two reservations |
| `Theorems.NoOrderNoTrace` | README.md:255-263 | in every reachable state an identifier under which no order exists has no payment, no reservation, no event in any outbox and no published message |
| `Theorems.RedeliveryIsNoOp` | inventory-service/src/main/kotlin/br/com/souza/inventory_service/application/domain/service/ReserveStockService.kt:35-38 | once any of the handlers has succeeded on a message, handling that message again, after any further steps of anybody, changes no table and emits no event |
| `Theorems.HandlerMoves` | README.md:257-263 | a handler changes the system if and only if the order is in the one phase its message belongs to and the handler is not blocked (a release that overflows, a payment identifier already taken); a published message never runs ahead of its phase |
| `Theorems.SuccessPassesPhase` | inventory-service/src/main/kotlin/br/com/souza/inventory_service/application/domain/service/ReserveStockService.kt:32-101 | a handler whose transaction did not fail leaves its order strictly beyond the phase its message belongs to |
| `Theorems.RankNeverFalls` | README.md:159-247 | over any run an order stays in its phase or ends strictly further on: no phase is ever entered twice |
| `Theorems.StepKeepsInvariant` | README.md:255-263 | every step of every service, relay and administrator keeps the invariant across the three databases, and says which order it may have moved |
| `Theorems.ReachableInvariant` | README.md:255-263 | the invariant across the three databases holds in every reachable state |
| `Invariant.ReserveStep` | inventory-service/src/main/kotlin/br/com/souza/inventory_service/application/domain/service/ReserveStockService.kt:32-101 | handling `orders.created` keeps the invariant, moves its order by one edge, and does nothing exactly when the order is no longer placed |
| `Invariant.ReserveEdge` | inventory-service/src/main/kotlin/br/com/souza/inventory_service/application/domain/service/ReserveStockService.kt:42-99 | the failure event alone takes a placed order to `Rejected`; the reservation with its success event takes it to `Held` |
| `Invariant.PaymentStep` | payments-service/internal/service/payment.go:42-121 | handling `inventory.reserved` keeps the invariant and does nothing exactly when the order is not held or the new payment identifier is taken |
| `Invariant.PaymentEdge` | payments-service/internal/service/payment.go:51-117 | a held order without payment goes to `Approved` or `Denied` when the decided payment and its announcement are written |
| `Invariant.OrderConfirmStep` | orders-service/internal/service/order.go:102-155 | handling `payments.authorized` keeps the invariant and does nothing exactly when the order is not approved |
| `Invariant.OrderCancelStep` | orders-service/internal/service/order.go:90-100 | handling either compensation event keeps the invariant, does nothing exactly when the order is canceled already, and otherwise finds it rejected or released |
| `Invariant.ReservationConfirmStep` | inventory-service/src/main/kotlin/br/com/souza/inventory_service/application/domain/service/ConfirmReservationService.kt:19-32 | handling `orders.confirmed` keeps the invariant; the overwrite always finds its row, and changes it only for an accepted order |
| `Invariant.ReleaseOutcome` | inventory-service/src/main/kotlin/br/com/souza/inventory_service/application/domain/service/ReleaseStockService.kt:33-82 | the release handler skips exactly when the order is not denied, rolls back exactly when the sum leaves 32 bits, and otherwise works |
| `Invariant.ReleaseStep` | inventory-service/src/main/kotlin/br/com/souza/inventory_service/application/domain/service/ReleaseStockService.kt:30-82 | handling `payments.denied` keeps the invariant and does nothing exactly when the order is not denied or the release overflows |
| `Invariant.AdminStep` | inventory-service/src/main/kotlin/br/com/souza/inventory_service/application/domain/service/UpdateStockQuantityService.kt:14-18 | creating products and stock and overwriting quantities keep the invariant and leave every order as it was |
| `Invariant.PlaceStep` | orders-service/internal/service/order.go:35-88 | creating an order keeps the invariant and, if it does anything, takes one new order from `Absent` to `Placed` |
| `Reservations.ReservationHistory` | inventory-service/src/main/kotlin/br/com/souza/inventory_service/application/domain/service/ConfirmReservationService.kt:23-30 | over every run a reservation row keeps its order, product and quantity, and its status changes at most once, from RESERVED to CONFIRMED or to RELEASED, never between those two, although neither handler looks at the current status |
| `Reservations.NoUnexpectedSkips` | inventory-service/src/main/kotlin/br/com/souza/inventory_service/application/domain/service/ReleaseStockService.kt:33-50 | in every reachable state the skips for a missing reservation and a missing stock row are unreachable; a reserve never rolls back, a release only on overflow |
| `Termination.SagaTerminates` | orders-service/internal/service/order.go:111-151 | in any run from any reachable state at most eight steps change what the databases say about an existing order or publish a new message of it |
| `Termination.StepSpends` | inventory-service/src/main/kotlin/br/com/souza/inventory_service/application/domain/service/ReserveStockService.kt:32-123 | a step that touches an order strictly lowers that order's budget of phases and unpublished events; every other step leaves it equal |
| `Termination.BudgetBound` | README.md:159-247 | the budget of an order is at most nine before it exists and at most eight afterwards |
| `Termination.EdgeWrites` | inventory-service/src/main/kotlin/br/com/souza/inventory_service/application/domain/service/ReserveStockService.kt:62-99 | one edge of the saga writes fewer events than the steps it saves |
| `Convergence.Converges` | payments-service/internal/service/payment.go:38-130 | in every reachable state at rest an order is settled (CONFIRMED, paid and booked, or CANCELED with nothing held) if and only if it is not a denied order whose stock no longer fits back into its 32-bit row |
| `Convergence.QuiescentIffFinished` | payments-service/internal/service/payment.go:38-130 | a reachable state is at rest if and only if every event is published and every order is terminal, or denied with a release that overflows |
| `Convergence.TerminalIffSettled` | orders-service/internal/service/order.go:90-155 | the terminal phases are exactly the settled rows of the three databases |
| `Convergence.RestHoldsNothing` | inventory-service/src/main/kotlin/br/com/souza/inventory_service/application/domain/service/ReleaseStockService.kt:52-60 | in every reachable state at rest every reservation belongs to an order, and is still RESERVED if and only if that order is stuck on its release |
| `Convergence.PendingMessage` | README.md:257-263 | an order that has not finished always has an event on record whose handler is the one to move it |
| `Convergence.CanFinish` | README.md:159-247 | from any state with the invariant in which the order can release (if its stock is held and will have to be given back, it fits back), publications and handlings of that order's own messages alone, at most one pair per phase left, drive it to its end, which is the one fixed by the tables beforehand |
| `Convergence.CannotFinish` | inventory-service/src/main/kotlin/br/com/souza/inventory_service/application/domain/service/ReleaseStockService.kt:46-60 | otherwise no run of the order's own messages, however long, ever brings it to an end |
| `Convergence.FinishesIffCanRelease` | inventory-service/src/main/kotlin/br/com/souza/inventory_service/application/domain/service/ReleaseStockService.kt:30-82 | in every reachable state an order can be brought to an end by its own messages if and only if it can release |
| `Convergence.ReserveResult` | inventory-service/src/main/kotlin/br/com/souza/inventory_service/application/domain/service/ReserveStockService.kt:42-77 | a placed order ends up held exactly if its product exists with enough stock, and then the stock drops by exactly the ordered quantity; otherwise it ends up rejected and no stock row changes |
| `StuckOrder.RestWithoutSettlement` | inventory-service/src/main/kotlin/br/com/souza/inventory_service/application/domain/service/UpdateStockQuantityService.kt:14-18 | a concrete run: an overwrite with the largest integer while stock is held makes the release overflow, and the system comes to rest with an order still pending |
| `StockLedger.Conservation` | inventory-service/src/main/kotlin/br/com/souza/inventory_service/application/domain/service/ReserveStockService.kt:56-77 | after any run, for every product, available plus held by unreleased reservations equals what the administrators' steps added to the stock table, and neither is negative |
| `StockLedger.RunConserves` | inventory-service/src/main/kotlin/br/com/souza/inventory_service/application/domain/service/ReleaseStockService.kt:52-60 | over any run from a state with the invariant the balance changes by exactly the supply of that run |
| `StockLedger.StepConserves` | inventory-service/src/main/kotlin/br/com/souza/inventory_service/application/domain/service/UpdateStockQuantityService.kt:14-18 | one step changes the balance of a product by exactly what it supplies: a created stock, or the difference an overwrite makes; all handlers supply nothing |
| `StockLedger.SuppliedInFigures` | inventory-service/src/main/kotlin/br/com/souza/inventory_service/application/domain/service/CreateStockService.kt:17-28 | what a step supplies, in figures: the quantity of a stock row created, or the difference an overwrite makes, up or down; nothing if the database refuses it |
| `StockLedger.ReleaseConserves` | inventory-service/src/main/kotlin/br/com/souza/inventory_service/application/domain/service/ReleaseStockService.kt:46-60 | a release conserves the balance, although it never checks the status of the row: when it acts, the row was not released before |
| `StockLedger.ConfirmConserves` | inventory-service/src/main/kotlin/br/com/souza/inventory_service/application/domain/service/ConfirmReservationService.kt:23-30 | a confirmation conserves the balance: the row it overwrites is never a released one |
| `StockLedger.SuppliedWithinIntNeverSticks` | inventory-service/src/main/kotlin/br/com/souza/inventory_service/application/domain/service/ReleaseStockService.kt:52-56 | if the supply of a product fits in 32 bits, the addition in a release never overflows, so no order of that product gets stuck |
| `Amounts.PaymentRule` | payments-service/internal/service/payment.go:132-142 | in every reachable state a payment is AUTHORIZED exactly if the order is no boleto and not a credit card above the limit, on the total reduced to 32 bits |
| `Amounts.ConfirmedRespectsLimit` | inventory-service/src/main/kotlin/br/com/souza/inventory_service/application/domain/service/ReserveStockService.kt:80 | a confirmed order is never a boleto, and a confirmed credit-card order has price times quantity within 10000 if and only if that product fits in 32 bits |
| `Amounts.LimitMissedByOverflow` | inventory-service/src/main/kotlin/br/com/souza/inventory_service/application/domain/service/ReserveStockService.kt:80 | a concrete run: a credit-card order worth 2^32 is confirmed, because the product wraps to zero |
| `Amounts.RunKeepsBill` | orders-service/internal/repository/order.go:45-70 | over any run an order keeps product, quantity and payment type, and every product keeps its price |
| `Provenance.OrderedAsRequested` | orders-service/internal/service/order.go:44-74 | after any run every order has the key, product, quantity and payment type of a request of that run, placed under its identifier, and every announcement of it tells that product, quantity and payment type |
| `Provenance.EventBills` | inventory-service/src/main/kotlin/br/com/souza/inventory_service/application/domain/service/ReserveStockService.kt:80-88 | in every reachable state every `inventory.reserved` event written or published bills its order's price times quantity, in 32 bits, by its order's payment type |
| `Provenance.PaymentBills` | payments-service/internal/service/payment.go:57-65 | in every reachable state every payment is of its order's price times quantity, in 32 bits, by its order's payment type |
| `Provenance.PaymentsTold` | payments-service/internal/service/payment.go:67-102 | in every reachable state payments and outcome events correspond one to one: same order, same payment identifier, PaymentAuthorized exactly for an authorized payment, and the reason of a denial |
| `Provenance.PaymentOrigin` | payments-service/internal/service/payment.go:54-65 | after any run every payment was made by handling an event of its order, amount and type, under the identifier drawn by that handler |
| `Provenance.PriceOrigin` | inventory-service/src/main/kotlin/br/com/souza/inventory_service/application/domain/service/CreateProductService.kt:13-16 | after any run every price is one that an administrator gave that product |
| `Inventory.InventoryService.ReserveStock` | inventory-service/src/main/kotlin/br/com/souza/inventory_service/application/domain/service/ReserveStockService.kt:32-101 | check, lookup, lock, decrement, reservation and event have the effect that `ReserveEffect` spells out, every refusal and the rollback included |
| `Inventory.InventoryService.ReleaseStock` | inventory-service/src/main/kotlin/br/com/souza/inventory_service/application/domain/service/ReleaseStockService.kt:30-82 | outcome and whole new state of the compensation, every skip and the rollback included |
| `Inventory.InventoryService.ConfirmReservation` | inventory-service/src/main/kotlin/br/com/souza/inventory_service/application/domain/service/ConfirmReservationService.kt:19-32 | outcome and whole new state; the status is overwritten whatever it was |
| `Inventory.InventoryService.SaveStock` | inventory-service/INIT.sql:11-16 | a quantity is stored exactly if it is a non-negative 32-bit integer |
| `Inventory.InventoryService.CreateProduct` | inventory-service/src/main/kotlin/br/com/souza/inventory_service/application/domain/service/CreateProductService.kt:13-16 | outcome and whole new state |
| `Inventory.InventoryService.CreateStock` | inventory-service/src/main/kotlin/br/com/souza/inventory_service/application/domain/service/CreateStockService.kt:17-28 | outcome and whole new state; refused without a product or with a stock row already there |
| `Inventory.InventoryService.UpdateStockQuantity` | inventory-service/src/main/kotlin/br/com/souza/inventory_service/application/domain/service/UpdateStockQuantityService.kt:14-18 | the absolute overwrite has the effect that `OverwriteEffect` spells out |
| `Inventory.ReserveEffect` | inventory-service/src/main/kotlin/br/com/souza/inventory_service/application/domain/service/ReserveStockService.kt:35-99 | the four outcomes, each exactly when it happens; a refusal gives the first reason that applies and touches no stock; a reservation takes exactly the quantity, books it and bills price times quantity in 32 bits |
| `Inventory.ReleaseEffect` | inventory-service/src/main/kotlin/br/com/souza/inventory_service/application/domain/service/ReleaseStockService.kt:40-80 | the one reservation gives back exactly what it holds, whatever its status, with its event and reason, unless the stock row is missing or the sum does not fit; each outcome exactly when it happens |
| `Inventory.ReleaseSkips` | inventory-service/src/main/kotlin/br/com/souza/inventory_service/application/domain/service/ReleaseStockService.kt:33-44 | an answered or unknown order is skipped, two rows of an order are an error, and nothing then changes |
| `Inventory.ConfirmReservationEffect` | inventory-service/src/main/kotlin/br/com/souza/inventory_service/application/domain/service/ConfirmReservationService.kt:19-32 | done exactly if the order has one reservation, whose status alone is overwritten, whatever it was |
| `Inventory.OverwriteEffect` | inventory-service/src/main/kotlin/br/com/souza/inventory_service/application/domain/service/UpdateStockQuantityService.kt:14-18 | done exactly if the row exists and the quantity is a non-negative 32-bit integer, lower or higher than before; then that row holds exactly it and nothing else changes |
| `Inventory.CreateStockEffect` | inventory-service/src/main/kotlin/br/com/souza/inventory_service/application/domain/service/CreateStockService.kt:17-28 | done exactly if the product exists, has no stock row and the quantity is storable; then that row holds exactly it and nothing else changes |
| `Inventory.CreateProductEffect` | inventory-service/src/main/kotlin/br/com/souza/inventory_service/application/domain/service/CreateProductService.kt:13-16 | done exactly for a new identifier and a storable price; then that price is stored and nothing else changes |
| `Inventory.ReserveAppends` | inventory-service/src/main/kotlin/br/com/souza/inventory_service/application/domain/service/ReserveStockService.kt:90-123 | a reserve never changes a product and only appends to the outbox |
| `Orders.OrderService.CreateOrder` | orders-service/internal/service/order.go:35-88 | order and event are written together or, on a conflict or a failure at any point, not at all |
| `Orders.OrderService.ConfirmOrder` | orders-service/internal/service/order.go:102-155 | the compare-and-set and its event are committed together or not at all; nothing happens to an order that is not pending |
| `Orders.OrderService.CancelOrder` | orders-service/internal/service/order.go:90-100 | only a pending order is canceled, with its reason |
| `Orders.OrderService.Save` | orders-service/internal/repository/order.go:28-43 | the insert succeeds exactly if the values are storable and neither key is taken |
| `Orders.OrderService.UpdateStatusToCanceled` | orders-service/internal/repository/order.go:45-54 | the update affects the row exactly if it is pending |
| `Orders.OrderService.UpdateStatusToConfirmed` | orders-service/internal/repository/order.go:56-70 | compare-and-set on PENDING; the answer tells whether a row was affected |
| `Orders.CreateOutcome` | orders-service/internal/repository/order.go:28-43 | created exactly from a storable request with new identifier and unused key; otherwise nothing changes, and a request that cannot be stored fails while any other refused one is a conflict |
| `Orders.CreateEffect` | orders-service/internal/service/order.go:44-78 | the new row is pending without a reason and carries the key, product, quantity and payment type requested, and so, but for the key, does the one new event; every other row stays |
| `Orders.CancelEffect` | orders-service/internal/repository/order.go:45-54 | a pending order gets the status and the given reason, any other order and any other column stays, and there is no event |
| `Orders.ConfirmEffect` | orders-service/internal/service/order.go:111-154 | done exactly for a pending order, which gets the status alone, with exactly one event of its identifier |
| `Payments.PaymentService.ProcessPayment` | payments-service/internal/service/payment.go:38-130 | payment and matching event are written together or not at all |
| `Payments.PaymentService.Save` | payments-service/internal/repository/payment.go:27-47 | the insert succeeds exactly if neither the payment nor the order identifier is taken |
| `Payments.Evaluate` | payments-service/internal/service/payment.go:132-142 | denied exactly for a boleto and for a credit card above the limit; a reason exactly when denied |
| `Payments.LimitInFigures` | payments-service/internal/service/payment.go:137 | by credit card 10000 is authorized and 10001 is denied for the amount; by PIX 10001 is authorized |
| `Payments.ProcessEffect` | payments-service/internal/service/payment.go:42-121 | skipped exactly if the order is paid, failed exactly if only the identifier is taken; otherwise one payment under that identifier with the amount and type received, decided by the rule, and the one event that tells its order, identifier, outcome and reason |
| `PaymentWorkers.AtMostOnePayment` | payments-service/INIT.sql:8-23 | for any number of workers interleaving check and insert, with rollbacks and crashes anywhere: at most one payment per order, decided by the rule, and exactly one event per payment, which tells its order, its own payment identifier, its outcome and its reason |
| `PaymentWorkers.Serializable` | payments-service/internal/service/payment.go:42-121 | every interleaving of the split handlers has the effect of running the atomic handler serially, in the order of the inserts |
| `PaymentWorkers.CommitIsAtomic` | payments-service/internal/repository/payment.go:27-58 | an insert reached after an arbitrarily old check has the effect of the whole handler at that moment |
| `StockLock.Linearizable` | inventory-service/src/main/kotlin/br/com/souza/inventory_service/application/domain/service/ReserveStockService.kt:35-77 | provided the messages of one order on one topic are handled one at a time: with reserve and release split into check, lock-and-read, and write-and-commit, and confirm into read and write, every interleaving, also of a reserve, a release and confirmations of the same order, and with overwrites that wait for the row, equals the whole handlers run one after the other in the order in which they take effect |
| `StockLock.StepIsAtomic` | inventory-service/src/main/kotlin/br/com/souza/inventory_service/application/domain/service/ReleaseStockService.kt:46-80 | a commit that uses only what was read before, under the lock or not, has the effect of the whole handler at that moment |
| `StockLock.StepKeepsShopOk` | inventory-service/src/main/kotlin/br/com/souza/inventory_service/application/domain/service/ReleaseStockService.kt:33-60 | provided the messages of one order on one topic are handled one at a time: no step of anybody invalidates what an unfinished handler relies on |
| `StockLock.SnapshotIsCurrent` | inventory-service/src/main/kotlin/br/com/souza/inventory_service/application/domain/service/ReleaseStockService.kt:46-56 | in every run from any tables, whatever overlaps, the quantity a lock holder read is the quantity in the table |
| `SplitHandlers.SplitRunIsWholeRun` | inventory-service/src/main/kotlin/br/com/souza/inventory_service/application/domain/service/ReserveStockService.kt:32-101 | every run of the whole system with reserve, release, confirm and payment handlers split into their statements, each started by a published message, on any number of workers, with rollbacks and crashes anywhere, ends in the tables and messages of a run of whole handlers with no more steps (provided the messages of one order on one inventory topic are handled one at a time) |
| `SplitHandlers.SplitStaysReachable` | payments-service/internal/service/payment.go:42-121 | under the same proviso the system of split handlers never leaves the reachable states of the whole one, so everything proved of those holds of it |
| `SplitHandlers.StepSimulated` | inventory-service/src/main/kotlin/br/com/souza/inventory_service/application/domain/service/ReleaseStockService.kt:30-82 | each statement of a split handler is nothing or one whole handler of its message |
| `SplitHandlers.StepKeepsBacked` | inventory-service/src/main/kotlin/br/com/souza/inventory_service/application/domain/service/ConfirmReservationService.kt:19-32 | every unfinished handler stands for a published message, whatever step is taken |
| `StockLock.ReachableIsShopOk` | inventory-service/src/main/kotlin/br/com/souza/inventory_service/application/domain/service/ReserveStockService.kt:35-38 | the inventory tables of every reachable state of the system are a start from which the interleavings above are covered |
| `StockLock.SameOrderTwiceReservesTwice` | inventory-service/src/main/kotlin/br/com/souza/inventory_service/application/domain/service/ReserveStockService.kt:35-49 | a concrete interleaving: two workers given the same `orders.created` both pass the check and both reserve, because the check precedes the lock and the table has no unique order column |
| `StockLock.SameDenialTwiceReleasesTwice` | inventory-service/src/main/kotlin/br/com/souza/inventory_service/application/domain/service/ReleaseStockService.kt:33-56 | a concrete interleaving: two workers given the same `payments.denied` both give the stock back, so the condition is needed for releases as well |
| `GoRelay.OutboxRepository.FindAndLockPendingEvents` | orders-service/internal/repository/outbox.go:40-108 | on success the claimed rows are the oldest eligible ones that nobody has locked, up to the limit, all now PROCESSING with a fresh lease, and returned in order; an error anywhere changes nothing |
| `Messages.TopicPerEvent` | README.md:255-263 | each kind of event has a topic of its own |
| `GoRelay.OutboxRepository.Scan` | orders-service/internal/repository/outbox.go:60-89 | the returned events are the selected rows, in order |
| `GoRelay.OutboxRepository.ClaimEach` | orders-service/internal/repository/outbox.go:91-105 | all selected rows are claimed, or none after a failed UPDATE |
| `GoRelay.OutboxRepository.MarkEventAsSent` | orders-service/internal/repository/outbox.go:110-118 | the row becomes SENT whatever it was, if the update is stored |
| `GoRelay.OutboxRepository.MarkEventAsFailed` | payments-service/internal/repository/outbox.go:112-122 | the row becomes FAILED, or DEAD_LETTER when this was its last retry, both decided on the old retry count |
| `GoRelay.OutboxRelay.Poll` | orders-service/internal/relay/outbox.go:48-91 | a poll tries each claimed event exactly once: with the mark stored, it is SENT with its retry count exactly if its topic has a writer and the broker acknowledged it, and otherwise FAILED or, at the last retry, dead, with one retry more; without it, it stays PROCESSING; all other rows are untouched and the delivered messages are written in order; a failed claim touches nothing |
| `GoRelay.OutboxRelay.Deliver` | payments-service/internal/relay/outbox.go:64-102 | the event is marked SENT exactly if its topic has a writer and the broker acknowledged it, and FAILED or dead otherwise; a refused message may still have reached the topic, one without a writer has not |
| `Outbox.SelectOldest` | payments-service/internal/repository/outbox.go:50-62 | the answer holds distinct candidates, oldest first, up to the limit, and every candidate left out is not older than any picked one and was left out only because the limit was reached |
| `Outbox.CandidateMeans` | orders-service/internal/repository/outbox.go:47-54 | a row is a candidate exactly if it is PENDING or FAILED with a retry left, or PROCESSING under a claim more than 300 seconds old |
| `Outbox.ClaimAll` | payments-service/internal/repository/outbox.go:75-95 | exactly the rows of the batch are PROCESSING with the lease of now |
| `Outbox.MarkAll` | orders-service/internal/relay/outbox.go:57-90 | each row of the batch carries the mark of its own outcome, all others are unchanged |
| `RelayFleet.NothingLostOrInvented` | orders-service/internal/repository/outbox.go:40-128 | for any number of relays interleaved statement by statement, with crashes, lost marks and overdue owners: every SENT event was itself published, every event neither SENT nor DEAD_LETTER is eligible now or when its lease ends, and the topic holds the messages of the published events and nothing else |
| `RelayFleet.LeaseExclusion` | orders-service/internal/repository/outbox.go:47-105 | if every claim is resolved or abandoned within five minutes, then after every run, however many relays are polling, no two of them hold the same event, and no retry count exceeds its maximum |
| `RelayFleet.FinishedChanges` | orders-service/internal/repository/outbox.go:110-128 | a step changes a SENT or DEAD_LETTER event if and only if it is a stored mark of it, other than marking SENT what is SENT; no assumption on time |
| `RelayFleet.FinishedChangesInRuns` | orders-service/internal/repository/outbox.go:47-128 | that holds in every fleet any run leads to, on time or not |
| `RelayFleet.FinalWhileOwned` | orders-service/internal/repository/outbox.go:110-128 | SENT and DEAD_LETTER are final over every run in which every stored mark finds the marker's own claim still on the row, even if relays outlive their leases |
| `RelayFleet.PunctualMeansOwn` | orders-service/internal/repository/outbox.go:91-105 | relays that resolve or abandon their claims within five minutes mark only what they own |
| `RelayFleet.FinishedForever` | orders-service/internal/repository/outbox.go:110-128 | hence SENT and DEAD_LETTER are final over every run of such relays |
| `RelayFleet.StepKeepsExclusive` | orders-service/internal/repository/outbox.go:47-128 | every statement of every relay keeps locks and leases disjoint |
| `RelayFleet.LateOwnerReopensSent` | orders-service/internal/repository/outbox.go:120-128 | a concrete run: an owner that outlives its lease turns a SENT event back into FAILED, so the condition cannot be dropped |
| `RelayProgress.RelayTerminates` | orders-service/internal/relay/outbox.go:57-90 | without storage errors, live leases and new events, as many polls as there are attempts left bring every event to SENT or DEAD_LETTER |
| `RelayProgress.PollLowersPotential` | payments-service/internal/repository/outbox.go:50-122 | under those conditions a poll of a table with unfinished events strictly lowers the number of attempts left |
| `RelayProgress.NoStarvation` | orders-service/internal/repository/outbox.go:50-58 | whatever events keep arriving, an unfinished event is tried within (attempts left in unfinished events not newer than it, already there or arriving) / (batch size) + 1 polls, absent storage errors and live leases |
| `RelayProgress.NewerNeverCount` | orders-service/internal/repository/outbox.go:50-58 | events that are newer than the waiting one add nothing to that bound, however many arrive |
| `RelayProgress.PollSpends` | orders-service/internal/relay/outbox.go:57-90 | a poll spends at least one attempt of each event it claims |
| `RelayProgress.FinishedStays` | orders-service/internal/repository/outbox.go:47-58 | a finished event is never claimed or changed by any later poll |
| `RelayProgress.PollPublishes` | payments-service/internal/relay/outbox.go:64-102 | a poll publishes every event it marks SENT, and nothing but events it claimed |
| `RelayProgress.PollRound` | orders-service/internal/relay/outbox.go:48-91 | a poll of the relay class, alone and with working storage, is a round as the progress results require it, on the oldest eligible events, and leaves the table of that round |
| `RelayProgress.Start` | orders-service/internal/relay/outbox.go:35-46 | the relay class polled once per tick brings every event of its table to SENT or DEAD_LETTER within as many ticks as there are attempts left, absent storage errors, live leases and new events |
| `KotlinRelay.OutboxRelayScheduler.Relay` | inventory-service/src/main/kotlin/br/com/souza/inventory_service/adapter/out/relay/OutboxRelayScheduler.kt:21-52 | a run selects the 50 oldest waiting rows and, if it commits, leaves each SENT exactly if it was acknowledged, and otherwise FAILED with one retry more or, at the last retry, dead with its old count, no row locked and every other row untouched; otherwise it restores the table exactly, stopping at the first refused mark, and what it sent stays sent |
| `KotlinRelay.OutboxRelayScheduler.SendAndMark` | inventory-service/src/main/kotlin/br/com/souza/inventory_service/adapter/out/relay/OutboxRelayScheduler.kt:32-50 | an acknowledged event is SENT, another one FAILED or, at its last retry, a dead letter; a refused mark changes nothing |
| `KotlinRelay.OutboxRelayScheduler.SendAll` | inventory-service/src/main/kotlin/br/com/souza/inventory_service/adapter/out/relay/OutboxRelayScheduler.kt:30-51 | every event is resolved by its own outcome, up to the first mark the database refuses |
| `KotlinRelay.OutboxRelayScheduler.LockEvents` | inventory-service/src/main/kotlin/br/com/souza/inventory_service/adapter/out/relay/repository/OutboxEventJpaRepository.kt:26-32 | exactly the selected rows are PROCESSING with the lock of now |
| `KotlinRelay.WaitingMeans` | inventory-service/src/main/kotlin/br/com/souza/inventory_service/adapter/out/relay/repository/OutboxEventJpaRepository.kt:14-24 | a row is selected exactly if it is PENDING or FAILED and not under a lock of at most 300 seconds |
| `KotlinRelay.OutboxRelayScheduler.FindPendingEvents` | inventory-service/src/main/kotlin/br/com/souza/inventory_service/adapter/out/relay/repository/OutboxEventJpaRepository.kt:14-24 | the answer is the oldest waiting rows, oldest first, up to the limit |
| `KotlinRelay.OutboxRelayScheduler.RelayBatch` | inventory-service/src/main/kotlin/br/com/souza/inventory_service/adapter/out/relay/OutboxRelayScheduler.kt:27-51 | a selected batch is locked, sent and marked up to the first refused mark, and either committed whole or rolled back to exactly the table before |
| `KotlinRelay.LockLeavesNoTrace` | inventory-service/src/main/kotlin/br/com/souza/inventory_service/adapter/out/relay/repository/OutboxEventJpaRepository.kt:26-56 | the lock is invisible once every locked row is resolved |
| `KotlinRelay.ResolveStaysAtRest` | inventory-service/src/main/kotlin/br/com/souza/inventory_service/adapter/out/relay/OutboxRelayScheduler.kt:24-50 | a committed run leaves every selected event SENT, FAILED or a dead letter, with no lock |
| `RelayAgreement.KotlinStaysAtRest` | inventory-service/src/main/kotlin/br/com/souza/inventory_service/adapter/out/relay/OutboxRelayScheduler.kt:21-52 | no sequence of runs and inserts ever leaves a PROCESSING row or a lock |
| `RelayAgreement.RunsAgree` | inventory-service/src/main/kotlin/br/com/souza/inventory_service/adapter/out/relay/OutboxRelayScheduler.kt:44-49 | given equal publish outcomes and one relay of each kind, every run of the Go relay is a run of the Kotlin relay and the statuses agree event by event |
| `RelayAgreement.SameBatches` | inventory-service/src/main/kotlin/br/com/souza/inventory_service/adapter/out/relay/repository/OutboxEventJpaRepository.kt:14-24 | the two different WHERE clauses select the same batches from agreeing tables |
| `RelayAgreement.RoundAgrees` | inventory-service/src/main/kotlin/br/com/souza/inventory_service/adapter/out/relay/OutboxRelayScheduler.kt:44-49 | one round keeps the two tables in agreement |
| `RelayAgreement.KotlinRelayRound` | inventory-service/src/main/kotlin/br/com/souza/inventory_service/adapter/out/relay/OutboxRelayScheduler.kt:21-52 | a run of the relay class with working storage is a round as the agreement results require it, and leaves the table of that round |
| `RelayAgreement.TriedUntilDead` | orders-service/internal/repository/outbox.go:120-128 | an event whose attempts all fail spends one retry per attempt and is dead exactly when max_retries attempts are spent |
| `RelayAgreement.BothGiveUpTogether` | inventory-service/src/main/kotlin/br/com/souza/inventory_service/adapter/out/relay/OutboxRelayScheduler.kt:44-49 | a new event that always fails is tried at most max_retries times by both relays and is dead in both exactly at the last one, where Go shows max_retries and Kotlin one less |
| `Idempotency.IdempotencyMiddleware.Handle` | orders-service/internal/middleware/idempotency.go:12-39 | missing header, fresh key, repeated key and Redis failure, each with its answer and key set |
| `Idempotency.OneOrderPerKey` | orders-service/INIT.sql:24 | whatever Redis answers or forgets, no idempotency key ever has two orders, and no order is replaced |

## Left out

- HTTP handlers, DTOs, JSON, mappers, validation and the list endpoints: plumbing, or facts of one branch.
- Kafka, Redis, MySQL, PostgreSQL and JPA themselves: only atomic transactions, unique keys, CHECK constraints,
  row locks, SKIP LOCKED and fallible publication are modelled.
- Consumer loops, offsets and consumer groups: any published message may be handled zero or more times.
- User identifiers, product names, timestamps of the business tables, `sent_at`, tracing and logging: no handler
  decides on them.
- Two inventory workers handling the same order's messages of the same topic at once, beyond the two
  counterexamples in `StockLock`.
- StockLock.Linearizable: assumes that messages of one order on one topic are handled one at a time, without which
  it is false.
- Several instances of the Kotlin relay: its query takes no row lock, so two of them can send the same event;
  `KotlinRelay` and `RelayAgreement` speak of one instance.
- The time at which a relay polls and the clocks of different databases: one logical clock per outbox table.
- RelayFleet.LeaseExclusion: assumes punctual relays, because an overdue owner does share an event with its successor.
- RelayProgress.NoStarvation: assumes stored marks and no live leases, because neither a failing store nor a
  running lease bounds how long an event waits.
- Convergence.FinishesIffCanRelease: shows that an order can always be driven to its end; that messages are delivered at
  all is up to Kafka and the consumers, and lost messages and dead letters remain possible.
