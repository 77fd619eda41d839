/** The whole system with the inventory and payment handlers split into their statements, and any number of
    workers in both services. Whatever such a system does, the system of whole handlers can do as well, so
    what is proved of the latter's reachable states holds of the former's. */
module SplitHandlers {
  import opened Base
  import opened Messages
  import opened Saga
  import Payments
  import Inventory
  import StockLock
  import PaymentWorkers

  datatype Split = Split(system: System, jobs: map<nat, StockLock.Job>, workers: map<nat, PaymentWorkers.Pending>)

  datatype SplitStep =
    | Whole(step: Step)                                   // a step that other transactions cannot divide
    | Begin(worker: nat, message: Message)                // an inventory worker starts on a message
    | Continue(next: StockLock.Step)                      // its lock, commit or rollback
    | Check(worker: nat, message: Message, freshId: Uuid) // a payment worker finds no payment yet
    | Insert(worker: nat)
    | GiveUp(worker: nat)

  predicate ForInventory(m: Message) {
    m.OrderCreated? || m.OrderConfirmed? || m.PaymentDenied?
  }

  function ShopOf(x: Split): StockLock.Shop {
    StockLock.Shop(x.system.inventory, x.jobs)
  }

  function PoolOf(x: Split): PaymentWorkers.Pool {
    PaymentWorkers.Pool(x.system.payments, x.workers)
  }

  /** The handler that a message calls for. */
  function OpOf(m: Message): StockLock.Op
    requires ForInventory(m)
  {
    match m
    case OrderCreated(o, p, q, t) => StockLock.Reserve(Inventory.ReserveCommand(o, p, q, t))
    case OrderConfirmed(o) => StockLock.Confirm(o)
    case PaymentDenied(o, _, reason) => StockLock.Release(o, reason)
  }

  function BeginStep(w: nat, m: Message): StockLock.Step
    requires ForInventory(m)
  {
    match m
    case OrderCreated(o, p, q, t) => StockLock.BeginReserve(w, Inventory.ReserveCommand(o, p, q, t))
    case OrderConfirmed(o) => StockLock.BeginConfirm(w, o)
    case PaymentDenied(o, _, reason) => StockLock.BeginRelease(w, o, reason)
  }

  function EventOf(m: Message): Payments.ReservedEvent
    requires m.InventoryReserved?
  {
    Payments.ReservedEvent(m.orderId, m.amount, m.paymentType)
  }

  predicate SplitEnabled(x: Split, step: SplitStep) {
    match step
    case Whole(s) =>
      && Enabled(x.system, s)
      && (s.Handle? ==> !ForInventory(s.message) && !s.message.InventoryReserved?)
      && (s.UpdateQuantity? ==> StockLock.Unlocked(ShopOf(x), s.productId))
    case Begin(w, m) => m in x.system.published && ForInventory(m) && w !in x.jobs
    case Continue(s) => (s.Lock? || s.Commit? || s.Rollback?) && StockLock.Enabled(ShopOf(x), s)
    case Check(w, m, _) => m in x.system.published && m.InventoryReserved? && w !in x.workers
    case Insert(w) => w in x.workers
    case GiveUp(w) => w in x.workers
  }

  function WithShop(x: Split, shop: StockLock.Shop): Split {
    x.(system := x.system.(inventory := shop.inv), jobs := shop.jobs)
  }

  function WithPool(x: Split, pool: PaymentWorkers.Pool): Split {
    x.(system := x.system.(payments := pool.db), workers := pool.workers)
  }

  function SplitNext(x: Split, step: SplitStep): Split
    requires SplitEnabled(x, step)
  {
    match step
    case Whole(s) => x.(system := Next(x.system, s))
    case Begin(w, m) => WithShop(x, StockLock.Next(ShopOf(x), BeginStep(w, m)))
    case Continue(s) => WithShop(x, StockLock.Next(ShopOf(x), s))
    case Check(w, m, id) => WithPool(x, PaymentWorkers.Next(PoolOf(x), PaymentWorkers.Check(w, EventOf(m), id)))
    case Insert(w) => WithPool(x, PaymentWorkers.Next(PoolOf(x), PaymentWorkers.InsertAndCommit(w)))
    case GiveUp(w) => WithPool(x, PaymentWorkers.Next(PoolOf(x), PaymentWorkers.Rollback(w)))
  }

  /** The messages of one order on one inventory topic are handled one at a time. */
  predicate Serialised(x: Split, step: SplitStep)
    requires SplitEnabled(x, step)
  {
    step.Begin? ==> StockLock.Serialised(ShopOf(x), BeginStep(step.worker, step.message))
  }

  predicate SplitFeasible(x: Split, steps: seq<SplitStep>)
    decreases |steps|
  {
    steps == [] ||
    (&& SplitEnabled(x, steps[0]) && Serialised(x, steps[0])
     && SplitFeasible(SplitNext(x, steps[0]), steps[1..]))
  }

  function SplitExec(x: Split, steps: seq<SplitStep>): Split
    requires SplitFeasible(x, steps)
    decreases |steps|
  {
    if steps == [] then x else SplitExec(SplitNext(x, steps[0]), steps[1..])
  }

  // ---- Every unfinished handler comes from a published message ----

  predicate JobBacked(published: set<Message>, job: StockLock.Job) {
    exists m | m in published :: ForInventory(m) && OpOf(m) == StockLock.HandlerOf(job)
  }

  predicate WorkerBacked(published: set<Message>, worker: PaymentWorkers.Pending) {
    exists m | m in published :: m.InventoryReserved? && EventOf(m) == worker.event
  }

  predicate Backed(x: Split) {
    && StockLock.ShopOk(ShopOf(x))
    && (forall w | w in x.jobs :: JobBacked(x.system.published, x.jobs[w]))
    && (forall w | w in x.workers :: WorkerBacked(x.system.published, x.workers[w]))
  }

  /** A step of a job keeps the handler that the job stands for. */
  lemma JobsKeepHandler(shop: StockLock.Shop, step: StockLock.Step)
    requires StockLock.Enabled(shop, step) && (step.Lock? || step.Commit? || step.Rollback?)
    ensures var t := StockLock.Next(shop, step);
            forall w | w in t.jobs :: w in shop.jobs && StockLock.HandlerOf(t.jobs[w]) == StockLock.HandlerOf(shop.jobs[w])
  {
  }

  /** A new job stands for the handler of its message. */
  lemma BeginTakesHandler(shop: StockLock.Shop, w: nat, m: Message)
    requires ForInventory(m) && w !in shop.jobs
    ensures var t := StockLock.Next(shop, BeginStep(w, m));
            forall v | v in t.jobs :: if v in shop.jobs then t.jobs[v] == shop.jobs[v]
                                      else v == w && StockLock.HandlerOf(t.jobs[v]) == OpOf(m)
  {
  }

  /** An administrator's operation, as the shop sees it. */
  function AdminOp(s: Step): StockLock.Op
    requires s.CreateProduct? || s.CreateStock? || s.UpdateQuantity?
  {
    match s
    case CreateProduct(p, price) => StockLock.NewProduct(p, price)
    case CreateStock(p, q) => StockLock.NewStock(p, q)
    case UpdateQuantity(p, q) => StockLock.Overwrite(p, q)
  }

  lemma WholeKeepsShop(x: Split, s: Step)
    requires StockLock.ShopOk(ShopOf(x)) && SplitEnabled(x, Whole(s))
    ensures StockLock.ShopOk(ShopOf(SplitNext(x, Whole(s))))
    ensures x.system.published <= Next(x.system, s).published
  {
    if s.CreateProduct? || s.CreateStock? || s.UpdateQuantity? {
      StockLock.StepKeepsShopOk(ShopOf(x), StockLock.Single(AdminOp(s)));
    } else {
      assert ShopOf(SplitNext(x, Whole(s))) == ShopOf(x);
    }
  }

  lemma BackedGrows(x: Split, published: set<Message>)
    requires Backed(x) && x.system.published <= published
    ensures forall w | w in x.jobs :: JobBacked(published, x.jobs[w])
    ensures forall w | w in x.workers :: WorkerBacked(published, x.workers[w])
  {
    forall w | w in x.jobs
      ensures JobBacked(published, x.jobs[w])
    {
      var m :| m in x.system.published && ForInventory(m) && OpOf(m) == StockLock.HandlerOf(x.jobs[w]);
      assert m in published;
    }
    forall w | w in x.workers
      ensures WorkerBacked(published, x.workers[w])
    {
      var m :| m in x.system.published && m.InventoryReserved? && EventOf(m) == x.workers[w].event;
      assert m in published;
    }
  }

  lemma BeginKeepsBacked(x: Split, w: nat, m: Message)
    requires Backed(x) && SplitEnabled(x, Begin(w, m)) && Serialised(x, Begin(w, m))
    ensures Backed(SplitNext(x, Begin(w, m)))
  {
    var t := SplitNext(x, Begin(w, m));
    StockLock.StepKeepsShopOk(ShopOf(x), BeginStep(w, m));
    BeginTakesHandler(ShopOf(x), w, m);
    assert ShopOf(t) == StockLock.Next(ShopOf(x), BeginStep(w, m));
  }

  lemma ContinueKeepsBacked(x: Split, s: StockLock.Step)
    requires Backed(x) && SplitEnabled(x, Continue(s))
    ensures Backed(SplitNext(x, Continue(s)))
  {
    var t := SplitNext(x, Continue(s));
    StockLock.StepKeepsShopOk(ShopOf(x), s);
    JobsKeepHandler(ShopOf(x), s);
    assert ShopOf(t) == StockLock.Next(ShopOf(x), s);
  }

  lemma StepKeepsBacked(x: Split, step: SplitStep)
    requires Backed(x) && SplitEnabled(x, step) && Serialised(x, step)
    ensures Backed(SplitNext(x, step))
  {
    match step
    case Whole(s) =>
      WholeKeepsShop(x, s);
      BackedGrows(x, Next(x.system, s).published);
    case Begin(w, m) => BeginKeepsBacked(x, w, m);
    case Continue(s) => ContinueKeepsBacked(x, s);
    case _ => assert ShopOf(SplitNext(x, step)) == ShopOf(x);
  }

  // ---- Simulation ----

  /** Handling a message whole performs its operation on the tables. */
  lemma HandlePerforms(s: System, m: Message)
    requires ForInventory(m)
    ensures AfterHandle(s, m, 0) == s.(inventory := StockLock.Perform(s.inventory, OpOf(m)))
  {
  }

  lemma OneWhole(s: System, step: Step)
    requires Enabled(s, step)
    ensures Feasible(s, [step]) && Exec(s, [step]) == Next(s, step)
  {
    assert Exec(Next(s, step), [step][1..]) == Next(s, step);
  }

  /** What a shop step does to the inventory is nothing, or one whole handler of a published message. */
  lemma ShopStepSimulated(x: Split, s: StockLock.Step, op: StockLock.Op, m: Message) returns (whole: seq<Step>)
    requires StockLock.ShopOk(ShopOf(x)) && StockLock.Enabled(ShopOf(x), s)
    requires m in x.system.published && ForInventory(m) && OpOf(m) == op
    requires StockLock.TakesEffect(ShopOf(x), s) in {[], [op]}
    ensures |whole| <= 1 && Feasible(x.system, whole)
    ensures Exec(x.system, whole) == x.system.(inventory := StockLock.Next(ShopOf(x), s).inv)
  {
    var effect := StockLock.TakesEffect(ShopOf(x), s);
    StockLock.StepIsAtomic(ShopOf(x), s);
    if effect == [] {
      return [];
    }
    assert StockLock.PerformAll(x.system.inventory, [op]) == StockLock.Perform(x.system.inventory, op) by {
      assert [op][1..] == [];
    }
    HandlePerforms(x.system, m);
    OneWhole(x.system, Handle(m, 0));
    return [Handle(m, 0)];
  }

  lemma ContinueSimulated(x: Split, s: StockLock.Step) returns (whole: seq<Step>)
    requires Backed(x) && SplitEnabled(x, Continue(s))
    ensures |whole| <= 1 && Feasible(x.system, whole)
    ensures Exec(x.system, whole) == SplitNext(x, Continue(s)).system
  {
    var job := x.jobs[s.worker];
    assert JobBacked(x.system.published, job);
    var m :| m in x.system.published && ForInventory(m) && OpOf(m) == StockLock.HandlerOf(job);
    whole := ShopStepSimulated(x, s, OpOf(m), m);
  }

  lemma InsertSimulated(x: Split, w: nat) returns (whole: seq<Step>)
    requires Backed(x) && w in x.workers
    ensures |whole| <= 1 && Feasible(x.system, whole)
    ensures Exec(x.system, whole) == SplitNext(x, Insert(w)).system
  {
    var job := x.workers[w];
    assert WorkerBacked(x.system.published, job);
    var m :| m in x.system.published && m.InventoryReserved? && EventOf(m) == job.event;
    PaymentWorkers.CommitIsAtomic(PoolOf(x), w);
    OneWhole(x.system, Handle(m, job.paymentId));
    return [Handle(m, job.paymentId)];
  }

  /** A step of the split system is at most one step of the whole one. */
  lemma StepSimulated(x: Split, step: SplitStep) returns (whole: seq<Step>)
    requires Backed(x) && SplitEnabled(x, step)
    ensures |whole| <= 1 && Feasible(x.system, whole)
    ensures Exec(x.system, whole) == SplitNext(x, step).system
  {
    match step
    case Whole(s) =>
      OneWhole(x.system, s);
      return [s];
    case Begin(w, m) =>
      whole := ShopStepSimulated(x, BeginStep(w, m), OpOf(m), m);
    case Continue(s) =>
      whole := ContinueSimulated(x, s);
    case Insert(w) =>
      whole := InsertSimulated(x, w);
    case _ =>
      assert SplitNext(x, step).system == x.system;
      return [];
  }

  /** Every run of the split system ends in tables and messages that a run of the whole system ends in as well,
      in no more steps. */
  lemma {:induction false} SplitRunIsWholeRun(x: Split, steps: seq<SplitStep>) returns (whole: seq<Step>)
    requires Backed(x) && SplitFeasible(x, steps)
    ensures |whole| <= |steps| && Feasible(x.system, whole)
    ensures Exec(x.system, whole) == SplitExec(x, steps).system
    decreases |steps|
  {
    if steps == [] {
      return [];
    }
    var first := StepSimulated(x, steps[0]);
    StepKeepsBacked(x, steps[0]);
    var rest := SplitRunIsWholeRun(SplitNext(x, steps[0]), steps[1..]);
    ExecAppend(x.system, first, rest);
    return first + rest;
  }

  /** So the split system never leaves the reachable states of the whole one: agreement, conservation, the bound
      on work, and everything else proved of those states holds of split handlers. */
  lemma SplitStaysReachable(steps: seq<SplitStep>)
    requires SplitFeasible(Split(START, map[], map[]), steps)
    ensures Reachable(SplitExec(Split(START, map[], map[]), steps).system)
  {
    var whole := SplitRunIsWholeRun(Split(START, map[], map[]), steps);
  }
}
