/** Each order needs a bounded amount of work, however messages are lost, repeated or reordered. */
module Termination {
  import opened Base
  import opened Messages
  import opened Rows
  import opened Saga
  import opened Invariant
  import opened Theorems

  function Unpublished(events: seq<Message>, published: set<Message>): nat {
    if events == [] then 0
    else Unpublished(events[..|events| - 1], published) + (if events[|events| - 1] in published then 0 else 1)
  }

  /** Handler steps still ahead on the longest path, plus the publications of events not yet written. */
  function Ahead(a: Phase): nat {
    match a
    case Absent => 9
    case Placed => 7
    case Held => 5
    case Approved => 3
    case Denied => 3
    case Rejected => 1
    case Accepted => 1
    case Released => 1
    case Done => 0
    case Canceled => 0
  }

  function Budget(s: System, o: Uuid): nat {
    var v := ViewOf(s, o);
    Ahead(PhaseOf(v))
    + Unpublished(v.ordersEvents, s.published)
    + Unpublished(v.inventoryEvents, s.published)
    + Unpublished(v.paymentsEvents, s.published)
  }

  /** A step that changes what the databases say about `o`, or publishes a new message of `o`. */
  predicate Touches(s: System, t: System, o: Uuid) {
    ViewOf(t, o) != ViewOf(s, o) || exists m | m in t.published :: m !in s.published && m.orderId == o
  }

  /** How many steps of a run touch `o`. */
  function Work(s: System, steps: seq<Step>, o: Uuid): nat
    decreases |steps|
  {
    if steps == [] then 0
    else
      var t := Next(s, steps[0]);
      (if Touches(s, t, o) then 1 else 0) + Work(t, steps[1..], o)
  }

  lemma {:induction false} UnpublishedShrinks(events: seq<Message>, published: set<Message>, m: Message)
    ensures Unpublished(events, published + {m}) <= Unpublished(events, published)
    ensures m in events && m !in published ==> Unpublished(events, published + {m}) < Unpublished(events, published)
    ensures m !in events ==> Unpublished(events, published + {m}) == Unpublished(events, published)
  {
    if events != [] {
      var last := |events| - 1;
      assert events == events[..last] + [events[last]];
      UnpublishedShrinks(events[..last], published, m);
    }
  }

  lemma {:induction false} UnpublishedGrows(before: seq<Message>, after: seq<Message>, published: set<Message>)
    requires before <= after
    ensures Unpublished(after, published) <= Unpublished(before, published) + |after| - |before|
    decreases |after|
  {
    if |before| == |after| {
      assert before == after;
    } else {
      UnpublishedGrows(before, after[..|after| - 1], published);
    }
  }

  /** Events of `o` that are in none of its sub-outboxes are not written at all. */
  lemma ForeignMessage(s: System, m: Message, o: Uuid)
    requires m.orderId != o
    ensures m !in ViewOf(s, o).ordersEvents && m !in ViewOf(s, o).inventoryEvents && m !in ViewOf(s, o).paymentsEvents
  {
    OfMember(s.orders.outbox, OrderOf, o, m);
    OfMember(s.inventory.outbox, OrderOf, o, m);
    OfMember(s.payments.outbox, OrderOf, o, m);
  }

  lemma PublishTouches(s: System, m: Message, o: Uuid)
    ensures Touches(s, Next(s, Publish(m)), o) <==> m !in s.published && m.orderId == o
  {
    var t := Next(s, Publish(m));
    assert ViewOf(t, o) == ViewOf(s, o);
    assert m in t.published;
  }

  lemma PublishSpends(s: System, m: Message, o: Uuid)
    requires Inv(s) && InOutbox(s, m)
    ensures var t := Next(s, Publish(m));
            if m !in s.published && m.orderId == o then Budget(t, o) < Budget(s, o) else Budget(t, o) == Budget(s, o)
  {
    var v := ViewOf(s, o);
    if m in s.published {
      assert s.published + {m} == s.published;
    } else {
      if m.orderId == o {
        PublishedInView(s, m);
      } else {
        ForeignMessage(s, m, o);
      }
      UnpublishedShrinks(v.ordersEvents, s.published, m);
      UnpublishedShrinks(v.inventoryEvents, s.published, m);
      UnpublishedShrinks(v.paymentsEvents, s.published, m);
    }
  }

  function EventCount(v: View): nat {
    |v.ordersEvents| + |v.inventoryEvents| + |v.paymentsEvents|
  }

  /** The three services have only appended to what they told about an order. */
  predicate EventsGrow(v: View, w: View) {
    v.ordersEvents <= w.ordersEvents && v.inventoryEvents <= w.inventoryEvents && v.paymentsEvents <= w.paymentsEvents
  }

  /** One edge of the saga writes at most one event, and saves two of the steps still ahead if it does. */
  lemma EdgeWrites(v: View, w: View, o: Uuid, prices: map<int, int>)
    requires Coherent(v, o, prices) && Coherent(w, o, prices) && Edge(PhaseOf(v), PhaseOf(w)) && EventsGrow(v, w)
    ensures EventCount(w) - EventCount(v) < Ahead(PhaseOf(v)) - Ahead(PhaseOf(w))
  {
  }

  lemma StepAppends(s: System, step: Step)
    ensures var t := Next(s, step);
            && s.orders.outbox <= t.orders.outbox
            && s.inventory.outbox <= t.inventory.outbox
            && s.payments.outbox <= t.payments.outbox
  {
  }

  lemma StepGrowsEvents(s: System, step: Step, o: Uuid)
    ensures EventsGrow(ViewOf(s, o), ViewOf(Next(s, step), o))
  {
    var t := Next(s, step);
    StepAppends(s, step);
    OfPrefix(s.orders.outbox, t.orders.outbox, OrderOf, o);
    OfPrefix(s.inventory.outbox, t.inventory.outbox, OrderOf, o);
    OfPrefix(s.payments.outbox, t.payments.outbox, OrderOf, o);
  }

  lemma EdgeSpends(v: View, w: View, o: Uuid, prices: map<int, int>, published: set<Message>)
    requires Coherent(v, o, prices) && Coherent(w, o, prices) && Edge(PhaseOf(v), PhaseOf(w)) && EventsGrow(v, w)
    ensures
      Ahead(PhaseOf(w)) + Unpublished(w.ordersEvents, published)
      + Unpublished(w.inventoryEvents, published) + Unpublished(w.paymentsEvents, published)
      < Ahead(PhaseOf(v)) + Unpublished(v.ordersEvents, published)
        + Unpublished(v.inventoryEvents, published) + Unpublished(v.paymentsEvents, published)
  {
    EdgeWrites(v, w, o, prices);
    UnpublishedGrows(v.ordersEvents, w.ordersEvents, published);
    UnpublishedGrows(v.inventoryEvents, w.inventoryEvents, published);
    UnpublishedGrows(v.paymentsEvents, w.paymentsEvents, published);
  }

  lemma ProductsKept(s: System, step: Step)
    ensures forall p | p in s.inventory.products ::
              p in Next(s, step).inventory.products
              && Next(s, step).inventory.products[p] == s.inventory.products[p]
  {
  }

  lemma MoveSpends(s: System, t: System, o: Uuid)
    requires Inv(s) && Inv(t) && t.published == s.published
    requires forall p | p in s.inventory.products ::
               p in t.inventory.products && t.inventory.products[p] == s.inventory.products[p]
    requires EventsGrow(ViewOf(s, o), ViewOf(t, o))
    requires Edge(PhaseIn(s, o), PhaseIn(t, o))
    ensures Budget(t, o) < Budget(s, o)
  {
    assert CoherentIn(s, o) && CoherentIn(t, o);
    CoherentAsProductsGrow(ViewOf(s, o), o, s.inventory.products, t.inventory.products);
    EdgeSpends(ViewOf(s, o), ViewOf(t, o), o, t.inventory.products, s.published);
  }

  lemma QuietStep(s: System, step: Step, o: Uuid)
    requires !step.Publish? && ViewOf(Next(s, step), o) == ViewOf(s, o)
    ensures Budget(Next(s, step), o) == Budget(s, o) && !Touches(s, Next(s, step), o)
  {
    assert Next(s, step).published == s.published;
  }

  /** A step that touches an order spends some of its budget; any other step leaves the budget alone. */
  lemma StepSpends(s: System, step: Step, o: Uuid)
    requires Inv(s) && Enabled(s, step)
    ensures var t := Next(s, step);
            if Touches(s, t, o) then Budget(t, o) < Budget(s, o) else Budget(t, o) == Budget(s, o)
  {
    var t := Next(s, step);
    if step.Publish? {
      PublishTouches(s, step.message, o);
      PublishSpends(s, step.message, o);
    } else if ViewOf(t, o) == ViewOf(s, o) {
      QuietStep(s, step, o);
    } else {
      StepKeepsInvariant(s, step);
      ProductsKept(s, step);
      StepGrowsEvents(s, step, o);
      MoveSpends(s, t, o);
    }
  }

  lemma EventsAhead(v: View, o: Uuid, prices: map<int, int>)
    requires Coherent(v, o, prices)
    ensures EventCount(v) + Ahead(PhaseOf(v)) <= if PhaseOf(v) == Absent then 9 else 8
  {
  }

  /** An order is born with a budget of nine, and its creation spends the first. */
  lemma BudgetBound(s: System, o: Uuid)
    requires Inv(s)
    ensures Budget(s, o) <= if PhaseIn(s, o) == Absent then 9 else 8
  {
    var v := ViewOf(s, o);
    assert CoherentIn(s, o);
    EventsAhead(v, o, s.inventory.products);
    UnpublishedGrows([], v.ordersEvents, s.published);
    UnpublishedGrows([], v.inventoryEvents, s.published);
    UnpublishedGrows([], v.paymentsEvents, s.published);
  }

  lemma {:induction false} WorkWithinBudget(s: System, steps: seq<Step>, o: Uuid)
    requires Inv(s) && Feasible(s, steps)
    ensures Work(s, steps, o) + Budget(Exec(s, steps), o) <= Budget(s, o)
    decreases |steps|
  {
    if steps != [] {
      StepSpends(s, steps[0], o);
      StepKeepsInvariant(s, steps[0]);
      WorkWithinBudget(Next(s, steps[0]), steps[1..], o);
    }
  }

  lemma WorkBound(s: System, steps: seq<Step>, o: Uuid)
    requires Inv(s) && Feasible(s, steps) && PhaseIn(s, o) != Absent
    ensures Work(s, steps, o) <= 8
  {
    WorkWithinBudget(s, steps, o);
    BudgetBound(s, o);
  }

  /** In any run from any reachable state, at most eight steps touch an order that already exists. */
  lemma SagaTerminates(s: System, steps: seq<Step>, o: Uuid)
    requires Reachable(s) && Feasible(s, steps) && o in s.orders.orders
    ensures Work(s, steps, o) <= 8
  {
    ReachableInvariant(s);
    WorkBound(s, steps, o);
  }
}
