/** The HTTP idempotency middleware in front of order creation: a Redis key that may fail to be set or
    may expire, backed by the unique key of the orders table. */
module Idempotency {
  import opened Base
  import Orders
  import Invariant

  datatype Redis = SetOk | AlreadySet | Error

  datatype Answer = BadRequest | Duplicate | Passed(key: Uuid)

  class IdempotencyMiddleware {
    var keys: set<Uuid>

    constructor ()
      ensures keys == {}
    {
      keys := {};
    }

    /** Set-if-absent decides; when Redis fails the request is let through. */
    method Handle(header: Option<Uuid>, redisDown: bool) returns (answer: Answer)
      modifies this
      ensures header.None? ==> answer == BadRequest && keys == old(keys)
      ensures header.Some? && redisDown ==> answer == Passed(header.value) && keys == old(keys)
      ensures header.Some? && !redisDown ==>
                && keys == old(keys) + {header.value}
                && answer == if header.value in old(keys) then Duplicate else Passed(header.value)
    {
      if header.None? {
        return BadRequest;
      }
      var key := header.value;
      var reply := if redisDown then Error else if key in keys then AlreadySet else SetOk;
      if reply == SetOk {
        keys := keys + {key};
      }
      if reply == Error {
        return Passed(key);
      }
      if reply == AlreadySet {
        return Duplicate;
      }
      return Passed(key);
    }

    /** The key expires after a day. */
    method Expire(key: Uuid)
      modifies this
      ensures keys == old(keys) - {key}
    {
      keys := keys - {key};
    }
  }

  /** A request as it gets past the middleware or not, and the order it would create. */
  datatype Call = Call(id: Uuid, request: Orders.OrderRequest, passed: bool)

  /** Any sequence of calls, whichever of them Redis lets through. */
  function Serve(st: Orders.OrdersState, calls: seq<Call>): Orders.OrdersState
    decreases |calls|
  {
    if calls == [] then st
    else
      Serve(if calls[0].passed then Orders.AfterCreate(st, calls[0].id, calls[0].request).state else st, calls[1..])
  }

  /** However Redis behaves, no key ever has two orders, and an existing order is never replaced. */
  lemma {:induction false} OneOrderPerKey(st: Orders.OrdersState, calls: seq<Call>)
    requires Invariant.KeysUnique(st.orders)
    ensures Invariant.KeysUnique(Serve(st, calls).orders)
    ensures forall id | id in st.orders :: id in Serve(st, calls).orders && Serve(st, calls).orders[id] == st.orders[id]
    decreases |calls|
  {
    if calls != [] {
      var next := if calls[0].passed then Orders.AfterCreate(st, calls[0].id, calls[0].request).state else st;
      OneOrderPerKey(next, calls[1..]);
    }
  }
}
