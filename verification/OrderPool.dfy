/** The pool that hands out order slots (include/order_pool.h). */
module OrderPools {
  import opened Core
  import opened Orders

  class OrderPool {
    var orders: seq<Order>
    var nextFreeIndex: nat

    /** Slots are distinct, and those not handed out yet are as the default constructor left them. */
    ghost predicate Valid()
      reads this, orders
    {
      && nextFreeIndex <= |orders|
      && (forall i, j :: 0 <= i < j < |orders| ==> orders[i] != orders[j])
      && (forall i :: nextFreeIndex <= i < |orders| ==> Unused(orders[i]))
    }

    /** What `CopyFromClient` relies on. */
    static ghost predicate Unused(order: Order)
      reads order
    {
      order.id == DEFAULT_ORDER_ID && order.filled == 0 && order.status == NEW
    }

    ghost function HandedOut(): seq<Order>
      requires nextFreeIndex <= |orders|
      reads this
    {
      orders[..nextFreeIndex]
    }

    constructor (reserveSize: nat)
      ensures Valid() && HandedOut() == [] && |orders| == reserveSize
      ensures forall o <- orders :: fresh(o)
    {
      orders, nextFreeIndex := [], 0;
      new;
      Extend(reserveSize);
    }

    method Extend(count: nat)
      requires Valid()
      modifies this`orders
      ensures Valid() && old(orders) <= orders && |orders| == |old(orders)| + count
      ensures forall i :: |old(orders)| <= i < |orders| ==> fresh(orders[i])
    {
      for k := 0 to count
        invariant Valid() && old(orders) <= orders && |orders| == |old(orders)| + k
        invariant forall i :: |old(orders)| <= i < |orders| ==> fresh(orders[i])
      {
        var order := new Order();
        orders := orders + [order];
      }
    }

    /** Every call hands out a slot never handed out before, in its default state. The storage is
        extended, and may move, exactly when all slots are taken. */
    method Allocate() returns (order: Order)
      requires Valid() && orders != []
      modifies this
      ensures Valid() && order !in old(HandedOut()) && HandedOut() == old(HandedOut()) + [order]
      ensures Unused(order)
      ensures old(orders) <= orders
      ensures orders == old(orders) <==> old(nextFreeIndex) < |old(orders)|
    {
      if nextFreeIndex >= |orders| {
        Extend(|orders|);
      }
      order := orders[nextFreeIndex];
      nextFreeIndex := nextFreeIndex + 1;
    }
  }
}
