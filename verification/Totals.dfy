/** What remains to be filled of the orders of a level, in total, as both price levels report it:
    an unsigned 64-bit number (include/price_level_v2.h:80-91, include/price_level.h:53-60). */
module Totals {
  import opened Core
  import opened Sequences
  import opened Orders
  import opened LevelRep

  ghost function QueueTotal(ids: seq<OrderId>, orders: map<OrderId, OrderData>): Quantity {
    Wrap(ListTotal(ids, Left(orders)))
  }

  lemma {:induction false} ListTotalConcat(a: seq<OrderId>, b: seq<OrderId>, left: OrderId -> int)
    ensures ListTotal(a + b, left) == ListTotal(a, left) + ListTotal(b, left)
  {
    if b == [] {
      assert a + b == a;
    } else {
      assert (a + b)[..|a + b| - 1] == a + b[..|b| - 1];
      ListTotalConcat(a, b[..|b| - 1], left);
    }
  }

  lemma {:induction false} ListTotalSame(ids: seq<OrderId>, left: OrderId -> int, left': OrderId -> int)
    requires forall id <- ids :: left(id) == left'(id)
    ensures ListTotal(ids, left) == ListTotal(ids, left')
  {
    if ids != [] {
      assert ids[|ids| - 1] in ids;
      ListTotalSame(ids[..|ids| - 1], left, left');
    }
  }

  lemma ListTotalOne(id: OrderId, left: OrderId -> int)
    ensures ListTotal([id], left) == left(id)
  {
    assert [id][..0] == [];
  }

  lemma ListTotalAround(ids: seq<OrderId>, k: nat, left: OrderId -> int)
    requires k < |ids|
    ensures ListTotal(ids, left) == ListTotal(ids[..k] + ids[k + 1..], left) + left(ids[k])
    ensures ListTotal(ids, left) == ListTotal(ids[..k], left) + left(ids[k]) + ListTotal(ids[k + 1..], left)
  {
    hide ListTotal;
    SplitAt(ids, k);
    ListTotalConcat(ids[..k], [ids[k]] + ids[k + 1..], left);
    ListTotalConcat([ids[k]], ids[k + 1..], left);
    ListTotalOne(ids[k], left);
    ListTotalConcat(ids[..k], ids[k + 1..], left);
  }

  lemma WrapSum(a: int, b: int)
    ensures Wrap(a + b) == Wrap(Wrap(a) + b) && Wrap(a - b) == Wrap(Wrap(a) - b)
  {
    hide Wrap;
    AddWrap(a, b);
    AddWrap(a, -b);
  }

  lemma TotalEmpty(orders: map<OrderId, OrderData>)
    ensures QueueTotal([], orders) == 0
  {
  }

  /** An order at the back adds what is left of it. */
  lemma TotalAdds(ids: seq<OrderId>, orders: map<OrderId, OrderData>, id: OrderId)
    requires id in orders
    ensures QueueTotal(ids + [id], orders) ==
            (QueueTotal(ids, orders) + orders[id].quantity - orders[id].filled) % TWO_64
  {
    ListTotalConcat(ids, [id], Left(orders));
    ListTotalOne(id, Left(orders));
    WrapSum(ListTotal(ids, Left(orders)), orders[id].quantity - orders[id].filled);
  }

  /** An order that leaves, from wherever it stands, takes what is left of it out. */
  lemma TotalRemoves(ids: seq<OrderId>, orders: map<OrderId, OrderData>, id: OrderId)
    requires id in orders && id in ids && Distinct(ids)
    ensures QueueTotal(Without(ids, id), orders) ==
            (QueueTotal(ids, orders) - (orders[id].quantity - orders[id].filled)) % TWO_64
  {
    hide ListTotal, Without, Distinct;
    var k := WithoutAt(ids, id);
    var left := Left(orders);
    ListTotalAround(ids, k, left);
    WrapSum(ListTotal(ids, left), orders[id].quantity - orders[id].filled);
  }

  /** A fill of `n` takes `n` off, a new quantity the difference; nobody else's data matter. */
  lemma TotalChanges(ids: seq<OrderId>, orders: map<OrderId, OrderData>, id: OrderId, d: OrderData)
    requires id in orders && Distinct(ids)
    ensures QueueTotal(ids, orders[id := d]) ==
            if id in ids then
              (QueueTotal(ids, orders) + (d.quantity - d.filled) - (orders[id].quantity - orders[id].filled)) % TWO_64
            else QueueTotal(ids, orders)
  {
    hide ListTotal, Without;
    var left, left' := Left(orders), Left(orders[id := d]);
    if id in ids {
      var k := WithoutAt(ids, id);
      ListTotalAround(ids, k, left);
      ListTotalAround(ids, k, left');
      assert id !in ids[..k] && id !in ids[k + 1..];
      ListTotalSame(ids[..k], left, left');
      ListTotalSame(ids[k + 1..], left, left');
      WrapSum(ListTotal(ids, left), (d.quantity - d.filled) - (orders[id].quantity - orders[id].filled));
    } else {
      ListTotalSame(ids, left, left');
    }
  }
}
