/** The price level object of include/price_level_v2.h, holding references to shared orders. */
module PriceLevels {
  import opened Core
  import opened Sequences
  import opened Orders
  import opened LevelRep
  import opened Totals

  datatype OrderEntry = OrderEntry(isValid: bool, order: Order)

  class PriceLevel {
    const price: Price
    var entries: seq<OrderEntry>
    var queueHeadIndex: nat
    var ordersMap: map<OrderId, nat>

    /** The value these fields stand for, and the orders the entries refer to. */
    ghost var rep: Rep
    ghost var orders: set<Order>

    /** The fields represent `rep`; says nothing about whether `rep` is a valid level. */
    ghost predicate Represents()
      reads this, orders`id
    {
      && rep.head == queueHeadIndex && rep.index == ordersMap && |rep.entries| == |entries|
      && (forall i :: 0 <= i < |entries| ==> entries[i].order in orders)
      && (forall i :: 0 <= i < |entries| ==>
            rep.entries[i] == Entry(entries[i].isValid, entries[i].order.id))
    }

    constructor (price: Price)
      ensures this.price == price && Represents() && rep == FRESH && orders == {}
    {
      this.price := price;
      entries, queueHeadIndex, ordersMap := [], 0, map[];
      rep, orders := FRESH, {};
    }

    /** Appends. Where the head is left is decided by the state before. */
    method AddOrder(order: Order)
      requires Represents()
      modifies this
      ensures Represents() && rep == Add(old(rep), order.id) && orders == old(orders) + {order}
      ensures old(rep).Sound() && order.id !in old(rep).index && Joinable(old(rep), order.id) ==>
                && rep.Sound() && rep.Queue() == old(rep).Queue() + [order.id]
                && rep.State() == if old(rep).State() != Haunted && old(rep).Empty() && old(rep).entries != []
                                  then Stale else old(rep).State()
    {
      hide Rep.Sound, Rep.Queue, Rep.State;
      ghost var before := rep;
      entries := entries + [OrderEntry(true, order)];
      ordersMap := ordersMap[order.id := |entries| - 1];
      rep, orders := Add(rep, order.id), orders + {order};
      if before.Sound() && order.id !in before.index && Joinable(before, order.id) {
        AddQueue(before, order.id);
      }
    }

    method RemoveOrder(orderId: OrderId) returns (removed: bool)
      requires Represents() && rep.Sound()
      modifies this
      ensures Represents() && old(rep).Indexed() && rep == Remove(old(rep), orderId) && orders == old(orders)
      ensures removed <==> orderId in old(rep).Queue()
      ensures rep.Sound() && rep.Queue() == Without(old(rep).Queue(), orderId)
      ensures removed ==> rep.State() == if old(rep).State() == Haunted then Haunted else Current
    {
      hide Rep.Sound, Rep.Queue, Rep.State;
      SoundIndexed(rep);
      QueueIsIndex(rep);
      if orderId !in ordersMap {
        return false;
      }
      RemoveQueue(rep, orderId);
      var index := ordersMap[orderId];
      entries := entries[index := entries[index].(isValid := false)];
      ordersMap := ordersMap - {orderId};
      rep := rep.(entries := Tombstone(rep.entries, index), index := rep.index - {orderId});
      IncrementToValid();
      return true;
    }

    /** Stays in bounds because the map, when non-empty, points at a valid entry further on. */
    method IncrementToValid()
      requires Represents() && rep.Indexed()
      modifies this`queueHeadIndex, this`rep
      ensures Represents() && rep == Advance(old(rep))
    {
      if Empty() {
        return;
      }
      ghost var id :| id in ordersMap;
      assert rep.entries[rep.index[id]].valid;
      while !entries[queueHeadIndex].isValid
        invariant old(rep).head <= queueHeadIndex <= FirstValid(old(rep).entries, old(rep).head) < |entries|
        invariant forall k :: old(rep).head <= k < queueHeadIndex ==> !entries[k].isValid
        invariant rep == old(rep)
        decreases |entries| - queueHeadIndex
      {
        queueHeadIndex := queueHeadIndex + 1;
      }
      rep := rep.(head := queueHeadIndex);
    }

    function Size(): (n: nat)
      requires Represents() && rep.Sound()
      reads this, orders`id
      ensures n == |rep.Queue()|
    {
      QueueIsIndex(rep);
      |ordersMap|
    }

    predicate Empty()
      reads this
      ensures rep.index == ordersMap ==> (Empty() <==> rep.Empty())
    {
      ordersMap == map[]
    }

    /** The order that arrived first among those still resting, unless the level is haunted. */
    function Front(): (order: Order)
      requires Represents() && rep.Sound() && !Empty()
      reads this, orders`id
      ensures order in orders && rep.head < |rep.entries| && order.id == rep.entries[rep.head].id
      ensures rep.State() != Haunted ==> rep.Queue() != [] && order.id == rep.Queue()[0]
    {
      SoundIndexed(rep);
      FrontExists(rep);
      assert rep.State() != Haunted ==> rep.Queue() != [] && rep.entries[rep.head].id == rep.Queue()[0] by {
        if rep.State() != Haunted {
          FrontIsHead(rep);
        }
      }
      entries[queueHeadIndex].order
    }

    /** Not defined exactly on a haunted level whose front is filled: the source erases what its map
        does not hold. Otherwise the first of the queue goes exactly if it is filled. */
    method PopFrontOrderIfFilled() returns (defined: bool)
      requires Represents() && rep.Sound()
      modifies this
      ensures Represents() && orders == old(orders)
      ensures var filled := !old(Empty()) && old(Front().status) == FULLY_FILLED;
              && old(rep).Indexed() && (defined <==> PopDefined(old(rep), filled))
              && (defined <==> !(filled && old(rep).State() == Haunted))
              && rep == (if defined then Pop(old(rep), filled) else old(rep))
    {
      hide Rep.Sound, Rep.Queue, Rep.State;
      SoundIndexed(rep);
      if Empty() {
        return true;
      }
      var entry := entries[queueHeadIndex];
      if entry.order.status == FULLY_FILLED {
        PopQueue(rep);
        if entry.order.id !in ordersMap {
          return false;
        }
        var before := rep;
        ordersMap := ordersMap - {entry.order.id};
        entries := entries[queueHeadIndex := entry.(isValid := false)];
        rep := before.(entries := Tombstone(before.entries, before.head),
                       index := before.index - {before.entries[before.head].id});
        IncrementToValid();
      }
      return true;
    }

    /** Tombstones do not count, and an order that haunts the level has nothing left. The sum is
        taken modulo 2^64, like the source's. */
    method TotalQty(ghost table: map<OrderId, OrderData>) returns (qty: Quantity)
      requires Represents() && rep.Sound()
      requires forall i :: 0 <= i < |entries| && entries[i].isValid ==>
                 entries[i].order.id in table && entries[i].order.Data() == table[entries[i].order.id]
                 && entries[i].order.filled <= entries[i].order.quantity
      requires rep.State() == Haunted ==> table[rep.Ghost()].Remaining() == 0
      ensures qty == QueueTotal(rep.Queue(), table)
    {
      hide Rep.Sound, LiveIds, ListTotal;
      qty := 0;
      ghost var es, left := rep.entries, Left(table);
      for i := 0 to |entries|
        invariant qty == Wrap(EntriesTotal(es[..i], left))
      {
        var e := entries[i];
        assert es[..i + 1][..i] == es[..i];
        if e.isValid {
          AddWrap(EntriesTotal(es[..i], left), e.order.quantity - e.order.filled);
          qty := Wrap(qty + (e.order.quantity - e.order.filled));
        }
      }
      assert es[..|entries|] == es;
      ClearedTotal(rep, left);
      TotalIsList(rep.Cleared().entries, left);
    }
  }

  lemma ClearedTotal(r: Rep, left: OrderId -> int)
    requires r.State() == Haunted ==> left(r.Ghost()) == 0
    ensures EntriesTotal(r.Cleared().entries, left) == EntriesTotal(r.entries, left)
  {
    if r.State() == Haunted {
      NoneLeft(r.entries, r.head, left);
    }
  }

  /** An entry with nothing left may as well be a tombstone. */
  lemma {:induction false} NoneLeft(es: seq<Entry>, i: nat, left: OrderId -> int)
    requires i < |es| && left(es[i].id) == 0
    ensures EntriesTotal(Tombstone(es, i), left) == EntriesTotal(es, left)
  {
    var last := |es| - 1;
    if i < last {
      assert Tombstone(es, i)[..last] == Tombstone(es[..last], i);
      NoneLeft(es[..last], i, left);
    } else {
      assert Tombstone(es, i)[..last] == es[..last];
    }
  }
}
