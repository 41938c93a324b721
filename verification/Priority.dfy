/** What a modification does to the order's place in the queue, and what a cancellation undoes. */
module Priority {
  import opened Core
  import opened Sequences
  import opened Orders
  import opened PriceTimeBook
  import Trading

  lemma {:induction false} WithoutInserted(side: Side, ids: seq<OrderId>, id: OrderId, price: Price, orders: Table)
    requires id !in ids && forall x <- ids :: x in orders
    ensures Without(Insert(side, ids, id, price, orders), id) == ids
  {
    if ids != [] && !Better(side, price, orders[ids[0]].price) {
      WithoutInserted(side, ids[1..], id, price, orders);
    } else {
      assert Without([id] + ids, id) == ids by {
        assert ([id] + ids)[1..] == ids;
      }
    }
  }

  /** Nobody else notices a modification: all other orders keep their data and their relative order
      on both sides, and nothing trades. A refused one changes nothing at all. */
  lemma ModifyOthers(b: Book, id: OrderId, price: Price, quantity: Quantity)
    requires b.Inv()
    ensures var (r, changed) := Modify(b, id, price, quantity);
            && r.trades == b.trades && r.orders.Keys == b.orders.Keys
            && (forall x <- b.orders :: x != id ==> r.orders[x] == b.orders[x])
            && Without(r.bids, id) == Without(b.bids, id) && Without(r.asks, id) == Without(b.asks, id)
            && (changed <==> r != b)
  {
    hide SideInv, Insert, Without;
    if id in b.orders && b.orders[id].Live() && b.orders[id].Accepts(price, quantity) {
      var d, ids := b.orders[id], Without(b.Side(b.orders[id].side), id);
      ElseKnown(b, id);
      WithoutInserted(d.side, ids, id, price, b.orders);
    }
  }

  lemma ElseKnown(b: Book, id: OrderId)
    requires b.Inv() && id in b.orders && b.orders[id].Live()
    ensures var side := b.orders[id].side;
            && id in b.Side(side) && id !in b.Side(Opposite(side))
            && Distinct(b.Side(side)) && Ordered(side, b.Side(side), b.orders)
            && forall x <- b.Side(side) :: x in b.orders
  {
  }

  lemma InsertPlace(side: Side, ids: seq<OrderId>, id: OrderId, price: Price, orders: Table,
                    orders': Table) returns (k: nat)
    requires id !in ids && forall x <- ids :: x in orders && x in orders' && orders'[x] == orders[x]
    requires Ordered(side, ids, orders)
    ensures var ids' := Insert(side, ids, id, price, orders);
            && k < |ids'| && ids'[k] == id
            && (forall i :: 0 <= i < k ==> ids'[i] in orders' && !Better(side, price, orders'[ids'[i]].price))
            && (forall i :: k < i < |ids'| ==> ids'[i] in orders' && Better(side, price, orders'[ids'[i]].price))
  {
    k := InsertAt(side, ids, id, price, orders);
    hide Insert;
    var ids' := ids[..k] + [id] + ids[k..];
    assert forall i :: 0 <= i < |ids'| ==> ids'[i] == if i < k then ids[i] else if i == k then id else ids[i - 1];
  }

  /** The place after an accepted modification. A quantity that does not grow at an unchanged price
      costs nothing. Otherwise the order stands behind everyone at its price or better, and ahead
      only of strictly worse prices. */
  lemma ModifyPlace(b: Book, id: OrderId, price: Price, quantity: Quantity) returns (k: nat)
    requires b.Inv() && id in b.orders && (b.orders[id].status == NEW || b.orders[id].status == PARTIALLY_FILLED)
    requires price > 0.0 && quantity > b.orders[id].filled
    ensures var d, r := b.orders[id], Modify(b, id, price, quantity).0;
            var ids := r.Side(d.side);
            && r.orders[id] == d.(price := price, quantity := quantity)
            && k < |ids| && ids[k] == id && Distinct(ids)
            && (price == d.price && quantity <= d.quantity ==> ids == b.Side(d.side))
            && (price != d.price || quantity > d.quantity ==>
                  && (forall i :: 0 <= i < k ==> !Better(d.side, price, r.orders[ids[i]].price))
                  && (forall i :: k < i < |ids| ==> Better(d.side, price, r.orders[ids[i]].price)))
  {
    var d, r := b.orders[id], Modify(b, id, price, quantity).0;
    ElseKnown(b, id);
    ElseKnown(r, id);
    hide SideInv, Insert, Without;
    if price != d.price || quantity > d.quantity {
      var ids := Without(b.Side(d.side), id);
      OrderedWithout(d.side, b.Side(d.side), b.orders, id, d);
      assert b.orders[id := d] == b.orders;
      k := InsertPlace(d.side, ids, id, price, b.orders, r.orders);
    } else {
      k :| 0 <= k < |b.Side(d.side)| && b.Side(d.side)[k] == id;
    }
  }

  /** Cancelling an order that has not traded gives back the book from before it was added; only
      the registry remembers it. */
  lemma CancelUndoesAdd(b: Book, id: OrderId, client: ClientOrder)
    requires b.Inv() && id !in b.orders
    requires Add(b, id, client).trades == b.trades
    ensures Cancel(Add(b, id, client), id) ==
            (b.(orders := b.orders[id := Resting(client).(status := CANCELLED)]), true)
  {
    UntradedAdd(b, id, client);
    CancelUndoesRest(b, id, Resting(client));
  }

  lemma UntradedAdd(b: Book, id: OrderId, client: ClientOrder)
    requires b.Inv() && id !in b.orders
    requires Add(b, id, client).trades == b.trades
    ensures Add(b, id, client) == Rest(b, id, Resting(client))
  {
    RestInv(b, id, Resting(client));
    Trading.MatchTrades(Rest(b, id, Resting(client)));
  }

  lemma NotResting(b: Book, id: OrderId)
    requires b.Inv() && id !in b.orders
    ensures id !in b.bids && id !in b.asks
    ensures (forall x <- b.bids :: x in b.orders) && (forall x <- b.asks :: x in b.orders)
  {
  }

  lemma CancelUndoesRest(b: Book, id: OrderId, d: OrderData)
    requires b.Inv() && id !in b.orders && d.Live() && Rest(b, id, d).Inv()
    ensures Cancel(Rest(b, id, d), id) == (b.(orders := b.orders[id := d.(status := CANCELLED)]), true)
  {
    hide SideInv, Insert, Without;
    NotResting(b, id);
    WithoutInserted(d.side, b.Side(d.side), id, d.price, b.orders);
    assert b.orders[id := d][id := d.(status := CANCELLED)] == b.orders[id := d.(status := CANCELLED)];
  }

  /** A second cancellation is refused and changes nothing. */
  lemma CancelTwice(b: Book, id: OrderId)
    requires b.Inv()
    ensures Cancel(Cancel(b, id).0, id) == (Cancel(b, id).0, false)
  {
  }

  /** Nobody else notices a cancellation either, and the cancelled order is nowhere afterwards. */
  lemma CancelOthers(b: Book, id: OrderId)
    requires b.Inv()
    ensures var (r, ok) := Cancel(b, id);
            && (ok <==> id in b.orders && (b.orders[id].status == NEW || b.orders[id].status == PARTIALLY_FILLED))
            && (!ok ==> r == b)
            && (ok ==>
                  && r.trades == b.trades && r.orders == b.orders[id := b.orders[id].(status := CANCELLED)]
                  && Without(r.bids, id) == Without(b.bids, id) && Without(r.asks, id) == Without(b.asks, id)
                  && id !in r.bids && id !in r.asks)
  {
    hide SideInv, Without;
    if id in b.orders && b.orders[id].Live() {
      ElseKnown(b, id);
    }
  }
}
