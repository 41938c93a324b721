/** The book of levels is the price-time book: flattening the levels in map order commutes with
    every operation and with every run. */
module Refinement {
  import opened Core
  import opened Sequences
  import opened Orders
  import LB = LevelBook
  import PT = PriceTimeBook

  /** The traversal a reader of the map makes: level by level from `begin()`. */
  ghost function Flatten(side: Side, levels: LB.Levels): seq<OrderId>
    decreases |levels|
  {
    if levels == map[] then []
    else
      var p := LB.Best(side, levels.Keys);
      levels[p] + Flatten(side, levels - {p})
  }

  ghost function Flat(b: LB.Book): PT.Book {
    PT.Book(Flatten(BUY, b.bids), Flatten(SELL, b.asks), b.orders, b.trades)
  }

  /** The part of the level invariant that survives taking levels away. */
  ghost predicate Sorted(levels: LB.Levels, orders: PT.Table) {
    && (forall p <- levels :: levels[p] != [] && Distinct(levels[p]))
    && (forall p, id | p in levels && id in levels[p] :: id in orders && orders[id].price == p)
  }

  lemma {:induction false} FlattenMembers(side: Side, levels: LB.Levels, id: OrderId)
    ensures id in Flatten(side, levels) <==> exists p :: p in levels && id in levels[p]
    decreases |levels|
  {
    if levels != map[] {
      var p := LB.Best(side, levels.Keys);
      FlattenMembers(side, levels - {p}, id);
      assert forall q <- levels :: q == p || (q in levels - {p} && (levels - {p})[q] == levels[q]);
    }
  }

  lemma FlattenKnown(side: Side, levels: LB.Levels, orders: PT.Table)
    requires Sorted(levels, orders)
    ensures forall id <- Flatten(side, levels) ::
              id in orders && orders[id].price in levels && id in levels[orders[id].price]
  {
    forall id <- Flatten(side, levels)
      ensures id in orders && orders[id].price in levels && id in levels[orders[id].price]
    {
      FlattenMembers(side, levels, id);
    }
  }

  /** Flattening lists each order once, in price order. */
  lemma {:induction false} FlattenOrdered(side: Side, levels: LB.Levels, orders: PT.Table)
    requires Sorted(levels, orders)
    ensures Distinct(Flatten(side, levels))
    ensures forall id <- Flatten(side, levels) :: id in orders
    ensures PT.Ordered(side, Flatten(side, levels), orders)
    decreases |levels|
  {
    FlattenKnown(side, levels, orders);
    if levels != map[] {
      var p := LB.Best(side, levels.Keys);
      var rest := Flatten(side, levels - {p});
      FlattenOrdered(side, levels - {p}, orders);
      FlattenKnown(side, levels - {p}, orders);
      FlattenAt(side, levels, p);
      assert forall x <- rest :: Better(side, p, orders[x].price);
      DistinctConcat(levels[p], rest);
      PT.OrderedConcat(side, levels[p], rest, p, orders);
    }
  }

  lemma FlattenInv(side: Side, levels: LB.Levels, orders: PT.Table)
    requires LB.SideInv(side, levels, orders)
    ensures PT.SideInv(side, Flatten(side, levels), orders)
  {
    FlattenOrdered(side, levels, orders);
    FlattenKnown(side, levels, orders);
    forall id <- orders | orders[id].side == side && orders[id].Live() ensures id in Flatten(side, levels) {
      FlattenMembers(side, levels, id);
    }
  }

  /** Flattened, a side has as many entries as live orders. */
  lemma FlattenSize(side: Side, levels: LB.Levels, orders: PT.Table)
    requires LB.SideInv(side, levels, orders)
    ensures |Flatten(side, levels)| == |LB.LiveOf(side, orders)|
  {
    FlattenInv(side, levels, orders);
    DistinctSize(Flatten(side, levels), LB.LiveOf(side, orders));
  }

  lemma FlatInv(b: LB.Book)
    requires b.Inv()
    ensures Flat(b).Inv()
  {
    FlattenInv(BUY, b.bids, b.orders);
    FlattenInv(SELL, b.asks, b.orders);
  }

  // ---- queue operations ----

  lemma {:induction false} InsertSkips(side: Side, a: seq<OrderId>, c: seq<OrderId>, id: OrderId, price: Price,
                                       orders: PT.Table)
    requires forall x <- a + c :: x in orders
    requires forall x <- a :: !Better(side, price, orders[x].price)
    ensures forall x <- c :: x in orders
    ensures PT.Insert(side, a + c, id, price, orders) == a + PT.Insert(side, c, id, price, orders)
  {
    assert forall x <- c :: x in a + c;
    if a == [] {
      assert a + c == c;
    } else {
      assert (a + c)[0] == a[0] && (a + c)[1..] == a[1..] + c;
      assert forall x <- a[1..] + c :: x in a + c;
      InsertSkips(side, a[1..], c, id, price, orders);
    }
  }

  /** A map with a known best key unfolds there. */
  lemma FlattenAt(side: Side, levels: LB.Levels, p: Price)
    requires p in levels && forall q <- levels :: !Better(side, q, p)
    ensures p == LB.Best(side, levels.Keys)
    ensures Flatten(side, levels) == levels[p] + Flatten(side, levels - {p})
  {
  }

  lemma {:induction false} FlattenEnqueue(side: Side, levels: LB.Levels, p: Price, id: OrderId, orders: PT.Table)
    requires Sorted(levels, orders)
    ensures forall x <- Flatten(side, levels) :: x in orders
    ensures Flatten(side, LB.Enqueue(levels, p, id)) == PT.Insert(side, Flatten(side, levels), id, p, orders)
    decreases |levels|
  {
    hide Flatten, LB.Best, LB.Enqueue, PT.Insert, Sorted;
    if levels == map[] || Better(side, p, LB.Best(side, levels.Keys)) {
      EnqueueAhead(side, levels, p, id, orders);
    } else {
      var q := LB.Best(side, levels.Keys);
      var rest := levels - {q};
      EnqueueBehind(side, levels, p, id, orders);
      if p == q {
        InsertFirst(side, Flatten(side, rest), id, p, rest, orders);
      } else {
        FlattenEnqueue(side, rest, p, id, orders);
      }
    }
  }

  /** An order that does not open a new best level passes the first level, or joins it. */
  lemma EnqueueBehind(side: Side, levels: LB.Levels, p: Price, id: OrderId, orders: PT.Table)
    requires Sorted(levels, orders) && levels != map[] && !Better(side, p, LB.Best(side, levels.Keys))
    ensures var q := LB.Best(side, levels.Keys);
            var rest := levels - {q};
            && Sorted(rest, orders) && (p == q ==> forall r <- rest :: Better(side, p, r))
            && (forall x <- Flatten(side, levels) :: x in orders)
            && (forall x <- Flatten(side, rest) :: x in orders)
            && PT.Insert(side, Flatten(side, levels), id, p, orders) ==
               levels[q] + PT.Insert(side, Flatten(side, rest), id, p, orders)
            && Flatten(side, LB.Enqueue(levels, p, id)) ==
               (if p == q then levels[q] + [id] + Flatten(side, rest)
                else levels[q] + Flatten(side, LB.Enqueue(rest, p, id)))
  {
    hide Flatten, LB.Best, PT.Insert;
    var q := LB.Best(side, levels.Keys);
    var rest := levels - {q};
    FlattenKnown(side, levels, orders);
    FlattenKnown(side, rest, orders);
    FlattenAt(side, levels, q);
    FlattenAt(side, LB.Enqueue(levels, p, id), q);
    InsertSkips(side, levels[q], Flatten(side, rest), id, p, orders);
    assert LB.Enqueue(levels, p, id) - {q} == if p == q then rest else LB.Enqueue(rest, p, id);
  }

  /** A price better than all those listed comes first. */
  lemma InsertFirst(side: Side, ids: seq<OrderId>, id: OrderId, p: Price, levels: LB.Levels, orders: PT.Table)
    requires Sorted(levels, orders) && ids == Flatten(side, levels)
    requires forall q <- levels :: Better(side, p, q)
    ensures forall x <- ids :: x in orders
    ensures PT.Insert(side, ids, id, p, orders) == [id] + ids
  {
    FlattenKnown(side, levels, orders);
    if ids != [] {
      assert ids[0] in ids;
    }
  }

  lemma EnqueueAhead(side: Side, levels: LB.Levels, p: Price, id: OrderId, orders: PT.Table)
    requires Sorted(levels, orders)
    requires levels == map[] || Better(side, p, LB.Best(side, levels.Keys))
    ensures forall x <- Flatten(side, levels) :: x in orders
    ensures Flatten(side, LB.Enqueue(levels, p, id)) == PT.Insert(side, Flatten(side, levels), id, p, orders)
  {
    var levels' := LB.Enqueue(levels, p, id);
    FlattenAt(side, levels', p);
    assert levels' - {p} == levels;
    InsertFirst(side, Flatten(side, levels), id, p, levels, orders);
  }

  lemma {:induction false} FlattenDequeue(side: Side, levels: LB.Levels, p: Price, id: OrderId, orders: PT.Table)
    requires Sorted(levels, orders)
    requires p in levels && id in levels[p]
    ensures Flatten(side, LB.Dequeue(levels, p, id)) == Without(Flatten(side, levels), id)
    decreases |levels|
  {
    hide Flatten, LB.Best, Without;
    var q := LB.Best(side, levels.Keys);
    var rest := levels - {q};
    var levels' := LB.Dequeue(levels, p, id);
    FlattenAt(side, levels, q);
    WithoutConcat(levels[q], Flatten(side, rest), id);
    assert orders[id].price == p;
    if p == q {
      FlattenKnown(side, rest, orders);
      assert id !in Flatten(side, rest);
      if Without(levels[q], id) == [] {
        assert levels' == rest;
      } else {
        FlattenAt(side, levels', q);
        assert levels' - {q} == rest;
      }
    } else {
      assert id !in levels[q];
      FlattenAt(side, levels', q);
      assert levels' - {q} == LB.Dequeue(rest, p, id);
      FlattenDequeue(side, rest, p, id, orders);
    }
  }

  lemma FlattenFront(side: Side, levels: LB.Levels, orders: PT.Table)
    requires Sorted(levels, orders)
    ensures levels == map[] <==> Flatten(side, levels) == []
    ensures levels != map[] ==> Flatten(side, levels)[0] == levels[LB.Best(side, levels.Keys)][0]
  {
  }

  // ---- the operations ----

  lemma RestRefines(b: LB.Book, id: OrderId, d: OrderData)
    requires b.Inv() && Flat(b).Inv()
    ensures Flat(LB.Rest(b, id, d)) == PT.Rest(Flat(b), id, d)
  {
    hide LB.Enqueue, PT.Insert, Flatten, PT.SideInv;
    assert Sorted(b.bids, b.orders) && Sorted(b.asks, b.orders);
    FlattenEnqueue(d.side, b.Levels(d.side), d.price, id, b.orders);
  }

  /** The flag is set exactly when nobody rests at the new order's price yet. */
  lemma GateRefines(b: LB.Book, side: Side, price: Price)
    requires b.Inv() && Flat(b).Inv()
    ensures price in b.Levels(side) <==> PT.PriceTaken(Flat(b), side, price)
  {
    var levels := b.Levels(side);
    FlattenKnown(side, levels, b.orders);
    if price in levels {
      FlattenMembers(side, levels, levels[price][0]);
      assert levels[price][0] in Flat(b).Side(side);
    }
  }

  lemma CrossedRefines(b: LB.Book)
    requires b.Inv() && Flat(b).Inv()
    ensures LB.Crossed(b) <==> PT.Crossed(Flat(b))
    ensures forall side :: b.Levels(side) != map[] ==>
              Flat(b).Side(side) != [] && Flat(b).Side(side)[0] == LB.FrontId(b, side)
  {
    FlattenFront(BUY, b.bids, b.orders);
    FlattenFront(SELL, b.asks, b.orders);
  }

  lemma SettleRefines(b: LB.Book, side: Side, n: int)
    requires b.Inv() && b.Levels(side) != map[]
    requires 0 <= n <= b.orders[LB.FrontId(b, side)].Remaining()
    ensures var id, ids := LB.FrontId(b, side), Flatten(side, b.Levels(side));
            && ids != [] && ids[0] == id
            && Flatten(side, LB.Settle(b, side, n).Levels(side)) ==
               (if n == b.orders[id].Remaining() then ids[1..] else ids)
  {
    var id, levels := LB.FrontId(b, side), b.Levels(side);
    FlattenFront(side, levels, b.orders);
    FlattenOrdered(side, levels, b.orders);
    FlattenDequeue(side, levels, b.orders[id].price, id, b.orders);
    WithoutHead(Flatten(side, levels));
  }

  lemma TradeRefines(b: LB.Book)
    requires b.Inv() && LB.Crossed(b) && Flat(b).Inv() && PT.Crossed(Flat(b))
    ensures Flat(LB.Trade(b)) == PT.Trade(Flat(b))
  {
    hide LB.Book.Inv, PT.Book.Inv, Flatten, LB.Best;
    var n := LB.TradeSize(b);
    var b1 := LB.Settle(b, BUY, n);
    LB.TradeInv(b);
    SettleRefines(b, BUY, n);
    SettleRefines(b1, SELL, n);
  }

  lemma {:induction false} MatchRefines(b: LB.Book)
    requires b.Inv() && Flat(b).Inv()
    ensures Flat(LB.MatchLoop(b)) == PT.Match(Flat(b))
    decreases b.LiveIds()
  {
    CrossedRefines(b);
    if LB.Crossed(b) {
      TradeRefines(b);
      FlatInv(LB.Trade(b));
      MatchRefines(LB.Trade(b));
    }
  }

  lemma AddRefines(b: LB.Book, id: OrderId, client: ClientOrder)
    requires b.Inv() && id !in b.orders && Flat(b).Inv()
    ensures Flat(LB.Add(b, id, client)) == PT.Add(Flat(b), id, client)
  {
    hide LB.Book.Inv, PT.Book.Inv, LB.MatchLoop, PT.Match, Flatten;
    var r := LB.Rest(b, id, Resting(client));
    LB.RestInv(b, id, Resting(client));
    RestRefines(b, id, Resting(client));
    GateRefines(b, client.side, client.price);
    FlatInv(r);
    MatchRefines(r);
  }

  lemma CancelRefines(b: LB.Book, id: OrderId)
    requires b.Inv() && Flat(b).Inv()
    ensures Flat(LB.Cancel(b, id).0) == PT.Cancel(Flat(b), id).0 && LB.Cancel(b, id).1 == PT.Cancel(Flat(b), id).1
  {
    if id in b.orders && b.orders[id].Live() {
      var d := b.orders[id];
      FlattenDequeue(d.side, b.Levels(d.side), d.price, id, b.orders);
    }
  }

  lemma ModifyRefines(b: LB.Book, id: OrderId, price: Price, quantity: Quantity)
    requires b.Inv() && Flat(b).Inv()
    ensures Flat(LB.Modify(b, id, price, quantity).0) == PT.Modify(Flat(b), id, price, quantity).0
    ensures LB.Modify(b, id, price, quantity).1 == PT.Modify(Flat(b), id, price, quantity).1
  {
    if id in b.orders && b.orders[id].Live() && b.orders[id].Accepts(price, quantity) {
      var d := b.orders[id];
      MovedRefines(d.side, b.Levels(d.side), id, b.orders, price, quantity);
    }
  }

  lemma MovedRefines(side: Side, levels: LB.Levels, id: OrderId, orders: PT.Table, price: Price, quantity: Quantity)
    requires LB.SideInv(side, levels, orders)
    requires id in orders && orders[id].side == side && orders[id].Live()
    ensures var d, ids := orders[id], Flatten(side, levels);
            && (forall x <- Without(ids, id) :: x in orders)
            && Flatten(side, LB.Moved(levels, id, d, price, quantity)) ==
               if price != d.price || quantity > d.quantity
               then PT.Insert(side, Without(ids, id), id, price, orders) else ids
  {
    hide Flatten, PT.Insert, Without, LB.Dequeue, LB.Enqueue, LB.SideInv, Sorted, OrderData.Live;
    var d := orders[id];
    ResidentKnown(side, levels, id, orders);
    if price != d.price || quantity > d.quantity {
      FlattenDequeue(side, levels, d.price, id, orders);
      FlattenEnqueue(side, LB.Dequeue(levels, d.price, id), price, id, orders);
    }
  }

  /** What moving an order needs to know about its side. */
  lemma ResidentKnown(side: Side, levels: LB.Levels, id: OrderId, orders: PT.Table)
    requires LB.SideInv(side, levels, orders)
    requires id in orders && orders[id].side == side && orders[id].Live()
    ensures Sorted(levels, orders) && orders[id].price in levels && id in levels[orders[id].price]
    ensures Sorted(LB.Dequeue(levels, orders[id].price, id), orders)
    ensures forall x <- Flatten(side, levels) :: x in orders
  {
    FlattenKnown(side, levels, orders);
    hide Flatten;
    LB.DequeueInv(side, levels, orders, id, orders[id].(status := CANCELLED));
  }
}
