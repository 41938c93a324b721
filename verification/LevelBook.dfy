/** The matching engine on values: two maps from price to the queue of resting ids, the order
    registry, the trade counter and the flag that gates matching (include/orderbook.h:46-257). */
module LevelBook {
  import opened Core
  import opened Sequences
  import opened Orders

  type Levels = map<Price, seq<OrderId>>

  datatype Book = Book(bids: Levels, asks: Levels, orders: map<OrderId, OrderData>, trades: nat, flag: bool)
  {
    function Levels(side: Side): Levels {
      if side == BUY then bids else asks
    }

    function WithLevels(side: Side, levels: Levels): Book {
      if side == BUY then this.(bids := levels) else this.(asks := levels)
    }

    ghost function LiveIds(): set<OrderId> {
      set id | id in orders && orders[id].Live()
    }

    /** A registered order is live exactly when it rests, once, on its own side, in the level of
        its current price; and no level is empty. */
    ghost predicate Inv() {
      && SideInv(BUY, bids, orders)
      && SideInv(SELL, asks, orders)
      && (forall id <- orders :: orders[id].Sound())
    }
  }

  /** The live orders of one side. */
  ghost function LiveOf(side: Side, orders: map<OrderId, OrderData>): set<OrderId> {
    set id | id in orders && orders[id].side == side && orders[id].Live()
  }

  const EMPTY: Book := Book(map[], map[], map[], 0, false)

  ghost predicate SideInv(side: Side, levels: Levels, orders: map<OrderId, OrderData>) {
    && (forall p <- levels :: levels[p] != [] && Distinct(levels[p]))
    && (forall p, id | p in levels && id in levels[p] ::
          id in orders && orders[id].side == side && orders[id].price == p && orders[id].Live())
    && (forall id <- orders :: orders[id].side == side && orders[id].Live() ==>
          orders[id].price in levels && id in levels[orders[id].price])
  }

  // ---- the ordered maps ----

  /** The key at `begin()` of the map that holds `side`. */
  function Best(side: Side, prices: set<Price>): (p: Price)
    requires prices != {}
    ensures p in prices && forall q <- prices :: !Better(side, q, p)
  {
    BestExists(side, prices);
    var p :| p in prices && forall q <- prices :: !Better(side, q, p);
    p
  }

  lemma {:induction false} BestExists(side: Side, prices: set<Price>)
    requires prices != {}
    ensures exists p :: p in prices && forall q <- prices :: !Better(side, q, p)
  {
    assert exists p :: p in prices by {
      assert (forall p :: p !in prices) ==> prices == {};
    }
    var x :| x in prices;
    if prices == {x} {
    } else {
      BestExists(side, prices - {x});
      var p :| p in prices - {x} && forall q <- prices - {x} :: !Better(side, q, p);
      var best := if Better(side, x, p) then x else p;
      forall q <- prices ensures !Better(side, q, best) {
        assert q == x || q in prices - {x};
      }
    }
  }

  function Enqueue(levels: Levels, p: Price, id: OrderId): Levels {
    levels[p := (if p in levels then levels[p] else []) + [id]]
  }

  /** Removal from a level, which is pruned when that empties it. */
  function Dequeue(levels: Levels, p: Price, id: OrderId): Levels
    requires p in levels
  {
    var rest := Without(levels[p], id);
    if rest == [] then levels - {p} else levels[p := rest]
  }

  // ---- the operations ----

  function Rest(b: Book, id: OrderId, data: OrderData): Book {
    b.WithLevels(data.side, Enqueue(b.Levels(data.side), data.price, id))
     .(orders := b.orders[id := data], flag := data.price !in b.Levels(data.side))
  }

  function Add(b: Book, id: OrderId, client: ClientOrder): (r: Book)
    requires b.Inv() && id !in b.orders
    ensures r.Inv()
  {
    RestInv(b, id, Resting(client));
    TryMatch(Rest(b, id, Resting(client)))
  }

  function Cancel(b: Book, id: OrderId): (r: (Book, bool))
    requires b.Inv()
    ensures r.0.Inv()
  {
    if id !in b.orders || !b.orders[id].Live() then (b, false)
    else
      var d := b.orders[id];
      CancelInv(b, id);
      (b.WithLevels(d.side, Dequeue(b.Levels(d.side), d.price, id))
        .(orders := b.orders[id := d.(status := CANCELLED)]), true)
  }

  /** A new price or a larger quantity sends the order to the back of its level. */
  function Moved(levels: Levels, id: OrderId, d: OrderData, price: Price, quantity: Quantity): Levels
    requires d.price in levels
  {
    if price != d.price || quantity > d.quantity then Enqueue(Dequeue(levels, d.price, id), price, id) else levels
  }

  /** No trade happens here: both branches of the source's switch return before its `try_match`. */
  function Modify(b: Book, id: OrderId, price: Price, quantity: Quantity): (r: (Book, bool))
    requires b.Inv()
    ensures r.0.Inv()
  {
    if id !in b.orders || !b.orders[id].Live() || !b.orders[id].Accepts(price, quantity) then (b, false)
    else
      var d := b.orders[id];
      var levels := b.Levels(d.side);
      ModifyInv(b, id, price, quantity);
      (b.WithLevels(d.side, Moved(levels, id, d, price, quantity))
        .(orders := b.orders[id := d.(price := price, quantity := quantity)],
          flag := if price != d.price then price !in levels else b.flag),
       price != d.price || quantity != d.quantity)
  }

  /** The one modification that can leave a level's head on a tombstone: growing, at its price, an
      order that is alone there. */
  predicate GrowsSoleOrder(b: Book, id: OrderId, price: Price, quantity: Quantity)
    requires b.Inv()
  {
    && id in b.orders && b.orders[id].Live() && b.orders[id].Accepts(price, quantity)
    && price == b.orders[id].price && quantity > b.orders[id].quantity
    && b.Levels(b.orders[id].side)[price] == [id]
  }

  predicate Crossed(b: Book) {
    b.bids != map[] && b.asks != map[] && Best(BUY, b.bids.Keys) >= Best(SELL, b.asks.Keys)
  }

  function FrontId(b: Book, side: Side): (id: OrderId)
    requires b.Inv() && b.Levels(side) != map[]
    ensures id in b.orders && b.orders[id].side == side && b.orders[id].Live()
    ensures b.orders[id].price == Best(side, b.Levels(side).Keys)
    ensures id in b.Levels(side)[b.orders[id].price]
  {
    b.Levels(side)[Best(side, b.Levels(side).Keys)][0]
  }

  /** The front order of one side takes a fill and leaves the book when it is complete. */
  function Settle(b: Book, side: Side, n: int): Book
    requires b.Inv() && b.Levels(side) != map[]
    requires 0 <= n <= b.orders[FrontId(b, side)].Remaining()
  {
    var id := FrontId(b, side);
    var d := b.orders[id].Fill(n);
    var b' := b.(orders := b.orders[id := d]);
    if d.status == FULLY_FILLED then b'.WithLevels(side, Dequeue(b.Levels(side), d.price, id)) else b'
  }

  function TradeSize(b: Book): (n: int)
    requires b.Inv() && b.bids != map[] && b.asks != map[]
    ensures 0 <= n <= b.orders[FrontId(b, BUY)].Remaining() && n <= b.orders[FrontId(b, SELL)].Remaining()
  {
    Min(b.orders[FrontId(b, BUY)].Remaining(), b.orders[FrontId(b, SELL)].Remaining())
  }

  /** One round of the matching loop. */
  function Trade(b: Book): (r: Book)
    requires b.Inv() && Crossed(b)
    ensures r.Inv() && r.LiveIds() < b.LiveIds()
  {
    var n := TradeSize(b);
    TradeInv(b);
    Settle(Settle(b, BUY, n), SELL, n).(trades := b.trades + 1)
  }

  /** The loop leaves the flag alone when a side runs empty and clears it otherwise. */
  function MatchLoop(b: Book): (r: Book)
    requires b.Inv()
    ensures r.Inv() && !Crossed(r)
    decreases b.LiveIds()
  {
    if b.bids == map[] || b.asks == map[] then b
    else if !Crossed(b) then b.(flag := false)
    else MatchLoop(Trade(b))
  }

  /** The loop, one round at a time. */
  lemma MatchLoopStep(b: Book)
    requires b.Inv()
    ensures b.bids == map[] || b.asks == map[] ==> !Crossed(b) && MatchLoop(b) == b
    ensures b.bids != map[] && b.asks != map[] ==>
              && (Crossed(b) <==> Best(BUY, b.bids.Keys) >= Best(SELL, b.asks.Keys))
              && (!Crossed(b) ==> MatchLoop(b) == b.(flag := false))
              && (Crossed(b) ==> Trade(b).LiveIds() < b.LiveIds() && MatchLoop(b) == MatchLoop(Trade(b)))
  {
  }

  function TryMatch(b: Book): (r: Book)
    requires b.Inv()
    ensures r.Inv()
  {
    if b.flag then MatchLoop(b) else b
  }

  // ---- the invariant, one table update at a time ----

  /** An order of the other side is none of this side's business. */
  lemma OtherSide(side: Side, levels: Levels, orders: map<OrderId, OrderData>, id: OrderId, d: OrderData)
    requires SideInv(side, levels, orders)
    requires d.side != side && (id in orders ==> orders[id].side != side)
    ensures SideInv(side, levels, orders[id := d])
  {
  }

  lemma EnqueueInv(side: Side, levels: Levels, orders: map<OrderId, OrderData>, id: OrderId, d: OrderData)
    requires SideInv(side, levels, orders)
    requires id in orders ==> !orders[id].Live()
    requires d.side == side && d.Live()
    ensures SideInv(side, Enqueue(levels, d.price, id), orders[id := d])
  {
  }

  lemma DequeueInv(side: Side, levels: Levels, orders: map<OrderId, OrderData>, id: OrderId, d: OrderData)
    requires SideInv(side, levels, orders)
    requires id in orders && orders[id].side == side && orders[id].Live()
    requires !d.Live()
    ensures SideInv(side, Dequeue(levels, orders[id].price, id), orders[id := d])
  {
    WithoutDistinct(levels[orders[id].price], id);
  }

  /** Updating a resting order without moving it. */
  lemma DataInv(side: Side, levels: Levels, orders: map<OrderId, OrderData>, id: OrderId, d: OrderData)
    requires SideInv(side, levels, orders)
    requires id in orders && orders[id].side == side && orders[id].Live()
    requires d.side == side && d.price == orders[id].price && d.Live()
    ensures SideInv(side, levels, orders[id := d])
  {
  }

  lemma NewToQueues(b: Book, side: Side, p: Price, id: OrderId)
    requires b.Inv() && (id in b.orders ==> !b.orders[id].Live())
    ensures p in b.Levels(side) ==> b.Levels(side)[p] != [] && id !in b.Levels(side)[p]
  {
  }

  lemma RestsOnce(b: Book, id: OrderId)
    requires b.Inv() && id in b.orders && b.orders[id].Live()
    ensures var levels, p := b.Levels(b.orders[id].side), b.orders[id].price;
            && p in levels && id in levels[p] && Distinct(levels[p])
            && forall q <- levels :: q != p ==> levels[q] != [] && id !in levels[q]
  {
  }

  lemma RestInv(b: Book, id: OrderId, d: OrderData)
    requires b.Inv() && id !in b.orders && d.Live() && d.Sound()
    ensures Rest(b, id, d).Inv()
  {
    EnqueueInv(d.side, b.Levels(d.side), b.orders, id, d);
    OtherSide(Opposite(d.side), b.Levels(Opposite(d.side)), b.orders, id, d);
  }

  lemma CancelInv(b: Book, id: OrderId)
    requires b.Inv() && id in b.orders && b.orders[id].Live()
    ensures var d := b.orders[id];
            && d.price in b.Levels(d.side) && id in b.Levels(d.side)[d.price]
            && b.WithLevels(d.side, Dequeue(b.Levels(d.side), d.price, id))
             .(orders := b.orders[id := d.(status := CANCELLED)]).Inv()
  {
    var d := b.orders[id];
    DequeueInv(d.side, b.Levels(d.side), b.orders, id, d.(status := CANCELLED));
    OtherSide(Opposite(d.side), b.Levels(Opposite(d.side)), b.orders, id, d.(status := CANCELLED));
  }

  lemma ModifyInv(b: Book, id: OrderId, price: Price, quantity: Quantity)
    requires b.Inv() && id in b.orders && b.orders[id].Live() && quantity > b.orders[id].filled
    ensures var d := b.orders[id];
            && d.price in b.Levels(d.side) && id in b.Levels(d.side)[d.price]
            && b.WithLevels(d.side, Moved(b.Levels(d.side), id, d, price, quantity))
                .(orders := b.orders[id := d.(price := price, quantity := quantity)]).Inv()
  {
    var d := b.orders[id];
    var gone, d' := d.(status := CANCELLED), d.(price := price, quantity := quantity);
    var levels, other := b.Levels(d.side), Opposite(d.side);
    OtherSide(other, b.Levels(other), b.orders, id, d');
    if price != d.price || quantity > d.quantity {
      DequeueInv(d.side, levels, b.orders, id, gone);
      EnqueueInv(d.side, Dequeue(levels, d.price, id), b.orders[id := gone], id, d');
      assert b.orders[id := gone][id := d'] == b.orders[id := d'];
    } else {
      DataInv(d.side, levels, b.orders, id, d');
    }
  }

  lemma SettleInv(b: Book, side: Side, n: int)
    requires b.Inv() && b.Levels(side) != map[]
    requires 0 <= n <= b.orders[FrontId(b, side)].Remaining()
    ensures Settle(b, side, n).Inv()
    ensures var id := FrontId(b, side);
            Settle(b, side, n).LiveIds() ==
            b.LiveIds() - if n == b.orders[id].Remaining() then {id} else {}
    ensures Settle(b, side, n).Levels(Opposite(side)) == b.Levels(Opposite(side))
  {
    var id := FrontId(b, side);
    var d := b.orders[id].Fill(n);
    OtherSide(Opposite(side), b.Levels(Opposite(side)), b.orders, id, d);
    if d.status == FULLY_FILLED {
      DequeueInv(side, b.Levels(side), b.orders, id, d);
    } else {
      DataInv(side, b.Levels(side), b.orders, id, d);
    }
  }

  lemma TradeInv(b: Book)
    requires b.Inv() && Crossed(b)
    ensures var n, b1 := TradeSize(b), Settle(b, BUY, TradeSize(b));
            && b1.Inv() && b1.asks == b.asks
            && FrontId(b1, SELL) == FrontId(b, SELL)
            && b1.orders[FrontId(b, SELL)] == b.orders[FrontId(b, SELL)]
            && Settle(b1, SELL, n).Inv()
            && Settle(b1, SELL, n).LiveIds() < b.LiveIds()
  {
    var n := TradeSize(b);
    SettleInv(b, BUY, n);
    SettleInv(Settle(b, BUY, n), SELL, n);
    var bid, ask := FrontId(b, BUY), FrontId(b, SELL);
    assert bid in b.LiveIds() && ask in b.LiveIds();
  }
}
