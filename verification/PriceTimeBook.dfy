/** The reference book: two sequences of resting ids in price-time priority and nothing else.
    There are no levels, no index and no flag. */
module PriceTimeBook {
  import opened Core
  import opened Sequences
  import opened Orders

  type Table = map<OrderId, OrderData>

  datatype Book = Book(bids: seq<OrderId>, asks: seq<OrderId>, orders: Table, trades: nat)
  {
    function Side(side: Side): seq<OrderId> {
      if side == BUY then bids else asks
    }

    function WithSide(side: Side, ids: seq<OrderId>): Book {
      if side == BUY then this.(bids := ids) else this.(asks := ids)
    }

    /** The resting ids are the live orders of the side, each once, best price first. */
    ghost predicate Inv() {
      && SideInv(BUY, bids, orders)
      && SideInv(SELL, asks, orders)
      && (forall id <- orders :: orders[id].Sound())
    }
  }

  const EMPTY: Book := Book([], [], map[], 0)

  ghost predicate SideInv(side: Side, ids: seq<OrderId>, orders: Table) {
    && Distinct(ids)
    && (forall id <- ids :: id in orders && orders[id].side == side && orders[id].Live())
    && (forall id <- orders :: orders[id].side == side && orders[id].Live() ==> id in ids)
    && Ordered(side, ids, orders)
  }

  ghost predicate Ordered(side: Side, ids: seq<OrderId>, orders: Table)
    requires forall id <- ids :: id in orders
  {
    forall i, j :: 0 <= i < j < |ids| ==> !Better(side, orders[ids[j]].price, orders[ids[i]].price)
  }

  /** Joins the queue behind every order at the same or a better price. */
  function Insert(side: Side, ids: seq<OrderId>, id: OrderId, price: Price, orders: Table): seq<OrderId>
    requires forall x <- ids :: x in orders
  {
    if ids == [] || Better(side, price, orders[ids[0]].price) then [id] + ids
    else [ids[0]] + Insert(side, ids[1..], id, price, orders)
  }

  predicate Crossed(b: Book)
    requires forall id <- b.bids :: id in b.orders
    requires forall id <- b.asks :: id in b.orders
  {
    b.bids != [] && b.asks != [] && b.orders[b.bids[0]].price >= b.orders[b.asks[0]].price
  }

  /** The two front orders trade; whoever is filled leaves. */
  function Trade(b: Book): Book
    requires b.Inv() && Crossed(b)
  {
    var bid, ask := b.orders[b.bids[0]], b.orders[b.asks[0]];
    var n := Min(bid.Remaining(), ask.Remaining());
    Book(if bid.Remaining() == n then b.bids[1..] else b.bids,
         if ask.Remaining() == n then b.asks[1..] else b.asks,
         b.orders[b.bids[0] := bid.Fill(n)][b.asks[0] := ask.Fill(n)],
         b.trades + 1)
  }

  /** Trades until the fronts no longer cross. */
  function Match(b: Book): (r: Book)
    requires b.Inv()
    ensures r.Inv() && !Crossed(r)
    decreases |b.bids| + |b.asks|
  {
    if !Crossed(b) then b else (TradeInv(b); Match(Trade(b)))
  }

  function Rest(b: Book, id: OrderId, d: OrderData): Book
    requires b.Inv()
  {
    b.WithSide(d.side, Insert(d.side, b.Side(d.side), id, d.price, b.orders)).(orders := b.orders[id := d])
  }

  /** Somebody on `side` already rests at `price`. */
  predicate PriceTaken(b: Book, side: Side, price: Price)
    requires b.Inv()
  {
    exists id <- b.Side(side) :: b.orders[id].price == price
  }

  /** As the source does it: matching is attempted only for an order at a price of its own. */
  function Add(b: Book, id: OrderId, client: ClientOrder): (r: Book)
    requires b.Inv() && id !in b.orders
    ensures r.Inv()
  {
    RestInv(b, id, Resting(client));
    var b' := Rest(b, id, Resting(client));
    if PriceTaken(b, client.side, client.price) then b' else Match(b')
  }

  function Cancel(b: Book, id: OrderId): (r: (Book, bool))
    requires b.Inv()
    ensures r.0.Inv()
  {
    if id !in b.orders || !b.orders[id].Live() then (b, false)
    else
      var d := b.orders[id];
      CancelInv(b, id);
      (b.WithSide(d.side, Without(b.Side(d.side), id)).(orders := b.orders[id := d.(status := CANCELLED)]), true)
  }

  /** A new price or a larger quantity costs the order its place in time; a smaller one does not. */
  function Modify(b: Book, id: OrderId, price: Price, quantity: Quantity): (r: (Book, bool))
    requires b.Inv()
    ensures r.0.Inv()
  {
    if id !in b.orders || !b.orders[id].Live() || !b.orders[id].Accepts(price, quantity) then (b, false)
    else
      var d := b.orders[id];
      var ids := b.Side(d.side);
      ModifyInv(b, id, price, quantity);
      (b.WithSide(d.side, if price != d.price || quantity > d.quantity
                          then Insert(d.side, Without(ids, id), id, price, b.orders) else ids)
        .(orders := b.orders[id := d.(price := price, quantity := quantity)]),
       price != d.price || quantity != d.quantity)
  }

  // ---- where Insert puts an order ----

  /** Behind everyone at the same or a better price, ahead of everyone at a worse one. */
  lemma {:induction false} InsertAt(side: Side, ids: seq<OrderId>, id: OrderId, price: Price, orders: Table)
    returns (k: nat)
    requires forall x <- ids :: x in orders
    ensures k <= |ids| && Insert(side, ids, id, price, orders) == ids[..k] + [id] + ids[k..]
    ensures forall i :: 0 <= i < k ==> !Better(side, price, orders[ids[i]].price)
    ensures k < |ids| ==> Better(side, price, orders[ids[k]].price)
    ensures Ordered(side, ids, orders) ==> forall i :: k <= i < |ids| ==> Better(side, price, orders[ids[i]].price)
  {
    if ids == [] || Better(side, price, orders[ids[0]].price) {
      k := 0;
      assert ids[..0] == [] && ids[0..] == ids;
    } else {
      var t := ids[1..];
      assert Insert(side, ids, id, price, orders) == [ids[0]] + Insert(side, t, id, price, orders);
      hide Insert;
      var j := InsertAt(side, t, id, price, orders);
      k := j + 1;
      assert ids[..k] == [ids[0]] + t[..j] && ids[k..] == t[j..];
      ConcatAssoc([ids[0]], t[..j], [id]);
      ConcatAssoc([ids[0]], t[..j] + [id], t[j..]);
    }
  }

  // ---- the invariant ----

  lemma OtherSide(side: Side, ids: seq<OrderId>, orders: Table, id: OrderId, d: OrderData)
    requires SideInv(side, ids, orders)
    requires d.side != side && (id in orders ==> orders[id].side != side)
    ensures SideInv(side, ids, orders[id := d])
  {
  }

  lemma InsertInv(side: Side, ids: seq<OrderId>, orders: Table, id: OrderId, d: OrderData)
    requires SideInv(side, ids, orders)
    requires id in orders ==> !orders[id].Live()
    requires d.side == side && d.Live()
    ensures SideInv(side, Insert(side, ids, id, d.price, orders), orders[id := d])
  {
    hide Insert, Distinct, Ordered;
    InsertMembers(side, ids, id, d.price, orders);
    OrderedInsert(side, ids, orders, id, d);
  }

  lemma OrderedInsert(side: Side, ids: seq<OrderId>, orders: Table, id: OrderId, d: OrderData)
    requires (forall x <- ids :: x in orders) && id !in ids && Ordered(side, ids, orders)
    ensures forall x <- Insert(side, ids, id, d.price, orders) :: x in orders[id := d]
    ensures Ordered(side, Insert(side, ids, id, d.price, orders), orders[id := d])
  {
    var k := InsertAt(side, ids, id, d.price, orders);
    hide Insert;
    var ids', orders' := ids[..k] + [id] + ids[k..], orders[id := d];
    assert forall i :: 0 <= i < |ids'| ==> ids'[i] == if i < k then ids[i] else if i == k then id else ids[i - 1];
  }

  lemma OrderedWithout(side: Side, ids: seq<OrderId>, orders: Table, id: OrderId, d: OrderData)
    requires (forall x <- ids :: x in orders) && id in ids && Distinct(ids) && Ordered(side, ids, orders)
    ensures Ordered(side, Without(ids, id), orders[id := d])
  {
    var k := WithoutAt(ids, id);
    hide Without, Better;
    var rest := ids[..k] + ids[k + 1..];
    forall i, j | 0 <= i < j < |rest| ensures !Better(side, orders[id := d][rest[j]].price,
                                                      orders[id := d][rest[i]].price) {
      var i', j' := if i < k then i else i + 1, if j < k then j else j + 1;
      assert rest[i] == ids[i'] && rest[j] == ids[j'] && ids[i'] != ids[k] && ids[j'] != ids[k];
    }
  }

  lemma OrderedConcat(side: Side, a: seq<OrderId>, c: seq<OrderId>, price: Price, orders: Table)
    requires (forall x <- a :: x in orders && orders[x].price == price)
    requires (forall x <- c :: x in orders && Better(side, price, orders[x].price)) && Ordered(side, c, orders)
    ensures Ordered(side, a + c, orders)
  {
    var s := a + c;
    assert forall i :: 0 <= i < |s| ==> s[i] == if i < |a| then a[i] else c[i - |a|];
  }

  lemma {:induction false} InsertMembers(side: Side, ids: seq<OrderId>, id: OrderId, price: Price, orders: Table)
    requires forall x <- ids :: x in orders
    ensures forall x :: x in Insert(side, ids, id, price, orders) <==> x in ids || x == id
    ensures Distinct(ids) && id !in ids ==> Distinct(Insert(side, ids, id, price, orders))
  {
    if ids != [] && !Better(side, price, orders[ids[0]].price) {
      InsertMembers(side, ids[1..], id, price, orders);
      assert ids == [ids[0]] + ids[1..];
      if Distinct(ids) {
        assert ids[0] !in ids[1..];
      }
    }
  }

  lemma WithoutInv(side: Side, ids: seq<OrderId>, orders: Table, id: OrderId, d: OrderData)
    requires SideInv(side, ids, orders)
    requires id in orders && orders[id].side == side && orders[id].Live()
    requires !d.Live()
    ensures SideInv(side, Without(ids, id), orders[id := d])
  {
    hide Without, Distinct, Ordered;
    WithoutDistinct(ids, id);
    OrderedWithout(side, ids, orders, id, d);
  }

  lemma DataInv(side: Side, ids: seq<OrderId>, orders: Table, id: OrderId, d: OrderData)
    requires SideInv(side, ids, orders)
    requires id in orders && orders[id].side == side && orders[id].Live()
    requires d.side == side && d.price == orders[id].price && d.Live()
    ensures SideInv(side, ids, orders[id := d])
  {
  }

  lemma RestInv(b: Book, id: OrderId, d: OrderData)
    requires b.Inv() && id !in b.orders && d.Live() && d.Sound()
    ensures Rest(b, id, d).Inv()
  {
    InsertInv(d.side, b.Side(d.side), b.orders, id, d);
    OtherSide(Opposite(d.side), b.Side(Opposite(d.side)), b.orders, id, d);
  }

  lemma CancelInv(b: Book, id: OrderId)
    requires b.Inv() && id in b.orders && b.orders[id].Live()
    ensures var d := b.orders[id];
            b.WithSide(d.side, Without(b.Side(d.side), id)).(orders := b.orders[id := d.(status := CANCELLED)]).Inv()
  {
    var d := b.orders[id];
    WithoutInv(d.side, b.Side(d.side), b.orders, id, d.(status := CANCELLED));
    OtherSide(Opposite(d.side), b.Side(Opposite(d.side)), b.orders, id, d.(status := CANCELLED));
  }

  lemma ModifyInv(b: Book, id: OrderId, price: Price, quantity: Quantity)
    requires b.Inv() && id in b.orders && b.orders[id].Live() && b.orders[id].Accepts(price, quantity)
    ensures var d, ids := b.orders[id], b.Side(b.orders[id].side);
            b.WithSide(d.side, if price != d.price || quantity > d.quantity
                               then Insert(d.side, Without(ids, id), id, price, b.orders) else ids)
             .(orders := b.orders[id := d.(price := price, quantity := quantity)]).Inv()
  {
    hide SideInv, Insert, Without;
    var d := b.orders[id];
    var d' := d.(price := price, quantity := quantity);
    OtherSide(Opposite(d.side), b.Side(Opposite(d.side)), b.orders, id, d');
    if price != d.price || quantity > d.quantity {
      MoveInv(d.side, b.Side(d.side), b.orders, id, d');
    } else {
      DataInv(d.side, b.Side(d.side), b.orders, id, d');
    }
  }

  /** Out of its place and in again. */
  lemma MoveInv(side: Side, ids: seq<OrderId>, orders: Table, id: OrderId, d: OrderData)
    requires SideInv(side, ids, orders)
    requires id in orders && orders[id].side == side && orders[id].Live()
    requires d.side == side && d.Live()
    ensures forall x <- Without(ids, id) :: x in orders
    ensures SideInv(side, Insert(side, Without(ids, id), id, d.price, orders), orders[id := d])
  {
    var gone := orders[id].(status := CANCELLED);
    assert forall x <- ids :: x in orders;
    hide SideInv, Insert, Without;
    WithoutInv(side, ids, orders, id, gone);
    InsertInv(side, Without(ids, id), orders[id := gone], id, d);
    InsertSame(side, Without(ids, id), id, d.price, orders, orders[id := gone]);
    assert orders[id := gone][id := d] == orders[id := d];
  }

  /** Only the prices of the listed orders matter. */
  lemma {:induction false} InsertSame(side: Side, ids: seq<OrderId>, id: OrderId, price: Price, orders: Table,
                                      orders': Table)
    requires forall x <- ids :: x in orders && x in orders' && orders[x].price == orders'[x].price
    ensures Insert(side, ids, id, price, orders) == Insert(side, ids, id, price, orders')
  {
    if ids != [] {
      InsertSame(side, ids[1..], id, price, orders, orders');
    }
  }

  /** One side of a trade: the front order takes a fill. */
  lemma FillInv(side: Side, ids: seq<OrderId>, orders: Table, n: int)
    requires SideInv(side, ids, orders) && ids != []
    requires 0 <= n <= orders[ids[0]].Remaining()
    ensures SideInv(side, if n == orders[ids[0]].Remaining() then ids[1..] else ids,
                    orders[ids[0] := orders[ids[0]].Fill(n)])
  {
    var d := orders[ids[0]].Fill(n);
    if n == orders[ids[0]].Remaining() {
      WithoutHead(ids);
      WithoutInv(side, ids, orders, ids[0], d);
    } else {
      DataInv(side, ids, orders, ids[0], d);
    }
  }

  lemma FrontsKnown(b: Book)
    requires b.Inv() && Crossed(b)
    ensures var bid, ask := b.bids[0], b.asks[0];
            && bid in b.orders && b.orders[bid].side == BUY && b.orders[bid].Live() && b.orders[bid].Sound()
            && ask in b.orders && b.orders[ask].side == SELL && b.orders[ask].Live() && b.orders[ask].Sound()
  {
  }

  lemma TradeInv(b: Book)
    requires b.Inv() && Crossed(b)
    ensures Trade(b).Inv()
    ensures |Trade(b).bids| + |Trade(b).asks| < |b.bids| + |b.asks|
  {
    FrontsKnown(b);
    hide SideInv;
    var bid, ask := b.bids[0], b.asks[0];
    var n := Min(b.orders[bid].Remaining(), b.orders[ask].Remaining());
    var filledBid, filledAsk := b.orders[bid].Fill(n), b.orders[ask].Fill(n);
    var orders := b.orders[bid := filledBid];
    FillInv(BUY, b.bids, b.orders, n);
    OtherSide(SELL, b.asks, b.orders, bid, filledBid);
    FillInv(SELL, b.asks, orders, n);
    OtherSide(BUY, Trade(b).bids, orders, ask, filledAsk);
  }
}
