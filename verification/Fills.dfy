/** What a new order gets out of an uncrossed book, in closed form. */
module Fills {
  import opened Core
  import opened Sequences
  import opened Orders
  import opened PriceTimeBook
  import opened Trading

  /** What is left to fill, in total, of the listed orders that an order of `side` at `limit` crosses. */
  function Available(side: Side, limit: Price, ids: seq<OrderId>, orders: Table): int
    requires forall x <- ids :: x in orders
  {
    if ids == [] then 0
    else (if Crosses(side, limit, orders[ids[0]].price) then orders[ids[0]].Remaining() else 0)
         + Available(side, limit, ids[1..], orders)
  }

  lemma {:induction false} AvailableSame(side: Side, limit: Price, ids: seq<OrderId>, orders: Table, orders': Table)
    requires forall x <- ids :: x in orders && x in orders' && orders'[x] == orders[x]
    ensures Available(side, limit, ids, orders) == Available(side, limit, ids, orders')
  {
    if ids != [] {
      AvailableSame(side, limit, ids[1..], orders, orders');
    }
  }

  lemma {:induction false} AvailableNone(side: Side, limit: Price, ids: seq<OrderId>, orders: Table)
    requires forall x <- ids :: x in orders
    requires Apart(side, limit, ids, orders)
    ensures Available(side, limit, ids, orders) == 0
  {
    if ids != [] {
      assert ids[0] in ids;
      AvailableNone(side, limit, ids[1..], orders);
    }
  }

  lemma {:induction false} AvailableNat(side: Side, limit: Price, ids: seq<OrderId>, orders: Table)
    requires forall x <- ids :: x in orders && orders[x].Sound()
    ensures Available(side, limit, ids, orders) >= 0
  {
    if ids != [] {
      AvailableNat(side, limit, ids[1..], orders);
    }
  }

  /** How many of the listed orders, from the first on, it takes to serve `q`. */
  function Takers(side: Side, limit: Price, q: int, ids: seq<OrderId>, orders: Table): nat
    requires forall x <- ids :: x in orders
    decreases |ids|
  {
    if ids == [] || !Crosses(side, limit, orders[ids[0]].price) then 0
    else if q <= orders[ids[0]].Remaining() then 1
    else 1 + Takers(side, limit, q - orders[ids[0]].Remaining(), ids[1..], orders)
  }

  lemma TakersFirst(side: Side, limit: Price, q: int, ids: seq<OrderId>, orders: Table)
    requires (forall x <- ids :: x in orders) && ids != [] && Crosses(side, limit, orders[ids[0]].price)
    ensures var first := orders[ids[0]].Remaining();
            Takers(side, limit, q, ids, orders) ==
            if q <= first then 1 else 1 + Takers(side, limit, q - first, ids[1..], orders)
  {
  }

  lemma {:induction false} TakersSame(side: Side, limit: Price, q: int, ids: seq<OrderId>, orders: Table,
                                      orders': Table)
    requires forall x <- ids :: x in orders && x in orders' && orders'[x] == orders[x]
    ensures Takers(side, limit, q, ids, orders) == Takers(side, limit, q, ids, orders')
    decreases |ids|
  {
    if ids != [] {
      TakersSame(side, limit, q - orders[ids[0]].Remaining(), ids[1..], orders, orders');
    }
  }

  /** It is the shortest list that serves `q`, at least one if anyone crosses, and all of those who
      cross from the first on if they do not have enough. */
  lemma {:induction false} TakersServe(side: Side, limit: Price, q: int, ids: seq<OrderId>, orders: Table)
    requires forall x <- ids :: x in orders
    ensures var t := Takers(side, limit, q, ids, orders);
            && t <= |ids| && (forall i :: 0 <= i < t ==> Crosses(side, limit, orders[ids[i]].price))
            && (t < |ids| ==> !Crosses(side, limit, orders[ids[t]].price) ||
                              (t >= 1 && q <= Available(side, limit, ids[..t], orders)))
            && (t >= 2 ==> q > Available(side, limit, ids[..t - 1], orders))
    decreases |ids|
  {
    if ids != [] && Crosses(side, limit, orders[ids[0]].price) {
      var first, rest := orders[ids[0]].Remaining(), ids[1..];
      assert ids[..1] == [ids[0]] && Available(side, limit, ids[..1], orders) == first;
      if q > first {
        TakersServe(side, limit, q - first, rest, orders);
        var t := Takers(side, limit, q - first, rest, orders);
        TakeOne(side, limit, ids, t, orders);
        if t >= 1 {
          TakeOne(side, limit, ids, t - 1, orders);
        }
      }
    }
  }

  lemma TakeOne(side: Side, limit: Price, ids: seq<OrderId>, t: nat, orders: Table)
    requires (forall x <- ids :: x in orders) && t < |ids| && Crosses(side, limit, orders[ids[0]].price)
    ensures Available(side, limit, ids[..t + 1], orders) ==
            orders[ids[0]].Remaining() + Available(side, limit, ids[1..][..t], orders)
  {
    assert ids[..t + 1][1..] == ids[1..][..t];
  }

  /** `id` leads its side, and nobody behind it crosses anybody. */
  ghost predicate Leads(b: Book, side: Side, id: OrderId)
    requires b.Inv()
  {
    var own := b.Side(side);
    && own != [] && own[0] == id
    && forall x <- own[1..] :: Apart(side, b.orders[x].price, b.Side(Opposite(side)), b.orders)
  }

  function Total(b: Book, side: Side, id: OrderId): int
    requires b.Inv() && id in b.orders
  {
    Min(b.orders[id].Remaining(), Available(side, b.orders[id].price, b.Side(Opposite(side)), b.orders))
  }

  /** `id` has traded `total` against the first `n` orders of the other side, one trade each: the
      first `k` of them, all or all but one, are filled and gone, the last one has otherwise taken the
      rest, and nothing else has changed. Without a trade `id` itself is as before. */
  ghost predicate Swept(side: Side, id: OrderId, total: int, n: nat, k: nat,
                        opp: seq<OrderId>, opp': seq<OrderId>, orders: Table, orders': Table)
    requires id in orders && forall x <- opp :: x in orders
  {
    var d := orders[id];
    var rest := total - if k <= |opp| then Available(side, d.price, opp[..k], orders) else 0;
    && k <= n <= k + 1 && n <= |opp| && opp' == opp[k..] && orders'.Keys == orders.Keys
    && 0 <= total <= d.Remaining() && (n == 0 ==> total == 0)
    && orders'[id] == (if n == 0 then d else d.Fill(total))
    && (forall i :: 0 <= i < k ==>
          orders'[opp[i]] == orders[opp[i]].(filled := orders[opp[i]].quantity, status := FULLY_FILLED))
    && (if n == k then rest == 0 else TookRest(orders[opp[k]], orders'[opp[k]], rest))
    && Untouched(id, opp[..n], orders, orders')
  }

  /** Everyone but `id` and those listed is as before. */
  ghost predicate Untouched(id: OrderId, ids: seq<OrderId>, orders: Table, orders': Table)
    requires orders'.Keys == orders.Keys
  {
    forall x <- orders :: x != id && x !in ids ==> orders'[x] == orders[x]
  }

  ghost predicate TookRest(before: OrderData, after: OrderData, rest: int) {
    && 0 <= rest < before.quantity - before.filled
    && after == before.(filled := before.filled + rest, status := PARTIALLY_FILLED)
  }

  /** One trade seen from one side. */
  lemma TradeFrom(b: Book, side: Side)
    requires b.Inv() && Crossed(b)
    ensures Trade(b).Inv() && Trade(b).trades == b.trades + 1
    ensures var own, opp := b.Side(side), b.Side(Opposite(side));
            && own != [] && opp != [] && own[0] != opp[0]
            && Crosses(side, b.orders[own[0]].price, b.orders[opp[0]].price)
            && 0 <= b.orders[own[0]].Remaining() && 0 <= b.orders[opp[0]].Remaining()
            && var n := Min(b.orders[own[0]].Remaining(), b.orders[opp[0]].Remaining());
               && Trade(b).Side(side) == (if b.orders[own[0]].Remaining() == n then own[1..] else own)
               && Trade(b).Side(Opposite(side)) == (if b.orders[opp[0]].Remaining() == n then opp[1..] else opp)
               && Trade(b).orders == b.orders[own[0] := b.orders[own[0]].Fill(n)][opp[0] := b.orders[opp[0]].Fill(n)]
  {
    TradeInv(b);
    var bid, ask := b.bids[0], b.asks[0];
    var n := Min(b.orders[bid].Remaining(), b.orders[ask].Remaining());
    assert b.orders[bid := b.orders[bid].Fill(n)][ask := b.orders[ask].Fill(n)] ==
           b.orders[ask := b.orders[ask].Fill(n)][bid := b.orders[bid].Fill(n)];
  }

  /** Nothing is left to trade once the leading order is filled. */
  lemma RestUncrossed(b: Book, side: Side, id: OrderId)
    requires b.Inv() && Crossed(b) && Leads(b, side, id)
    requires b.orders[id].Remaining() <= b.orders[b.Side(Opposite(side))[0]].Remaining()
    ensures Trade(b).Inv() && !Crossed(Trade(b))
  {
    hide Trade, Match, SideInv;
    TradeFrom(b, side);
    OppositeKnown(b, side, id);
    var t, own, opp := Trade(b), b.Side(side), b.Side(Opposite(side));
    forall x <- own[1..], y <- opp ensures !Crosses(side, t.orders[x].price, t.orders[y].price) {
      assert Apart(side, b.orders[x].price, opp, b.orders);
    }
    assert t.Side(side) == own[1..];
    assert forall y <- t.Side(Opposite(side)) :: y in opp;
  }

  /** How many orders of the other side a leading order needs. */
  function Needed(b: Book, side: Side, id: OrderId): nat
    requires b.Inv() && id in b.orders
  {
    Takers(side, b.orders[id].price, b.orders[id].Remaining(), b.Side(Opposite(side)), b.orders)
  }

  /** One for the first trade, and those that the rest of it needs then. */
  lemma NeededFirst(b: Book, side: Side, id: OrderId)
    requires b.Inv() && Crossed(b) && Leads(b, side, id) && id in b.orders && b.Side(Opposite(side)) != []
    ensures Trade(b).Inv() && id in Trade(b).orders && Trade(b).trades == b.trades + 1
    ensures var first := b.orders[b.Side(Opposite(side))[0]].Remaining();
            Needed(b, side, id) == if b.orders[id].Remaining() <= first then 1 else 1 + Needed(Trade(b), side, id)
  {
    hide SideInv, Match, Leads, Trade, Takers, Crossed;
    TradeFrom(b, side);
    OppositeKnown(b, side, id);
    TakersFirst(side, b.orders[id].price, b.orders[id].Remaining(), b.Side(Opposite(side)), b.orders);
    var opp, t := b.Side(Opposite(side)), Trade(b);
    if b.orders[id].Remaining() > b.orders[opp[0]].Remaining() {
      assert forall x <- opp[1..] :: x in opp && x != opp[0];
      TakersSame(side, b.orders[id].price, b.orders[id].Remaining() - b.orders[opp[0]].Remaining(), opp[1..],
                 b.orders, t.orders);
    }
  }

  /** The fill of a leading order, by following the trades. */
  lemma {:induction false} Sweep(b: Book, side: Side, id: OrderId) returns (k: nat)
    requires b.Inv() && Leads(b, side, id) && id in b.orders && b.orders[id].side == side && b.orders[id].Live()
    ensures Swept(side, id, Total(b, side, id), Needed(b, side, id), k, b.Side(Opposite(side)),
                  Match(b).Side(Opposite(side)), b.orders, Match(b).orders)
    ensures Match(b).Side(side) == if Match(b).orders[id].Live() then b.Side(side) else b.Side(side)[1..]
    decreases |b.bids| + |b.asks|
  {
    hide Trade, Match, SideInv, Swept, Leads, Needed, Total;
    OppositeKnown(b, side, id);
    if !Crossed(b) {
      NothingToSweep(b, side, id);
      MatchUncrossed(b);
      return 0;
    }
    var opp, t := b.Side(Opposite(side)), Trade(b);
    TradeFrom(b, side);
    MatchOnce(b);
    NeededFirst(b, side, id);
    if b.orders[id].Remaining() <= b.orders[opp[0]].Remaining() {
      RestUncrossed(b, side, id);
      MatchUncrossed(t);
      k := LastTrade(b, side, id);
    } else {
      LeadsStill(b, side, id);
      FrontFacts(b, side, id);
      var j := Sweep(t, side, id);
      SweptOneMore(side, id, Total(t, side, id), Needed(t, side, id), j, opp, Match(t).Side(Opposite(side)), b.orders,
                   t.orders, Match(t).orders);
      k := j + 1;
    }
  }

  lemma FrontFacts(b: Book, side: Side, id: OrderId)
    requires b.Inv() && Crossed(b) && Leads(b, side, id) && id in b.orders && b.Side(Opposite(side)) != []
    ensures var opp := b.Side(Opposite(side));
            && (forall x <- opp :: x in b.orders && 0 <= b.orders[x].Remaining())
            && Crosses(side, b.orders[id].price, b.orders[opp[0]].price)
  {
    TradeFrom(b, side);
    OppositeKnown(b, side, id);
  }

  lemma MatchOnce(b: Book)
    requires b.Inv() && Crossed(b)
    ensures Trade(b).Inv() && Match(b) == Match(Trade(b))
    ensures |Trade(b).bids| + |Trade(b).asks| < |b.bids| + |b.asks|
  {
    TradeInv(b);
  }

  /** It makes as many trades as it needs orders. */
  lemma {:induction false} SweepTrades(b: Book, side: Side, id: OrderId)
    requires b.Inv() && Leads(b, side, id) && id in b.orders && b.orders[id].side == side && b.orders[id].Live()
    ensures Match(b).trades == b.trades + Needed(b, side, id)
    decreases |b.bids| + |b.asks|
  {
    hide Trade, SideInv, Leads;
    OppositeKnown(b, side, id);
    if !Crossed(b) {
      NothingToSweep(b, side, id);
    } else {
      hide Needed;
      TradeFrom(b, side);
      NeededFirst(b, side, id);
      if b.orders[id].Remaining() <= b.orders[b.Side(Opposite(side))[0]].Remaining() {
        RestUncrossed(b, side, id);
      } else {
        TradeInv(b);
        LeadsStill(b, side, id);
        SweepTrades(Trade(b), side, id);
      }
    }
  }

  lemma NothingToSweep(b: Book, side: Side, id: OrderId)
    requires b.Inv() && !Crossed(b) && Leads(b, side, id) && id in b.orders
    ensures var opp := b.Side(Opposite(side));
            Swept(side, id, Total(b, side, id), 0, 0, opp, opp, b.orders, b.orders)
    ensures Needed(b, side, id) == 0
  {
    UncrossedApart(b, side);
    assert id in b.Side(side);
    AvailableNone(side, b.orders[id].price, b.Side(Opposite(side)), b.orders);
  }

  lemma OppositeKnown(b: Book, side: Side, id: OrderId)
    requires b.Inv() && Leads(b, side, id)
    ensures b.Side(side) != [] && b.Side(side)[0] == id && id in b.orders && Distinct(b.Side(Opposite(side)))
    ensures forall x <- b.Side(Opposite(side)) :: x in b.orders && x != id && b.orders[x].Sound()
    ensures (forall x <- b.bids :: x in b.orders) && (forall x <- b.asks :: x in b.orders)
  {
    assert id in b.Side(side);
  }

  /** The incoming order is used up by the first resting one. */
  lemma LastTrade(b: Book, side: Side, id: OrderId) returns (k: nat)
    requires b.Inv() && Crossed(b) && Leads(b, side, id) && id in b.orders
    requires b.Side(Opposite(side)) != []
    requires b.orders[id].Remaining() <= b.orders[b.Side(Opposite(side))[0]].Remaining()
    requires Trade(b).Inv()
    ensures Swept(side, id, Total(b, side, id), 1, k, b.Side(Opposite(side)), Trade(b).Side(Opposite(side)), b.orders,
                  Trade(b).orders)
    ensures !Trade(b).orders[id].Live() && Trade(b).Side(side) == b.Side(side)[1..]
  {
    hide Trade, SideInv, Match, Leads, Crossed, Swept, Total;
    TradeFrom(b, side);
    OppositeKnown(b, side, id);
    TotalLast(b, side, id);
    k := if b.orders[id].Remaining() == b.orders[b.Side(Opposite(side))[0]].Remaining() then 1 else 0;
    SweptLast(side, id, k, b.Side(Opposite(side)), b.orders, Trade(b).orders);
  }

  lemma TotalLast(b: Book, side: Side, id: OrderId)
    requires b.Inv() && Crossed(b) && Leads(b, side, id) && id in b.orders && b.Side(Opposite(side)) != []
    requires b.orders[id].Remaining() <= b.orders[b.Side(Opposite(side))[0]].Remaining()
    ensures Total(b, side, id) == b.orders[id].Remaining()
  {
    TradeFrom(b, side);
    OppositeKnown(b, side, id);
    AvailableNat(side, b.orders[id].price, b.Side(Opposite(side))[1..], b.orders);
  }

  /** One trade in which the incoming order is used up. */
  lemma SweptLast(side: Side, id: OrderId, k: nat, opp: seq<OrderId>, orders: Table, orders': Table)
    requires opp != [] && Distinct(opp) && id in orders
    requires forall x <- opp :: x in orders && x != id && 0 <= orders[x].Remaining()
    requires Crosses(side, orders[id].price, orders[opp[0]].price)
    requires var n := orders[id].Remaining();
             && 0 <= n <= orders[opp[0]].Remaining() && k == (if n == orders[opp[0]].Remaining() then 1 else 0)
             && orders' == orders[id := orders[id].Fill(n)][opp[0] := orders[opp[0]].Fill(n)]
    ensures Swept(side, id, orders[id].Remaining(), 1, k, opp, opp[k..], orders, orders')
  {
    assert opp[..0] == [] && opp[0..] == opp;
    assert opp[..1] == [opp[0]] && Available(side, orders[id].price, opp[..1], orders) == orders[opp[0]].Remaining();
  }

  /** The first resting order is used up, and the incoming one still leads. */
  lemma LeadsStill(b: Book, side: Side, id: OrderId)
    requires b.Inv() && Crossed(b) && Leads(b, side, id) && id in b.orders && b.orders[id].Live()
    requires b.Side(Opposite(side)) != []
    requires b.orders[id].Remaining() > b.orders[b.Side(Opposite(side))[0]].Remaining()
    ensures Trade(b).Inv() && Leads(Trade(b), side, id)
    ensures Trade(b).orders[id].Live() && Trade(b).Side(side) == b.Side(side)
    ensures Total(b, side, id) == Total(Trade(b), side, id) + b.orders[b.Side(Opposite(side))[0]].Remaining()
  {
    TradeFrom(b, side);
    var own, opp, t := b.Side(side), b.Side(Opposite(side)), Trade(b);
    AvailableSame(side, b.orders[id].price, opp[1..], b.orders, t.orders);
    forall x <- own[1..] ensures Apart(side, t.orders[x].price, opp[1..], t.orders) {
      assert Apart(side, b.orders[x].price, opp, b.orders);
    }
  }

  /** Sweeping the rest after the first trade is sweeping one more. */
  lemma SweptOneMore(side: Side, id: OrderId, total: int, n: nat, j: nat, opp: seq<OrderId>, opp': seq<OrderId>,
                     orders: Table, orders1: Table, orders': Table)
    requires opp != [] && Distinct(opp) && id in orders && forall x <- opp :: x in orders && x != id
    requires forall x <- opp :: 0 <= orders[x].Remaining()
    requires orders[opp[0]].Remaining() <= orders[id].Remaining()
    requires Crosses(side, orders[id].price, orders[opp[0]].price)
    requires var n := orders[opp[0]].Remaining();
             orders1 == orders[id := orders[id].Fill(n)][opp[0] := orders[opp[0]].Fill(n)]
    requires Swept(side, id, total, n, j, opp[1..], opp', orders1, orders')
    ensures Swept(side, id, total + orders[opp[0]].Remaining(), n + 1, j + 1, opp, opp', orders, orders')
  {
    hide Available, Crosses, Untouched, Distinct;
    var rest := opp[1..];
    HeadApart(opp);
    assert rest[j..] == opp[j + 1..];
    assert opp[..n + 1] == [opp[0]] + rest[..n];
    assert opp[0] !in rest[..n];
    UntouchedOneMore(id, opp[0], rest[..n], orders, orders1, orders');
    AvailableOneMore(side, orders[id].price, opp, j, orders, orders1);
  }

  lemma HeadApart(opp: seq<OrderId>)
    requires opp != [] && Distinct(opp)
    ensures opp[0] !in opp[1..]
  {
  }

  lemma AvailableOneMore(side: Side, limit: Price, opp: seq<OrderId>, j: nat, orders: Table, orders1: Table)
    requires j < |opp| && opp[0] !in opp[1..] && (forall x <- opp :: x in orders && x in orders1)
    requires forall x <- opp :: x != opp[0] ==> orders1[x] == orders[x]
    requires Crosses(side, limit, orders[opp[0]].price)
    ensures Available(side, limit, opp[..j + 1], orders) ==
            orders[opp[0]].Remaining() + Available(side, limit, opp[1..][..j], orders1)
  {
    var rest := opp[1..][..j];
    assert opp[..j + 1] == [opp[0]] + rest;
    AvailableSame(side, limit, rest, orders, orders1);
  }

  lemma UntouchedOneMore(id: OrderId, x: OrderId, ids: seq<OrderId>, orders: Table, orders1: Table, orders': Table)
    requires orders'.Keys == orders1.Keys == orders.Keys && Untouched(id, ids, orders1, orders')
    requires forall y <- orders :: y != id && y != x ==> orders1[y] == orders[y]
    ensures Untouched(id, [x] + ids, orders, orders')
    ensures x in orders && x != id && x !in ids ==> orders'[x] == orders1[x]
  {
  }

  /** Adding an order of quantity q to an uncrossed book fills it by exactly the smaller of q and
      what is available across from it. The orders that give it are a prefix of the other side in
      price-time order, one trade for each of them, all but the last of them are filled, and the new
      order keeps resting, in its place, exactly when it is not filled itself. */
  lemma AddFill(b: Book, id: OrderId, client: ClientOrder) returns (k: nat)
    requires b.Inv() && !Crossed(b) && id !in b.orders
    ensures var r, side := Add(b, id, client), client.side;
            var opp := b.Side(Opposite(side));
            var total := Min(client.quantity, Available(side, client.price, opp, b.orders));
            && r.trades - b.trades == Takers(side, client.price, client.quantity, opp, b.orders)
            && Swept(side, id, total, r.trades - b.trades, k, opp, r.Side(Opposite(side)),
                     b.orders[id := Resting(client)], r.orders)
            && r.orders[id] ==
               OrderData(side, client.price, client.quantity, total,
                         if r.trades == b.trades then NEW
                         else if total == client.quantity then FULLY_FILLED else PARTIALLY_FILLED)
            && r.Side(side) == (if r.orders[id].Live() then Insert(side, b.Side(side), id, client.price, b.orders)
                                else b.Side(side))
  {
    k := AddSwept(b, id, client);
    hide Match, Trade, Swept, Insert, Add, Available, Takers, Book.Inv, Crossed;
    var side, opp := client.side, b.Side(Opposite(client.side));
    SweptNew(id, client, Min(client.quantity, Available(side, client.price, opp, b.orders)),
             Add(b, id, client).trades - b.trades, k, opp, Add(b, id, client).Side(Opposite(side)), b.orders,
             Add(b, id, client).orders);
  }

  /** What becomes of the new order itself. */
  lemma SweptNew(id: OrderId, client: ClientOrder, total: int, n: nat, k: nat, opp: seq<OrderId>, opp': seq<OrderId>,
                 orders: Table, orders': Table)
    requires forall x <- opp :: x in orders
    requires Swept(client.side, id, total, n, k, opp, opp', orders[id := Resting(client)], orders')
    ensures id in orders' && 0 <= total <= client.quantity
    ensures orders'[id] ==
            OrderData(client.side, client.price, client.quantity, total,
                      if n == 0 then NEW else if total == client.quantity then FULLY_FILLED else PARTIALLY_FILLED)
  {
  }

  lemma AddSwept(b: Book, id: OrderId, client: ClientOrder) returns (k: nat)
    requires b.Inv() && !Crossed(b) && id !in b.orders
    ensures var r, side := Add(b, id, client), client.side;
            var opp := b.Side(Opposite(side));
            var total := Min(client.quantity, Available(side, client.price, opp, b.orders));
            && r.trades - b.trades == Takers(side, client.price, client.quantity, opp, b.orders)
            && Swept(side, id, total, r.trades - b.trades, k, opp, r.Side(Opposite(side)),
                     b.orders[id := Resting(client)], r.orders)
            && r.Side(side) == (if r.orders[id].Live() then Insert(side, b.Side(side), id, client.price, b.orders)
                                else b.Side(side))
  {
    hide Match, Trade, Swept, Insert, OrderData.Fill, Available, Takers;
    RestInv(b, id, Resting(client));
    RestKnown(b, id, Resting(client));
    if Crossed(Rest(b, id, Resting(client))) {
      k := AddTrades(b, id, client);
    } else {
      k := 0;
      AddRests(b, id, client);
      AvailableNat(client.side, client.price, b.Side(Opposite(client.side)), b.orders);
    }
  }

  lemma AddTrades(b: Book, id: OrderId, client: ClientOrder) returns (k: nat)
    requires b.Inv() && !Crossed(b) && id !in b.orders
    requires Rest(b, id, Resting(client)).Inv() && Crossed(Rest(b, id, Resting(client)))
    ensures var r, side := Add(b, id, client), client.side;
            var opp := b.Side(Opposite(side));
            var total := Min(client.quantity, Available(side, client.price, opp, b.orders));
            && r.trades - b.trades == Takers(side, client.price, client.quantity, opp, b.orders)
            && Swept(side, id, total, r.trades - b.trades, k, opp, r.Side(Opposite(side)),
                     b.orders[id := Resting(client)], r.orders)
            && r.Side(side) == (if r.orders[id].Live() then Insert(side, b.Side(side), id, client.price, b.orders)
                                else b.Side(side))
  {
    hide Match, Trade, SideInv, Swept, Insert, Leads;
    var side, d, opp := client.side, Resting(client), b.Side(Opposite(client.side));
    var r := Rest(b, id, d);
    RestKnown(b, id, d);
    AvailableSame(side, client.price, opp, b.orders, r.orders);
    var at := InsertAt(side, b.Side(side), id, client.price, b.orders);
    NewLeads(b, id, client, at);
    k := Sweep(r, side, id);
    SweepTrades(r, side, id);
    TakersSame(side, client.price, client.quantity, opp, b.orders, r.orders);
  }

  lemma AddRests(b: Book, id: OrderId, client: ClientOrder)
    requires b.Inv() && id !in b.orders
    requires Rest(b, id, Resting(client)).Inv() && !Crossed(Rest(b, id, Resting(client)))
    ensures var r, side := Rest(b, id, Resting(client)), client.side;
            var opp := b.Side(Opposite(side));
            && Add(b, id, client) == r && Available(side, client.price, opp, b.orders) == 0
            && Takers(side, client.price, client.quantity, opp, b.orders) == 0
            && Swept(side, id, 0, 0, 0, opp, opp, r.orders, r.orders)
  {
    var side, opp := client.side, b.Side(Opposite(client.side));
    var r := Rest(b, id, Resting(client));
    MatchUncrossed(r);
    NewApart(b, id, client);
    RestKnown(b, id, Resting(client));
    AvailableSame(side, client.price, opp, b.orders, r.orders);
    NothingSwept(side, id, opp, r.orders);
  }

  lemma RestKnown(b: Book, id: OrderId, d: OrderData)
    requires b.Inv() && id !in b.orders
    ensures forall x <- b.bids + b.asks :: x in b.orders && x != id
    ensures var r := Rest(b, id, d);
            && r.Side(d.side) == Insert(d.side, b.Side(d.side), id, d.price, b.orders)
            && r.Side(Opposite(d.side)) == b.Side(Opposite(d.side))
            && r.orders == b.orders[id := d]
  {
  }

  lemma MatchUncrossed(b: Book)
    requires b.Inv() && !Crossed(b)
    ensures Match(b) == b
  {
  }

  lemma NothingSwept(side: Side, id: OrderId, opp: seq<OrderId>, orders: Table)
    requires id in orders && 0 <= orders[id].Remaining() && forall x <- opp :: x in orders && orders[x].Sound()
    requires Apart(side, orders[id].price, opp, orders)
    ensures Available(side, orders[id].price, opp, orders) == 0
    ensures Swept(side, id, 0, 0, 0, opp, opp, orders, orders)
  {
    AvailableNone(side, orders[id].price, opp, orders);
  }

  /** A resting order that does not make the book cross crosses nobody. */
  lemma NewApart(b: Book, id: OrderId, client: ClientOrder)
    requires b.Inv() && id !in b.orders
    requires Rest(b, id, Resting(client)).Inv() && !Crossed(Rest(b, id, Resting(client)))
    ensures Apart(client.side, client.price, b.Side(Opposite(client.side)), b.orders)
  {
    var r := Rest(b, id, Resting(client));
    UncrossedApart(r, client.side);
    InsertMembers(client.side, b.Side(client.side), id, client.price, b.orders);
    assert id in r.Side(client.side);
    forall x <- b.Side(Opposite(client.side)) ensures !Crosses(client.side, client.price, b.orders[x].price) {
      assert Apart(client.side, r.orders[id].price, r.Side(Opposite(client.side)), r.orders);
    }
  }

  lemma FirstOf(ids: seq<OrderId>, at: nat, id: OrderId)
    requires at <= |ids|
    ensures var ids' := ids[..at] + [id] + ids[at..];
            ids' != [] && if at == 0 then ids'[0] == id && ids' == [id] + ids else ids != [] && ids'[0] == ids[0]
  {
  }

  /** A resting order that makes an uncrossed book cross has a price of its own and comes first. */
  lemma NewLeads(b: Book, id: OrderId, client: ClientOrder, at: nat)
    requires b.Inv() && !Crossed(b) && id !in b.orders
    requires Rest(b, id, Resting(client)).Inv() && Crossed(Rest(b, id, Resting(client)))
    requires at <= |b.Side(client.side)|
    requires Insert(client.side, b.Side(client.side), id, client.price, b.orders)
             == b.Side(client.side)[..at] + [id] + b.Side(client.side)[at..]
    ensures at == 0 && !PriceTaken(b, client.side, client.price)
    ensures Rest(b, id, Resting(client)).Side(client.side) == [id] + b.Side(client.side)
    ensures Leads(Rest(b, id, Resting(client)), client.side, id)
  {
    var side, r := client.side, Rest(b, id, Resting(client));
    var own, opp := b.Side(side), b.Side(Opposite(side));
    UncrossedApart(b, side);
    if PriceTaken(b, side, client.price) {
      RestAtTaken(b, id, Resting(client));
    }
    assert own != [] ==> own[0] in own && Apart(side, b.orders[own[0]].price, opp, b.orders);
    FirstOf(own, at, id);
    assert r.Side(side)[1..] == own;
    forall x <- own ensures Apart(side, r.orders[x].price, opp, r.orders) {
      assert Apart(side, b.orders[x].price, opp, b.orders);
    }
  }

  /** Matching changes how much of an order is filled, upwards, and its status; never its terms. */
  lemma {:induction false} MatchTerms(b: Book)
    requires b.Inv()
    ensures Match(b).orders.Keys == b.orders.Keys
    ensures forall x <- b.orders :: SameTerms(b.orders[x], Match(b).orders[x])
    decreases |b.bids| + |b.asks|
  {
    if Crossed(b) {
      hide SideInv, Match, Trade;
      MatchOnce(b);
      TradeTerms(b);
      MatchTerms(Trade(b));
    } else {
      MatchUncrossed(b);
    }
  }

  ghost predicate SameTerms(before: OrderData, after: OrderData) {
    && after.side == before.side && after.price == before.price && after.quantity == before.quantity
    && before.filled <= after.filled
  }

  lemma TradeTerms(b: Book)
    requires b.Inv() && Crossed(b)
    ensures Trade(b).orders.Keys == b.orders.Keys
    ensures forall x <- b.orders :: SameTerms(b.orders[x], Trade(b).orders[x])
  {
    FrontsKnown(b);
    hide SideInv;
  }

  /** On any book, also a crossed one, a new order is registered on the client's terms, and nobody
      else's are touched. */
  lemma AddTerms(b: Book, id: OrderId, client: ClientOrder)
    requires b.Inv() && id !in b.orders
    ensures var r := Add(b, id, client);
            && r.orders.Keys == b.orders.Keys + {id}
            && r.orders[id].side == client.side && r.orders[id].price == client.price
            && r.orders[id].quantity == client.quantity
            && forall x <- b.orders :: SameTerms(b.orders[x], r.orders[x])
  {
    hide SideInv, Match, Insert;
    RestInv(b, id, Resting(client));
    MatchTerms(Rest(b, id, Resting(client)));
  }
}
