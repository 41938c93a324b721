/** Which levels have a head that is not where it should be. The marks follow from the commands and
    from the queues alone; anyone who knows the queues can keep them beside the book and tell
    beforehand which command will meet a haunted level. */
module HeadMarks {
  import opened Core
  import opened Orders
  import opened LevelRep
  import LB = LevelBook

  /** The prices of one side whose head rests on a tombstone, and those whose head rests on the entry
      of an order that has left the level. */
  datatype SideMarks = SideMarks(stale: set<Price>, haunted: set<Price>)
  {
    function At(p: Price): HeadState {
      if p in haunted then Haunted else if p in stale then Stale else Current
    }

    /** A level that is gone counts as current. */
    function Set(p: Price, state: HeadState): SideMarks {
      SideMarks(if state == Stale then stale + {p} else stale - {p},
                if state == Haunted then haunted + {p} else haunted - {p})
    }

    /** `id` is taken out of the level at `p`, which prunes it or makes the head search anew. */
    function Left(p: Price, queue: seq<OrderId>, id: OrderId): SideMarks {
      Set(p, if queue != [id] && At(p) == Haunted then Haunted else Current)
    }

    /** `id` leaves and comes straight back, without the level being pruned in between. */
    function Requeued(p: Price, queue: seq<OrderId>, id: OrderId): SideMarks {
      Set(p, if At(p) == Haunted then Haunted else if queue == [id] then Stale else Current)
    }

    /** The filled front is popped. On a stale level its entry stays behind. */
    function Popped(p: Price, queue: seq<OrderId>): SideMarks {
      Set(p, if |queue| == 1 || At(p) == Current then Current else Haunted)
    }
  }

  datatype Marks = Marks(bids: SideMarks, asks: SideMarks)
  {
    function Side(side: Side): SideMarks {
      if side == BUY then bids else asks
    }

    function WithSide(side: Side, marks: SideMarks): Marks {
      if side == BUY then this.(bids := marks) else this.(asks := marks)
    }

    predicate Clean() {
      this == NONE
    }
  }

  const UNMARKED: SideMarks := SideMarks({}, {})
  const NONE: Marks := Marks(UNMARKED, UNMARKED)

  /** The next round of the matching loop finds a haunted level on either side. */
  predicate MeetsGhost(b: LB.Book, m: Marks) {
    && LB.Crossed(b)
    && (LB.Best(BUY, b.bids.Keys) in m.bids.haunted || LB.Best(SELL, b.asks.Keys) in m.asks.haunted)
  }

  function Traded(b: LB.Book, m: Marks): Marks
    requires b.Inv() && LB.Crossed(b)
  {
    var p, q, n := LB.Best(BUY, b.bids.Keys), LB.Best(SELL, b.asks.Keys), LB.TradeSize(b);
    Marks(if n == b.orders[LB.FrontId(b, BUY)].Remaining() then m.bids.Popped(p, b.bids[p]) else m.bids,
          if n == b.orders[LB.FrontId(b, SELL)].Remaining() then m.asks.Popped(q, b.asks[q]) else m.asks)
  }

  /** The marks after the matching loop, unless it meets a haunted level. */
  function Match(b: LB.Book, m: Marks): Outcome<Marks>
    requires b.Inv()
    decreases b.LiveIds()
  {
    if !LB.Crossed(b) then Defined(m)
    else if MeetsGhost(b, m) then Undefined
    else Match(LB.Trade(b), Traded(b, m))
  }

  /** An order that joins a level leaves its head alone; one that opens a level starts the loop. */
  function Add(b: LB.Book, m: Marks, id: OrderId, client: ClientOrder): Outcome<Marks>
    requires b.Inv() && id !in b.orders
  {
    LB.RestInv(b, id, Resting(client));
    if client.price in b.Levels(client.side) then Defined(m) else Match(LB.Rest(b, id, Resting(client)), m)
  }

  function Cancel(b: LB.Book, m: Marks, id: OrderId): Marks
    requires b.Inv()
  {
    if id !in b.orders || !b.orders[id].Live() then m
    else
      var d := b.orders[id];
      LB.RestsOnce(b, id);
      m.WithSide(d.side, m.Side(d.side).Left(d.price, b.Levels(d.side)[d.price], id))
  }

  function Modify(b: LB.Book, m: Marks, id: OrderId, price: Price, quantity: Quantity): Marks
    requires b.Inv()
  {
    if id !in b.orders || !b.orders[id].Live() || !b.orders[id].Accepts(price, quantity) then m
    else
      var d := b.orders[id];
      LB.RestsOnce(b, id);
      var queue, marks := b.Levels(d.side)[d.price], m.Side(d.side);
      m.WithSide(d.side, if price != d.price then marks.Left(d.price, queue, id)
                         else if quantity > d.quantity then marks.Requeued(d.price, queue, id)
                         else marks)
  }

  // ---- books without marks ----

  /** Only growing an order that is alone in its level marks a clean book. */
  lemma CleanModify(b: LB.Book, m: Marks, id: OrderId, price: Price, quantity: Quantity)
    requires b.Inv() && m.Clean()
    ensures Modify(b, m, id, price, quantity).Clean() <==> !LB.GrowsSoleOrder(b, id, price, quantity)
  {
    if id in b.orders && b.orders[id].Live() {
      LB.RestsOnce(b, id);
    }
  }

  lemma {:induction false} CleanMatch(b: LB.Book, m: Marks)
    requires b.Inv() && m.Clean()
    ensures Match(b, m) == Defined(m)
    decreases b.LiveIds()
  {
    if LB.Crossed(b) {
      assert forall p :: UNMARKED.Set(p, Current) == UNMARKED;
      assert Traded(b, m) == m;
      CleanMatch(LB.Trade(b), m);
    }
  }

  lemma CleanAdd(b: LB.Book, m: Marks, id: OrderId, client: ClientOrder)
    requires b.Inv() && id !in b.orders && m.Clean()
    ensures Add(b, m, id, client) == Defined(m)
  {
    LB.RestInv(b, id, Resting(client));
    if client.price !in b.Levels(client.side) {
      CleanMatch(LB.Rest(b, id, Resting(client)), m);
    }
  }

  lemma CleanCancel(b: LB.Book, m: Marks, id: OrderId)
    requires b.Inv() && m.Clean()
    ensures Cancel(b, m, id) == m
  {
  }
}
