/** The book as the source stores it, as a value: two maps of price levels with their entries, heads
    and indices, the order table, the trade counter and the flag (include/orderbook.h:46-257). The
    operations follow the source step by step on every book that can come about; where it erases
    what a map does not hold, the outcome is `Undefined`. The lemmas say that this is the only way
    to depart from `LevelBook`, and when it happens. */
module EntryBook {
  import opened Core
  import opened Sequences
  import opened Orders
  import opened LevelRep
  import HeadMarks
  import LB = LevelBook

  type Levels = map<Price, Rep>

  datatype Book = Book(bids: Levels, asks: Levels, orders: map<OrderId, OrderData>, trades: nat, flag: bool)
  {
    function Levels(side: Side): Levels {
      if side == BUY then bids else asks
    }

    function WithLevels(side: Side, levels: Levels): Book {
      if side == BUY then this.(bids := levels) else this.(asks := levels)
    }

    /** What the levels stand for. */
    ghost function Queues(): LB.Book {
      LB.Book(QueuesOf(bids), QueuesOf(asks), orders, trades, flag)
    }

    ghost function Marks(): HeadMarks.Marks {
      HeadMarks.Marks(MarksOf(bids), MarksOf(asks))
    }

    ghost predicate Inv() {
      Queues().Inv() && LevelsInv(BUY, bids, orders) && LevelsInv(SELL, asks, orders)
    }
  }

  const EMPTY: Book := Book(map[], map[], map[], 0, false)

  ghost function QueuesOf(levels: Levels): LB.Levels {
    map p | p in levels :: levels[p].Queue()
  }

  ghost function MarksOf(levels: Levels): HeadMarks.SideMarks {
    HeadMarks.SideMarks(set p | p in levels && levels[p].State() == Stale,
                        set p | p in levels && levels[p].State() == Haunted)
  }

  /** Every level is sound, and what haunts one is a filled order of its side. */
  ghost predicate LevelsInv(side: Side, levels: Levels, orders: map<OrderId, OrderData>) {
    forall p <- levels :: LevelInv(side, levels[p], orders)
  }

  ghost predicate LevelInv(side: Side, r: Rep, orders: map<OrderId, OrderData>) {
    r.Sound() && (r.State() == Haunted ==> DeadOf(side, r.Ghost(), orders))
  }

  ghost predicate DeadOf(side: Side, id: OrderId, orders: map<OrderId, OrderData>) {
    id in orders && orders[id].side == side && orders[id].status == FULLY_FILLED
  }

  // ---- the operations ----

  /** An order joins the level of its price, which is created if need be. */
  function Join(levels: Levels, p: Price, id: OrderId): Levels {
    levels[p := LevelRep.Add(if p in levels then levels[p] else FRESH, id)]
  }

  function Leave(levels: Levels, p: Price, id: OrderId): Levels
    requires p in levels && levels[p].Indexed()
  {
    levels[p := Remove(levels[p], id)]
  }

  /** `remove_price_level_if_empty`. */
  function Prune(levels: Levels, p: Price): Levels
    requires p in levels
  {
    if levels[p].Empty() then levels - {p} else levels
  }

  function Rest(b: Book, id: OrderId, data: OrderData): Book {
    b.WithLevels(data.side, Join(b.Levels(data.side), data.price, id))
     .(orders := b.orders[id := data], flag := data.price !in b.Levels(data.side))
  }

  function Add(b: Book, id: OrderId, client: ClientOrder): (r: Outcome<Book>)
    requires b.Inv() && id !in b.orders
    ensures r.Defined? ==> r.value.Inv()
  {
    RestAgrees(b, id, Resting(client));
    TryMatch(Rest(b, id, Resting(client)))
  }

  function Cancel(b: Book, id: OrderId): (r: (Book, bool))
    requires b.Inv()
    ensures r.0.Inv()
  {
    if id !in b.orders || !b.orders[id].Live() then (b, false)
    else
      var d := b.orders[id];
      Resident(b, id);
      CancelKeeps(b, id);
      (b.WithLevels(d.side, Prune(Leave(b.Levels(d.side), d.price, id), d.price))
        .(orders := b.orders[id := d.(status := CANCELLED)]), true)
  }

  /** The old level is pruned last, so that an order that only grows leaves and joins the same one. */
  function Moved(levels: Levels, id: OrderId, d: OrderData, price: Price, quantity: Quantity): Levels
    requires d.price in levels && levels[d.price].Indexed()
  {
    var moves := price != d.price || quantity > d.quantity;
    Prune(if moves then Join(Leave(levels, d.price, id), price, id) else levels, d.price)
  }

  function Modify(b: Book, id: OrderId, price: Price, quantity: Quantity): (r: (Book, bool))
    requires b.Inv()
    ensures r.0.Inv()
  {
    if id !in b.orders || !b.orders[id].Live() || !b.orders[id].Accepts(price, quantity) then (b, false)
    else
      var d := b.orders[id];
      Resident(b, id);
      ModifyKeeps(b, id, price, quantity);
      (Modified(b, id, price, quantity), price != d.price || quantity != d.quantity)
  }

  function Modified(b: Book, id: OrderId, price: Price, quantity: Quantity): Book
    requires id in b.orders && b.orders[id].price in b.Levels(b.orders[id].side)
    requires b.Levels(b.orders[id].side)[b.orders[id].price].Indexed()
  {
    var d := b.orders[id];
    b.WithLevels(d.side, Moved(b.Levels(d.side), id, d, price, quantity))
     .(orders := b.orders[id := d.(price := price, quantity := quantity)],
       flag := if price != d.price then price !in b.Levels(d.side) else b.flag)
  }

  predicate Crossed(b: Book): (r: bool)
    ensures r <==> LB.Crossed(b.Queues())
  {
    assert b.Queues().bids.Keys == b.bids.Keys && b.Queues().asks.Keys == b.asks.Keys;
    b.bids != map[] && b.asks != map[] && LB.Best(BUY, b.bids.Keys) >= LB.Best(SELL, b.asks.Keys)
  }

  /** The order under the head of a level. */
  function FrontOf(r: Rep): OrderId
    requires r.Indexed() && !r.Empty()
  {
    FrontExists(r);
    r.entries[r.head].id
  }

  /** Both orders take the smaller of what is left of them. */
  function Matched(orders: map<OrderId, OrderData>, bid: OrderId, ask: OrderId): map<OrderId, OrderData>
    requires bid in orders && ask in orders && 0 <= orders[bid].Remaining() && 0 <= orders[ask].Remaining()
  {
    var n := Min(orders[bid].Remaining(), orders[ask].Remaining());
    orders[bid := orders[bid].Fill(n)][ask := orders[ask].Fill(n)]
  }

  /** Popping the front if it is filled, and pruning. */
  function Settled(levels: Levels, p: Price, filled: bool): Outcome<Levels>
    requires p in levels && levels[p].Indexed()
  {
    if PopDefined(levels[p], filled) then Defined(Prune(levels[p := Pop(levels[p], filled)], p)) else Undefined
  }

  /** One round of the matching loop. */
  function Round(b: Book): Outcome<Book>
    requires b.Inv() && Crossed(b)
  {
    var p, q := LB.Best(BUY, b.bids.Keys), LB.Best(SELL, b.asks.Keys);
    FrontKnown(b, BUY, p);
    FrontKnown(b, SELL, q);
    var bid, ask := FrontOf(b.bids[p]), FrontOf(b.asks[q]);
    var orders := Matched(b.orders, bid, ask);
    var bids := Settled(b.bids, p, orders[bid].status == FULLY_FILLED);
    var asks := Settled(b.asks, q, orders[ask].status == FULLY_FILLED);
    if bids.Undefined? || asks.Undefined? then Undefined
    else Defined(Book(bids.value, asks.value, orders, b.trades + 1, b.flag))
  }

  function MatchLoop(b: Book): (r: Outcome<Book>)
    requires b.Inv()
    ensures r.Defined? ==> r.value.Inv()
    decreases b.Queues().LiveIds()
  {
    if b.bids == map[] || b.asks == map[] then Defined(b)
    else if !Crossed(b) then Defined(b.(flag := false))
    else
      RoundAgrees(b);
      var r := Round(b);
      if r.Undefined? then Undefined else MatchLoop(r.value)
  }

  function TryMatch(b: Book): (r: Outcome<Book>)
    requires b.Inv()
    ensures r.Defined? ==> r.value.Inv()
  {
    if b.flag then MatchLoop(b) else Defined(b)
  }

  // ---- one side ----

  lemma LevelAt(side: Side, levels: Levels, orders: map<OrderId, OrderData>, p: Price)
    requires LevelsInv(side, levels, orders) && p in levels
    ensures LevelInv(side, levels[p], orders) && levels[p].Sound()
    ensures p in QueuesOf(levels) && QueuesOf(levels)[p] == levels[p].Queue()
    ensures MarksOf(levels).At(p) == levels[p].State()
  {
  }

  /** Filled orders are never touched again, so a new order table leaves the levels sound. */
  lemma SameDead(side: Side, levels: Levels, orders: map<OrderId, OrderData>, orders': map<OrderId, OrderData>)
    requires LevelsInv(side, levels, orders)
    requires forall id <- orders :: orders[id].status == FULLY_FILLED ==> id in orders' && orders'[id] == orders[id]
    ensures LevelsInv(side, levels, orders')
  {
    forall p <- levels ensures LevelInv(side, levels[p], orders') {
      assert LevelInv(side, levels[p], orders);
    }
  }

  /** One level is replaced. */
  lemma ReplaceKeeps(side: Side, levels: Levels, orders: map<OrderId, OrderData>, p: Price, r: Rep)
    requires LevelsInv(side, levels, orders) && LevelInv(side, r, orders)
    ensures LevelsInv(side, levels[p := r], orders)
    ensures QueuesOf(levels[p := r]) == QueuesOf(levels)[p := r.Queue()]
    ensures MarksOf(levels[p := r]) == MarksOf(levels).Set(p, r.State())
  {
    hide Rep.Sound, Rep.Queue, Rep.State, LevelInv;
  }

  lemma DropKeeps(side: Side, levels: Levels, orders: map<OrderId, OrderData>, p: Price)
    requires LevelsInv(side, levels, orders)
    ensures LevelsInv(side, levels - {p}, orders)
    ensures QueuesOf(levels - {p}) == QueuesOf(levels) - {p}
    ensures MarksOf(levels - {p}) == MarksOf(levels).Set(p, Current)
  {
    hide Rep.Sound, Rep.Queue, Rep.State, LevelInv;
  }

  lemma JoinAgrees(side: Side, levels: Levels, orders: map<OrderId, OrderData>, p: Price, id: OrderId)
    requires LevelsInv(side, levels, orders)
    requires p in levels ==> !levels[p].Empty() && id !in levels[p].index
    requires id in orders ==> orders[id].Live()
    ensures LevelsInv(side, Join(levels, p, id), orders)
    ensures QueuesOf(Join(levels, p, id)) == LB.Enqueue(QueuesOf(levels), p, id)
    ensures MarksOf(Join(levels, p, id)) == MarksOf(levels)
  {
    hide Rep.Sound, Rep.Queue, Rep.State, LiveIds;
    var r := if p in levels then levels[p] else FRESH;
    FreshSound();
    assert p in levels ==> LevelInv(side, r, orders);
    AddQueue(r, id);
    ReplaceKeeps(side, levels, orders, p, LevelRep.Add(r, id));
  }

  lemma FreshSound()
    ensures FRESH.Valid() && FRESH.Queue() == []
  {
  }

  lemma LeaveAgrees(side: Side, levels: Levels, orders: map<OrderId, OrderData>, p: Price, id: OrderId)
    requires LevelsInv(side, levels, orders) && p in levels && id in levels[p].Queue()
    ensures levels[p].Indexed()
    ensures var levels', queues := Prune(Leave(levels, p, id), p), QueuesOf(levels);
            && p in queues && LevelsInv(side, levels', orders)
            && QueuesOf(levels') == LB.Dequeue(queues, p, id)
            && MarksOf(levels') == MarksOf(levels).Left(p, queues[p], id)
  {
    LevelAt(side, levels, orders, p);
    hide Rep.Sound, Rep.Queue, Rep.State, QueuesOf, MarksOf, LevelsInv;
    var r := levels[p];
    InQueue(r, id);
    RemoveQueue(r, id);
    RemoveEmpties(r, id);
    if Remove(r, id).Empty() {
      assert Leave(levels, p, id) - {p} == levels - {p};
      DropKeeps(side, levels, orders, p);
    } else {
      ReplaceKeeps(side, levels, orders, p, Remove(r, id));
    }
  }

  /** An order that grows leaves and joins again before the level can be pruned. */
  lemma RequeueAgrees(side: Side, levels: Levels, orders: map<OrderId, OrderData>, p: Price, id: OrderId)
    requires LevelsInv(side, levels, orders) && p in levels && id in levels[p].Queue()
    ensures levels[p].Indexed()
    ensures var levels', queues := Prune(Join(Leave(levels, p, id), p, id), p), QueuesOf(levels);
            && p in queues && LevelsInv(side, levels', orders)
            && QueuesOf(levels') == LB.Enqueue(LB.Dequeue(queues, p, id), p, id)
            && MarksOf(levels') == MarksOf(levels).Requeued(p, queues[p], id)
  {
    hide Rep.Sound, Rep.Queue, Rep.State, LiveIds;
    var r := levels[p];
    assert LevelInv(side, r, orders);
    QueueIsIndex(r);
    RequeueQueue(r, id);
    var r' := LevelRep.Add(Remove(r, id), id);
    assert id in r'.index;
    ReplaceKeeps(side, levels, orders, p, r');
    assert Prune(Join(Leave(levels, p, id), p, id), p) == levels[p := r'];
  }

  lemma MovedAgrees(side: Side, levels: Levels, orders: map<OrderId, OrderData>, id: OrderId, d: OrderData,
                    price: Price, quantity: Quantity)
    requires LevelsInv(side, levels, orders) && d.price in levels && id in levels[d.price].Queue()
    requires price != d.price && price in levels ==> !levels[price].Empty() && id !in levels[price].index
    requires id in orders ==> orders[id].Live()
    ensures levels[d.price].Indexed()
    ensures var levels', queues, marks := Moved(levels, id, d, price, quantity), QueuesOf(levels), MarksOf(levels);
            && d.price in queues && LevelsInv(side, levels', orders)
            && QueuesOf(levels') == LB.Moved(queues, id, d, price, quantity)
            && MarksOf(levels') == (if price != d.price then marks.Left(d.price, queues[d.price], id)
                                    else if quantity > d.quantity then marks.Requeued(d.price, queues[d.price], id)
                                    else marks)
  {
    hide Rep.Sound, Rep.Queue, Rep.State, Rep.Empty, LiveIds, LB.Enqueue, LB.Dequeue, LevelInv;
    if price != d.price {
      LeaveAgrees(side, levels, orders, d.price, id);
      var left := Prune(Leave(levels, d.price, id), d.price);
      JoinAgrees(side, left, orders, price, id);
      assert Moved(levels, id, d, price, quantity) == Join(left, price, id);
    } else if quantity > d.quantity {
      RequeueAgrees(side, levels, orders, d.price, id);
    } else {
      NotEmpty(side, levels, orders, d.price, id);
    }
  }

  lemma NotEmpty(side: Side, levels: Levels, orders: map<OrderId, OrderData>, p: Price, id: OrderId)
    requires LevelsInv(side, levels, orders) && p in levels && id in levels[p].Queue()
    ensures levels[p].Indexed() && !levels[p].Empty() && p in QueuesOf(levels)
  {
    assert LevelInv(side, levels[p], orders);
    InQueue(levels[p], id);
    SoundIndexed(levels[p]);
  }

  /** The front is popped if it is filled. That is undefined exactly if it is filled and haunts. */
  lemma SettledAgrees(side: Side, levels: Levels, orders: map<OrderId, OrderData>, p: Price, filled: bool)
    requires LevelsInv(side, levels, orders) && p in levels && levels[p].Queue() != []
    requires filled && levels[p].State() != Haunted ==> DeadOf(side, levels[p].Queue()[0], orders)
    ensures levels[p].Indexed()
    ensures var r, queues, marks := Settled(levels, p, filled), QueuesOf(levels), MarksOf(levels);
            && p in queues && (r.Undefined? <==> filled && p in marks.haunted)
            && (r.Defined? ==>
                  && LevelsInv(side, r.value, orders)
                  && QueuesOf(r.value) == (if filled then LB.Dequeue(queues, p, queues[p][0]) else queues)
                  && MarksOf(r.value) == (if filled then marks.Popped(p, queues[p]) else marks))
  {
    hide Rep.Sound, Rep.Queue, Rep.State, LiveIds;
    var r := levels[p];
    assert LevelInv(side, r, orders);
    InQueue(r, r.Queue()[0]);
    PopQueue(r);
    if !filled {
      assert levels[p := r] == levels;
    } else if r.State() != Haunted {
      FilledAgrees(side, levels, orders, p);
    }
  }

  lemma FilledAgrees(side: Side, levels: Levels, orders: map<OrderId, OrderData>, p: Price)
    requires LevelsInv(side, levels, orders) && p in levels && !levels[p].Empty()
    requires levels[p].Sound() && levels[p].State() != Haunted
    requires levels[p].Queue() != [] && DeadOf(side, levels[p].Queue()[0], orders)
    ensures levels[p].Indexed() && PopDefined(levels[p], true)
    ensures var levels', queues := Prune(levels[p := Pop(levels[p], true)], p), QueuesOf(levels);
            && p in queues && LevelsInv(side, levels', orders)
            && QueuesOf(levels') == LB.Dequeue(queues, p, queues[p][0])
            && MarksOf(levels') == MarksOf(levels).Popped(p, queues[p])
  {
    LevelAt(side, levels, orders, p);
    hide Rep.Sound, Rep.Queue, Rep.State, QueuesOf, MarksOf, LevelsInv;
    var r := levels[p];
    PopQueue(r);
    QueueIsIndex(r);
    WithoutHead(r.Queue());
    if |r.Queue()| == 1 {
      assert levels[p := Pop(r, true)] - {p} == levels - {p};
      DropKeeps(side, levels, orders, p);
    } else {
      ReplaceKeeps(side, levels, orders, p, Pop(r, true));
    }
  }

  // ---- the book ----

  lemma LevelKnown(b: Book, side: Side, p: Price)
    requires b.Inv() && p in b.Levels(side)
    ensures var r := b.Levels(side)[p];
            && r.Sound() && r.Indexed() && !r.Empty() && r.Queue() == b.Queues().Levels(side)[p] != []
            && (r.State() == Haunted ==> DeadOf(side, r.Ghost(), b.orders))
            && (forall id :: id in r.Queue() <==> id in r.index)
  {
    var r := b.Levels(side)[p];
    assert LevelInv(side, r, b.orders);
    assert b.Queues().Levels(side)[p] != [];
    QueueIsIndex(r);
    InQueue(r, 0);
    SoundIndexed(r);
  }

  /** A live order is where its side and price say, and nowhere else. */
  lemma Resident(b: Book, id: OrderId)
    requires b.Inv() && id in b.orders && b.orders[id].Live()
    ensures var d, levels := b.orders[id], b.Levels(b.orders[id].side);
            && d.price in levels && levels[d.price].Indexed() && !levels[d.price].Empty()
            && id in levels[d.price].index && id in levels[d.price].Queue()
            && (forall q <- levels :: q != d.price ==> !levels[q].Empty() && id !in levels[q].index)
  {
    hide LB.Book.Inv, Rep.Sound, Rep.Queue, Rep.State;
    var d, levels := b.orders[id], b.Levels(b.orders[id].side);
    LB.RestsOnce(b.Queues(), id);
    LevelKnown(b, d.side, d.price);
    forall q <- levels | q != d.price ensures !levels[q].Empty() && id !in levels[q].index {
      LevelKnown(b, d.side, q);
    }
  }

  lemma RestAgrees(b: Book, id: OrderId, d: OrderData)
    requires b.Inv() && id !in b.orders && d.Live() && d.Sound()
    ensures Rest(b, id, d).Inv() && Rest(b, id, d).Queues() == LB.Rest(b.Queues(), id, d)
    ensures Rest(b, id, d).Marks() == b.Marks()
  {
    hide LB.Book.Inv, LevelsInv, Rep.Sound, Rep.Queue, Rep.State, LB.Enqueue, Join;
    var orders := b.orders[id := d];
    SameDead(BUY, b.bids, b.orders, orders);
    SameDead(SELL, b.asks, b.orders, orders);
    LB.RestInv(b.Queues(), id, d);
    LB.NewToQueues(b.Queues(), d.side, d.price, id);
    if d.price in b.Levels(d.side) {
      LevelKnown(b, d.side, d.price);
    }
    JoinAgrees(d.side, b.Levels(d.side), orders, d.price, id);
  }

  lemma CancelKeeps(b: Book, id: OrderId)
    requires b.Inv() && id in b.orders && b.orders[id].Live()
    ensures var d, levels := b.orders[id], b.Levels(b.orders[id].side);
            && d.price in levels && levels[d.price].Indexed()
            && var b' := b.WithLevels(d.side, Prune(Leave(levels, d.price, id), d.price))
                          .(orders := b.orders[id := d.(status := CANCELLED)]);
               b'.Inv() && b'.Queues() == LB.Cancel(b.Queues(), id).0 &&
               b'.Marks() == HeadMarks.Cancel(b.Queues(), b.Marks(), id)
  {
    hide LB.Book.Inv, LevelsInv, Rep.Sound, Rep.Queue, Rep.State, LB.Dequeue, Leave, Prune;
    var d := b.orders[id];
    var orders := b.orders[id := d.(status := CANCELLED)];
    SameDead(BUY, b.bids, b.orders, orders);
    SameDead(SELL, b.asks, b.orders, orders);
    LB.CancelInv(b.Queues(), id);
    Resident(b, id);
    LeaveAgrees(d.side, b.Levels(d.side), orders, d.price, id);
  }

  lemma ModifyKeeps(b: Book, id: OrderId, price: Price, quantity: Quantity)
    requires b.Inv() && id in b.orders && b.orders[id].Live() && b.orders[id].Accepts(price, quantity)
    ensures var d, levels := b.orders[id], b.Levels(b.orders[id].side);
            && d.price in levels && levels[d.price].Indexed()
            && var b' := Modified(b, id, price, quantity);
               b'.Inv() && b'.Queues() == LB.Modify(b.Queues(), id, price, quantity).0 &&
               b'.Marks() == HeadMarks.Modify(b.Queues(), b.Marks(), id, price, quantity)
  {
    hide LB.Book.Inv, LevelsInv, Rep.Sound, Rep.Queue, Rep.State, LB.Moved, Moved;
    var d := b.orders[id];
    var orders := b.orders[id := d.(price := price, quantity := quantity)];
    SameDead(BUY, b.bids, b.orders, orders);
    SameDead(SELL, b.asks, b.orders, orders);
    LB.ModifyInv(b.Queues(), id, price, quantity);
    Resident(b, id);
    MovedAgrees(d.side, b.Levels(d.side), orders, id, d, price, quantity);
    assert Modified(b, id, price, quantity).Queues() == LB.Modify(b.Queues(), id, price, quantity).0;
  }

  /** What the source finds at the head of a level: the first of the queue, or a dead order. */
  lemma FrontKnown(b: Book, side: Side, p: Price)
    requires b.Inv() && p in b.Levels(side)
    ensures var r := b.Levels(side)[p];
            && r.Indexed() && !r.Empty() && r.Queue() == b.Queues().Levels(side)[p] != []
            && var id := FrontOf(r);
               && id in b.orders && b.orders[id].side == side && 0 <= b.orders[id].Remaining()
               && if r.State() == Haunted then b.orders[id].Remaining() == 0 && b.orders[id].status == FULLY_FILLED
                  else id == r.Queue()[0] && b.orders[id].Live()
  {
    hide Rep.Sound, Rep.Queue, Rep.State;
    LevelKnown(b, side, p);
    var r := b.Levels(side)[p];
    FrontExists(r);
    if r.State() != Haunted {
      FrontIsHead(r);
      assert r.Queue()[0] in r.Queue();
    }
  }

  /** A round of `LevelBook`, seen from the two fronts. */
  lemma TradeShape(m: LB.Book, p: Price, q: Price)
    requires m.Inv() && LB.Crossed(m)
    requires p == LB.Best(BUY, m.bids.Keys) && q == LB.Best(SELL, m.asks.Keys)
    ensures m.bids[p] != [] && m.asks[q] != []
    ensures var bid, ask := m.bids[p][0], m.asks[q][0];
            && bid in m.orders && ask in m.orders && bid != ask
            && 0 <= m.orders[bid].Remaining() && 0 <= m.orders[ask].Remaining()
            && var orders := Matched(m.orders, bid, ask);
               var bidFilled, askFilled := orders[bid].status == FULLY_FILLED, orders[ask].status == FULLY_FILLED;
               LB.Trade(m) == m.(orders := orders, trades := m.trades + 1,
                                 bids := if bidFilled then LB.Dequeue(m.bids, p, bid) else m.bids,
                                 asks := if askFilled then LB.Dequeue(m.asks, q, ask) else m.asks)
  {
    var bid, ask := m.bids[p][0], m.asks[q][0];
    assert bid == LB.FrontId(m, BUY) && ask == LB.FrontId(m, SELL);
    LB.TradeInv(m);
  }

  /** The fronts of the best levels. */
  lemma BestKnown(b: Book)
    requires b.Inv() && Crossed(b)
    ensures b.bids != map[] && b.asks != map[]
    ensures var p, q, m := LB.Best(BUY, b.bids.Keys), LB.Best(SELL, b.asks.Keys), b.Queues();
            && m.bids != map[] && p == LB.Best(BUY, m.bids.Keys) && m.bids[p] == b.bids[p].Queue()
            && m.asks != map[] && q == LB.Best(SELL, m.asks.Keys) && m.asks[q] == b.asks[q].Queue()
            && (p in b.Marks().bids.haunted <==> b.bids[p].State() == Haunted)
            && (q in b.Marks().asks.haunted <==> b.asks[q].State() == Haunted)
  {
    assert b.Queues().bids.Keys == b.bids.Keys && b.Queues().asks.Keys == b.asks.Keys;
  }

  /** One round is one round of `LevelBook`, unless one of the best levels is haunted; then it is
      undefined. It also moves the marks as foretold. */
  lemma RoundAgrees(b: Book)
    requires b.Inv() && Crossed(b)
    ensures Round(b).Undefined? <==> HeadMarks.MeetsGhost(b.Queues(), b.Marks())
    ensures Round(b).Defined? ==>
              && Round(b).value.Inv() && Round(b).value.Queues() == LB.Trade(b.Queues())
              && Round(b).value.Marks() == HeadMarks.Traded(b.Queues(), b.Marks())
  {
    BestKnown(b);
    var p, q := LB.Best(BUY, b.bids.Keys), LB.Best(SELL, b.asks.Keys);
    if b.bids[p].State() == Haunted || b.asks[q].State() == Haunted {
      HauntedRound(b, p, q);
    } else {
      CurrentRound(b, p, q);
    }
  }

  /** The dead order takes part with nothing left, is found filled once more, and cannot be erased. */
  lemma HauntedRound(b: Book, p: Price, q: Price)
    requires b.Inv() && Crossed(b)
    requires p == LB.Best(BUY, b.bids.Keys) && q == LB.Best(SELL, b.asks.Keys)
    requires b.bids[p].State() == Haunted || b.asks[q].State() == Haunted
    ensures Round(b) == Undefined
  {
    hide LB.Book.Inv, LevelsInv, Rep.Sound, Rep.Queue, LB.Best, Prune, Pop, Advance;
    FrontKnown(b, BUY, p);
    FrontKnown(b, SELL, q);
  }

  lemma CurrentRound(b: Book, p: Price, q: Price)
    requires b.Inv() && Crossed(b)
    requires p == LB.Best(BUY, b.bids.Keys) && q == LB.Best(SELL, b.asks.Keys)
    requires b.bids[p].State() != Haunted && b.asks[q].State() != Haunted
    ensures Round(b).Defined? && Round(b).value.Inv() && Round(b).value.Queues() == LB.Trade(b.Queues())
    ensures Round(b).value.Marks() == HeadMarks.Traded(b.Queues(), b.Marks())
  {
    hide LB.Book.Inv, LevelsInv, Rep.Sound, Rep.Queue, Rep.State, LB.Best, LB.Dequeue, LB.Trade, LB.Crossed, Settled;
    FrontKnown(b, BUY, p);
    FrontKnown(b, SELL, q);
    BestKnown(b);
    TradeShape(b.Queues(), p, q);
    var bid, ask := FrontOf(b.bids[p]), FrontOf(b.asks[q]);
    var orders := Matched(b.orders, bid, ask);
    SameDead(BUY, b.bids, b.orders, orders);
    SameDead(SELL, b.asks, b.orders, orders);
    SettledAgrees(BUY, b.bids, orders, p, orders[bid].status == FULLY_FILLED);
    SettledAgrees(SELL, b.asks, orders, q, orders[ask].status == FULLY_FILLED);
  }

  // ---- the operations against the book of queues ----

  /** The matching loop is that of `LevelBook` unless it meets a haunted level, and which rounds do
      is decided by the queues and the marks. */
  lemma {:induction false} MatchAgrees(b: Book)
    requires b.Inv()
    ensures var r, marks := MatchLoop(b), HeadMarks.Match(b.Queues(), b.Marks());
            && (r.Defined? <==> marks.Defined?)
            && (r.Defined? ==> r.value.Queues() == LB.MatchLoop(b.Queues()) && r.value.Marks() == marks.value)
    decreases b.Queues().LiveIds()
  {
    hide LB.Book.Inv, LevelsInv, Round, LB.Trade, HeadMarks.Traded, LB.Best;
    SameEnds(b);
    if Crossed(b) {
      RoundAgrees(b);
      if Round(b).Defined? {
        MatchAgrees(Round(b).value);
      }
    }
  }

  lemma SameEnds(b: Book)
    ensures b.Queues().bids.Keys == b.bids.Keys && b.Queues().asks.Keys == b.asks.Keys
    ensures b.bids == map[] <==> b.Queues().bids == map[]
    ensures b.asks == map[] <==> b.Queues().asks == map[]
  {
  }

  /** An added order makes of the queues what `LevelBook.Add` says, unless the matching it sets off
      meets a haunted level. */
  lemma AddAgrees(b: Book, id: OrderId, client: ClientOrder)
    requires b.Inv() && id !in b.orders
    ensures var r, marks := Add(b, id, client), HeadMarks.Add(b.Queues(), b.Marks(), id, client);
            && (r.Defined? <==> marks.Defined?)
            && (r.Defined? ==> r.value.Queues() == LB.Add(b.Queues(), id, client) && r.value.Marks() == marks.value)
  {
    hide LB.Book.Inv, LevelsInv, MatchLoop, HeadMarks.Match, LB.MatchLoop;
    RestAgrees(b, id, Resting(client));
    MatchAgrees(Rest(b, id, Resting(client)));
    SameEnds(b);
  }

  lemma CancelAgrees(b: Book, id: OrderId)
    requires b.Inv()
    ensures var (r, ok) := Cancel(b, id);
            && (r.Queues(), ok) == LB.Cancel(b.Queues(), id)
            && r.Marks() == HeadMarks.Cancel(b.Queues(), b.Marks(), id)
  {
    hide LB.Book.Inv, LevelsInv;
    if id in b.orders && b.orders[id].Live() {
      CancelKeeps(b, id);
    }
  }

  lemma ModifyAgrees(b: Book, id: OrderId, price: Price, quantity: Quantity)
    requires b.Inv()
    ensures var (r, ok) := Modify(b, id, price, quantity);
            && (r.Queues(), ok) == LB.Modify(b.Queues(), id, price, quantity)
            && r.Marks() == HeadMarks.Modify(b.Queues(), b.Marks(), id, price, quantity)
  {
    hide LB.Book.Inv, LevelsInv;
    if id in b.orders && b.orders[id].Live() && b.orders[id].Accepts(price, quantity) {
      ModifyKeeps(b, id, price, quantity);
    }
  }
}
