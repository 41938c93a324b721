/** The order book object: two maps of price level objects and an id registry, all sharing the
    same order objects (include/orderbook.h). Every method is proved against `EntryBook`. */
module OrderBooks {
  import opened Core
  import opened Orders
  import opened LevelRep
  import opened PriceLevels
  import opened IdAllocators
  import EB = EntryBook
  import HeadMarks
  import Ids = IdSupply
  import LB = LevelBook
  import Refinement

  type Levels = map<Price, PriceLevel>

  /** The level object holds the value, and every order it refers to is the registered one. */
  ghost predicate Holds(level: PriceLevel, rep: Rep, registry: map<OrderId, Order>, orderObjs: set<Order>)
    reads level, orderObjs`id
  {
    && level.orders <= orderObjs
    && level.Represents() && level.rep == rep
    && (forall o <- level.orders :: o.id in registry && registry[o.id] == o)
  }

  /** The level objects of one side hold the levels of the model. */
  ghost predicate SideHolds(levels: Levels, reps: EB.Levels, registry: map<OrderId, Order>,
                            levelObjs: set<PriceLevel>, orderObjs: set<Order>)
    reads levelObjs, orderObjs`id
  {
    && levels.Keys == reps.Keys
    && (forall p <- levels :: levels[p] in levelObjs && Holds(levels[p], reps[p], registry, orderObjs))
    && (forall p, q | p in levels && q in levels && p != q :: levels[p] != levels[q])
  }

  lemma SideKeys(levels: Levels, reps: EB.Levels, registry: map<OrderId, Order>,
                 levelObjs: set<PriceLevel>, orderObjs: set<Order>)
    requires SideHolds(levels, reps, registry, levelObjs, orderObjs)
    ensures levels.Keys == reps.Keys && forall p <- levels :: levels[p] in levelObjs
  {
  }

  lemma RegistryGrows(registry: map<OrderId, Order>, orders: map<OrderId, OrderData>, orderObjs: set<Order>,
                      order: Order)
    requires RegistryHolds(registry, orders, orderObjs)
    ensures registry.Keys == orders.Keys
    ensures RegistryHolds(registry[order.id := order], orders[order.id := order.Data()], orderObjs + {order})
  {
  }

  lemma SideGrows(levels: Levels, reps: EB.Levels, registry: map<OrderId, Order>,
                  levelObjs: set<PriceLevel>, orderObjs: set<Order>, order: Order)
    requires SideHolds(levels, reps, registry, levelObjs, orderObjs) && order.id !in registry
    ensures SideHolds(levels, reps, registry[order.id := order], levelObjs, orderObjs + {order})
  {
    forall p <- levels ensures Holds(levels[p], reps[p], registry[order.id := order], orderObjs + {order}) {
      assert Holds(levels[p], reps[p], registry, orderObjs);
    }
  }

  // ---- one side ----

  method AddTo(levels: Levels, p: Price, order: Order, ghost id: OrderId, ghost reps: EB.Levels,
               ghost registry: map<OrderId, Order>, ghost levelObjs: set<PriceLevel>, ghost orderObjs: set<Order>)
    requires SideHolds(levels, reps, registry, levelObjs, orderObjs)
    requires order.id == id && order in orderObjs && id in registry && registry[id] == order
    requires p in reps
    modifies levels[p]
    ensures SideHolds(levels, reps[p := LevelRep.Add(reps[p], id)], registry, levelObjs, orderObjs)
  {
    hide LevelRep.Add, Rep.Sound;
    assert Holds(levels[p], reps[p], registry, orderObjs);
    levels[p].AddOrder(order);
    assert Holds(levels[p], LevelRep.Add(reps[p], id), registry, orderObjs);
  }

  /** `try_emplace`: an empty level appears where there was none. */
  method TryEmplace(levels: Levels, p: Price, ghost reps: EB.Levels, ghost registry: map<OrderId, Order>,
                    ghost levelObjs: set<PriceLevel>, ghost orderObjs: set<Order>)
    returns (levels': Levels, inserted: bool)
    requires SideHolds(levels, reps, registry, levelObjs, orderObjs)
    ensures inserted <==> p !in reps
    ensures p in levels' && (!inserted ==> levels' == levels)
    ensures inserted ==> fresh(levels'[p]) && levels' == levels[p := levels'[p]]
    ensures SideHolds(levels', if inserted then reps[p := FRESH] else reps, registry, levelObjs + {levels'[p]},
                      orderObjs)
  {
    levels', inserted := levels, p !in levels;
    if inserted {
      var level := new PriceLevel(p);
      levels' := levels[p := level];
      assert Holds(level, FRESH, registry, orderObjs);
    }
  }

  /** Places an order at the back of the level of its price, creating the level if need be. */
  method Place(levels: Levels, p: Price, order: Order, ghost id: OrderId, ghost reps: EB.Levels,
               ghost registry: map<OrderId, Order>, ghost levelObjs: set<PriceLevel>, ghost orderObjs: set<Order>)
    returns (levels': Levels, inserted: bool, ghost levelObjs': set<PriceLevel>)
    requires SideHolds(levels, reps, registry, levelObjs, orderObjs)
    requires order.id == id && order in orderObjs && id in registry && registry[id] == order
    modifies if p in levels then {levels[p]} else {}
    ensures inserted <==> p !in reps
    ensures levelObjs <= levelObjs' && fresh(levelObjs' - levelObjs)
    ensures SideHolds(levels', EB.Join(reps, p, id), registry, levelObjs', orderObjs)
  {
    hide Holds, LevelRep.Add;
    levels', inserted := TryEmplace(levels, p, reps, registry, levelObjs, orderObjs);
    levelObjs' := levelObjs + {levels'[p]};
    ghost var reps' := if inserted then reps[p := FRESH] else reps;
    AddTo(levels', p, order, id, reps', registry, levelObjs', orderObjs);
    assert reps'[p := LevelRep.Add(reps'[p], id)] == EB.Join(reps, p, id);
  }

  method RemoveFrom(levels: Levels, p: Price, id: OrderId, ghost reps: EB.Levels, ghost registry: map<OrderId, Order>,
                    ghost levelObjs: set<PriceLevel>, ghost orderObjs: set<Order>)
    requires SideHolds(levels, reps, registry, levelObjs, orderObjs)
    requires p in reps && reps[p].Sound()
    modifies levels[p]
    ensures reps[p].Indexed() && SideHolds(levels, EB.Leave(reps, p, id), registry, levelObjs, orderObjs)
  {
    hide Remove, Rep.Sound;
    assert Holds(levels[p], reps[p], registry, orderObjs);
    var _ := levels[p].RemoveOrder(id);
    assert Holds(levels[p], Remove(reps[p], id), registry, orderObjs);
  }

  /** `pop_front_order_if_filled`, or nothing where that is not defined. */
  method PopFrom(levels: Levels, p: Price, ghost reps: EB.Levels, ghost registry: map<OrderId, Order>,
                 ghost levelObjs: set<PriceLevel>, ghost orderObjs: set<Order>, ghost filled: bool)
    returns (defined: bool)
    requires SideHolds(levels, reps, registry, levelObjs, orderObjs)
    requires p in reps && reps[p].Sound() && reps[p].Indexed() && !reps[p].Empty()
    requires EB.FrontOf(reps[p]) in registry && filled == (registry[EB.FrontOf(reps[p])].status == FULLY_FILLED)
    modifies levels[p]
    ensures defined <==> PopDefined(reps[p], filled)
    ensures defined ==> SideHolds(levels, reps[p := Pop(reps[p], filled)], registry, levelObjs, orderObjs)
  {
    hide Pop, Rep.Sound;
    assert Holds(levels[p], reps[p], registry, orderObjs);
    defined := levels[p].PopFrontOrderIfFilled();
    assert defined ==> Holds(levels[p], Pop(reps[p], filled), registry, orderObjs);
  }

  method RemovePriceLevelIfEmpty(levels: Levels, p: Price, ghost reps: EB.Levels, ghost registry: map<OrderId, Order>,
                                 ghost levelObjs: set<PriceLevel>, ghost orderObjs: set<Order>)
    returns (levels': Levels)
    requires SideHolds(levels, reps, registry, levelObjs, orderObjs) && p in reps
    ensures SideHolds(levels', EB.Prune(reps, p), registry, levelObjs, orderObjs)
    ensures levels' == if reps[p].Empty() then levels - {p} else levels
  {
    assert levels[p].Empty() <==> reps[p].Empty() by {
      assert Holds(levels[p], reps[p], registry, orderObjs);
    }
    hide Holds;
    levels' := if levels[p].Empty() then levels - {p} else levels;
  }

  /** The order under the head of a level. */
  method FrontAt(levels: Levels, p: Price, ghost reps: EB.Levels, ghost registry: map<OrderId, Order>,
                 ghost levelObjs: set<PriceLevel>, ghost orderObjs: set<Order>)
    returns (order: Order)
    requires SideHolds(levels, reps, registry, levelObjs, orderObjs)
    requires p in reps && reps[p].Sound() && reps[p].Indexed() && !reps[p].Empty()
    ensures EB.FrontOf(reps[p]) in registry && order == registry[EB.FrontOf(reps[p])]
    ensures order in orderObjs && order.id == EB.FrontOf(reps[p]) && levels[p] in levelObjs
  {
    hide Rep.Sound;
    assert Holds(levels[p], reps[p], registry, orderObjs);
    order := levels[p].Front();
  }

  // ---- orders of the registry ----

  /** The registry holds the orders of the model under their ids. */
  ghost predicate RegistryHolds(registry: map<OrderId, Order>, orders: map<OrderId, OrderData>, orderObjs: set<Order>)
    reads orderObjs
  {
    && registry.Keys == orders.Keys
    && (forall id <- registry ::
          registry[id] in orderObjs && registry[id].id == id && registry[id].Data() == orders[id])
  }

  /** What a registered order is in the model. */
  lemma OrderKnown(registry: map<OrderId, Order>, orders: map<OrderId, OrderData>, orderObjs: set<Order>, id: OrderId)
    requires RegistryHolds(registry, orders, orderObjs)
    ensures id in registry <==> id in orders
    ensures id in registry ==>
              var order, d := registry[id], orders[id];
              && order in orderObjs && order.Data() == d
              && order.id == id && order.side == d.side && order.price == d.price && order.quantity == d.quantity
              && (d.Live() <==> order.status != CANCELLED && order.status != FULLY_FILLED)
  {
  }

  method MatchOrders(bidOrder: Order, askOrder: Order)
    requires bidOrder != askOrder
    requires 0 <= bidOrder.Data().Remaining() && 0 <= askOrder.Data().Remaining()
    modifies bidOrder`filled, bidOrder`status, askOrder`filled, askOrder`status
    ensures var n := Min(old(bidOrder.Data()).Remaining(), old(askOrder.Data()).Remaining());
            && bidOrder.Data() == old(bidOrder.Data()).Fill(n)
            && askOrder.Data() == old(askOrder.Data()).Fill(n)
  {
    var bidAvailable := bidOrder.quantity - bidOrder.filled;
    var askAvailable := askOrder.quantity - askOrder.filled;
    var matchQty := Min(bidAvailable, askAvailable);
    var bidOk := bidOrder.Match(matchQty);
    var askOk := askOrder.Match(matchQty);
    assert bidOk && askOk;
  }

  /** The same on registered orders: the registry follows the order table. */
  method MatchRegistered(bidOrder: Order, askOrder: Order, ghost registry: map<OrderId, Order>,
                         ghost orders: map<OrderId, OrderData>, ghost orderObjs: set<Order>)
    requires RegistryHolds(registry, orders, orderObjs)
    requires bidOrder.id in registry && registry[bidOrder.id] == bidOrder
    requires askOrder.id in registry && registry[askOrder.id] == askOrder
    requires bidOrder != askOrder
    requires 0 <= orders[bidOrder.id].Remaining() && 0 <= orders[askOrder.id].Remaining()
    modifies bidOrder`filled, bidOrder`status, askOrder`filled, askOrder`status
    ensures var orders' := EB.Matched(orders, bidOrder.id, askOrder.id);
            && RegistryHolds(registry, orders', orderObjs)
            && bidOrder.id in orders' && bidOrder.status == orders'[bidOrder.id].status
            && askOrder.id in orders' && askOrder.status == orders'[askOrder.id].status
  {
    MatchOrders(bidOrder, askOrder);
  }

  method CancelRegistered(order: Order, id: OrderId, ghost registry: map<OrderId, Order>,
                          ghost orders: map<OrderId, OrderData>, ghost orderObjs: set<Order>)
    returns (ok: bool)
    requires RegistryHolds(registry, orders, orderObjs) && id in registry && registry[id] == order
    modifies order`status
    ensures ok <==> orders[id].Live()
    ensures RegistryHolds(registry, if ok then orders[id := orders[id].(status := CANCELLED)] else orders, orderObjs)
    ensures order.side == orders[id].side && order.price == orders[id].price
  {
    ok := order.Cancel();
  }

  method SetPriceOf(order: Order, id: OrderId, newPrice: Price, ghost registry: map<OrderId, Order>,
                    ghost orders: map<OrderId, OrderData>, ghost orderObjs: set<Order>)
    returns (ghost orders': map<OrderId, OrderData>)
    requires RegistryHolds(registry, orders, orderObjs) && id in registry && registry[id] == order
    modifies order`price
    ensures orders' == orders[id := orders[id].(price := newPrice)] && RegistryHolds(registry, orders', orderObjs)
  {
    order.SetPrice(newPrice);
    orders' := orders[id := orders[id].(price := newPrice)];
  }

  method SetQuantityOf(order: Order, id: OrderId, newQuantity: Quantity, ghost registry: map<OrderId, Order>,
                       ghost orders: map<OrderId, OrderData>, ghost orderObjs: set<Order>)
    returns (ghost orders': map<OrderId, OrderData>)
    requires RegistryHolds(registry, orders, orderObjs) && id in registry && registry[id] == order
    modifies order`quantity
    ensures orders' == orders[id := orders[id].(quantity := newQuantity)] && RegistryHolds(registry, orders', orderObjs)
  {
    order.SetQuantity(newQuantity);
    orders' := orders[id := orders[id].(quantity := newQuantity)];
  }

  // ---- the dispatchers ----

  method RemoveAndPrune(levels: Levels, p: Price, id: OrderId, ghost reps: EB.Levels,
                        ghost registry: map<OrderId, Order>,
                        ghost levelObjs: set<PriceLevel>, ghost orderObjs: set<Order>)
    returns (levels': Levels)
    requires SideHolds(levels, reps, registry, levelObjs, orderObjs)
    requires p in reps && reps[p].Sound()
    modifies levels[p]
    ensures reps[p].Indexed()
    ensures SideHolds(levels', EB.Prune(EB.Leave(reps, p, id), p), registry, levelObjs, orderObjs)
  {
    hide SideHolds, Rep.Sound, Remove;
    RemoveFrom(levels, p, id, reps, registry, levelObjs, orderObjs);
    levels' := RemovePriceLevelIfEmpty(levels, p, EB.Leave(reps, p, id), registry, levelObjs, orderObjs);
  }

  method ModifyOrderDispatcher(
    levels: Levels, order: Order, id: OrderId, newPrice: Price, newQuantity: Quantity, flag: bool,
    ghost reps: EB.Levels, ghost registry: map<OrderId, Order>, ghost orders: map<OrderId, OrderData>,
    ghost levelObjs: set<PriceLevel>, ghost orderObjs: set<Order>)
    returns (levels': Levels, flag': bool, ok: bool, ghost levelObjs': set<PriceLevel>)
    requires SideHolds(levels, reps, registry, levelObjs, orderObjs)
    requires RegistryHolds(registry, orders, orderObjs) && id in registry && registry[id] == order
    requires orders[id].price in reps && reps[orders[id].price].Sound() && reps[orders[id].price].Indexed()
    modifies set p | p in levels :: levels[p]
    modifies order`price, order`quantity
    ensures levelObjs <= levelObjs' && fresh(levelObjs' - levelObjs)
    ensures var d := orders[id];
            && SideHolds(levels', EB.Moved(reps, id, d, newPrice, newQuantity), registry, levelObjs', orderObjs)
            && RegistryHolds(registry, orders[id := d.(price := newPrice, quantity := newQuantity)], orderObjs)
            && flag' == (if newPrice != d.price then newPrice !in reps else flag)
            && (ok <==> newPrice != d.price || newQuantity != d.quantity)
  {
    hide *;
    OrderKnown(registry, orders, orderObjs, id);
    SideKeys(levels, reps, registry, levelObjs, orderObjs);
    var price, quantity := order.price, order.quantity;
    var priceChanged, quantityChanged := price != newPrice, quantity != newQuantity;
    levels', flag', levelObjs' := levels, flag, levelObjs;
    ghost var reps', orders' := reps, orders;
    if priceChanged {
      levels', flag', levelObjs', orders' :=
        Relocate(levels, price, newPrice, order, id, reps, registry, orders, levelObjs, orderObjs);
      reps' := EB.Join(EB.Leave(reps, price, id), newPrice, id);
    }
    if quantityChanged {
      orders' := SetQuantityOf(order, id, newQuantity, registry, orders', orderObjs);
      if newQuantity > quantity && !priceChanged {
        Requeue(levels, price, order, id, reps, registry, levelObjs, orderObjs);
        reps' := EB.Join(EB.Leave(reps, price, id), price, id);
      }
    }
    MovedShape(reps, id, orders[id], newPrice, newQuantity);
    levels' := RemovePriceLevelIfEmpty(levels', price, reps', registry, levelObjs', orderObjs);
    ok := priceChanged || quantityChanged;
    assert orders' == orders[id := orders[id].(price := newPrice, quantity := newQuantity)];
  }

  lemma MovedShape(reps: EB.Levels, id: OrderId, d: OrderData, price: Price, quantity: Quantity)
    requires d.price in reps && reps[d.price].Indexed()
    ensures var moves := price != d.price || quantity > d.quantity;
            var reps' := if moves then EB.Join(EB.Leave(reps, d.price, id), price, id) else reps;
            d.price in reps' && EB.Moved(reps, id, d, price, quantity) == EB.Prune(reps', d.price)
  {
    hide EB.Prune, Remove, LevelRep.Add, Rep.Indexed;
  }

  lemma JoinedKeys(reps: EB.Levels, p: Price, q: Price, id: OrderId)
    requires p in reps && reps[p].Indexed()
    ensures p in EB.Join(EB.Leave(reps, p, id), q, id) && q in EB.Join(EB.Leave(reps, p, id), q, id)
    ensures p in EB.Leave(reps, p, id) && (q in EB.Leave(reps, p, id) <==> q in reps)
  {
  }

  /** The price change: out of the old level, into the new one; the old level is not pruned yet. */
  method Relocate(levels: Levels, price: Price, newPrice: Price, order: Order, id: OrderId, ghost reps: EB.Levels,
                  ghost registry: map<OrderId, Order>, ghost orders: map<OrderId, OrderData>,
                  ghost levelObjs: set<PriceLevel>, ghost orderObjs: set<Order>)
    returns (levels': Levels, inserted: bool, ghost levelObjs': set<PriceLevel>, ghost orders': map<OrderId, OrderData>)
    requires SideHolds(levels, reps, registry, levelObjs, orderObjs)
    requires RegistryHolds(registry, orders, orderObjs) && id in registry && registry[id] == order
    requires price in reps && reps[price].Sound() && reps[price].Indexed()
    modifies set p | p in levels :: levels[p]
    modifies order`price
    ensures levelObjs <= levelObjs' && fresh(levelObjs' - levelObjs)
    ensures SideHolds(levels', EB.Join(EB.Leave(reps, price, id), newPrice, id), registry, levelObjs', orderObjs)
    ensures orders' == orders[id := orders[id].(price := newPrice)] && RegistryHolds(registry, orders', orderObjs)
    ensures inserted <==> newPrice !in reps
  {
    hide *;
    OrderKnown(registry, orders, orderObjs, id);
    SideKeys(levels, reps, registry, levelObjs, orderObjs);
    RemoveFrom(levels, price, id, reps, registry, levelObjs, orderObjs);
    JoinedKeys(reps, price, newPrice, id);
    orders' := SetPriceOf(order, id, newPrice, registry, orders, orderObjs);
    levels', inserted, levelObjs' :=
      Place(levels, newPrice, order, id, EB.Leave(reps, price, id), registry, levelObjs, orderObjs);
  }

  /** Removing an order from its level and adding it again to the same object. */
  method Requeue(levels: Levels, p: Price, order: Order, id: OrderId, ghost reps: EB.Levels,
                 ghost registry: map<OrderId, Order>, ghost levelObjs: set<PriceLevel>, ghost orderObjs: set<Order>)
    requires SideHolds(levels, reps, registry, levelObjs, orderObjs)
    requires order.id == id && order in orderObjs && id in registry && registry[id] == order
    requires p in reps && reps[p].Sound() && reps[p].Indexed()
    modifies levels[p]
    ensures SideHolds(levels, EB.Join(EB.Leave(reps, p, id), p, id), registry, levelObjs, orderObjs)
  {
    hide SideHolds, Rep.Sound, Remove, LevelRep.Add;
    SideKeys(levels, reps, registry, levelObjs, orderObjs);
    RemoveFrom(levels, p, id, reps, registry, levelObjs, orderObjs);
    AddTo(levels, p, order, id, EB.Leave(reps, p, id), registry, levelObjs, orderObjs);
  }

  /** One round: the two fronts trade, are popped if they are filled, and emptied levels go. Where a
      pop is not defined the round ends there. */
  method TradeFronts(bids: Levels, asks: Levels, p: Price, q: Price, ghost bidReps: EB.Levels,
                     ghost askReps: EB.Levels,
                     ghost registry: map<OrderId, Order>, ghost orders: map<OrderId, OrderData>,
                     ghost bidObjs: set<PriceLevel>, ghost askObjs: set<PriceLevel>, ghost orderObjs: set<Order>)
    returns (bids': Levels, asks': Levels, defined: bool)
    requires SideHolds(bids, bidReps, registry, bidObjs, orderObjs)
    requires SideHolds(asks, askReps, registry, askObjs, orderObjs)
    requires bidObjs !! askObjs && RegistryHolds(registry, orders, orderObjs)
    requires p in bidReps && bidReps[p].Sound() && bidReps[p].Indexed() && !bidReps[p].Empty()
    requires q in askReps && askReps[q].Sound() && askReps[q].Indexed() && !askReps[q].Empty()
    requires EB.FrontOf(bidReps[p]) in orders && EB.FrontOf(askReps[q]) in orders
    requires EB.FrontOf(bidReps[p]) != EB.FrontOf(askReps[q])
    requires 0 <= orders[EB.FrontOf(bidReps[p])].Remaining() && 0 <= orders[EB.FrontOf(askReps[q])].Remaining()
    modifies bids[p], asks[q], orderObjs`filled, orderObjs`status
    ensures var bid, ask := EB.FrontOf(bidReps[p]), EB.FrontOf(askReps[q]);
            var orders' := EB.Matched(orders, bid, ask);
            && bid in orders' && ask in orders'
            && var bidsAfter := EB.Settled(bidReps, p, orders'[bid].status == FULLY_FILLED);
               var asksAfter := EB.Settled(askReps, q, orders'[ask].status == FULLY_FILLED);
               && (defined <==> bidsAfter.Defined? && asksAfter.Defined?)
               && (defined ==>
                     && SideHolds(bids', bidsAfter.value, registry, bidObjs, orderObjs)
                     && SideHolds(asks', asksAfter.value, registry, askObjs, orderObjs)
                     && RegistryHolds(registry, orders', orderObjs))
  {
    hide *;
    ghost var bid, ask := EB.FrontOf(bidReps[p]), EB.FrontOf(askReps[q]);
    ghost var orders' := EB.Matched(orders, bid, ask);
    var bidOrder := FrontAt(bids, p, bidReps, registry, bidObjs, orderObjs);
    var askOrder := FrontAt(asks, q, askReps, registry, askObjs, orderObjs);
    bids', asks' := bids, asks;
    MatchRegistered(bidOrder, askOrder, registry, orders, orderObjs);
    ghost var bidFilled, askFilled := orders'[bid].status == FULLY_FILLED, orders'[ask].status == FULLY_FILLED;
    SettledShape(bidReps, p, bidFilled);
    SettledShape(askReps, q, askFilled);
    defined := PopFrom(bids, p, bidReps, registry, bidObjs, orderObjs, bidFilled);
    if !defined {
      return;
    }
    defined := PopFrom(asks, q, askReps, registry, askObjs, orderObjs, askFilled);
    if !defined {
      return;
    }
    bids' := RemovePriceLevelIfEmpty(bids, p, bidReps[p := Pop(bidReps[p], bidFilled)], registry, bidObjs, orderObjs);
    asks' := RemovePriceLevelIfEmpty(asks, q, askReps[q := Pop(askReps[q], askFilled)], registry, askObjs, orderObjs);
  }

  lemma SettledShape(reps: EB.Levels, p: Price, filled: bool)
    requires p in reps && reps[p].Indexed()
    ensures var r := EB.Settled(reps, p, filled);
            && (r.Defined? <==> PopDefined(reps[p], filled))
            && (r.Defined? ==> p in reps[p := Pop(reps[p], filled)] &&
                               r.value == EB.Prune(reps[p := Pop(reps[p], filled)], p))
  {
    hide PopDefined, Pop, EB.Prune, Rep.Indexed;
  }

  // ---- the book ----

  class OrderBook {
    const instrument: Instrument
    const idAllocator: IdAllocator
    var bids: Levels
    var asks: Levels
    var orderRegistry: map<OrderId, Order>
    var orderIdBlock: OrderIdBlock
    var nextAvailableOrderId: OrderId
    var tradesCompleted: nat
    var tryMatchFlag: bool

    ghost var model: EB.Book
    ghost var issued: seq<OrderId>
    ghost var bidObjs: set<PriceLevel>
    ghost var askObjs: set<PriceLevel>
    ghost var orderObjs: set<Order>

    /** The objects hold `model`, level by level and order by order. */
    ghost predicate Represents()
      reads `bids, `asks, `orderRegistry, `tradesCompleted, `tryMatchFlag, `model, `bidObjs, `askObjs, `orderObjs
      reads bidObjs, askObjs, orderObjs
    {
      && model.Inv() && model.trades == tradesCompleted && model.flag == tryMatchFlag
      && SideHolds(bids, model.bids, orderRegistry, bidObjs, orderObjs)
      && SideHolds(asks, model.asks, orderRegistry, askObjs, orderObjs)
      && bidObjs !! askObjs
      && RegistryHolds(orderRegistry, model.orders, orderObjs)
    }

    /** The book as one of those that draw ids from the shared counter. */
    ghost function Desk(): Ids.Desk
      reads `nextAvailableOrderId, `orderIdBlock, `issued
    {
      Ids.Desk(nextAvailableOrderId, orderIdBlock.end, issued)
    }

    /** Registered orders have been issued their ids, and those lie behind the next one of the block. */
    ghost predicate IdsInv()
      reads `orderRegistry, `nextAvailableOrderId, `orderIdBlock, `issued
    {
      Ids.DeskInv(Desk(), orderIdBlock.end) && forall id <- orderRegistry :: id in issued
    }

    /** Everything the book may touch, apart from the shared allocator. */
    ghost function Footprint(): set<object>
      reads `bidObjs, `askObjs, `orderObjs
    {
      {this} + bidObjs + askObjs + orderObjs
    }

    constructor (instrument: Instrument, idAllocator: IdAllocator)
      modifies idAllocator
      ensures Represents() && model == EB.EMPTY && bidObjs == {} && askObjs == {} && orderObjs == {}
      ensures this.instrument == instrument && this.idAllocator == idAllocator && issued == []
      ensures nextAvailableOrderId == orderIdBlock.start == old(idAllocator.globalCounter)
      ensures orderIdBlock.end == idAllocator.globalCounter
      ensures idAllocator.globalCounter == Wrap(old(idAllocator.globalCounter) + idAllocator.blockSize)
      ensures old(idAllocator.globalCounter) + idAllocator.blockSize < TWO_64 ==>
                Desk() == Ids.NewDesk(old(idAllocator.globalCounter), idAllocator.blockSize)
      ensures FIRST_ORDER_ID <= nextAvailableOrderId <= orderIdBlock.end ==> IdsInv()
    {
      var block := idAllocator.GetNextIdBlock();
      this.instrument, this.idAllocator, orderIdBlock, nextAvailableOrderId := instrument, idAllocator, block,
        block.start;
      bids, asks, orderRegistry, tradesCompleted, tryMatchFlag := map[], map[], map[], 0, false;
      model, issued, bidObjs, askObjs, orderObjs := EB.EMPTY, [], {}, {}, {};
    }

    /** The next id can be issued without the shared counter wrapping past 2^64. */
    predicate CanIssue()
      reads this, idAllocator
    {
      && orderIdBlock.end <= idAllocator.globalCounter && 0 < idAllocator.blockSize
      && (nextAvailableOrderId == orderIdBlock.end ==> idAllocator.globalCounter + idAllocator.blockSize < TWO_64)
    }

    /** Below 2^64 this draws what `IdSupply.Draw` says, and every id is new to the book. The sums
        wrap, as in the source. */
    method GetOrderId() returns (id: OrderId)
      modifies this`orderIdBlock, this`nextAvailableOrderId, this`issued, idAllocator
      ensures id == old(if nextAvailableOrderId == orderIdBlock.end then idAllocator.globalCounter
                        else nextAvailableOrderId)
      ensures nextAvailableOrderId == Wrap(id + 1) && issued == old(issued) + [id]
      ensures if old(nextAvailableOrderId == orderIdBlock.end)
              then orderIdBlock == OrderIdBlock(id, Wrap(id + idAllocator.blockSize)) &&
                   idAllocator.globalCounter == orderIdBlock.end
              else orderIdBlock == old(orderIdBlock) && idAllocator.globalCounter == old(idAllocator.globalCounter)
      ensures old(IdsInv() && CanIssue()) ==>
                && IdsInv() && id !in orderRegistry
                && (Desk(), idAllocator.globalCounter, id) ==
                   Ids.Draw(old(Desk()), old(idAllocator.globalCounter), idAllocator.blockSize)
    {
      if IdsInv() && CanIssue() {
        Ids.DrawKeeps(Desk(), idAllocator.globalCounter, idAllocator.blockSize);
      }
      if nextAvailableOrderId == orderIdBlock.end {
        orderIdBlock := idAllocator.GetNextIdBlock();
        nextAvailableOrderId := orderIdBlock.start;
      }
      id := nextAvailableOrderId;
      nextAvailableOrderId := Wrap(nextAvailableOrderId + 1);
      issued := issued + [id];
    }

    lemma Known()
      requires Represents()
      ensures model.Inv() && model.flag == tryMatchFlag && model.trades == tradesCompleted
      ensures bids.Keys == model.bids.Keys && asks.Keys == model.asks.Keys && orderRegistry.Keys == model.orders.Keys
      ensures SideHolds(bids, model.bids, orderRegistry, bidObjs, orderObjs)
      ensures SideHolds(asks, model.asks, orderRegistry, askObjs, orderObjs)
      ensures bidObjs !! askObjs && RegistryHolds(orderRegistry, model.orders, orderObjs)
      ensures forall p <- bids :: bids[p] in bidObjs
      ensures forall p <- asks :: asks[p] in askObjs
    {
    }

    /** The other way round, after objects of the book have changed. */
    lemma Restored()
      requires model.Inv() && model.flag == tryMatchFlag && model.trades == tradesCompleted
      requires SideHolds(bids, model.bids, orderRegistry, bidObjs, orderObjs)
      requires SideHolds(asks, model.asks, orderRegistry, askObjs, orderObjs)
      requires bidObjs !! askObjs && RegistryHolds(orderRegistry, model.orders, orderObjs)
      ensures Represents()
    {
    }

    /** What carries over to the registry with the new order in it. */
    lemma BeforePlacing(order: Order)
      requires Represents() && order.id !in orderRegistry
      ensures var registry, objs := orderRegistry[order.id := order], orderObjs + {order};
              && SideHolds(bids, model.bids, registry, bidObjs, objs)
              && SideHolds(asks, model.asks, registry, askObjs, objs)
              && RegistryHolds(registry, model.orders[order.id := order.Data()], objs)
    {
      hide SideHolds, RegistryHolds, EB.Book.Inv;
      RegistryGrows(orderRegistry, model.orders, orderObjs, order);
      SideGrows(bids, model.bids, orderRegistry, bidObjs, orderObjs, order);
      SideGrows(asks, model.asks, orderRegistry, askObjs, orderObjs, order);
    }

    /** Stores a new state whose parts fit together. */
    method Commit(bids': Levels, asks': Levels, registry: map<OrderId, Order>, trades: nat, flag: bool,
                  ghost bidObjs': set<PriceLevel>, ghost askObjs': set<PriceLevel>, ghost objs: set<Order>,
                  ghost m: EB.Book)
      requires m.Inv() && m.trades == trades && m.flag == flag
      requires SideHolds(bids', m.bids, registry, bidObjs', objs) && SideHolds(asks', m.asks, registry, askObjs', objs)
      requires bidObjs' !! askObjs' && RegistryHolds(registry, m.orders, objs)
      modifies `bids, `asks, `orderRegistry, `tradesCompleted, `tryMatchFlag, `model, `bidObjs, `askObjs, `orderObjs
      ensures bids == bids' && asks == asks' && orderRegistry == registry && tradesCompleted == trades &&
              tryMatchFlag == flag
      ensures bidObjs == bidObjs' && askObjs == askObjs' && orderObjs == objs && model == m && Represents()
    {
      hide *;
      bids, asks, orderRegistry, tradesCompleted, tryMatchFlag := bids', asks', registry, trades, flag;
      bidObjs, askObjs, orderObjs, model := bidObjs', askObjs', objs, m;
      assert SideHolds(bids', m.bids, registry, bidObjs', objs);
      assert SideHolds(asks', m.asks, registry, askObjs', objs);
      assert RegistryHolds(registry, m.orders, objs);
      Restored();
    }

    /** `add_order_dispatcher`: the order joins its level and the registry, and the flag records
        whether the level is new. */
    method AddOrderDispatcher(order: Order)
      requires Represents() && order !in orderObjs && order.id !in orderRegistry
      requires order.Data().Live() && order.Data().Sound()
      modifies `bids, `asks, `orderRegistry, `tradesCompleted, `tryMatchFlag, `model, `bidObjs, `askObjs, `orderObjs
      modifies bidObjs, askObjs
      ensures Represents() && model == EB.Rest(old(model), order.id, order.Data())
      ensures orderRegistry == old(orderRegistry)[order.id := order] && orderObjs == old(orderObjs) + {order}
      ensures fresh(bidObjs - old(bidObjs)) && fresh(askObjs - old(askObjs))
    {
      hide Represents, SideHolds, Holds, RegistryHolds, EB.Book.Inv, EB.Join, EB.Book.Queues, EB.Book.Marks,
        LB.Rest, LB.Enqueue;
      Known();
      var registry, p := orderRegistry[order.id := order], order.price;
      ghost var m, objs, id, data := model, orderObjs + {order}, order.id, order.Data();
      BeforePlacing(order);
      EB.RestAgrees(m, id, data);
      var bids', asks', inserted := bids, asks, false;
      ghost var bidObjs', askObjs' := bidObjs, askObjs;
      if order.side == BUY {
        bids', inserted, bidObjs' := Place(bids, p, order, id, m.bids, registry, bidObjs, objs);
      } else {
        asks', inserted, askObjs' := Place(asks, p, order, id, m.asks, registry, askObjs, objs);
      }
      Commit(bids', asks', registry, tradesCompleted, inserted, bidObjs', askObjs', objs, EB.Rest(m, id, data));
    }

    /** One round of the matching loop. Not defined exactly if one of the best levels is haunted. */
    method TradeOnce() returns (defined: bool)
      requires Represents() && EB.Crossed(model)
      modifies `bids, `asks, `orderRegistry, `tradesCompleted, `tryMatchFlag, `model, `bidObjs, `askObjs, `orderObjs
      modifies bidObjs, askObjs, orderObjs`filled, orderObjs`status
      ensures defined <==> !HeadMarks.MeetsGhost(old(model).Queues(), old(model).Marks())
      ensures defined <==> EB.Round(old(model)).Defined?
      ensures defined ==> Represents() && model == EB.Round(old(model)).value
      ensures defined ==> model.Queues() == LB.Trade(old(model).Queues())
      ensures orderRegistry == old(orderRegistry)
      ensures bidObjs == old(bidObjs) && askObjs == old(askObjs) && orderObjs == old(orderObjs)
    {
      hide *;
      ghost var m := model;
      Known();
      EB.BestKnown(m);
      var p, q := LB.Best(BUY, bids.Keys), LB.Best(SELL, asks.Keys);
      FrontsKnown(m, p, q);
      EB.RoundAgrees(m);
      var bids', asks';
      bids', asks', defined :=
        TradeFronts(bids, asks, p, q, m.bids, m.asks, orderRegistry, m.orders, bidObjs, askObjs, orderObjs);
      RoundShape(m, p, q);
      if defined {
        Commit(bids', asks', orderRegistry, tradesCompleted + 1, tryMatchFlag, bidObjs, askObjs, orderObjs,
               EB.Round(m).value);
      }
    }

    method ClearFlag()
      requires Represents()
      modifies `tryMatchFlag, `model
      ensures Represents() && model == old(model).(flag := false)
    {
      hide SideHolds, RegistryHolds;
      tryMatchFlag := false;
      model := model.(flag := false);
    }

    /** The matching loop. `matched` tells whether anything traded; the loop is broken off where a
        round is not defined. */
    method MatchLoop() returns (matched: bool, defined: bool)
      requires Represents()
      modifies `bids, `asks, `orderRegistry, `tradesCompleted, `tryMatchFlag, `model, `bidObjs, `askObjs, `orderObjs
      modifies bidObjs, askObjs, orderObjs`filled, orderObjs`status
      ensures defined <==> EB.MatchLoop(old(model)).Defined?
      ensures defined ==> Represents() && model == EB.MatchLoop(old(model)).value
      ensures matched <==> EB.Crossed(old(model))
      ensures orderRegistry == old(orderRegistry)
      ensures bidObjs == old(bidObjs) && askObjs == old(askObjs) && orderObjs == old(orderObjs)
    {
      hide *;
      Known();
      matched, defined := false, true;
      while true
        invariant Represents() && model.Inv() && EB.MatchLoop(model) == EB.MatchLoop(old(model))
        invariant if matched then EB.Crossed(old(model)) else model == old(model)
        invariant defined && orderRegistry == old(orderRegistry)
        invariant bidObjs == old(bidObjs) && askObjs == old(askObjs) && orderObjs == old(orderObjs)
        decreases model.Queues().LiveIds()
      {
        LoopStep(model);
        Known();
        if bids == map[] || asks == map[] {
          return;
        }
        if LB.Best(BUY, bids.Keys) < LB.Best(SELL, asks.Keys) {
          ClearFlag();
          return;
        }
        matched := true;
        defined := TradeOnce();
        if !defined {
          return;
        }
        Known();
      }
    }

    /** Runs the matching loop if the flag is set. */
    method TryMatch() returns (matched: bool, defined: bool)
      requires Represents()
      modifies `bids, `asks, `orderRegistry, `tradesCompleted, `tryMatchFlag, `model, `bidObjs, `askObjs, `orderObjs
      modifies bidObjs, askObjs, orderObjs`filled, orderObjs`status
      ensures defined <==> EB.TryMatch(old(model)).Defined?
      ensures defined ==> Represents() && model == EB.TryMatch(old(model)).value
      ensures matched <==> old(tryMatchFlag) && EB.Crossed(old(model))
      ensures orderRegistry == old(orderRegistry)
      ensures bidObjs == old(bidObjs) && askObjs == old(askObjs) && orderObjs == old(orderObjs)
    {
      hide Represents, EB.Book.Inv, EB.Crossed, EB.MatchLoop;
      Known();
      if !tryMatchFlag {
        return false, true;
      }
      matched, defined := MatchLoop();
    }

    /** A pool order filled in with the client's data, under the next id. */
    method NewOrder(client: ClientOrder) returns (order: Order, id: OrderId)
      requires IdsInv() && CanIssue()
      modifies this`orderIdBlock, this`nextAvailableOrderId, this`issued, idAllocator
      ensures fresh(order) && order.id == id && order.Data() == Resting(client)
      ensures IdsInv() && id !in orderRegistry && id in issued
      ensures (Desk(), idAllocator.globalCounter, id) ==
              Ids.Draw(old(Desk()), old(idAllocator.globalCounter), idAllocator.blockSize)
    {
      order := new Order();
      id := GetOrderId();
      order.CopyFromClient(client, id);
    }

    /** A new order is registered under a fresh id, rests, and trades if it opened a level. That is
        not defined exactly if the matching meets a haunted level, which is decided by the queues
        and the marks before the call. */
    method AddOrder(client: ClientOrder) returns (id: OrderId, defined: bool)
      requires Represents() && IdsInv() && CanIssue()
      modifies this, idAllocator, bidObjs, askObjs, orderObjs`filled, orderObjs`status
      ensures IdsInv() && id !in old(model).orders
      ensures (Desk(), idAllocator.globalCounter, id) ==
              Ids.Draw(old(Desk()), old(idAllocator.globalCounter), idAllocator.blockSize)
      ensures defined <==> EB.Add(old(model), id, client).Defined?
      ensures defined <==> HeadMarks.Add(old(model).Queues(), old(model).Marks(), id, client).Defined?
      ensures defined ==> Represents() && model == EB.Add(old(model), id, client).value
      ensures defined ==> model.Queues() == LB.Add(old(model).Queues(), id, client)
      ensures client.price in old(model).Levels(client.side) ==>
                defined && model.trades == old(model).trades &&
                model.orders ==
                old(model).orders[id := OrderData(client.side, client.price, client.quantity, 0, NEW)]
      ensures fresh(bidObjs - old(bidObjs)) && fresh(askObjs - old(askObjs)) && fresh(orderObjs - old(orderObjs))
    {
      hide *;
      Known();
      ghost var m := model;
      var order;
      order, id := NewOrder(client);
      EB.AddAgrees(m, id, client);
      AddShape(m, id, client);
      if client.price in m.Levels(client.side) {
        JoinMeans(m, id, client);
      }
      AddOrderDispatcher(order);
      var matched;
      matched, defined := TryMatch();
      IdsKept(old(orderRegistry), order);
    }

    lemma IdsKept(registry: map<OrderId, Order>, order: Order)
      requires Ids.DeskInv(Desk(), orderIdBlock.end) && (forall id <- registry :: id in issued)
      requires order.id in issued && orderRegistry == registry[order.id := order]
      ensures IdsInv()
    {
    }

    method CancelOrder(orderId: OrderId) returns (ok: bool)
      requires Represents()
      modifies `bids, `asks, `orderRegistry, `tradesCompleted, `tryMatchFlag, `model, `bidObjs, `askObjs, `orderObjs
      modifies bidObjs, askObjs, orderObjs`status
      ensures Represents() && (model, ok) == EB.Cancel(old(model), orderId)
      ensures (model.Queues(), ok) == LB.Cancel(old(model).Queues(), orderId)
      ensures ok <==> orderId in old(model).orders &&
                      old(model.orders[orderId].status == NEW || model.orders[orderId].status == PARTIALLY_FILLED)
      ensures !ok ==> model == old(model)
      ensures ok ==> model.trades == old(model).trades &&
                     model.orders ==
                     old(model).orders[orderId := old(model).orders[orderId].(status := CANCELLED)]
      ensures orderRegistry == old(orderRegistry)
      ensures bidObjs == old(bidObjs) && askObjs == old(askObjs) && orderObjs == old(orderObjs)
    {
      hide *;
      ghost var m := model;
      Known();
      EB.CancelAgrees(m, orderId);
      CancelShape(m, orderId);
      CancelMeans(m, orderId);
      OrderKnown(orderRegistry, m.orders, orderObjs, orderId);
      if orderId !in orderRegistry {
        return false;
      }
      var order := orderRegistry[orderId];
      ok := CancelRegistered(order, orderId, orderRegistry, m.orders, orderObjs);
      if !ok {
        Restored();
        return false;
      }
      LevelOf(m, orderId);
      var bids', asks', p := bids, asks, order.price;
      if order.side == BUY {
        bids' := RemoveAndPrune(bids, p, orderId, m.bids, orderRegistry, bidObjs, orderObjs);
      } else {
        asks' := RemoveAndPrune(asks, p, orderId, m.asks, orderRegistry, askObjs, orderObjs);
      }
      Commit(bids', asks', orderRegistry, tradesCompleted, tryMatchFlag, bidObjs, askObjs, orderObjs,
             EB.Cancel(m, orderId).0);
    }

    /** An order that is registered and live takes the new price and quantity if the price is positive
        and the quantity more than is filled already; the answer tells whether that changed anything.
        Also growing the only order of a level is carried out as the source does it; what that does to
        the heads is in the model's marks. */
    method ModifyOrder(orderId: OrderId, newPrice: Price, newQuantity: Quantity) returns (ok: bool)
      requires Represents()
      modifies `bids, `asks, `orderRegistry, `tradesCompleted, `tryMatchFlag, `model, `bidObjs, `askObjs, `orderObjs
      modifies bidObjs, askObjs, orderObjs`price, orderObjs`quantity
      ensures Represents() && (model, ok) == EB.Modify(old(model), orderId, newPrice, newQuantity)
      ensures (model.Queues(), ok) == LB.Modify(old(model).Queues(), orderId, newPrice, newQuantity)
      ensures orderId !in old(model).orders ==> !ok && model == old(model)
      ensures orderId in old(model).orders ==>
                var d := old(model).orders[orderId];
                var passes := (d.status == NEW || d.status == PARTIALLY_FILLED) &&
                              newPrice > 0.0 && newQuantity > d.filled;
                && (ok <==> passes && (newPrice != d.price || newQuantity != d.quantity))
                && (if passes
                    then model.trades == old(model).trades &&
                         model.orders == old(model).orders[orderId := d.(price := newPrice, quantity := newQuantity)]
                    else model == old(model))
      ensures old(model).Marks().Clean() ==>
                (model.Marks().Clean() <==> !LB.GrowsSoleOrder(old(model).Queues(), orderId, newPrice, newQuantity))
      ensures orderRegistry == old(orderRegistry) && orderObjs == old(orderObjs)
      ensures fresh(bidObjs - old(bidObjs)) && fresh(askObjs - old(askObjs))
    {
      hide *;
      ghost var m := model;
      Known();
      EB.ModifyAgrees(m, orderId, newPrice, newQuantity);
      MarksAfter(m, orderId, newPrice, newQuantity);
      ModifyShape(m, orderId, newPrice, newQuantity);
      ModifyMeans(m, orderId, newPrice, newQuantity);
      OrderKnown(orderRegistry, m.orders, orderObjs, orderId);
      if orderId !in orderRegistry {
        return false;
      }
      var order := orderRegistry[orderId];
      if order.status == CANCELLED || order.status == FULLY_FILLED {
        return false;
      }
      if !order.Data().Accepts(newPrice, newQuantity) {
        return false;
      }
      LevelOf(m, orderId);
      var bids', asks', flag := bids, asks, tryMatchFlag;
      ghost var bidObjs', askObjs' := bidObjs, askObjs;
      if order.side == BUY {
        bids', flag, ok, bidObjs' := ModifyOrderDispatcher(bids, order, orderId, newPrice, newQuantity, flag, m.bids,
                                                           orderRegistry, m.orders, bidObjs, orderObjs);
      } else {
        asks', flag, ok, askObjs' := ModifyOrderDispatcher(asks, order, orderId, newPrice, newQuantity, flag, m.asks,
                                                           orderRegistry, m.orders, askObjs, orderObjs);
      }
      Commit(bids', asks', orderRegistry, tradesCompleted, flag, bidObjs', askObjs', orderObjs,
             EB.Modify(m, orderId, newPrice, newQuantity).0);
    }

    /** -1 when nobody bids, else the price of the first bid in price-time order. */
    function GetBestBid(): (p: Price)
      requires Represents()
      reads `bids, `asks, `orderRegistry, `tradesCompleted, `tryMatchFlag, `model, `bidObjs, `askObjs, `orderObjs
      reads bidObjs, askObjs, orderObjs
      ensures var flat := Refinement.Flat(model.Queues()).bids;
              if flat == [] then p == -1.0 else flat[0] in model.orders && p == model.orders[flat[0]].price
    {
      BestIsFirst(model, BUY);
      if bids == map[] then -1.0 else LB.Best(BUY, bids.Keys)
    }

    function GetBestAsk(): (p: Price)
      requires Represents()
      reads `bids, `asks, `orderRegistry, `tradesCompleted, `tryMatchFlag, `model, `bidObjs, `askObjs, `orderObjs
      reads bidObjs, askObjs, orderObjs
      ensures var flat := Refinement.Flat(model.Queues()).asks;
              if flat == [] then p == -1.0 else flat[0] in model.orders && p == model.orders[flat[0]].price
    {
      BestIsFirst(model, SELL);
      if asks == map[] then -1.0 else LB.Best(SELL, asks.Keys)
    }

    /** The level sizes add up to the number of live orders of the side. */
    method GetTotalBidOrders() returns (res: nat)
      requires Represents()
      ensures res == |LB.LiveOf(BUY, model.orders)|
    {
      res := TotalSize(BUY, bids, model.bids, model.orders, orderRegistry, bidObjs, orderObjs);
      Refinement.FlattenSize(BUY, model.Queues().bids, model.orders);
    }

    method GetTotalAskOrders() returns (res: nat)
      requires Represents()
      ensures res == |LB.LiveOf(SELL, model.orders)|
    {
      res := TotalSize(SELL, asks, model.asks, model.orders, orderRegistry, askObjs, orderObjs);
      Refinement.FlattenSize(SELL, model.Queues().asks, model.orders);
    }
  }

  lemma FrontsKnown(m: EB.Book, p: Price, q: Price)
    requires m.Inv() && EB.Crossed(m)
    requires p == LB.Best(BUY, m.bids.Keys) && q == LB.Best(SELL, m.asks.Keys)
    ensures p in m.bids && m.bids[p].Sound() && m.bids[p].Indexed() && !m.bids[p].Empty()
    ensures q in m.asks && m.asks[q].Sound() && m.asks[q].Indexed() && !m.asks[q].Empty()
    ensures var bid, ask := EB.FrontOf(m.bids[p]), EB.FrontOf(m.asks[q]);
            && bid in m.orders && ask in m.orders && bid != ask
            && 0 <= m.orders[bid].Remaining() && 0 <= m.orders[ask].Remaining()
  {
    EB.LevelKnown(m, BUY, p);
    EB.LevelKnown(m, SELL, q);
    EB.FrontKnown(m, BUY, p);
    EB.FrontKnown(m, SELL, q);
  }

  /** A round, part by part. */
  lemma RoundShape(m: EB.Book, p: Price, q: Price)
    requires m.Inv() && EB.Crossed(m)
    requires p == LB.Best(BUY, m.bids.Keys) && q == LB.Best(SELL, m.asks.Keys)
    requires p in m.bids && m.bids[p].Indexed() && !m.bids[p].Empty()
    requires q in m.asks && m.asks[q].Indexed() && !m.asks[q].Empty()
    requires var bid, ask := EB.FrontOf(m.bids[p]), EB.FrontOf(m.asks[q]);
             bid in m.orders && ask in m.orders &&
             0 <= m.orders[bid].Remaining() && 0 <= m.orders[ask].Remaining()
    ensures var bid, ask := EB.FrontOf(m.bids[p]), EB.FrontOf(m.asks[q]);
            var orders := EB.Matched(m.orders, bid, ask);
            && bid in orders && ask in orders
            && var bids := EB.Settled(m.bids, p, orders[bid].status == FULLY_FILLED);
               var asks := EB.Settled(m.asks, q, orders[ask].status == FULLY_FILLED);
               && (EB.Round(m).Defined? <==> bids.Defined? && asks.Defined?)
               && (EB.Round(m).Defined? ==>
                     EB.Round(m).value == EB.Book(bids.value, asks.value, orders, m.trades + 1, m.flag))
  {
    hide EB.Book.Inv, EB.Settled, EB.FrontOf, LB.Best, EB.Crossed;
  }

  lemma AddShape(m: EB.Book, id: OrderId, client: ClientOrder)
    requires m.Inv() && id !in m.orders
    ensures Resting(client).Live() && Resting(client).Sound()
    ensures EB.Rest(m, id, Resting(client)).Inv()
    ensures EB.Add(m, id, client) == EB.TryMatch(EB.Rest(m, id, Resting(client)))
  {
    EB.RestAgrees(m, id, Resting(client));
  }

  lemma LevelOf(m: EB.Book, id: OrderId)
    requires m.Inv() && id in m.orders && m.orders[id].Live()
    ensures var d := m.orders[id];
            var levels := if d.side == BUY then m.bids else m.asks;
            d.price in levels && levels[d.price].Sound() && levels[d.price].Indexed()
  {
    EB.Resident(m, id);
    EB.LevelKnown(m, m.orders[id].side, m.orders[id].price);
  }

  /** A cancellation, part by part. */
  lemma CancelShape(m: EB.Book, id: OrderId)
    requires m.Inv()
    ensures var (r, ok) := EB.Cancel(m, id);
            && r.Inv() && (ok <==> id in m.orders && m.orders[id].Live())
            && (!ok ==> r == m)
            && (ok ==>
                  var d := m.orders[id];
                  var levels := if d.side == BUY then m.bids else m.asks;
                  && d.price in levels && levels[d.price].Indexed()
                  && var left := EB.Prune(EB.Leave(levels, d.price, id), d.price);
                     r == EB.Book(if d.side == BUY then left else m.bids, if d.side == BUY then m.asks else left,
                                  m.orders[id := d.(status := CANCELLED)], m.trades, m.flag))
  {
    hide EB.Book.Inv, EB.Prune, EB.Leave;
    if id in m.orders && m.orders[id].Live() {
      EB.Resident(m, id);
    }
  }

  /** Who can be cancelled, and what becomes of the order table. */
  lemma CancelMeans(m: EB.Book, id: OrderId)
    requires m.Inv()
    ensures var (r, ok) := EB.Cancel(m, id);
            && (ok <==> id in m.orders && (m.orders[id].status == NEW || m.orders[id].status == PARTIALLY_FILLED))
            && (!ok ==> r == m)
            && (ok ==> r.trades == m.trades && r.orders == m.orders[id := m.orders[id].(status := CANCELLED)])
  {
    hide EB.Book.Inv, EB.Prune, EB.Leave;
    CancelShape(m, id);
  }

  /** Which modifications are carried out, and what becomes of the order table. */
  lemma ModifyMeans(m: EB.Book, id: OrderId, price: Price, quantity: Quantity)
    requires m.Inv()
    ensures var (r, ok) := EB.Modify(m, id, price, quantity);
            && (id !in m.orders ==> !ok && r == m)
            && (id in m.orders ==>
                  var d := m.orders[id];
                  var passes := (d.status == NEW || d.status == PARTIALLY_FILLED) && price > 0.0 && quantity > d.filled;
                  && (ok <==> passes && (price != d.price || quantity != d.quantity))
                  && (if passes then r.trades == m.trades &&
                                     r.orders == m.orders[id := d.(price := price, quantity := quantity)]
                      else r == m))
  {
    hide EB.Book.Inv, EB.Moved, EB.Modify;
    ModifyShape(m, id, price, quantity);
  }

  /** What an order that joins a level leaves in the order table; it cannot trade. */
  lemma JoinMeans(m: EB.Book, id: OrderId, client: ClientOrder)
    requires m.Inv() && id !in m.orders && client.price in m.Levels(client.side)
    ensures var r := EB.Add(m, id, client);
            && r.Defined? && r.value.trades == m.trades
            && r.value.orders ==
               m.orders[id := OrderData(client.side, client.price, client.quantity, 0, NEW)]
  {
    hide EB.Book.Inv, EB.Join, EB.MatchLoop;
    AddShape(m, id, client);
  }

  lemma ModifyShape(m: EB.Book, id: OrderId, price: Price, quantity: Quantity)
    requires m.Inv()
    ensures var (r, ok) := EB.Modify(m, id, price, quantity);
            && r.Inv()
            && if id in m.orders && m.orders[id].Live() && m.orders[id].Accepts(price, quantity) then
                 var d := m.orders[id];
                 var levels := if d.side == BUY then m.bids else m.asks;
                 && d.price in levels && levels[d.price].Indexed()
                 && (ok <==> price != d.price || quantity != d.quantity)
                 && var moved := EB.Moved(levels, id, d, price, quantity);
                    r == EB.Book(if d.side == BUY then moved else m.bids, if d.side == BUY then m.asks else moved,
                                 m.orders[id := d.(price := price, quantity := quantity)], m.trades,
                                 if price != d.price then price !in levels else m.flag)
               else !ok && r == m
  {
    hide EB.Book.Inv, EB.Moved;
    if id in m.orders && m.orders[id].Live() && m.orders[id].Accepts(price, quantity) {
      EB.Resident(m, id);
    }
  }

  /** The loop, one round at a time. */
  lemma LoopStep(m: EB.Book)
    requires m.Inv()
    ensures m.bids == map[] || m.asks == map[] ==> !EB.Crossed(m) && EB.MatchLoop(m) == Defined(m)
    ensures m.bids != map[] && m.asks != map[] ==>
              && (EB.Crossed(m) <==> LB.Best(BUY, m.bids.Keys) >= LB.Best(SELL, m.asks.Keys))
              && (!EB.Crossed(m) ==> EB.MatchLoop(m) == Defined(m.(flag := false)))
              && (EB.Crossed(m) && EB.Round(m).Undefined? ==> EB.MatchLoop(m) == Undefined)
              && (EB.Crossed(m) && EB.Round(m).Defined? ==>
                    && EB.Round(m).value.Inv() && EB.MatchLoop(m) == EB.MatchLoop(EB.Round(m).value)
                    && EB.Round(m).value.Queues().LiveIds() < m.Queues().LiveIds())
  {
    hide EB.Book.Inv, EB.Round, LB.Trade, LB.Best;
    if EB.Crossed(m) {
      EB.RoundAgrees(m);
    }
  }

  lemma MarksAfter(m: EB.Book, id: OrderId, price: Price, quantity: Quantity)
    requires m.Inv()
    ensures var marks := HeadMarks.Modify(m.Queues(), m.Marks(), id, price, quantity);
            m.Marks().Clean() ==> (marks.Clean() <==> !LB.GrowsSoleOrder(m.Queues(), id, price, quantity))
  {
    if m.Marks().Clean() {
      HeadMarks.CleanModify(m.Queues(), m.Marks(), id, price, quantity);
    }
  }

  lemma BestIsFirst(b: EB.Book, side: Side)
    requires b.Inv()
    ensures var m := b.Queues();
            var flat, levels := Refinement.Flatten(side, m.Levels(side)), b.Levels(side);
            && (levels == map[] <==> flat == [])
            && (levels != map[] ==> flat[0] in m.orders && m.orders[flat[0]].price == LB.Best(side, levels.Keys))
  {
    var m := b.Queues();
    EB.SameEnds(b);
    FrontListed(m, side);
  }

  lemma FrontListed(m: LB.Book, side: Side)
    requires m.Inv()
    ensures var flat, levels := Refinement.Flatten(side, m.Levels(side)), m.Levels(side);
            && (levels == map[] <==> flat == [])
            && (levels != map[] ==> flat[0] in m.orders && m.orders[flat[0]].price == LB.Best(side, levels.Keys))
  {
    hide Refinement.Flatten, LB.Best;
    Refinement.FlattenFront(side, m.Levels(side), m.orders);
    if m.Levels(side) != map[] {
      var id := LB.FrontId(m, side);
    }
  }

  method TotalSize(side: Side, levels: Levels, ghost reps: EB.Levels, ghost orders: map<OrderId, OrderData>,
                   ghost registry: map<OrderId, Order>, ghost levelObjs: set<PriceLevel>, ghost orderObjs: set<Order>)
    returns (res: nat)
    requires SideHolds(levels, reps, registry, levelObjs, orderObjs) && EB.LevelsInv(side, reps, orders)
    ensures res == |Refinement.Flatten(side, EB.QueuesOf(reps))|
  {
    hide Refinement.Flatten, Rep.Sound, Rep.Queue, EB.QueuesOf;
    var rest := levels;
    ghost var restReps := reps;
    res := 0;
    NoneFlat(side);
    while rest != map[]
      invariant SideHolds(rest, restReps, registry, levelObjs, orderObjs) && EB.LevelsInv(side, restReps, orders)
      invariant res + |Refinement.Flatten(side, EB.QueuesOf(restReps))| == |Refinement.Flatten(side, EB.QueuesOf(reps))|
      decreases |rest|
    {
      var p := LB.Best(side, rest.Keys);
      assert Holds(rest[p], restReps[p], registry, orderObjs);
      BestFlat(side, restReps, orders, p);
      res := res + rest[p].Size();
      rest, restReps := rest - {p}, restReps - {p};
    }
    assert restReps == map[];
  }

  lemma NoneFlat(side: Side)
    ensures Refinement.Flatten(side, EB.QueuesOf(map[])) == []
  {
    assert EB.QueuesOf(map[]) == map[];
  }

  lemma BestFlat(side: Side, reps: EB.Levels, orders: map<OrderId, OrderData>, p: Price)
    requires reps != map[] && p == LB.Best(side, reps.Keys) && EB.LevelsInv(side, reps, orders)
    ensures reps[p].Sound() && EB.LevelsInv(side, reps - {p}, orders)
    ensures Refinement.Flatten(side, EB.QueuesOf(reps)) ==
            reps[p].Queue() + Refinement.Flatten(side, EB.QueuesOf(reps - {p}))
  {
    EB.LevelAt(side, reps, orders, p);
    EB.DropKeeps(side, reps, orders, p);
    Refinement.FlattenAt(side, EB.QueuesOf(reps), p);
  }
}
