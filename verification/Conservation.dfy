/** What no run can change: both sides are always filled by the same amount, nobody is overfilled,
    and trades and filled orders keep step. */
module Conservation {
  import opened Core
  import opened Orders
  import opened PriceTimeBook
  import opened Runs
  import opened SourceRuns

  function Share(side: Side, d: OrderData): int {
    if d.side == side then d.filled else 0
  }

  /** The quantity filled so far over all the given orders of one side. */
  ghost function FilledOf(side: Side, ids: set<OrderId>, orders: Table): int
    requires ids <= orders.Keys
  {
    if ids == {} then 0
    else
      var id :| id in ids;
      Share(side, orders[id]) + FilledOf(side, ids - {id}, orders)
  }

  ghost function Filled(side: Side, orders: Table): int {
    FilledOf(side, orders.Keys, orders)
  }

  /** Any order may be taken out of the sum first. */
  lemma {:induction false} FilledPull(side: Side, ids: set<OrderId>, orders: Table, id: OrderId)
    requires ids <= orders.Keys && id in ids
    ensures FilledOf(side, ids, orders) == Share(side, orders[id]) + FilledOf(side, ids - {id}, orders)
  {
    var x :| x in ids && FilledOf(side, ids, orders) == Share(side, orders[x]) + FilledOf(side, ids - {x}, orders);
    if x != id {
      FilledPull(side, ids - {x}, orders, id);
      FilledPull(side, ids - {id}, orders, x);
      assert ids - {x} - {id} == ids - {id} - {x};
    }
  }

  lemma {:induction false} FilledSame(side: Side, ids: set<OrderId>, orders: Table, orders': Table)
    requires ids <= orders.Keys && ids <= orders'.Keys
    requires forall id <- ids :: Share(side, orders[id]) == Share(side, orders'[id])
    ensures FilledOf(side, ids, orders) == FilledOf(side, ids, orders')
  {
    if ids != {} {
      var id :| id in ids;
      FilledPull(side, ids, orders, id);
      FilledPull(side, ids, orders', id);
      FilledSame(side, ids - {id}, orders, orders');
    }
  }

  /** One changed or new order changes the sum by the change of its own share. */
  lemma FilledUpdate(side: Side, orders: Table, id: OrderId, d: OrderData)
    ensures Filled(side, orders[id := d]) ==
            Filled(side, orders) + Share(side, d) - if id in orders then Share(side, orders[id]) else 0
  {
    var orders' := orders[id := d];
    var others := orders.Keys - {id};
    FilledPull(side, orders'.Keys, orders', id);
    assert orders'.Keys - {id} == others;
    FilledSame(side, others, orders, orders');
    if id in orders {
      FilledPull(side, orders.Keys, orders, id);
    } else {
      assert others == orders.Keys;
    }
  }

  ghost predicate Balanced(b: Book) {
    Filled(BUY, b.orders) == Filled(SELL, b.orders)
  }

  ghost function FullyFilled(orders: Table): set<OrderId> {
    set id | id in orders && orders[id].status == FULLY_FILLED
  }

  /** A trade fills at least one order, and at most two. */
  ghost predicate InStep(b: Book) {
    b.trades <= |FullyFilled(b.orders)| <= 2 * b.trades
  }

  lemma TradeConserves(b: Book)
    requires b.Inv() && Crossed(b)
    ensures Balanced(b) ==> Balanced(Trade(b))
    ensures InStep(b) ==> InStep(Trade(b))
  {
    FrontsKnown(b);
    hide SideInv, FilledOf;
    var bid, ask := b.bids[0], b.asks[0];
    var n := Min(b.orders[bid].Remaining(), b.orders[ask].Remaining());
    FillsBalance(b.orders, bid, ask, n);
    FillsCount(b.orders, bid, ask, n);
  }

  lemma FillsBalance(orders: Table, bid: OrderId, ask: OrderId, n: int)
    requires bid in orders && orders[bid].side == BUY && 0 <= n <= orders[bid].Remaining()
    requires ask in orders && orders[ask].side == SELL && 0 <= n <= orders[ask].Remaining()
    ensures var orders' := orders[bid := orders[bid].Fill(n)][ask := orders[ask].Fill(n)];
            && Filled(BUY, orders') == Filled(BUY, orders) + n
            && Filled(SELL, orders') == Filled(SELL, orders) + n
  {
    hide FilledOf;
    var orders1 := orders[bid := orders[bid].Fill(n)];
    FilledUpdate(BUY, orders, bid, orders[bid].Fill(n));
    FilledUpdate(BUY, orders1, ask, orders[ask].Fill(n));
    FilledUpdate(SELL, orders, bid, orders[bid].Fill(n));
    FilledUpdate(SELL, orders1, ask, orders[ask].Fill(n));
  }

  lemma FillsCount(orders: Table, bid: OrderId, ask: OrderId, n: int)
    requires bid in orders && ask in orders && bid != ask && orders[bid].Live() && orders[ask].Live()
    requires n == Min(orders[bid].Remaining(), orders[ask].Remaining()) && n >= 0
    ensures var orders' := orders[bid := orders[bid].Fill(n)][ask := orders[ask].Fill(n)];
            |FullyFilled(orders)| + 1 <= |FullyFilled(orders')| <= |FullyFilled(orders)| + 2
  {
    FillCount(orders, bid, n);
    FillCount(orders[bid := orders[bid].Fill(n)], ask, n);
  }

  lemma FillCount(orders: Table, id: OrderId, n: int)
    requires id in orders && orders[id].Live() && 0 <= n <= orders[id].Remaining()
    ensures |FullyFilled(orders[id := orders[id].Fill(n)])| ==
            |FullyFilled(orders)| + if n == orders[id].Remaining() then 1 else 0
  {
    assert FullyFilled(orders[id := orders[id].Fill(n)]) ==
           FullyFilled(orders) + if n == orders[id].Remaining() then {id} else {};
  }

  lemma {:induction false} MatchConserves(b: Book)
    requires b.Inv()
    ensures Balanced(b) ==> Balanced(Match(b))
    ensures InStep(b) ==> InStep(Match(b))
    decreases |b.bids| + |b.asks|
  {
    if Crossed(b) {
      TradeInv(b);
      TradeConserves(b);
      MatchConserves(Trade(b));
    }
  }

  lemma TableConserves(b: Book, b': Book, id: OrderId, d: OrderData)
    requires b'.orders == b.orders[id := d] && b'.trades == b.trades
    requires d.status != FULLY_FILLED
    requires if id in b.orders then b.orders[id].status != FULLY_FILLED && b.orders[id].side == d.side
                                    && b.orders[id].filled == d.filled
             else d.filled == 0
    ensures Balanced(b) ==> Balanced(b')
    ensures InStep(b) ==> InStep(b')
  {
    FilledUpdate(BUY, b.orders, id, d);
    FilledUpdate(SELL, b.orders, id, d);
    assert FullyFilled(b'.orders) == FullyFilled(b.orders);
  }

  lemma ApplyConserves(b: Book, s: Step)
    requires b.Inv() && (s.cmd.kind == ADD ==> s.id !in b.orders)
    ensures Balanced(b) ==> Balanced(ApplyPT(b, s).0)
    ensures InStep(b) ==> InStep(ApplyPT(b, s).0)
  {
    hide Book.Inv, Balanced, InStep, Add, Modify, Cancel;
    match s.cmd.kind
    case ADD => AddConserves(b, s.id, s.cmd.order);
    case MODIFY => ModifyConserves(b, s.cmd.id, s.cmd.order.price, s.cmd.order.quantity);
    case CANCEL => CancelConserves(b, s.cmd.id);
    case SHUTDOWN =>
  }

  lemma AddConserves(b: Book, id: OrderId, client: ClientOrder)
    requires b.Inv() && id !in b.orders
    ensures Balanced(b) ==> Balanced(Add(b, id, client))
    ensures InStep(b) ==> InStep(Add(b, id, client))
  {
    hide SideInv, Insert, Match, Balanced, InStep;
    RestInv(b, id, Resting(client));
    TableConserves(b, Rest(b, id, Resting(client)), id, Resting(client));
    MatchConserves(Rest(b, id, Resting(client)));
  }

  lemma ModifyConserves(b: Book, id: OrderId, price: Price, quantity: Quantity)
    requires b.Inv()
    ensures Balanced(b) ==> Balanced(Modify(b, id, price, quantity).0)
    ensures InStep(b) ==> InStep(Modify(b, id, price, quantity).0)
  {
    hide SideInv, Insert, Balanced, InStep;
    var b' := Modify(b, id, price, quantity).0;
    if b' != b {
      TableConserves(b, b', id, b'.orders[id]);
    }
  }

  lemma CancelConserves(b: Book, id: OrderId)
    requires b.Inv()
    ensures Balanced(b) ==> Balanced(Cancel(b, id).0)
    ensures InStep(b) ==> InStep(Cancel(b, id).0)
  {
    hide SideInv, Balanced, InStep;
    var b' := Cancel(b, id).0;
    if b' != b {
      TableConserves(b, b', id, b'.orders[id]);
    }
  }

  lemma {:induction false} RunKeeps(log: seq<Step>)
    requires IdsFresh(log)
    ensures Balanced(RunPT(log).0) && InStep(RunPT(log).0)
  {
    if log != [] {
      hide SideInv, ApplyPT, Balanced, InStep;
      var before, s := log[..|log| - 1], log[|log| - 1];
      AddedSnoc(before, s);
      assert log == before + [s];
      RunKeeps(before);
      ApplyConserves(RunPT(before).0, s);
    }
  }

  /** After every safe run of adds, cancels and modifications, in the book as the source stores it,
      everything bought has been sold, no order is filled beyond its quantity, and
      `trades <= |fully filled orders| <= 2 * trades`. */
  lemma RunConserves(log: seq<Step>)
    requires IdsFresh(log) && Safe(log)
    ensures var b := Source(log).value;
            && Filled(BUY, b.orders) == Filled(SELL, b.orders)
            && b.trades <= |FullyFilled(b.orders)| <= 2 * b.trades
            && forall id <- b.orders :: b.orders[id].filled <= b.orders[id].quantity
  {
    hide Source, FilledOf;
    RunKeeps(log);
    SourceRuns.RunRefines(log);
    assert RunPT(log).0.Inv();
  }
}
