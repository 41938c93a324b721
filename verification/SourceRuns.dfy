/** Whole runs of the book as the source stores it. On which runs it is the price-time book can be
    read off the commands, the queues and the marks (include/orderbook.h:46-257). */
module SourceRuns {
  import opened Core
  import opened Sequences
  import opened Orders
  import opened LevelRep
  import opened Runs
  import EB = EntryBook
  import HeadMarks
  import LB = LevelBook
  import Refinement

  function ApplyEntry(b: EB.Book, s: Step): (r: (Outcome<EB.Book>, Reply))
    requires b.Inv() && (s.cmd.kind == ADD ==> s.id !in b.orders)
    ensures r.0.Defined? ==> r.0.value.Inv()
  {
    match s.cmd.kind
    case ADD => (EB.Add(b, s.id, s.cmd.order), Registered(s.id))
    case MODIFY => var m := EB.Modify(b, s.cmd.id, s.cmd.order.price, s.cmd.order.quantity); (Defined(m.0), Done(m.1))
    case CANCEL => var c := EB.Cancel(b, s.cmd.id); (Defined(c.0), Done(c.1))
    case SHUTDOWN => (Defined(b), Done(true))
  }

  /** The marks after a command, from the queues and the marks before it. */
  function ApplyMarks(b: LB.Book, m: HeadMarks.Marks, s: Step): Outcome<HeadMarks.Marks>
    requires b.Inv() && (s.cmd.kind == ADD ==> s.id !in b.orders)
  {
    match s.cmd.kind
    case ADD => HeadMarks.Add(b, m, s.id, s.cmd.order)
    case MODIFY => Defined(HeadMarks.Modify(b, m, s.cmd.id, s.cmd.order.price, s.cmd.order.quantity))
    case CANCEL => Defined(HeadMarks.Cancel(b, m, s.cmd.id))
    case SHUTDOWN => Defined(m)
  }

  lemma ApplyAgrees(b: EB.Book, s: Step)
    requires b.Inv() && (s.cmd.kind == ADD ==> s.id !in b.orders)
    ensures var (r, reply) := ApplyEntry(b, s);
            var marks := ApplyMarks(b.Queues(), b.Marks(), s);
            && reply == Apply(b.Queues(), s).1 && (r.Defined? <==> marks.Defined?)
            && (r.Defined? ==> r.value.Queues() == Apply(b.Queues(), s).0 && r.value.Marks() == marks.value)
  {
    hide EB.Book.Inv, EB.Book.Queues, EB.Book.Marks, LB.Book.Inv;
    match s.cmd.kind
    case ADD => EB.AddAgrees(b, s.id, s.cmd.order);
    case MODIFY => EB.ModifyAgrees(b, s.cmd.id, s.cmd.order.price, s.cmd.order.quantity);
    case CANCEL => EB.CancelAgrees(b, s.cmd.id);
    case SHUTDOWN =>
  }

  /** The marks after a run, which end where the matching meets a haunted level. */
  function Marks(log: seq<Step>): Outcome<HeadMarks.Marks>
    requires IdsFresh(log)
  {
    if log == [] then Defined(HeadMarks.NONE)
    else
      var before, s := log[..|log| - 1], log[|log| - 1];
      AddedSnoc(before, s);
      assert log == before + [s];
      var m := Marks(before);
      if m.Undefined? then Undefined else ApplyMarks(Book(before), m.value, s)
  }

  /** No matching in the run meets a haunted level. */
  predicate Safe(log: seq<Step>)
    requires IdsFresh(log)
  {
    Marks(log).Defined?
  }

  /** The source's book after a run from the empty book. */
  ghost function Source(log: seq<Step>): (r: Outcome<EB.Book>)
    requires IdsFresh(log)
    ensures r.Defined? ==> r.value.Inv() && r.value.Queues() == Book(log)
    ensures r.Defined? <==> Safe(log)
    ensures r.Defined? ==> Marks(log) == Defined(r.value.Marks())
  {
    if log == [] then EmptyAgrees(); Defined(EB.EMPTY)
    else
      var before, s := log[..|log| - 1], log[|log| - 1];
      AddedSnoc(before, s);
      assert log == before + [s];
      var b := Source(before);
      if b.Undefined? then Undefined
      else
        SameOrders(b.value, before);
        ApplyAgrees(b.value, s);
        ApplyEntry(b.value, s).0
  }

  lemma EmptyAgrees()
    ensures EB.EMPTY.Inv() && EB.EMPTY.Queues() == LB.EMPTY && EB.EMPTY.Marks() == HeadMarks.NONE
  {
  }

  lemma SameOrders(b: EB.Book, log: seq<Step>)
    requires IdsFresh(log) && b.Queues() == Book(log)
    ensures b.orders.Keys == AddedIds(log)
  {
  }

  /** The replies of the source in a run. */
  ghost function SourceReplies(log: seq<Step>): seq<Reply>
    requires IdsFresh(log) && Safe(log)
  {
    if log == [] then []
    else
      var before, s := log[..|log| - 1], log[|log| - 1];
      AddedSnoc(before, s);
      assert log == before + [s];
      SameOrders(Source(before).value, before);
      SourceReplies(before) + [ApplyEntry(Source(before).value, s).1]
  }

  lemma {:induction false} RepliesAgree(log: seq<Step>)
    requires IdsFresh(log) && Safe(log)
    ensures SourceReplies(log) == Replies(log)
  {
    if log != [] {
      var before, s := log[..|log| - 1], log[|log| - 1];
      AddedSnoc(before, s);
      assert log == before + [s];
      RepliesAgree(before);
      SameOrders(Source(before).value, before);
      ApplyAgrees(Source(before).value, s);
    }
  }

  /** The source's run is defined exactly on the safe logs, and there it is the run of the price-time
      book: same order sequences, same fills and statuses, same trade count, same replies. */
  lemma RunRefines(log: seq<Step>)
    requires IdsFresh(log)
    ensures Source(log).Defined? <==> Safe(log)
    ensures Safe(log) ==>
              Refinement.Flat(Source(log).value.Queues()) == RunPT(log).0 && SourceReplies(log) == RunPT(log).1
  {
    Runs.RunRefines(log);
    if Safe(log) {
      RepliesAgree(log);
    }
  }

  /** In every defined state of the source's book an order is live exactly when a level's map holds
      it, and that is one level only: on its own side, at its current price. There its entry is
      valid. No level is empty. A valid entry that no map holds is the one that haunts its level. */
  lemma LiveIffResting(log: seq<Step>, id: OrderId)
    requires IdsFresh(log) && Safe(log) && id in Source(log).value.orders
    ensures var b, d := Source(log).value, Source(log).value.orders[id];
            && (d.Live() <==> d.price in b.Levels(d.side) && id in b.Levels(d.side)[d.price].index)
            && (forall side, p | p in b.Levels(side) && id in b.Levels(side)[p].index :: side == d.side && p == d.price)
    ensures forall side, p | p in Source(log).value.Levels(side) :: LevelInOrder(Source(log).value.Levels(side)[p])
  {
    hide Source, Safe, EB.Book.Inv, Rep.Sound, Rep.Queue, Rep.State;
    var b, d := Source(log).value, Source(log).value.orders[id];
    if d.Live() {
      EB.Resident(b, id);
    }
    forall side, p | p in b.Levels(side)
      ensures LevelInOrder(b.Levels(side)[p])
      ensures id in b.Levels(side)[p].index ==> d.Live() && side == d.side && p == d.price
    {
      EB.LevelKnown(b, side, p);
      InOrder(b.Levels(side)[p]);
      RestsThere(b.Queues(), side, p, id);
    }
  }

  lemma RestsThere(b: LB.Book, side: Side, p: Price, id: OrderId)
    requires b.Inv() && p in b.Levels(side)
    ensures id in b.Levels(side)[p] ==>
              id in b.orders && b.orders[id].Live() && b.orders[id].side == side && b.orders[id].price == p
  {
  }

  ghost predicate LevelInOrder(r: Rep) {
    && !r.Empty()
    && (forall id <- r.index :: r.index[id] < |r.entries| && r.entries[r.index[id]] == Entry(true, id))
    && (forall i :: 0 <= i < |r.entries| && r.entries[i].valid ==>
          if r.entries[i].id in r.index then r.index[r.entries[i].id] == i else r.State() == Haunted && i == r.head)
  }

  lemma InOrder(r: Rep)
    requires r.Sound() && r.Indexed() && !r.Empty()
    ensures LevelInOrder(r)
  {
    var c := r.Cleared();
    forall i | 0 <= i < |r.entries| && r.entries[i].valid
      ensures if r.entries[i].id in r.index then r.index[r.entries[i].id] == i else r.State() == Haunted && i == r.head
    {
      assert i != r.head || r.State() != Haunted ==> c.entries[i] == r.entries[i];
    }
  }

  // ---- telling beforehand ----

  /** Only an ADD that opens a level can end the safety of a run, and whether it does is known from
      the queues and the marks before it. */
  lemma SafeNext(log: seq<Step>, s: Step)
    requires IdsFresh(log + [s])
    ensures IdsFresh(log)
    ensures Safe(log + [s]) <==>
              && Safe(log)
              && (s.cmd.kind == ADD && s.cmd.order.price !in Book(log).Levels(s.cmd.order.side) ==>
                    && s.id !in Book(log).orders
                    && LB.Rest(Book(log), s.id, Resting(s.cmd.order)).Inv()
                    && HeadMarks.Match(LB.Rest(Book(log), s.id, Resting(s.cmd.order)), Marks(log).value).Defined?)
  {
    AddedSnoc(log, s);
    assert (log + [s])[..|log|] == log;
    if s.cmd.kind == ADD {
      LB.RestInv(Book(log), s.id, Resting(s.cmd.order));
    }
  }

  /** No modification in the run grows an order that is alone in its level. */
  ghost predicate NeverGrowsSole(log: seq<Step>)
    requires IdsFresh(log)
  {
    forall i :: 0 <= i < |log| && log[i].cmd.kind == MODIFY ==>
      !LB.GrowsSoleOrder(Book(log[..i]), log[i].cmd.id, log[i].cmd.order.price, log[i].cmd.order.quantity)
  }

  /** Such runs are safe: no head is ever out of place. */
  lemma {:induction false} SafeWithoutSoleGrowth(log: seq<Step>)
    requires IdsFresh(log) && NeverGrowsSole(log)
    ensures Marks(log) == Defined(HeadMarks.NONE) && Safe(log)
  {
    if log != [] {
      var n := |log| - 1;
      var before, s := log[..n], log[n];
      AddedSnoc(before, s);
      assert log == before + [s];
      assert forall i :: 0 <= i < n ==> before[i] == log[i] && before[..i] == log[..i];
      SafeWithoutSoleGrowth(before);
      hide ApplyMarks, Book, LB.Book.Inv, LB.GrowsSoleOrder;
      assert log[..n] == before;
      CleanStep(Book(before), s);
    }
  }

  lemma CleanStep(b: LB.Book, s: Step)
    requires b.Inv() && (s.cmd.kind == ADD ==> s.id !in b.orders)
    requires s.cmd.kind == MODIFY ==>
               !LB.GrowsSoleOrder(b, s.cmd.id, s.cmd.order.price, s.cmd.order.quantity)
    ensures ApplyMarks(b, HeadMarks.NONE, s) == Defined(HeadMarks.NONE)
  {
    hide LB.Book.Inv, HeadMarks.Add, HeadMarks.Modify, HeadMarks.Cancel, LB.GrowsSoleOrder;
    match s.cmd.kind
    case ADD => HeadMarks.CleanAdd(b, HeadMarks.NONE, s.id, s.cmd.order);
    case MODIFY => HeadMarks.CleanModify(b, HeadMarks.NONE, s.cmd.id, s.cmd.order.price, s.cmd.order.quantity);
    case CANCEL => HeadMarks.CleanCancel(b, HeadMarks.NONE, s.cmd.id);
    case SHUTDOWN =>
  }

  // ---- a run that is not safe ----

  /** BUY `q` at `p` as `a`; grow `a` to `grown`; BUY `joined` at `p` as `b`; SELL `sold` at `ask` as `c`. */
  function GhostRun(a: OrderId, b: OrderId, c: OrderId, p: Price, ask: Price,
                    q: Quantity, grown: Quantity, joined: Quantity, sold: Quantity): seq<Step>
  {
    [Step(OrderCommand(ADD, ClientOrder("", BUY, p, q), a), a),
     Step(OrderCommand(MODIFY, ClientOrder("", BUY, p, grown), a), a),
     Step(OrderCommand(ADD, ClientOrder("", BUY, p, joined), b), b),
     Step(OrderCommand(ADD, ClientOrder("", SELL, ask, sold), c), c)]
  }

  /** All such runs are safe up to the sale and not beyond it, if the sale is more than fills `a`:
      its first trade fills `a`, whose entry stays, and the second finds `a` again. */
  lemma GhostRunUndefined(a: OrderId, b: OrderId, c: OrderId, p: Price, ask: Price,
                          q: Quantity, grown: Quantity, joined: Quantity, sold: Quantity)
    requires a != b && a != c && b != c && p > 0.0 && ask <= p && q < grown < sold
    ensures var log := GhostRun(a, b, c, p, ask, q, grown, joined, sold);
            && IdsFresh(log) && IdsFresh(log[..3]) && Safe(log[..3])
            && !Safe(log) && Source(log) == Undefined
  {
    hide HeadMarks.Add, HeadMarks.Modify, LB.Add, LB.Modify, LB.Book.Inv, Source, Marks, Book, IdsFresh;
    var log := GhostRun(a, b, c, p, ask, q, grown, joined, sold);
    FreshIds(log);
    assert [] + [log[0]] == log[..1] && log[..1] + [log[1]] == log[..2];
    assert log[..2] + [log[2]] == log[..3] && log[..3] + [log[3]] == log;
    SnocStep([], log[0]);
    Bought(a, p, q);
    SnocStep(log[..1], log[1]);
    GrownAlone(a, p, q, grown);
    SnocStep(log[..2], log[2]);
    Joined(a, b, p, grown, joined);
    SnocStep(log[..3], log[3]);
    Sold(a, b, c, p, ask, grown, joined, sold);
  }

  lemma SnocStep(log: seq<Step>, s: Step)
    requires IdsFresh(log + [s])
    ensures IdsFresh(log) && (s.cmd.kind == ADD ==> s.id !in Book(log).orders)
    ensures Book(log + [s]) == Apply(Book(log), s).0
    ensures Marks(log + [s]) == if Safe(log) then ApplyMarks(Book(log), Marks(log).value, s) else Undefined
  {
    AddedSnoc(log, s);
    assert (log + [s])[..|log|] == log;
  }

  lemma FreshIds(log: seq<Step>)
    requires |log| == 4 && log[0].id != log[2].id && log[0].id != log[3].id && log[2].id != log[3].id
    requires log[1].cmd.kind != ADD
    ensures IdsFresh(log) && IdsFresh(log[..3]) && IdsFresh(log[..2]) && IdsFresh(log[..1]) && IdsFresh([])
    ensures Book([]) == LB.EMPTY && Marks([]) == Defined(HeadMarks.NONE)
  {
  }

  function Buy(p: Price, q: Quantity): OrderData {
    OrderData(BUY, p, q, 0, NEW)
  }

  function Bids(p: Price, ids: seq<OrderId>, orders: map<OrderId, OrderData>, flag: bool): LB.Book {
    LB.Book(map[p := ids], map[], orders, 0, flag)
  }

  function StaleBid(p: Price): HeadMarks.Marks {
    HeadMarks.Marks(HeadMarks.SideMarks({p}, {}), HeadMarks.UNMARKED)
  }

  lemma Opened(p: Price, id: OrderId, other: OrderId)
    ensures LB.Enqueue(map[], p, id) == map[p := [id]] && Without([id], id) == []
    ensures LB.Enqueue(map[p := [id]], p, other) == map[p := [id, other]]
    ensures id != other ==> Without([id, other], id) == [other]
    ensures map[p := [id]] - {p} == map[]
  {
    assert [] + [id] == [id] && [id] + [other] == [id, other];
    assert map[p := [id]][p := [id, other]] == map[p := [id, other]];
    assert [id, other][1..] == [other];
  }

  lemma Bought(a: OrderId, p: Price, q: Quantity)
    ensures LB.EMPTY.Inv() && a !in LB.EMPTY.orders
    ensures LB.Add(LB.EMPTY, a, ClientOrder("", BUY, p, q)) == Bids(p, [a], map[a := Buy(p, q)], true)
    ensures HeadMarks.Add(LB.EMPTY, HeadMarks.NONE, a, ClientOrder("", BUY, p, q)) == Defined(HeadMarks.NONE)
  {
    Opened(p, a, a);
    LB.RestInv(LB.EMPTY, a, Buy(p, q));
    assert LB.Rest(LB.EMPTY, a, Buy(p, q)) == Bids(p, [a], map[a := Buy(p, q)], true);
  }

  lemma GrownAlone(a: OrderId, p: Price, q: Quantity, grown: Quantity)
    requires p > 0.0 && q < grown
    requires Bids(p, [a], map[a := Buy(p, q)], true).Inv()
    ensures var b := Bids(p, [a], map[a := Buy(p, q)], true);
            && LB.Modify(b, a, p, grown).0 == Bids(p, [a], map[a := Buy(p, grown)], true)
            && HeadMarks.Modify(b, HeadMarks.NONE, a, p, grown) == StaleBid(p)
  {
    Opened(p, a, a);
  }

  lemma Joined(a: OrderId, b: OrderId, p: Price, grown: Quantity, joined: Quantity)
    requires a != b && Bids(p, [a], map[a := Buy(p, grown)], true).Inv()
    ensures var before, client := Bids(p, [a], map[a := Buy(p, grown)], true), ClientOrder("", BUY, p, joined);
            && b !in before.orders
            && LB.Add(before, b, client) == Bids(p, [a, b], map[a := Buy(p, grown), b := Buy(p, joined)], false)
            && HeadMarks.Add(before, StaleBid(p), b, client) == Defined(StaleBid(p))
  {
    Opened(p, a, b);
    LB.RestInv(Bids(p, [a], map[a := Buy(p, grown)], true), b, Buy(p, joined));
  }

  /** The sale trades with `a`, and then meets its ghost. */
  lemma Sold(a: OrderId, b: OrderId, c: OrderId, p: Price, ask: Price,
             grown: Quantity, joined: Quantity, sold: Quantity)
    requires a != b && a != c && b != c && ask <= p && grown < sold
    requires Bids(p, [a, b], map[a := Buy(p, grown), b := Buy(p, joined)], false).Inv()
    ensures var before := Bids(p, [a, b], map[a := Buy(p, grown), b := Buy(p, joined)], false);
            && c !in before.orders
            && HeadMarks.Add(before, StaleBid(p), c, ClientOrder("", SELL, ask, sold)) == Undefined
  {
    var before := Bids(p, [a, b], map[a := Buy(p, grown), b := Buy(p, joined)], false);
    var d := OrderData(SELL, ask, sold, 0, NEW);
    Opened(ask, c, c);
    LB.RestInv(before, c, d);
    var crossed := LB.Book(map[p := [a, b]], map[ask := [c]], before.orders[c := d], 0, true);
    assert LB.Rest(before, c, d) == crossed;
    GhostMet(crossed, a, b, c, p, ask);
  }

  lemma GhostMet(m: LB.Book, a: OrderId, b: OrderId, c: OrderId, p: Price, ask: Price)
    requires m.Inv() && m.bids == map[p := [a, b]] && m.asks == map[ask := [c]] && ask <= p && a != b
    requires a in m.orders && c in m.orders && m.orders[a].Remaining() < m.orders[c].Remaining()
    ensures HeadMarks.Match(m, StaleBid(p)) == Undefined
  {
    FirstSale(m, a, b, c, p, ask);
    hide LB.Trade, HeadMarks.Traded, LB.Book.Inv;
    OnlyLevels(m, p, ask);
    OnlyLevels(LB.Trade(m), p, ask);
    var marks := HeadMarks.Traded(m, StaleBid(p));
    assert !HeadMarks.MeetsGhost(m, StaleBid(p)) && HeadMarks.MeetsGhost(LB.Trade(m), marks);
    assert HeadMarks.Match(LB.Trade(m), marks) == Undefined;
  }

  lemma FirstSale(m: LB.Book, a: OrderId, b: OrderId, c: OrderId, p: Price, ask: Price)
    requires m.Inv() && m.bids == map[p := [a, b]] && m.asks == map[ask := [c]] && ask <= p && a != b
    requires a in m.orders && c in m.orders && m.orders[a].Remaining() < m.orders[c].Remaining()
    ensures LB.Crossed(m) && LB.Trade(m).bids == map[p := [b]] && LB.Trade(m).asks == map[ask := [c]]
    ensures p in HeadMarks.Traded(m, StaleBid(p)).bids.haunted
  {
    OnlyLevels(m, p, ask);
    FirstFronts(m, a, b, c, p, ask);
    hide LB.Trade, LB.Book.Inv, EB.Matched, LB.FrontId, LB.Best, Without;
    EB.TradeShape(m, p, ask);
    SmallerFilled(m.orders, a, c);
    FirstGone(p, a, b);
  }

  lemma FirstGone(p: Price, a: OrderId, b: OrderId)
    requires a != b
    ensures LB.Dequeue(map[p := [a, b]], p, a) == map[p := [b]]
  {
    Opened(p, a, b);
    hide Without;
    assert map[p := [a, b]][p := [b]] == map[p := [b]];
  }

  lemma FirstFronts(m: LB.Book, a: OrderId, b: OrderId, c: OrderId, p: Price, ask: Price)
    requires m.Inv() && m.bids == map[p := [a, b]] && m.asks == map[ask := [c]]
    ensures m.bids != map[] && LB.FrontId(m, BUY) == a && m.asks != map[] && LB.FrontId(m, SELL) == c
    ensures a in m.orders && c in m.orders && LB.TradeSize(m) == Min(m.orders[a].Remaining(), m.orders[c].Remaining())
  {
    assert p in m.bids && ask in m.asks;
  }

  lemma SmallerFilled(orders: map<OrderId, OrderData>, a: OrderId, c: OrderId)
    requires a in orders && c in orders && a != c && 0 <= orders[a].Remaining() < orders[c].Remaining()
    ensures EB.Matched(orders, a, c)[a].status == FULLY_FILLED && EB.Matched(orders, a, c)[c].status != FULLY_FILLED
  {
  }

  lemma OnlyLevels(m: LB.Book, p: Price, ask: Price)
    requires m.bids.Keys == {p} && m.asks.Keys == {ask} && ask <= p
    ensures LB.Best(BUY, m.bids.Keys) == p && LB.Best(SELL, m.asks.Keys) == ask && LB.Crossed(m)
  {
    assert p in m.bids && ask in m.asks;
  }
}
