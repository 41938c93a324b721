/** When a new order meets a haunted level, told from an uncrossed book without running the loop. */
module GhostSweep {
  import opened Core
  import opened Orders
  import opened Runs
  import opened SourceRuns
  import EB = EntryBook
  import Fills
  import HeadMarks
  import LB = LevelBook
  import PT = PriceTimeBook
  import Refinement

  /** A trade with the order at `i`, after one with each order before it, finds the order's level
      haunted: it was so before, or it was stale and has lost an order by then. */
  predicate Blocked(m: HeadMarks.SideMarks, ids: seq<OrderId>, orders: PT.Table, i: nat)
    requires i < |ids| && forall x <- ids :: x in orders
  {
    var p := orders[ids[i]].price;
    p in m.haunted || (p in m.stale && i > 0 && orders[ids[i - 1]].price == p)
  }

  /** One of the first `t` orders is blocked. */
  ghost predicate SweepBlocked(m: HeadMarks.SideMarks, ids: seq<OrderId>, orders: PT.Table, t: nat)
    requires forall x <- ids :: x in orders
  {
    exists i :: 0 <= i < t && i < |ids| && Blocked(m, ids, orders, i)
  }

  /** Popping the first order changes what is blocked behind it in the same way as counting it did. */
  lemma BlockedNext(m: HeadMarks.SideMarks, queue: seq<OrderId>, rest: seq<OrderId>, q: Price,
                    orders: PT.Table, orders': PT.Table, i: nat)
    requires queue != [] && i + 1 < |queue + rest| && q !in m.haunted
    requires forall x <- queue :: x in orders && orders[x].price == q
    requires forall x <- rest :: x in orders && orders[x].price != q
    requires forall x <- queue + rest :: x in orders && x in orders' && orders'[x].price == orders[x].price
    ensures Blocked(m.Popped(q, queue), (queue + rest)[1..], orders', i) <==> Blocked(m, queue + rest, orders, i + 1)
  {
    var ids := queue + rest;
    assert ids[1..][i] == ids[i + 1] && (i > 0 ==> ids[1..][i - 1] == ids[i]);
    assert ids[i] in ids && ids[i + 1] in ids;
    assert if i + 1 < |queue| then ids[i + 1] in queue && ids[i] in queue else ids[i + 1] in rest;
    assert ids[0] in queue;
  }

  lemma SweepNext(m: HeadMarks.SideMarks, queue: seq<OrderId>, rest: seq<OrderId>, q: Price,
                  orders: PT.Table, orders': PT.Table, t: nat)
    requires queue != [] && q !in m.haunted
    requires forall x <- queue :: x in orders && orders[x].price == q
    requires forall x <- rest :: x in orders && orders[x].price != q
    requires forall x <- queue + rest :: x in orders && x in orders' && orders'[x].price == orders[x].price
    ensures SweepBlocked(m.Popped(q, queue), (queue + rest)[1..], orders', t)
            <==> SweepBlocked(m, queue + rest, orders, t + 1)
  {
    var ids, m' := queue + rest, m.Popped(q, queue);
    assert ids[0] in queue && !Blocked(m, ids, orders, 0);
    forall i: nat | i + 1 < |ids| ensures Blocked(m', ids[1..], orders', i) <==> Blocked(m, ids, orders, i + 1) {
      BlockedNext(m, queue, rest, q, orders, orders', i);
    }
    hide Blocked;
    if i: nat :| i < t && i < |ids[1..]| && Blocked(m', ids[1..], orders', i) {
      assert Blocked(m, ids, orders, i + 1);
    }
    if i: nat :| i < t + 1 && i < |ids| && Blocked(m, ids, orders, i) {
      assert Blocked(m', ids[1..], orders', i - 1);
    }
  }

  /** The front level of a side and the rest of the side behind it. */
  lemma FrontLevel(b: LB.Book, side: Side) returns (queue: seq<OrderId>, rest: seq<OrderId>)
    requires b.Inv() && b.Levels(side) != map[]
    ensures var q := LB.Best(side, b.Levels(side).Keys);
            && queue == b.Levels(side)[q] != [] && Refinement.Flat(b).Side(side) == queue + rest
            && LB.FrontId(b, side) == queue[0]
            && (forall x <- queue :: x in b.orders && b.orders[x].price == q)
            && (forall x <- rest :: x in b.orders && b.orders[x].price != q)
  {
    var levels := b.Levels(side);
    var q := LB.Best(side, levels.Keys);
    queue, rest := levels[q], Refinement.Flatten(side, levels - {q});
    Refinement.FlattenAt(side, levels, q);
    Refinement.FlattenKnown(side, levels - {q}, b.orders);
  }

  /** The two fronts of a crossed book in which `id` leads its side. */
  lemma FrontsKnown(b: LB.Book, side: Side, id: OrderId) returns (queue: seq<OrderId>, rest: seq<OrderId>)
    requires b.Inv() && Refinement.Flat(b).Inv() && Fills.Leads(Refinement.Flat(b), side, id) && LB.Crossed(b)
    requires id in b.orders
    ensures PT.Crossed(Refinement.Flat(b)) && b.Levels(side) != map[] && b.Levels(Opposite(side)) != map[]
    ensures LB.FrontId(b, side) == id && LB.Best(side, b.Levels(side).Keys) == b.orders[id].price
    ensures var q := LB.Best(Opposite(side), b.Levels(Opposite(side)).Keys);
            && queue == b.Levels(Opposite(side))[q] != []
            && Refinement.Flat(b).Side(Opposite(side)) == queue + rest
            && LB.FrontId(b, Opposite(side)) == queue[0]
            && (forall x <- queue :: x in b.orders && b.orders[x].price == q)
            && (forall x <- rest :: x in b.orders && b.orders[x].price != q)
  {
    Refinement.CrossedRefines(b);
    queue, rest := FrontLevel(b, Opposite(side));
  }

  /** A round that meets nothing, followed on both sides. */
  lemma TradeKnown(b: LB.Book, m: HeadMarks.Marks, side: Side, id: OrderId)
    requires b.Inv() && Refinement.Flat(b).Inv() && LB.Crossed(b) && PT.Crossed(Refinement.Flat(b))
    requires id in b.orders && b.Levels(side) != map[] && LB.FrontId(b, side) == id
    requires b.Levels(Opposite(side)) != map[]
    ensures LB.Trade(b).Inv() && Refinement.Flat(LB.Trade(b)).Inv()
    ensures Refinement.Flat(LB.Trade(b)) == PT.Trade(Refinement.Flat(b))
    ensures LB.Trade(b).LiveIds() < b.LiveIds()
    ensures var other := Opposite(side);
            var first, q := b.orders[LB.FrontId(b, other)].Remaining(), LB.Best(other, b.Levels(other).Keys);
            b.orders[id].Remaining() > first ==>
              && HeadMarks.Traded(b, m).Side(side) == m.Side(side)
              && HeadMarks.Traded(b, m).Side(other) == m.Side(other).Popped(q, b.Levels(other)[q])
  {
    Refinement.TradeRefines(b);
    Refinement.FlatInv(LB.Trade(b));
  }

  lemma NothingBlocked(m: HeadMarks.SideMarks, ids: seq<OrderId>, orders: PT.Table)
    requires forall x <- ids :: x in orders
    ensures !SweepBlocked(m, ids, orders, 0)
  {
  }

  /** The first is blocked exactly if its level is haunted. */
  lemma FirstBlocked(m: HeadMarks.SideMarks, ids: seq<OrderId>, orders: PT.Table, t: nat)
    requires ids != [] && t >= 1 && forall x <- ids :: x in orders
    ensures orders[ids[0]].price in m.haunted ==> SweepBlocked(m, ids, orders, t)
    ensures t == 1 ==> (SweepBlocked(m, ids, orders, t) <==> orders[ids[0]].price in m.haunted)
  {
    assert Blocked(m, ids, orders, 0) <==> orders[ids[0]].price in m.haunted;
  }

  /** An order that leads its side, from a level that is not haunted, meets a haunted level exactly if
      one of the orders it needs is blocked. */
  lemma {:induction false} SweepMeets(b: LB.Book, m: HeadMarks.Marks, side: Side, id: OrderId)
    requires b.Inv() && Refinement.Flat(b).Inv() && Fills.Leads(Refinement.Flat(b), side, id)
    requires id in b.orders && b.orders[id].side == side && b.orders[id].Live()
    requires b.orders[id].price !in m.Side(side).haunted
    ensures forall x <- Refinement.Flat(b).Side(Opposite(side)) :: x in b.orders
    ensures HeadMarks.Match(b, m).Undefined? <==>
              SweepBlocked(m.Side(Opposite(side)), Refinement.Flat(b).Side(Opposite(side)), b.orders,
                           Fills.Needed(Refinement.Flat(b), side, id))
    decreases b.LiveIds()
  {
    var flat, other := Refinement.Flat(b), Opposite(side);
    Fills.OppositeKnown(flat, side, id);
    hide LB.Book.Inv, PT.SideInv, Refinement.Flatten, Fills.Leads, Fills.Needed, SweepBlocked, LB.Trade, PT.Trade,
      HeadMarks.Traded, LB.Best, LB.FrontId;
    if !LB.Crossed(b) {
      Refinement.CrossedRefines(b);
      Fills.NothingToSweep(flat, side, id);
      NothingBlocked(m.Side(other), flat.Side(other), b.orders);
    } else {
      var queue, rest := FrontsKnown(b, side, id);
      var q := LB.Best(other, b.Levels(other).Keys);
      TradeKnown(b, m, side, id);
      Fills.NeededFirst(flat, side, id);
      assert flat.Side(other)[0] == queue[0] && queue[0] in queue;
      FirstBlocked(m.Side(other), flat.Side(other), b.orders, Fills.Needed(flat, side, id));
      assert HeadMarks.MeetsGhost(b, m) <==> q in m.Side(other).haunted;
      if q !in m.Side(other).haunted {
        var t, m' := LB.Trade(b), HeadMarks.Traded(b, m);
        if b.orders[id].Remaining() <= b.orders[queue[0]].Remaining() {
          Fills.RestUncrossed(flat, side, id);
          Refinement.CrossedRefines(t);
        } else {
          Fills.LeadsStill(flat, side, id);
          TradePrices(flat, side, id);
          SweepMeets(t, m', side, id);
          SweepNext(m.Side(other), queue, rest, q, b.orders, t.orders, Fills.Needed(PT.Trade(flat), side, id));
        }
      }
    }
  }

  /** A trade changes nobody's price, and takes the first order off the other side if it is the smaller. */
  lemma TradePrices(b: PT.Book, side: Side, id: OrderId)
    requires b.Inv() && PT.Crossed(b) && Fills.Leads(b, side, id) && id in b.orders
    requires b.Side(Opposite(side)) != []
    requires b.orders[id].Remaining() > b.orders[b.Side(Opposite(side))[0]].Remaining()
    ensures PT.Trade(b).Side(Opposite(side)) == b.Side(Opposite(side))[1..]
    ensures forall x <- b.orders :: x in PT.Trade(b).orders && PT.Trade(b).orders[x].price == b.orders[x].price
    ensures PT.Trade(b).orders[id].side == b.orders[id].side
  {
    Fills.TradeFrom(b, side);
  }

  /** The orders across from a new one, oldest of the best price first. */
  ghost function Across(b: LB.Book, client: ClientOrder): seq<OrderId> {
    Refinement.Flat(b).Side(Opposite(client.side))
  }

  /** The new order opens a level, and one of the orders it takes to serve it is blocked. */
  ghost predicate AddBlocked(b: LB.Book, m: HeadMarks.Marks, client: ClientOrder)
    requires forall x <- Across(b, client) :: x in b.orders
  {
    var side, opp := client.side, Across(b, client);
    && client.price !in b.Levels(side)
    && SweepBlocked(m.Side(Opposite(side)), opp, b.orders,
                    Fills.Takers(side, client.price, client.quantity, opp, b.orders))
  }

  lemma AcrossKnown(b: LB.Book, client: ClientOrder)
    requires b.Inv()
    ensures Refinement.Flat(b).Inv() && forall x <- Across(b, client) :: x in b.orders
  {
    Refinement.FlatInv(b);
  }

  /** From an uncrossed book, whose marks lie on its levels, the matching of a new order meets a haunted
      level exactly if the order is blocked. */
  lemma AddMeets(b: LB.Book, m: HeadMarks.Marks, id: OrderId, client: ClientOrder)
    requires b.Inv() && !LB.Crossed(b) && id !in b.orders
    requires m.Side(client.side).haunted <= b.Levels(client.side).Keys
    ensures forall x <- Across(b, client) :: x in b.orders
    ensures HeadMarks.Add(b, m, id, client).Undefined? <==> AddBlocked(b, m, client)
  {
    AcrossKnown(b, client);
    if client.price !in b.Levels(client.side) {
      RestBoth(b, id, client);
      hide LB.Book.Inv, PT.Book.Inv, Refinement.Flat, SweepBlocked, LB.Rest, Across;
      if LB.Crossed(LB.Rest(b, id, Resting(client))) {
        CrossingMeets(b, m, id, client);
      } else {
        Fills.AddRests(Refinement.Flat(b), id, client);
        NoneTaken(b, m, client);
      }
    }
  }

  /** A new order at rest, in the book of queues and in the reference. */
  lemma RestBoth(b: LB.Book, id: OrderId, client: ClientOrder)
    requires b.Inv() && id !in b.orders
    ensures Refinement.Flat(b).Inv() && Refinement.Flat(b).orders == b.orders
    ensures LB.Crossed(b) <==> PT.Crossed(Refinement.Flat(b))
    ensures var r, flat := LB.Rest(b, id, Resting(client)), Refinement.Flat(b);
            && r.Inv() && r.orders == b.orders[id := Resting(client)]
            && Refinement.Flat(r) == PT.Rest(flat, id, Resting(client)) && Refinement.Flat(r).Inv()
            && (LB.Crossed(r) <==> PT.Crossed(Refinement.Flat(r)))
  {
    Refinement.FlatInv(b);
    LB.RestInv(b, id, Resting(client));
    Refinement.RestRefines(b, id, Resting(client));
    Refinement.CrossedRefines(b);
    Refinement.FlatInv(LB.Rest(b, id, Resting(client)));
    Refinement.CrossedRefines(LB.Rest(b, id, Resting(client)));
  }

  lemma NoneTaken(b: LB.Book, m: HeadMarks.Marks, client: ClientOrder)
    requires forall x <- Across(b, client) :: x in b.orders
    requires Fills.Takers(client.side, client.price, client.quantity, Across(b, client), b.orders) == 0
    ensures !AddBlocked(b, m, client)
  {
  }

  lemma CrossingMeets(b: LB.Book, m: HeadMarks.Marks, id: OrderId, client: ClientOrder)
    requires b.Inv() && !LB.Crossed(b) && id !in b.orders && client.price !in b.Levels(client.side)
    requires client.price !in m.Side(client.side).haunted
    requires LB.Rest(b, id, Resting(client)).Inv() && LB.Crossed(LB.Rest(b, id, Resting(client)))
    requires forall x <- Across(b, client) :: x in b.orders
    ensures HeadMarks.Match(LB.Rest(b, id, Resting(client)), m).Undefined? <==> AddBlocked(b, m, client)
  {
    RestBoth(b, id, client);
    var r, flat, side, opp := LB.Rest(b, id, Resting(client)), Refinement.Flat(b), client.side, Across(b, client);
    RestAcross(flat, id, client);
    hide LB.Book.Inv, PT.Book.Inv, Refinement.Flatten, SweepBlocked, LB.Rest, PT.Rest, Fills.Leads;
    var at := PT.InsertAt(side, flat.Side(side), id, client.price, flat.orders);
    Fills.NewLeads(flat, id, client, at);
    SweepMeets(r, m, side, id);
    Fills.TakersSame(side, client.price, client.quantity, opp, b.orders, r.orders);
    BlockedSame(m.Side(Opposite(side)), opp, b.orders, r.orders, Fills.Needed(Refinement.Flat(r), side, id));
  }

  lemma RestAcross(b: PT.Book, id: OrderId, client: ClientOrder)
    requires b.Inv() && id !in b.orders
    ensures PT.Rest(b, id, Resting(client)).Side(Opposite(client.side)) == b.Side(Opposite(client.side))
    ensures forall x <- b.Side(Opposite(client.side)) :: x in b.orders && x != id
    ensures forall x <- b.Side(client.side) :: x in b.orders
  {
    Fills.RestKnown(b, id, Resting(client));
  }

  lemma BlockedSame(m: HeadMarks.SideMarks, ids: seq<OrderId>, orders: PT.Table, orders': PT.Table, t: nat)
    requires forall x <- ids :: x in orders && x in orders' && orders'[x] == orders[x]
    ensures SweepBlocked(m, ids, orders, t) <==> SweepBlocked(m, ids, orders', t)
  {
    assert forall i :: 0 <= i < |ids| ==> ids[i] in ids;
    assert forall i :: 0 <= i < |ids| ==> (Blocked(m, ids, orders, i) <==> Blocked(m, ids, orders', i));
  }

  /** The same for the source's book: adding to an uncrossed book is undefined exactly if the order is
      blocked. */
  lemma AddUndefined(b: EB.Book, id: OrderId, client: ClientOrder)
    requires b.Inv() && !EB.Crossed(b) && id !in b.orders
    ensures forall x <- Across(b.Queues(), client) :: x in b.orders
    ensures EB.Add(b, id, client).Undefined? <==> AddBlocked(b.Queues(), b.Marks(), client)
  {
    EB.AddAgrees(b, id, client);
    EB.SameEnds(b);
    AddMeets(b.Queues(), b.Marks(), id, client);
  }

  /** So the next ADD keeps a safe run safe exactly if it is not blocked, wherever the book is uncrossed. */
  lemma SafeAdd(log: seq<Step>, s: Step)
    requires IdsFresh(log + [s]) && s.cmd.kind == ADD
    ensures IdsFresh(log) && forall x <- Across(Book(log), s.cmd.order) :: x in Book(log).orders
    ensures !LB.Crossed(Book(log)) ==>
              (Safe(log + [s]) <==> Safe(log) && !AddBlocked(Book(log), Marks(log).value, s.cmd.order))
  {
    AddedSnoc(log, s);
    AcrossKnown(Book(log), s.cmd.order);
    if !LB.Crossed(Book(log)) {
      SnocStep(log, s);
      if Safe(log) {
        var b := Source(log).value;
        EB.SameEnds(b);
        AddMeets(Book(log), Marks(log).value, s.id, s.cmd.order);
      }
    }
  }
}
