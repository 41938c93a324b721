/** When the book is crossed, and why matching only for an order that opens a level is enough. */
module Trading {
  import opened Core
  import opened Sequences
  import opened Orders
  import opened PriceTimeBook
  import opened Runs
  import opened SourceRuns
  import EB = EntryBook
  import Refinement

  // ---- crossing ----

  ghost predicate Apart(side: Side, price: Price, opposite: seq<OrderId>, orders: Table)
    requires forall x <- opposite :: x in orders
  {
    forall x <- opposite :: !Crosses(side, price, orders[x].price)
  }

  /** On one side of an uncrossed book nobody crosses anybody on the other. */
  lemma UncrossedApart(b: Book, side: Side)
    requires b.Inv() && !Crossed(b)
    ensures forall x <- b.Side(side) :: Apart(side, b.orders[x].price, b.Side(Opposite(side)), b.orders)
  {
    forall x <- b.Side(side), y <- b.Side(Opposite(side))
      ensures !Crosses(side, b.orders[x].price, b.orders[y].price)
    {
      var i :| 0 <= i < |b.Side(side)| && b.Side(side)[i] == x;
      var j :| 0 <= j < |b.Side(Opposite(side))| && b.Side(Opposite(side))[j] == y;
    }
  }

  /** An order that joins a price already taken leaves the fronts alone. */
  lemma RestAtTaken(b: Book, id: OrderId, d: OrderData)
    requires b.Inv() && id !in b.orders && d.Live() && d.Sound() && PriceTaken(b, d.side, d.price)
    ensures Rest(b, id, d).Inv()
    ensures b.Side(d.side) != [] && Rest(b, id, d).Side(d.side) != []
    ensures Rest(b, id, d).Side(d.side)[0] == b.Side(d.side)[0]
    ensures Crossed(Rest(b, id, d)) <==> Crossed(b)
  {
    RestInv(b, id, d);
    var ids := b.Side(d.side);
    var x :| x in ids && b.orders[x].price == d.price;
    var i :| 0 <= i < |ids| && ids[i] == x;
    var k := InsertAt(d.side, ids, id, d.price, b.orders);
    assert !Better(d.side, b.orders[ids[i]].price, b.orders[ids[0]].price);
    assert k > 0;
  }

  lemma {:induction false} MatchTrades(b: Book)
    requires b.Inv()
    ensures Match(b).trades >= b.trades
    ensures Crossed(b) ==> Match(b).trades > b.trades
    decreases |b.bids| + |b.asks|
  {
    if Crossed(b) {
      TradeInv(b);
      MatchTrades(Trade(b));
    }
  }

  /** Skipping the match for a taken price is sound exactly when the book was not crossed. */
  lemma GateSound(b: Book, id: OrderId, client: ClientOrder)
    requires b.Inv() && id !in b.orders
    ensures Rest(b, id, Resting(client)).Inv()
    ensures Add(b, id, client) == Match(Rest(b, id, Resting(client)))
            <==> !Crossed(b) || !PriceTaken(b, client.side, client.price)
  {
    RestInv(b, id, Resting(client));
    if PriceTaken(b, client.side, client.price) {
      RestAtTaken(b, id, Resting(client));
      MatchTrades(Rest(b, id, Resting(client)));
    }
  }

  /** After an add the book is crossed only if it was before and no level was opened. */
  lemma AddCrossed(b: Book, id: OrderId, client: ClientOrder)
    requires b.Inv() && id !in b.orders
    ensures Crossed(Add(b, id, client)) <==> Crossed(b) && PriceTaken(b, client.side, client.price)
  {
    RestInv(b, id, Resting(client));
    if PriceTaken(b, client.side, client.price) {
      RestAtTaken(b, id, Resting(client));
    }
  }

  /** Somebody on the order's side, other than the order itself, would trade with the other side. */
  ghost predicate OthersCross(b: Book, id: OrderId)
    requires b.Inv() && id in b.orders
  {
    var side, opp := b.orders[id].side, b.Side(Opposite(b.orders[id].side));
    && opp != []
    && exists x <- b.Side(side) :: x != id && Crosses(side, b.orders[x].price, b.orders[opp[0]].price)
  }

  /** A book is crossed exactly if somebody on a side, no matter which, crosses the front of the other. */
  lemma CrossedBySome(b: Book, side: Side)
    requires b.Inv()
    ensures Crossed(b) <==>
              && b.Side(Opposite(side)) != []
              && exists x <- b.Side(side) :: Crosses(side, b.orders[x].price, b.orders[b.Side(Opposite(side))[0]].price)
  {
    var ids, opp := b.Side(side), b.Side(Opposite(side));
    if Crossed(b) {
      assert ids[0] in ids;
    } else if opp != [] {
      UncrossedApart(b, side);
      assert opp[0] in opp;
    }
  }

  /** After a cancellation a book is crossed exactly if the others cross. */
  lemma CancelCrossed(b: Book, id: OrderId)
    requires b.Inv()
    ensures Crossed(Cancel(b, id).0) <==>
              if id in b.orders && b.orders[id].Live() then OthersCross(b, id) else Crossed(b)
  {
    if id in b.orders && b.orders[id].Live() {
      var r, side := Cancel(b, id).0, b.orders[id].side;
      CrossedBySome(r, side);
      assert r.Side(side) == Without(b.Side(side), id) && r.Side(Opposite(side)) == b.Side(Opposite(side));
      SamePrices(b, r, side, id);
    }
  }

  /** The other side's front and the other orders of the side are as before. */
  lemma SamePrices(b: Book, r: Book, side: Side, id: OrderId)
    requires b.Inv() && r.Inv() && id in b.orders && b.orders[id].side == side
    requires r.orders.Keys == b.orders.Keys && forall x <- b.orders :: x != id ==> r.orders[x] == b.orders[x]
    requires r.Side(Opposite(side)) == b.Side(Opposite(side))
    requires forall x :: x != id ==> (x in r.Side(side) <==> x in b.Side(side))
    ensures OthersCross(b, id) <==>
              && r.Side(Opposite(side)) != []
              && exists x <- r.Side(side) ::
                   x != id && Crosses(side, r.orders[x].price, r.orders[r.Side(Opposite(side))[0]].price)
  {
    var opp := b.Side(Opposite(side));
    if opp != [] {
      assert opp[0] in opp && opp[0] != id;
    }
  }

  lemma CancelUncrossed(b: Book, id: OrderId)
    requires b.Inv() && !Crossed(b)
    ensures !Crossed(Cancel(b, id).0)
  {
    CancelCrossed(b, id);
    if id in b.orders && b.orders[id].Live() {
      CrossedBySome(b, b.orders[id].side);
    }
  }

  predicate Accepted(b: Book, id: OrderId, price: Price, quantity: Quantity) {
    id in b.orders && b.orders[id].Live() && b.orders[id].Accepts(price, quantity)
  }

  /** The modification leaves a live order at a price at which somebody on the other side would trade. */
  predicate LandsAcross(b: Book, id: OrderId, price: Price, quantity: Quantity)
    requires b.Inv()
  {
    && Accepted(b, id, price, quantity)
    && b.Side(Opposite(b.orders[id].side)) != []
    && Crosses(b.orders[id].side, price, b.orders[b.Side(Opposite(b.orders[id].side))[0]].price)
  }

  /** A modification never trades, so it can leave a book crossed: exactly if it lands across or the
      others cross. */
  lemma ModifyCrossed(b: Book, id: OrderId, price: Price, quantity: Quantity)
    requires b.Inv()
    ensures Crossed(Modify(b, id, price, quantity).0) <==>
              if Accepted(b, id, price, quantity) then OthersCross(b, id) || LandsAcross(b, id, price, quantity)
              else Crossed(b)
  {
    if Accepted(b, id, price, quantity) {
      var r, side := Modify(b, id, price, quantity).0, b.orders[id].side;
      ModifiedSide(b, id, price, quantity);
      CrossedBySome(r, side);
      SamePrices(b, r, side, id);
    }
  }

  lemma ModifiedSide(b: Book, id: OrderId, price: Price, quantity: Quantity)
    requires b.Inv() && Accepted(b, id, price, quantity)
    ensures var r, side := Modify(b, id, price, quantity).0, b.orders[id].side;
            && id in r.Side(side) && r.orders[id].price == price
            && r.Side(Opposite(side)) == b.Side(Opposite(side)) && id !in b.Side(Opposite(side))
            && (forall x :: x != id ==> (x in r.Side(side) <==> x in b.Side(side)))
  {
    var d := b.orders[id];
    var ids := Without(b.Side(d.side), id);
    InsertMembers(d.side, ids, id, price, b.orders);
  }

  /** In particular, an uncrossed book is crossed afterwards exactly if the modification lands across. */
  lemma ModifyAcross(b: Book, id: OrderId, price: Price, quantity: Quantity)
    requires b.Inv() && !Crossed(b)
    ensures Crossed(Modify(b, id, price, quantity).0) <==> LandsAcross(b, id, price, quantity)
  {
    ModifyCrossed(b, id, price, quantity);
    if Accepted(b, id, price, quantity) {
      CrossedBySome(b, b.orders[id].side);
    }
  }

  // ---- whole runs ----

  /** The command does not uncross a crossed book. */
  ghost predicate StaysCrossed(b: Book, s: Step)
    requires b.Inv()
  {
    match s.cmd.kind
    case ADD => PriceTaken(b, s.cmd.order.side, s.cmd.order.price)
    case MODIFY =>
      Accepted(b, s.cmd.id, s.cmd.order.price, s.cmd.order.quantity) ==> OthersCross(b, s.cmd.id)
    case CANCEL => s.cmd.id in b.orders && b.orders[s.cmd.id].Live() ==> OthersCross(b, s.cmd.id)
    case SHUTDOWN => true
  }

  ghost predicate StepLandsAcross(b: Book, s: Step)
    requires b.Inv()
  {
    s.cmd.kind == MODIFY && LandsAcross(b, s.cmd.id, s.cmd.order.price, s.cmd.order.quantity)
  }

  lemma StepCrossed(b: Book, s: Step)
    requires b.Inv() && (s.cmd.kind == ADD ==> s.id !in b.orders)
    ensures Crossed(ApplyPT(b, s).0) <==> (Crossed(b) && StaysCrossed(b, s)) || StepLandsAcross(b, s)
  {
    hide Book.Inv, Add, Modify, Cancel, PriceTaken, OthersCross, LandsAcross, Accepted;
    match s.cmd.kind
    case ADD => AddCrossed(b, s.id, s.cmd.order);
    case MODIFY =>
      ModifyCrossed(b, s.cmd.id, s.cmd.order.price, s.cmd.order.quantity);
      OthersCrossed(b, s.cmd.id);
      AcceptedKnown(b, s.cmd.id, s.cmd.order.price, s.cmd.order.quantity);
    case CANCEL =>
      CancelCrossed(b, s.cmd.id);
      OthersCrossed(b, s.cmd.id);
    case SHUTDOWN =>
  }

  lemma AcceptedKnown(b: Book, id: OrderId, price: Price, quantity: Quantity)
    requires b.Inv()
    ensures Accepted(b, id, price, quantity) ==> id in b.orders
    ensures LandsAcross(b, id, price, quantity) ==> Accepted(b, id, price, quantity)
  {
  }

  lemma OthersCrossed(b: Book, id: OrderId)
    requires b.Inv()
    ensures id in b.orders && OthersCross(b, id) ==> Crossed(b)
  {
    if id in b.orders {
      CrossedBySome(b, b.orders[id].side);
    }
  }

  ghost predicate LandsAt(log: seq<Step>, i: nat)
    requires IdsFresh(log) && i < |log|
  {
    StepLandsAcross(RunPT(log[..i]).0, log[i])
  }

  ghost predicate StaysAt(log: seq<Step>, i: nat)
    requires IdsFresh(log) && i < |log|
  {
    StaysCrossed(RunPT(log[..i]).0, log[i])
  }

  /** Some modification in the run lands across, and no command after it uncrosses the book. */
  ghost predicate EndsCrossed(log: seq<Step>)
    requires IdsFresh(log)
  {
    exists i :: 0 <= i < |log| && LandsAt(log, i) && forall j :: i < j < |log| ==> StaysAt(log, j)
  }

  lemma SameAt(before: seq<Step>, s: Step)
    requires IdsFresh(before + [s]) && IdsFresh(before)
    ensures forall i :: 0 <= i < |before| ==>
              (LandsAt(before + [s], i) <==> LandsAt(before, i)) && (StaysAt(before + [s], i) <==> StaysAt(before, i))
    ensures LandsAt(before + [s], |before|) <==> StepLandsAcross(RunPT(before).0, s)
    ensures StaysAt(before + [s], |before|) <==> StaysCrossed(RunPT(before).0, s)
  {
    hide RunPT, StaysCrossed, StepLandsAcross;
    var log := before + [s];
    assert log[..|before|] == before;
    assert forall i :: 0 <= i < |before| ==> log[..i] == before[..i] && log[i] == before[i];
  }

  lemma EndsSnoc(before: seq<Step>, s: Step)
    requires IdsFresh(before + [s]) && IdsFresh(before)
    ensures EndsCrossed(before + [s]) <==>
              (EndsCrossed(before) && StaysCrossed(RunPT(before).0, s)) || StepLandsAcross(RunPT(before).0, s)
  {
    hide RunPT, StaysCrossed, StepLandsAcross, LandsAt, StaysAt, IdsFresh, EndsCrossed;
    SameAt(before, s);
    var log, n := before + [s], |before|;
    if EndsCrossed(before) && StaysAt(log, n) {
      var i := EndsFrom(before);
      EndsIf(log, i);
    }
    if LandsAt(log, n) {
      EndsIf(log, n);
    }
    if EndsCrossed(log) {
      var i := EndsFrom(log);
      if i < n {
        EndsIf(before, i);
      }
    }
  }

  lemma EndsFrom(log: seq<Step>) returns (i: nat)
    requires IdsFresh(log) && EndsCrossed(log)
    ensures i < |log| && LandsAt(log, i) && forall j :: i < j < |log| ==> StaysAt(log, j)
  {
    hide LandsAt, StaysAt;
    i :| 0 <= i < |log| && LandsAt(log, i) && forall j :: i < j < |log| ==> StaysAt(log, j);
  }

  lemma EndsIf(log: seq<Step>, i: nat)
    requires IdsFresh(log) && i < |log| && LandsAt(log, i) && forall j :: i < j < |log| ==> StaysAt(log, j)
    ensures EndsCrossed(log)
  {
    hide LandsAt, StaysAt;
  }

  lemma {:induction false} ReferenceCrossed(log: seq<Step>)
    requires IdsFresh(log)
    ensures Crossed(RunPT(log).0) <==> EndsCrossed(log)
  {
    if log != [] {
      hide StaysCrossed, StepLandsAcross, EndsCrossed, ApplyPT, Book.Inv;
      var before, s := log[..|log| - 1], log[|log| - 1];
      AddedSnoc(before, s);
      assert log == before + [s];
      ReferenceCrossed(before);
      EndsSnoc(before, s);
      StepCrossed(RunPT(before).0, s);
    }
  }

  /** After a safe run the source's book is crossed exactly if some modification landed across and
      nothing has uncrossed it since: no order that opens a level, and no cancellation or modification
      of the only order that crosses. */
  lemma RunCrossed(log: seq<Step>)
    requires IdsFresh(log) && Safe(log)
    ensures EB.Crossed(Source(log).value) <==> EndsCrossed(log)
  {
    hide Source, EndsCrossed;
    ReferenceCrossed(log);
    SourceRuns.RunRefines(log);
    var m := Source(log).value.Queues();
    Refinement.FlatInv(m);
    Refinement.CrossedRefines(m);
  }

  /** No modification in the run lands across the book it meets. */
  ghost predicate NeverAcross(log: seq<Step>)
    requires IdsFresh(log)
  {
    forall i :: 0 <= i < |log| ==> !LandsAt(log, i)
  }

  /** Such runs, in particular all safe runs of adds and cancels, keep the source's book uncrossed. */
  lemma RunUncrossed(log: seq<Step>)
    requires IdsFresh(log) && NeverAcross(log) && Safe(log)
    ensures !EB.Crossed(Source(log).value)
  {
    hide Source, LandsAt, StaysAt;
    RunCrossed(log);
  }
}
