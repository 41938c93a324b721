/** Whole runs of a book: the commands it was given, each ADD with the id it was issued. */
module Runs {
  import opened Core
  import opened Orders
  import LB = LevelBook
  import PT = PriceTimeBook
  import Refinement

  /** For an ADD, `id` is the issued id; otherwise it is ignored. */
  datatype Step = Step(cmd: OrderCommand, id: OrderId)

  datatype Reply = Registered(id: OrderId) | Done(ok: bool)

  /** No id is issued twice. */
  ghost predicate IdsFresh(log: seq<Step>) {
    forall i, j :: 0 <= i < j < |log| && log[i].cmd.kind == ADD && log[j].cmd.kind == ADD ==> log[i].id != log[j].id
  }

  ghost function AddedIds(log: seq<Step>): set<OrderId> {
    set i | 0 <= i < |log| && log[i].cmd.kind == ADD :: log[i].id
  }

  /** What `process_command` does to the book of the command's instrument. */
  function Apply(b: LB.Book, s: Step): (r: (LB.Book, Reply))
    requires b.Inv() && (s.cmd.kind == ADD ==> s.id !in b.orders)
    ensures r.0.Inv()
  {
    match s.cmd.kind
    case ADD => (LB.Add(b, s.id, s.cmd.order), Registered(s.id))
    case MODIFY => var m := LB.Modify(b, s.cmd.id, s.cmd.order.price, s.cmd.order.quantity); (m.0, Done(m.1))
    case CANCEL => var c := LB.Cancel(b, s.cmd.id); (c.0, Done(c.1))
    case SHUTDOWN => (b, Done(true))
  }

  function ApplyPT(b: PT.Book, s: Step): (r: (PT.Book, Reply))
    requires b.Inv() && (s.cmd.kind == ADD ==> s.id !in b.orders)
    ensures r.0.Inv()
  {
    match s.cmd.kind
    case ADD => (PT.Add(b, s.id, s.cmd.order), Registered(s.id))
    case MODIFY => var m := PT.Modify(b, s.cmd.id, s.cmd.order.price, s.cmd.order.quantity); (m.0, Done(m.1))
    case CANCEL => var c := PT.Cancel(b, s.cmd.id); (c.0, Done(c.1))
    case SHUTDOWN => (b, Done(true))
  }

  /** The table of a book grows by exactly the added id. */
  lemma ApplyKeys(b: LB.Book, s: Step)
    requires b.Inv() && (s.cmd.kind == ADD ==> s.id !in b.orders)
    ensures Apply(b, s).0.orders.Keys == b.orders.Keys + if s.cmd.kind == ADD then {s.id} else {}
  {
    if s.cmd.kind == ADD {
      var r := LB.Rest(b, s.id, Resting(s.cmd.order));
      LB.RestInv(b, s.id, Resting(s.cmd.order));
      MatchKeys(r);
    }
  }

  lemma {:induction false} MatchKeys(b: LB.Book)
    requires b.Inv()
    ensures LB.MatchLoop(b).orders.Keys == b.orders.Keys
    decreases b.LiveIds()
  {
    LB.MatchLoopStep(b);
    if LB.Crossed(b) {
      hide LB.MatchLoop, LB.Trade, LB.Book.Inv, LB.Best;
      TradeKeys(b);
      MatchKeys(LB.Trade(b));
    }
  }

  lemma TradeKeys(b: LB.Book)
    requires b.Inv() && LB.Crossed(b)
    ensures LB.Trade(b).orders.Keys == b.orders.Keys
  {
    LB.TradeInv(b);
    hide LB.Book.Inv, LB.Best;
  }

  /** The book after a run from the empty book. */
  function Book(log: seq<Step>): (b: LB.Book)
    requires IdsFresh(log)
    ensures b.Inv() && b.orders.Keys == AddedIds(log)
  {
    if log == [] then LB.EMPTY
    else
      var before, s := log[..|log| - 1], log[|log| - 1];
      AddedSnoc(before, s);
      assert log == before + [s];
      ApplyKeys(Book(before), s);
      Apply(Book(before), s).0
  }

  lemma AddedSnoc(log: seq<Step>, s: Step)
    ensures AddedIds(log + [s]) == AddedIds(log) + if s.cmd.kind == ADD then {s.id} else {}
    ensures IdsFresh(log + [s]) ==> IdsFresh(log) && (s.cmd.kind == ADD ==> s.id !in AddedIds(log))
    ensures IdsFresh(log) && (s.cmd.kind == ADD ==> s.id !in AddedIds(log)) ==> IdsFresh(log + [s])
  {
    var log' := log + [s];
    assert forall i :: 0 <= i < |log| ==> log'[i] == log[i];
    assert log'[|log|] == s;
    forall id | id in AddedIds(log) + (if s.cmd.kind == ADD then {s.id} else {}) ensures id in AddedIds(log') {
      if id in AddedIds(log) {
        var i :| 0 <= i < |log| && log[i].cmd.kind == ADD && log[i].id == id;
        assert log'[i].id == id;
      }
    }
  }

  /** The replies of a run, in order. */
  function Replies(log: seq<Step>): seq<Reply>
    requires IdsFresh(log)
  {
    if log == [] then []
    else
      var before, s := log[..|log| - 1], log[|log| - 1];
      AddedSnoc(before, s);
      assert log == before + [s];
      Replies(before) + [Apply(Book(before), s).1]
  }

  /** The same run on the reference book. */
  ghost function RunPT(log: seq<Step>): (r: (PT.Book, seq<Reply>))
    requires IdsFresh(log)
    ensures r.0.Inv() && r.0.orders.Keys == AddedIds(log)
  {
    if log == [] then (PT.EMPTY, [])
    else
      var before, s := log[..|log| - 1], log[|log| - 1];
      AddedSnoc(before, s);
      assert log == before + [s];
      var (b, replies) := RunPT(before);
      var (b', reply) := ApplyPT(b, s);
      ApplyKeysPT(b, s);
      (b', replies + [reply])
  }

  lemma ApplyKeysPT(b: PT.Book, s: Step)
    requires b.Inv() && (s.cmd.kind == ADD ==> s.id !in b.orders)
    ensures ApplyPT(b, s).0.orders.Keys == b.orders.Keys + if s.cmd.kind == ADD then {s.id} else {}
  {
    hide PT.SideInv, PT.Insert, PT.Match, PT.Crossed;
    if s.cmd.kind == ADD {
      PT.RestInv(b, s.id, Resting(s.cmd.order));
      MatchKeysPT(PT.Rest(b, s.id, Resting(s.cmd.order)));
    }
  }

  lemma {:induction false} MatchKeysPT(b: PT.Book)
    requires b.Inv()
    ensures PT.Match(b).orders.Keys == b.orders.Keys
    decreases |b.bids| + |b.asks|
  {
    if PT.Crossed(b) {
      PT.TradeInv(b);
      MatchKeysPT(PT.Trade(b));
    }
  }

  /** The answer to each command, and what becomes of the registered orders. */
  lemma StepMeans(b: PT.Book, s: Step)
    requires b.Inv() && (s.cmd.kind == ADD ==> s.id !in b.orders)
    ensures var (r, reply) := ApplyPT(b, s);
            match s.cmd.kind
            case ADD => reply == Registered(s.id) && r.orders.Keys == b.orders.Keys + {s.id}
            case CANCEL =>
              var ok := s.cmd.id in b.orders &&
                        (b.orders[s.cmd.id].status == NEW || b.orders[s.cmd.id].status == PARTIALLY_FILLED);
              && reply == Done(ok) && r.trades == b.trades
              && r.orders == if ok then b.orders[s.cmd.id := b.orders[s.cmd.id].(status := CANCELLED)] else b.orders
            case MODIFY =>
              var id, price, quantity := s.cmd.id, s.cmd.order.price, s.cmd.order.quantity;
              var ok := id in b.orders && (b.orders[id].status == NEW || b.orders[id].status == PARTIALLY_FILLED) &&
                        price > 0.0 && quantity > b.orders[id].filled;
              && reply == Done(ok && (price != b.orders[id].price || quantity != b.orders[id].quantity))
              && r.trades == b.trades
              && r.orders == if ok then b.orders[id := b.orders[id].(price := price, quantity := quantity)]
                             else b.orders
            case SHUTDOWN => r == b
  {
    ApplyKeysPT(b, s);
    hide PT.SideInv, PT.Insert, PT.Add;
  }

  lemma ApplyRefines(b: LB.Book, s: Step)
    requires b.Inv() && (s.cmd.kind == ADD ==> s.id !in b.orders)
    requires Refinement.Flat(b).Inv()
    ensures Refinement.Flat(Apply(b, s).0) == ApplyPT(Refinement.Flat(b), s).0
    ensures Apply(b, s).1 == ApplyPT(Refinement.Flat(b), s).1
  {
    match s.cmd.kind
    case ADD => Refinement.AddRefines(b, s.id, s.cmd.order);
    case MODIFY => Refinement.ModifyRefines(b, s.cmd.id, s.cmd.order.price, s.cmd.order.quantity);
    case CANCEL => Refinement.CancelRefines(b, s.cmd.id);
    case SHUTDOWN =>
  }

  /** Every run of the level book, flattened, is the run of the price-time book: same order
      sequences, same fills and statuses, same trade count, same replies. */
  lemma {:induction false} RunRefines(log: seq<Step>)
    requires IdsFresh(log)
    ensures Refinement.Flat(Book(log)) == RunPT(log).0
    ensures Replies(log) == RunPT(log).1
  {
    if log != [] {
      var before, s := log[..|log| - 1], log[|log| - 1];
      AddedSnoc(before, s);
      assert log == before + [s];
      RunRefines(before);
      Refinement.FlatInv(Book(before));
      ApplyRefines(Book(before), s);
    }
  }
}
