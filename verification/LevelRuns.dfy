/** Whole lives of a price level: how far its head gets, and when it cannot be told apart from the
    list level of include/price_level.h. */
module LevelRuns {
  import opened Core
  import opened Sequences
  import opened LevelRep
  import L = ListLevels

  datatype Op = AddOp(id: OrderId) | RemoveOp(id: OrderId) | PopOp(filled: bool)

  /** The level after one call, and what a removal answered. */
  function RepStep(r: Rep, op: Op): (o: Outcome<(Rep, seq<bool>)>)
    requires r.Indexed()
    ensures o.Defined? ==> o.value.0.Indexed()
  {
    match op
    case AddOp(id) => KeepIndexed(r, id, false); Defined((Add(r, id), []))
    case RemoveOp(id) => KeepIndexed(r, id, false); Defined((Remove(r, id), [id in r.index]))
    case PopOp(filled) =>
      KeepIndexed(r, 0, filled); if PopDefined(r, filled) then Defined((Pop(r, filled), [])) else Undefined
  }

  /** The level after a run, and all answers. */
  function RepRun(r: Rep, ops: seq<Op>): (o: Outcome<(Rep, seq<bool>)>)
    requires r.Indexed()
    ensures o.Defined? ==> o.value.0.Indexed()
  {
    if ops == [] then Defined((r, []))
    else
      var before := RepRun(r, ops[..|ops| - 1]);
      if before.Undefined? then Undefined
      else
        var after := RepStep(before.value.0, ops[|ops| - 1]);
        if after.Undefined? then Undefined else Defined((after.value.0, before.value.1 + after.value.1))
  }

  function AddsOf(ops: seq<Op>): seq<OrderId> {
    if ops == [] then []
    else AddsOf(ops[..|ops| - 1]) + if ops[|ops| - 1].AddOp? then [ops[|ops| - 1].id] else []
  }

  /** Whatever a level goes through, also where its head is on a tombstone or on a lost order, the
      head only moves forward and stays within the entries, of which there is one for each order
      added. So over a level's life the head advances at most once for each order added. */
  lemma {:induction false} HeadAdvances(r: Rep, ops: seq<Op>)
    requires r.Indexed() && RepRun(r, ops).Defined?
    ensures var r' := RepRun(r, ops).value.0;
            && r.head <= r'.head <= |r'.entries|
            && |r'.entries| == |r.entries| + |AddsOf(ops)|
  {
    if ops != [] {
      var before, op := ops[..|ops| - 1], ops[|ops| - 1];
      HeadAdvances(r, before);
      KeepIndexed(RepRun(r, before).value.0, 0, op.PopOp? && op.filled);
      if op.RemoveOp? {
        KeepIndexed(RepRun(r, before).value.0, op.id, false);
      }
    }
  }

  // ---- against the list level ----

  function ListStep(l: L.ListLevel, op: Op): Outcome<(L.ListLevel, seq<bool>)> {
    match op
    case AddOp(id) => Defined((L.Add(l, id), []))
    case RemoveOp(id) =>
      var r := L.Remove(l, id);
      if r.Undefined? then Undefined else Defined((r.value.0, [r.value.1]))
    case PopOp(filled) => Defined((L.Pop(l, filled), []))
  }

  function ListRun(l: L.ListLevel, ops: seq<Op>): Outcome<(L.ListLevel, seq<bool>)> {
    if ops == [] then Defined((l, []))
    else
      var before := ListRun(l, ops[..|ops| - 1]);
      if before.Undefined? then Undefined
      else
        var after := ListStep(before.value.0, ops[|ops| - 1]);
        if after.Undefined? then Undefined else Defined((after.value.0, before.value.1 + after.value.1))
  }

  /** What both are meant to hold: the resting orders, oldest first. */
  function QueueStep(q: seq<OrderId>, op: Op): seq<OrderId> {
    match op
    case AddOp(id) => q + [id]
    case RemoveOp(id) => Without(q, id)
    case PopOp(filled) => if q == [] || !filled then q else q[1..]
  }

  function QueueRun(ops: seq<Op>): seq<OrderId> {
    if ops == [] then [] else QueueStep(QueueRun(ops[..|ops| - 1]), ops[|ops| - 1])
  }

  /** Removals succeed exactly on orders that rest here. */
  function Answers(ops: seq<Op>): seq<bool> {
    if ops == [] then []
    else
      var before, op := ops[..|ops| - 1], ops[|ops| - 1];
      Answers(before) + if op.RemoveOp? then [op.id in QueueRun(before)] else []
  }

  /** Adds bring an order that does not rest here, and never to a level that has been drained. */
  ghost predicate Fits(ops: seq<Op>) {
    forall j :: 0 <= j < |ops| && ops[j].AddOp? ==> AddFits(ops[..j], ops[j].id)
  }

  ghost predicate AddFits(before: seq<Op>, id: OrderId) {
    id !in QueueRun(before) && (QueueRun(before) != [] || AddsOf(before) == [])
  }

  /** The call at `i` pops `id`. */
  ghost predicate PopsAt(ops: seq<Op>, i: nat, id: OrderId) {
    i < |ops| && ops[i] == PopOp(true) && [id] <= QueueRun(ops[..i])
  }

  /** `id` has been popped and not been added since. */
  ghost predicate Gone(ops: seq<Op>, id: OrderId) {
    exists i :: 0 <= i < |ops| && PopsAt(ops, i, id) && forall k :: i < k < |ops| ==> ops[k] != AddOp(id)
  }

  /** Some order is removed after it has been popped, and before it is added again. */
  ghost predicate RemovesGone(ops: seq<Op>) {
    exists j :: 0 <= j < |ops| && ops[j].RemoveOp? && Gone(ops[..j], ops[j].id)
  }

  lemma GoneSnoc(before: seq<Op>, op: Op, id: OrderId)
    ensures Gone(before + [op], id) <==>
              op != AddOp(id) && (Gone(before, id) || (op == PopOp(true) && [id] <= QueueRun(before)))
  {
    hide QueueRun;
    var ops, n := before + [op], |before|;
    assert ops[..n] == before;
    forall i | 0 <= i < n ensures PopsAt(ops, i, id) <==> PopsAt(before, i, id) {
      assert ops[..i] == before[..i];
    }
    assert PopsAt(ops, n, id) <==> op == PopOp(true) && [id] <= QueueRun(before);
    if Gone(before, id) && op != AddOp(id) {
      var i :| 0 <= i < n && PopsAt(before, i, id) && forall k :: i < k < n ==> before[k] != AddOp(id);
      assert PopsAt(ops, i, id) && forall k :: i < k < |ops| ==> ops[k] != AddOp(id);
    }
    if Gone(ops, id) {
      var i :| 0 <= i < |ops| && PopsAt(ops, i, id) && forall k :: i < k < |ops| ==> ops[k] != AddOp(id);
      assert i < n ==> ops[n] != AddOp(id) && forall k :: i < k < n ==> before[k] == ops[k];
    }
  }

  lemma RemovesGoneSnoc(before: seq<Op>, op: Op)
    ensures RemovesGone(before + [op]) <==> RemovesGone(before) || (op.RemoveOp? && Gone(before, op.id))
  {
    var ops, n := before + [op], |before|;
    assert ops[..n] == before;
    assert forall j :: 0 <= j < n ==> ops[..j] == before[..j] && ops[j] == before[j];
    if RemovesGone(before) {
      var j :| 0 <= j < n && before[j].RemoveOp? && Gone(before[..j], before[j].id);
      assert ops[j].RemoveOp? && Gone(ops[..j], ops[j].id);
    }
  }

  lemma FitsSnoc(before: seq<Op>, op: Op)
    requires Fits(before + [op])
    ensures Fits(before) && (op.AddOp? ==> AddFits(before, op.id))
  {
    var ops := before + [op];
    assert ops[..|before|] == before;
    assert forall j :: 0 <= j < |before| ==> ops[..j] == before[..j] && ops[j] == before[j];
  }

  // ---- the tombstone level follows the queue ----

  lemma StepFollows(r: Rep, q: seq<OrderId>, op: Op)
    requires r.Valid() && r.Indexed() && r.Queue() == q
    requires op.AddOp? ==> op.id !in q && (q != [] || r.entries == [])
    ensures var o := RepStep(r, op);
            && o.Defined? && o.value.0.Valid() && o.value.0.Queue() == QueueStep(q, op)
            && o.value.1 == if op.RemoveOp? then [op.id in q] else []
  {
    hide LiveIds, Rep.Exact;
    QueueIsIndex(r);
    InQueue(r, 0);
    match op
    case AddOp(id) => AddQueue(r, id);
    case RemoveOp(id) => if id in r.index { RemoveQueue(r, id); }
    case PopOp(filled) => if filled && !r.Empty() { PopQueue(r); }
  }

  lemma {:induction false} RunFollows(ops: seq<Op>)
    requires Fits(ops)
    ensures FRESH.Indexed() && RepRun(FRESH, ops).Defined?
    ensures var r := RepRun(FRESH, ops).value.0;
            r.Valid() && r.Queue() == QueueRun(ops) && (AddsOf(ops) == [] ==> r.entries == [])
    ensures RepRun(FRESH, ops).value.1 == Answers(ops)
  {
    if ops == [] {
      assert FRESH.Valid();
    } else {
      var before, op := ops[..|ops| - 1], ops[|ops| - 1];
      assert ops == before + [op];
      FitsSnoc(before, op);
      RunFollows(before);
      StepFollows(RepRun(FRESH, before).value.0, QueueRun(before), op);
      HeadAdvances(FRESH, ops);
    }
  }

  // ---- and so does the list level, as long as it is defined ----

  /** The orders popped and not added since, kept step by step. */
  function LostStep(q: seq<OrderId>, lost: set<OrderId>, op: Op): set<OrderId> {
    match op
    case AddOp(id) => lost - {id}
    case RemoveOp(id) => lost
    case PopOp(filled) => if q == [] || !filled then lost else lost + {q[0]}
  }

  function Lost(ops: seq<Op>): set<OrderId> {
    if ops == [] then {}
    else
      var before := ops[..|ops| - 1];
      LostStep(QueueRun(before), Lost(before), ops[|ops| - 1])
  }

  lemma {:induction false} LostIsGone(ops: seq<Op>, id: OrderId)
    ensures id in Lost(ops) <==> Gone(ops, id)
  {
    if ops != [] {
      var before, op := ops[..|ops| - 1], ops[|ops| - 1];
      assert ops == before + [op];
      LostIsGone(before, id);
      GoneSnoc(before, op, id);
    }
  }

  /** The list holds the queue; the map has an iterator to each of its nodes, and one that dangles for
      each lost order. */
  ghost predicate Holds(l: L.ListLevel, q: seq<OrderId>, lost: set<OrderId>) {
    && l.Inv() && l.Ids() == q && Distinct(q)
    && (forall n <- l.nodes :: n.id in l.iterators && l.iterators[n.id] == n.serial)
    && (forall id :: id in l.iterators <==> id in q || id in lost)
    && (forall id <- q :: id !in lost)
  }

  lemma NodeOf(l: L.ListLevel, id: OrderId) returns (k: nat)
    requires id in l.Ids()
    ensures k < |l.nodes| && l.nodes[k].id == id == l.Ids()[k] && l.nodes[k] in l.nodes
  {
    k :| 0 <= k < |l.Ids()| && l.Ids()[k] == id;
  }

  /** An iterator dangles exactly for a lost order. */
  lemma PointsUnlessLost(l: L.ListLevel, q: seq<OrderId>, lost: set<OrderId>, id: OrderId)
    requires Holds(l, q, lost) && id in l.iterators
    ensures l.PointsAt(id) <==> id in q
  {
    if id in q {
      var k := NodeOf(l, id);
    }
    if l.PointsAt(id) {
      var i :| 0 <= i < |l.nodes| && l.nodes[i].serial == l.iterators[id];
      assert l.nodes[i] in l.nodes && l.Ids()[i] in q;
    }
  }

  lemma ListAdds(l: L.ListLevel, q: seq<OrderId>, lost: set<OrderId>, id: OrderId)
    requires Holds(l, q, lost) && id !in q
    ensures Holds(L.Add(l, id), q + [id], lost - {id})
  {
    var l' := L.Add(l, id);
    assert l'.Ids() == l.Ids() + [id];
    forall n <- l'.nodes ensures n.id in l'.iterators && l'.iterators[n.id] == n.serial {
      if n in l.nodes {
        assert n.id != id by {
          var k :| 0 <= k < |l.nodes| && l.nodes[k] == n;
          assert l.Ids()[k] in q;
        }
      }
    }
  }

  lemma ListPops(l: L.ListLevel, q: seq<OrderId>, lost: set<OrderId>)
    requires Holds(l, q, lost) && q != []
    ensures Holds(L.Pop(l, true), q[1..], lost + {q[0]})
  {
    hide L.ListLevel.Inv, L.ListLevel.Ids, L.Pop, Distinct;
    PopParts(l);
    FirstApart(q);
  }

  lemma PopParts(l: L.ListLevel)
    requires l.Inv() && l.Ids() != []
    ensures var l' := L.Pop(l, true);
            && l'.Inv() && l'.Ids() == l.Ids()[1..] && l'.iterators == l.iterators
            && forall n <- l'.nodes :: n in l.nodes
  {
  }

  lemma FirstApart(q: seq<OrderId>)
    requires q != [] && Distinct(q)
    ensures Distinct(q[1..]) && q[0] !in q[1..]
    ensures forall id :: id in q <==> id == q[0] || id in q[1..]
  {
    assert q == [q[0]] + q[1..];
  }

  lemma ListRemoves(l: L.ListLevel, q: seq<OrderId>, lost: set<OrderId>, id: OrderId)
    requires Holds(l, q, lost)
    ensures L.Remove(l, id).Defined? <==> id !in lost
    ensures L.Remove(l, id).Defined? ==>
              L.Remove(l, id).value.1 == (id in q) && Holds(L.Remove(l, id).value.0, Without(q, id), lost)
  {
    if id in l.iterators {
      PointsUnlessLost(l, q, lost, id);
      if id in q {
        ListErases(l, q, lost, id);
      }
    }
  }

  /** Erasing the node of a queued order. */
  lemma ListErases(l: L.ListLevel, q: seq<OrderId>, lost: set<OrderId>, id: OrderId)
    requires Holds(l, q, lost) && id in l.iterators && id in q
    ensures Holds(l.(nodes := L.Erase(l.nodes, l.iterators[id]), iterators := l.iterators - {id}), Without(q, id), lost)
  {
    var k := WithoutAt(q, id);
    assert l.nodes[k].id == l.Ids()[k] == id && l.nodes[k] in l.nodes;
    L.EraseAt(l.nodes, k);
    WithoutDistinct(q, id);
    Shortened(l, q, k);
  }

  /** Taking out the node at `k` and its iterator. */
  lemma Shortened(l: L.ListLevel, q: seq<OrderId>, k: nat)
    requires l.Inv() && l.Ids() == q && Distinct(q) && k < |q|
    requires forall n <- l.nodes :: n.id in l.iterators && l.iterators[n.id] == n.serial
    ensures var nodes, rest := l.nodes[..k] + l.nodes[k + 1..], l.iterators - {q[k]};
            var l' := l.(nodes := nodes, iterators := rest);
            && l'.Inv() && l'.Ids() == q[..k] + q[k + 1..]
            && forall n <- nodes :: n.id in rest && rest[n.id] == n.serial
  {
    var nodes, rest := l.nodes[..k] + l.nodes[k + 1..], l.iterators - {q[k]};
    ShortInv(l, k, q[k]);
    hide L.ListLevel.Inv;
    forall i | 0 <= i < |nodes| ensures nodes[i] == l.nodes[if i < k then i else i + 1] && nodes[i].id != q[k] {
      var i' := if i < k then i else i + 1;
      assert l.Ids()[i'] == q[i'] != q[k];
    }
    forall n <- nodes ensures n.id in rest && rest[n.id] == n.serial {
      var i :| 0 <= i < |nodes| && nodes[i] == n;
      assert n in l.nodes;
    }
  }

  lemma ShortInv(l: L.ListLevel, k: nat, id: OrderId)
    requires l.Inv() && k < |l.nodes|
    ensures l.(nodes := l.nodes[..k] + l.nodes[k + 1..], iterators := l.iterators - {id}).Inv()
  {
    var nodes := l.nodes[..k] + l.nodes[k + 1..];
    assert forall i :: 0 <= i < |nodes| ==> nodes[i] == l.nodes[if i < k then i else i + 1];
    assert forall n <- nodes :: n in l.nodes;
  }

  lemma ListStepFollows(l: L.ListLevel, q: seq<OrderId>, lost: set<OrderId>, op: Op)
    requires Holds(l, q, lost) && (op.AddOp? ==> op.id !in q)
    ensures var o := ListStep(l, op);
            && (o.Defined? <==> !(op.RemoveOp? && op.id in lost))
            && (o.Defined? ==>
                  && Holds(o.value.0, QueueStep(q, op), LostStep(q, lost, op))
                  && o.value.1 == if op.RemoveOp? then [op.id in q] else [])
  {
    hide Holds, L.Remove;
    EmptyTogether(l, q, lost);
    match op
    case AddOp(id) => ListAdds(l, q, lost, id);
    case RemoveOp(id) => ListRemoves(l, q, lost, id);
    case PopOp(filled) => if q != [] && filled { ListPops(l, q, lost); }
  }

  lemma EmptyTogether(l: L.ListLevel, q: seq<OrderId>, lost: set<OrderId>)
    requires Holds(l, q, lost)
    ensures l.nodes == [] <==> q == []
  {
  }

  lemma {:induction false} ListFollows(ops: seq<Op>)
    requires Fits(ops)
    ensures ListRun(L.NO_ORDERS, ops).Defined? <==> !RemovesGone(ops)
    ensures ListRun(L.NO_ORDERS, ops).Defined? ==>
              && Holds(ListRun(L.NO_ORDERS, ops).value.0, QueueRun(ops), Lost(ops))
              && ListRun(L.NO_ORDERS, ops).value.1 == Answers(ops)
  {
    hide Holds, ListStep, QueueStep, LostStep, Gone, AddFits;
    if ops == [] {
      NothingHeld();
    } else {
      var before, op := ops[..|ops| - 1], ops[|ops| - 1];
      assert ops == before + [op];
      Snoc(before, op);
      ListFollows(before);
      if ListRun(L.NO_ORDERS, before).Defined? {
        ListStepFollows(ListRun(L.NO_ORDERS, before).value.0, QueueRun(before), Lost(before), op);
      }
    }
  }

  lemma NothingHeld()
    ensures Holds(L.NO_ORDERS, [], {}) && !RemovesGone([])
  {
  }

  /** What a run knows about its last call. */
  lemma Snoc(before: seq<Op>, op: Op)
    requires Fits(before + [op])
    ensures Fits(before) && (op.AddOp? ==> op.id !in QueueRun(before))
    ensures RemovesGone(before + [op]) <==> RemovesGone(before) || (op.RemoveOp? && op.id in Lost(before))
  {
    FitsSnoc(before, op);
    RemovesGoneSnoc(before, op);
    if op.RemoveOp? {
      LostIsGone(before, op.id);
    }
  }

  /** On every run that adds only orders that do not rest here, and only to a level that was never
      drained, the tombstone level is defined throughout. The list level is defined exactly if no
      order is removed after its pop and before it is added again; then the two cannot be told apart:
      same orders in the same sequence, same answers to removals, same size, front and total. */
  lemma RunMatchesList(ops: seq<Op>, left: OrderId -> int)
    requires Fits(ops)
    ensures FRESH.Indexed() && RepRun(FRESH, ops).Defined?
    ensures var (r, answers) := RepRun(FRESH, ops).value;
            && r.Valid() && r.Queue() == QueueRun(ops) && |r.index| == |r.Queue()| && answers == Answers(ops)
            && (ListRun(L.NO_ORDERS, ops).Defined? <==> !RemovesGone(ops))
            && (ListRun(L.NO_ORDERS, ops).Defined? ==>
                  var (l, listAnswers) := ListRun(L.NO_ORDERS, ops).value;
                  && l.Ids() == r.Queue() && listAnswers == answers && |l.nodes| == |r.index|
                  && (l.nodes != [] ==> r.head < |r.entries| && r.entries[r.head] == Entry(true, l.nodes[0].id))
                  && ListTotal(l.Ids(), left) == EntriesTotal(r.entries, left))
  {
    RunFollows(ops);
    ListFollows(ops);
    var r := RepRun(FRESH, ops).value.0;
    QueueIsIndex(r);
    TotalIsList(r.entries, left);
    if r.Queue() != [] {
      InQueue(r, r.Queue()[0]);
      FrontIsHead(r);
    }
  }

  /** The shortest runs on which they part: the list level erases a node that is gone where the
      tombstone level just answers no. */
  lemma RemovedAfterPop(a: OrderId)
    ensures var ops := [AddOp(a), PopOp(true), RemoveOp(a)];
            && Fits(ops) && RemovesGone(ops) && ListRun(L.NO_ORDERS, ops) == Undefined
            && Answers(ops) == [false]
  {
    var ops := [AddOp(a), PopOp(true), RemoveOp(a)];
    assert ops[..0] == [] && ops[..1] == [AddOp(a)] && ops[..2] == [AddOp(a), PopOp(true)];
    assert ops[..1][..0] == [] && ops[..2][..1] == ops[..1];
    assert QueueRun(ops[..1]) == [a] && QueueRun(ops[..2]) == [];
    assert Answers(ops[..0]) == Answers(ops[..1]) == Answers(ops[..2]) == [];
    assert PopsAt(ops[..2], 1, a);
    assert Gone(ops[..2], a);
    hide RepRun, ListRun;
    ListFollows(ops);
  }
}
