/** The representation of a price level as a value: the entry vector with its tombstones, the
    lazily advanced head index and the id-to-index map (include/price_level_v2.h:122-127).
    The operations follow the source on every state a book can bring a level into; the lemmas say
    what each does to the queue a reader expects, and where it leaves the head. */
module LevelRep {
  import opened Core
  import opened Sequences

  datatype Entry = Entry(valid: bool, id: OrderId)

  /** Where the head rests: on the first order of the queue (or the level is empty), on a tombstone
      although there are orders, or on the entry of an order that the map no longer knows. */
  datatype HeadState = Current | Stale | Haunted

  datatype Rep = Rep(entries: seq<Entry>, head: nat, index: map<OrderId, nat>)
  {
    predicate Empty() {
      index == map[]
    }

    function State(): HeadState {
      if head < |entries| && entries[head].valid then (if entries[head].id in index then Current else Haunted)
      else if Empty() then Current
      else Stale
    }

    /** The dead order that haunts the level. */
    function Ghost(): OrderId
      requires State() == Haunted
    {
      entries[head].id
    }

    /** The level without the entry that haunts it, if one does. */
    function Cleared(): Rep {
      if State() == Haunted then this.(entries := Tombstone(entries, head)) else this
    }

    /** The ids of the orders of the level, in arrival order: what the level is supposed to be. */
    ghost function Queue(): seq<OrderId> {
      LiveIds(Cleared().entries)
    }

    /** Valid entries and the map correspond one to one, and nothing valid lies before the head. */
    ghost predicate Exact() {
      && (forall id <- index :: index[id] < |entries| && entries[index[id]] == Entry(true, id))
      && (forall i :: 0 <= i < |entries| && entries[i].valid ==>
            entries[i].id in index && index[entries[i].id] == i)
      && (forall i :: 0 <= i < head && i < |entries| ==> !entries[i].valid)
      && (head < |entries| || (head == 0 && entries == []))
    }

    /** Exact, but for a haunting entry; and a tombstone under the head names the first of the queue. */
    ghost predicate Sound() {
      && Cleared().Exact()
      && (State() == Stale ==> head < |entries| && [entries[head].id] <= Queue())
    }

    ghost predicate Valid() {
      Sound() && State() == Current
    }

    /** The map points at valid entries from the head on: what the operations need to stay in bounds. */
    ghost predicate Indexed() {
      && head <= |entries|
      && forall id <- index :: head <= index[id] < |entries| && entries[index[id]] == Entry(true, id)
    }
  }

  const FRESH: Rep := Rep([], 0, map[])

  ghost function LiveIds(es: seq<Entry>): seq<OrderId> {
    if es == [] then []
    else LiveIds(es[..|es| - 1]) + if es[|es| - 1].valid then [es[|es| - 1].id] else []
  }

  /** The first valid index at or after `from`, or the length when there is none. */
  function FirstValid(es: seq<Entry>, from: nat): (i: nat)
    requires from <= |es|
    ensures from <= i <= |es|
    ensures forall k :: from <= k < i ==> !es[k].valid
    ensures i < |es| ==> es[i].valid
    decreases |es| - from
  {
    if from == |es| || es[from].valid then from else FirstValid(es, from + 1)
  }

  function Tombstone(es: seq<Entry>, i: nat): seq<Entry>
    requires i < |es|
  {
    es[i := Entry(false, es[i].id)]
  }

  // ---- the operations, step by step as in the source ----

  function Add(r: Rep, id: OrderId): Rep {
    Rep(r.entries + [Entry(true, id)], r.head, r.index[id := |r.entries|])
  }

  /** `increment_to_valid`: an empty level leaves the head where it is. */
  function Advance(r: Rep): Rep
    requires r.head <= |r.entries|
  {
    if r.Empty() then r else r.(head := FirstValid(r.entries, r.head))
  }

  function Remove(r: Rep, id: OrderId): Rep
    requires r.Indexed()
  {
    if id !in r.index then r
    else Advance(r.(entries := Tombstone(r.entries, r.index[id]), index := r.index - {id}))
  }

  /** Where the id under the head is not in the map, the source would erase an end iterator. */
  predicate PopDefined(r: Rep, filled: bool)
    requires r.Indexed()
  {
    r.Empty() || !filled || (FrontExists(r); r.entries[r.head].id in r.index)
  }

  lemma FrontExists(r: Rep)
    requires r.Indexed() && !r.Empty()
    ensures r.head < |r.entries|
  {
    var id :| id in r.index;
  }

  /** `pop_front_order_if_filled`; `filled` is whether the order under the head is FULLY_FILLED. */
  function Pop(r: Rep, filled: bool): Rep
    requires r.Indexed() && PopDefined(r, filled)
  {
    if r.Empty() || !filled then r
    else
      FrontExists(r);
      Advance(r.(entries := Tombstone(r.entries, r.head), index := r.index - {r.entries[r.head].id}))
  }

  // ---- the queue behind the entries ----

  lemma {:induction false} LiveConcat(a: seq<Entry>, b: seq<Entry>)
    ensures LiveIds(a + b) == LiveIds(a) + LiveIds(b)
  {
    if b == [] {
      assert a + b == a;
    } else {
      assert (a + b)[..|a + b| - 1] == a + b[..|b| - 1];
      LiveConcat(a, b[..|b| - 1]);
    }
  }

  lemma LiveOne(e: Entry)
    ensures LiveIds([e]) == if e.valid then [e.id] else []
  {
    assert [e][..0] == [];
  }

  lemma {:induction false} LiveMember(es: seq<Entry>, id: OrderId)
    ensures id in LiveIds(es) <==> Entry(true, id) in es
  {
    if es != [] {
      LiveMember(es[..|es| - 1], id);
      assert es == es[..|es| - 1] + [es[|es| - 1]];
    }
  }

  lemma {:induction false} LiveNone(es: seq<Entry>)
    requires forall i :: 0 <= i < |es| ==> !es[i].valid
    ensures LiveIds(es) == []
  {
    if es != [] {
      LiveNone(es[..|es| - 1]);
    }
  }

  /** Splitting the queue at an entry. */
  lemma LiveSplit(es: seq<Entry>, i: nat)
    requires i < |es|
    ensures LiveIds(es) == LiveIds(es[..i]) + (if es[i].valid then [es[i].id] else []) + LiveIds(es[i + 1..])
  {
    hide LiveIds;
    var a, e, c := es[..i], es[i], es[i + 1..];
    SplitAt(es, i);
    LiveConcat(a, [e] + c);
    LiveConcat([e], c);
    LiveOne(e);
    ConcatAssoc(LiveIds(a), LiveIds([e]), LiveIds(c));
  }

  /** The queue holds exactly the ids of the map, each once. */
  lemma QueueIsIndex(r: Rep)
    requires r.Sound()
    ensures forall id :: id in r.Queue() <==> id in r.index
    ensures Distinct(r.Queue())
    ensures |r.Queue()| == |r.index|
  {
    ExactQueue(r.Cleared());
  }

  lemma ExactQueue(r: Rep)
    requires r.Exact()
    ensures forall id :: id in LiveIds(r.entries) <==> id in r.index
    ensures Distinct(LiveIds(r.entries))
    ensures |LiveIds(r.entries)| == |r.index|
  {
    forall id ensures id in LiveIds(r.entries) <==> id in r.index {
      LiveMember(r.entries, id);
    }
    LiveDistinct(r.entries);
    assert r.index.Keys == set id | id in LiveIds(r.entries);
    DistinctSize(LiveIds(r.entries), r.index.Keys);
  }

  lemma InQueue(r: Rep, id: OrderId)
    requires r.Sound()
    ensures id in r.Queue() <==> id in r.index
    ensures r.Queue() == [] <==> r.Empty()
  {
    QueueIsIndex(r);
    if r.Queue() != [] {
      assert r.Queue()[0] in r.index;
    }
  }

  lemma SoundIndexed(r: Rep)
    requires r.Sound()
    ensures r.Indexed()
  {
    var c := r.Cleared();
    forall id <- r.index ensures r.head <= r.index[id] < |r.entries| && r.entries[r.index[id]] == Entry(true, id) {
      assert c.entries[c.index[id]] == Entry(true, id);
    }
  }

  lemma {:induction false} LiveDistinct(es: seq<Entry>)
    requires forall i, j :: 0 <= i < j < |es| && es[i].valid && es[j].valid ==> es[i].id != es[j].id
    ensures Distinct(LiveIds(es))
  {
    if es != [] {
      var e := es[|es| - 1];
      LiveDistinct(es[..|es| - 1]);
      LiveMember(es[..|es| - 1], e.id);
    }
  }

  /** Unless the level is haunted, the entry under the head names the first order of the queue; on
      a valid level it is that order's own. */
  lemma FrontIsHead(r: Rep)
    requires r.Sound() && r.State() != Haunted && !r.Empty()
    ensures r.Queue() != [] && r.head < |r.entries| && r.entries[r.head].id == r.Queue()[0]
    ensures r.Queue()[0] in r.index
    ensures r.State() == Current ==> r.entries[r.head].valid
  {
    hide LiveIds;
    InQueue(r, 0);
    InQueue(r, r.Queue()[0]);
    if r.State() == Current {
      LiveSplit(r.entries, r.head);
      LiveNone(r.entries[..r.head]);
    }
  }

  /** The first valid entry is that of the first order. */
  lemma FirstOfQueue(r: Rep)
    requires r.Exact() && !r.Empty()
    ensures LiveIds(r.entries) != [] && LiveIds(r.entries)[0] in r.index
    ensures FirstValid(r.entries, r.head) == r.index[LiveIds(r.entries)[0]]
  {
    var id :| id in r.index;
    var h := FirstValid(r.entries, r.head);
    assert r.entries[r.index[id]].valid;
    LiveSplit(r.entries, h);
    LiveNone(r.entries[..h]);
  }

  /** Turning one entry into a tombstone takes its id out of the queue and nothing else. */
  lemma TombstoneQueue(r: Rep, i: nat)
    requires r.Exact() && i < |r.entries| && r.entries[i].valid
    ensures LiveIds(Tombstone(r.entries, i)) == Without(LiveIds(r.entries), r.entries[i].id)
    ensures r.(entries := Tombstone(r.entries, i), index := r.index - {r.entries[i].id}).Exact()
  {
    var es, id := r.entries, r.entries[i].id;
    var a, b := es[..i], es[i + 1..];
    LiveSplit(es, i);
    LiveSplit(Tombstone(es, i), i);
    assert Tombstone(es, i)[..i] == a && Tombstone(es, i)[i + 1..] == b;
    LiveMember(a, id);
    LiveMember(b, id);
    WithoutConcat(LiveIds(a) + [id], LiveIds(b), id);
    WithoutConcat(LiveIds(a), [id], id);
  }

  // ---- what each operation does to the queue, and where it leaves the head ----

  /** A haunted level must not get back the order that haunts it, and a drained one may only get
      back the order its head still names. */
  predicate Joinable(r: Rep, id: OrderId) {
    if r.State() == Haunted then id != r.Ghost()
    else r.Empty() && r.entries != [] ==> r.head < |r.entries| && r.entries[r.head].id == id
  }

  /** Adding appends. On a drained level it leaves the head on a tombstone. */
  lemma AddQueue(r: Rep, id: OrderId)
    requires r.Sound() && id !in r.index && Joinable(r, id)
    ensures Add(r, id).Sound()
    ensures Add(r, id).Queue() == r.Queue() + [id]
    ensures Add(r, id).State() == if r.State() != Haunted && r.Empty() && r.entries != [] then Stale else r.State()
    ensures r.State() == Haunted ==> Add(r, id).Ghost() == r.Ghost()
  {
    LiveConcat(r.Cleared().entries, [Entry(true, id)]);
    LiveOne(Entry(true, id));
    AddExact(r, id);
    if r.Empty() && r.State() != Haunted {
      InQueue(r, id);
    }
  }

  lemma AddExact(r: Rep, id: OrderId)
    requires r.Sound() && id !in r.index && Joinable(r, id)
    ensures Add(r, id).State() == if r.State() != Haunted && r.Empty() && r.entries != [] then Stale else r.State()
    ensures r.State() == Haunted ==> Add(r, id).Ghost() == r.Ghost()
    ensures Add(r, id).Cleared() == Add(r.Cleared(), id) && Add(r.Cleared(), id).Exact()
  {
    hide LiveIds;
    assert id in Add(r, id).index;
  }

  /** Removing takes the id out and keeps everyone else's place. It heals a stale level, and nothing
      but pruning helps a haunted one. */
  lemma RemoveQueue(r: Rep, id: OrderId)
    requires r.Sound() && id in r.index
    ensures r.Indexed() && Remove(r, id).Sound()
    ensures Remove(r, id).Queue() == Without(r.Queue(), id)
    ensures Remove(r, id).index == r.index - {id}
    ensures Remove(r, id).State() == if r.State() == Haunted then Haunted else Current
    ensures r.State() == Haunted ==> Remove(r, id).Ghost() == r.Ghost()
  {
    SoundIndexed(r);
    var i := r.index[id];
    TombstoneQueue(r.Cleared(), i);
    if r.State() == Haunted {
      RemoveHaunted(r, id);
    } else {
      AdvanceValid(r.(entries := Tombstone(r.entries, i), index := r.index - {id}));
    }
  }

  /** On a haunted level the head stays where it is. */
  lemma RemoveHaunted(r: Rep, id: OrderId)
    requires r.Sound() && r.Indexed() && id in r.index && r.State() == Haunted
    ensures Remove(r, id).head == r.head < |r.entries| == |Remove(r, id).entries|
    ensures Remove(r, id).entries[r.head] == r.entries[r.head] && Remove(r, id).State() == Haunted
    ensures Remove(r, id).Cleared().entries == Tombstone(r.Cleared().entries, r.index[id])
  {
    assert r.index[id] != r.head;
  }

  lemma RemoveEmpties(r: Rep, id: OrderId)
    requires r.Sound() && r.Indexed() && id in r.index
    ensures Remove(r, id).Queue() == [] <==> r.Queue() == [id]
    ensures Remove(r, id).Empty() <==> r.Queue() == [id]
  {
    RemoveQueue(r, id);
    QueueIsIndex(r);
    InQueue(Remove(r, id), id);
    WithoutDistinct(r.Queue(), id);
  }

  /** What a drained level remembers. */
  lemma RemoveLast(r: Rep, id: OrderId)
    requires r.Sound() && r.Indexed() && r.Queue() == [id]
    ensures id in r.index && Remove(r, id).Empty() && Joinable(Remove(r, id), id)
    ensures Remove(r, id).entries != []
  {
    QueueIsIndex(r);
    assert id in r.Queue();
    RemoveQueue(r, id);
    assert Remove(r, id).index == map[];
    if r.State() == Haunted {
      RemoveHaunted(r, id);
    } else {
      FrontIsHead(r);
    }
  }

  lemma AdvanceValid(s: Rep)
    requires s.Exact()
    ensures Advance(s).Valid()
    ensures Advance(s).entries == s.entries && Advance(s).index == s.index
  {
    if !s.Empty() {
      FirstOfQueue(s);
    }
  }

  /** The re-queue of a quantity increase (include/orderbook.h:194-197) always yields the intended
      queue. It leaves a stale head exactly when the order is alone in a level that is not haunted. */
  lemma RequeueQueue(r: Rep, id: OrderId)
    requires r.Sound() && id in r.index
    ensures r.Indexed()
    ensures var r' := Add(Remove(r, id), id);
            && r'.Sound()
            && r'.Queue() == Without(r.Queue(), id) + [id]
            && r'.State() == (if r.State() == Haunted then Haunted else if r.Queue() == [id] then Stale else Current)
            && (r.State() == Haunted ==> r'.Ghost() == r.Ghost())
  {
    RemoveQueue(r, id);
    RemoveEmpties(r, id);
    var m := Remove(r, id);
    if r.Queue() == [id] {
      RemoveLast(r, id);
    } else if r.State() == Haunted {
      RemoveHaunted(r, id);
    }
    AddQueue(m, id);
  }

  /** A pop that finds the front filled drops exactly the head of the queue, unless the level is
      haunted: then it is undefined. It keeps a current level current. A stale level it leaves
      empty, or else haunted by the order just popped. */
  lemma PopQueue(r: Rep)
    requires r.Sound() && !r.Empty()
    ensures r.Indexed() && (PopDefined(r, true) <==> r.State() != Haunted)
    ensures r.State() != Haunted ==> r.Queue() != [] && (Pop(r, true).Empty() <==> |r.Queue()| == 1)
    ensures r.State() == Current ==> Pop(r, true).Valid() && Pop(r, true).Queue() == r.Queue()[1..]
    ensures r.State() == Stale && |r.Queue()| > 1 ==>
              && Pop(r, true).Sound() && Pop(r, true).Queue() == r.Queue()[1..]
              && Pop(r, true).State() == Haunted && Pop(r, true).Ghost() == r.Queue()[0]
  {
    SoundIndexed(r);
    FrontExists(r);
    if r.State() != Haunted {
      FrontIsHead(r);
      PopLeft(r);
      if r.State() == Current {
        PopCurrent(r);
      } else if |r.Queue()| > 1 {
        PopStale(r);
      }
    }
  }

  lemma PopLeft(r: Rep)
    requires r.Sound() && r.Indexed() && PopDefined(r, true) && r.State() != Haunted && !r.Empty()
    ensures Pop(r, true).Empty() <==> |r.Queue()| == 1
  {
    FrontIsHead(r);
    QueueIsIndex(r);
    assert |r.index - {r.Queue()[0]}| == |r.index| - 1;
  }

  lemma PopCurrent(r: Rep)
    requires r.Valid() && r.Indexed() && PopDefined(r, true) && !r.Empty()
    ensures r.Queue() != [] && Pop(r, true).Valid() && Pop(r, true).Queue() == r.Queue()[1..]
  {
    FrontIsHead(r);
    var id := r.entries[r.head].id;
    assert Pop(r, true) == Remove(r, id);
    RemoveQueue(r, id);
    QueueIsIndex(r);
    WithoutHead(r.Queue());
  }

  /** Popping an order through an older tombstone of its own uncovers its valid entry. */
  lemma PopStale(r: Rep)
    requires r.Sound() && r.Indexed() && PopDefined(r, true) && r.State() == Stale && |r.Queue()| > 1
    ensures Pop(r, true).Sound() && Pop(r, true).Queue() == r.Queue()[1..]
    ensures Pop(r, true).State() == Haunted && Pop(r, true).Ghost() == r.Queue()[0]
  {
    hide LiveIds, FirstValid;
    var a := r.Queue()[0];
    InQueue(r, a);
    FrontIsHead(r);
    QueueIsIndex(r);
    WithoutHead(r.Queue());
    FirstOfQueue(r);
    var n := r.index[a];
    var popped := r.(head := n, index := r.index - {a});
    assert Tombstone(r.entries, r.head) == r.entries;
    assert r.(entries := r.entries, index := r.index - {a}).Empty() <==> |r.Queue()| == 1 by {
      PopLeft(r);
    }
    assert Pop(r, true) == popped;
    TombstoneQueue(r, n);
    HeadMoves(r.(entries := Tombstone(r.entries, n), index := r.index - {a}), n);
  }

  lemma HeadMoves(r: Rep, h: nat)
    requires r.Exact() && r.head <= h < |r.entries|
    requires forall k :: r.head <= k < h ==> !r.entries[k].valid
    ensures r.(head := h).Exact()
  {
  }

  /** What becomes of an order that grows while it is alone, for every level: the level first looks
      right, because the tombstone under the head names the same order. Once another order has
      joined and the first one is filled, popping it brings it back to the front, and the map no
      longer knows it. */
  lemma StaleHeadResurfaces(r: Rep, a: OrderId, b: OrderId) returns (stale: Rep, popped: Rep)
    requires r.Valid() && r.Queue() == [a] && b != a
    ensures r.Indexed() && stale == Add(Add(Remove(r, a), a), b)
    ensures stale.Sound() && stale.State() == Stale && stale.Queue() == [a, b]
    ensures stale.Indexed() && PopDefined(stale, true) && popped == Pop(stale, true)
    ensures popped.Sound() && popped.State() == Haunted && popped.Queue() == [b]
    ensures popped.Ghost() == a && a !in popped.index
    ensures popped.Indexed() && !PopDefined(popped, true)
  {
    QueueIsIndex(r);
    assert a in r.Queue();
    RequeueQueue(r, a);
    var grown := Add(Remove(r, a), a);
    QueueIsIndex(grown);
    WithoutHead([a]);
    assert a in grown.Queue();
    AddQueue(grown, b);
    stale := Add(grown, b);
    assert stale.Queue() == [a, b];
    QueueIsIndex(stale);
    InQueue(stale, a);
    PopQueue(stale);
    popped := Pop(stale, true);
    InQueue(popped, b);
    PopQueue(popped);
  }

  // ---- staying in bounds ----

  lemma AdvanceIndexed(r: Rep)
    requires r.Indexed()
    ensures Advance(r).Indexed() && r.head <= Advance(r).head
  {
    forall id <- r.index ensures FirstValid(r.entries, r.head) <= r.index[id] {
      assert r.entries[r.index[id]].valid;
    }
  }

  /** Whatever is done to a level that is in bounds, it stays there, and the head does not go back. */
  lemma KeepIndexed(r: Rep, id: OrderId, filled: bool)
    requires r.Indexed()
    ensures Add(r, id).Indexed() && Add(r, id).head == r.head
    ensures Remove(r, id).Indexed() && r.head <= Remove(r, id).head && |Remove(r, id).entries| == |r.entries|
    ensures PopDefined(r, filled) ==>
              Pop(r, filled).Indexed() && r.head <= Pop(r, filled).head && |Pop(r, filled).entries| == |r.entries|
  {
    if id in r.index {
      AdvanceIndexed(r.(entries := Tombstone(r.entries, r.index[id]), index := r.index - {id}));
    }
    if !r.Empty() && filled && PopDefined(r, filled) {
      FrontExists(r);
      AdvanceIndexed(r.(entries := Tombstone(r.entries, r.head), index := r.index - {r.entries[r.head].id}));
    }
  }

  // ---- total quantity ----

  /** What is left of the orders behind the valid entries, if `left` tells it order by order. */
  ghost function EntriesTotal(es: seq<Entry>, left: OrderId -> int): int {
    if es == [] then 0
    else EntriesTotal(es[..|es| - 1], left) + if es[|es| - 1].valid then left(es[|es| - 1].id) else 0
  }

  ghost function ListTotal(ids: seq<OrderId>, left: OrderId -> int): int {
    if ids == [] then 0 else ListTotal(ids[..|ids| - 1], left) + left(ids[|ids| - 1])
  }

  /** The sum over the entries is the sum over the queue behind them. */
  lemma {:induction false} TotalIsList(es: seq<Entry>, left: OrderId -> int)
    ensures EntriesTotal(es, left) == ListTotal(LiveIds(es), left)
  {
    if es != [] {
      var before, e := LiveIds(es[..|es| - 1]), es[|es| - 1];
      TotalIsList(es[..|es| - 1], left);
      if e.valid {
        assert LiveIds(es) == before + [e.id] && (before + [e.id])[..|before|] == before;
      } else {
        assert LiveIds(es) == before;
      }
    }
  }
}
