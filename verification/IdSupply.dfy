/** Many books drawing ids in blocks from one counter (include/id_allocator.h:31-35,
    include/orderbook.h:259-265). */
module IdSupply {
  import opened Core
  import Arithmetic

  // ---- how far the 64-bit counter reaches ----

  /** The shared counter after `k` fetches. */
  function CounterAfter(k: nat, blockSize: nat): OrderId {
    if k == 0 then FIRST_ORDER_ID else (CounterAfter(k - 1, blockSize) + blockSize) % TWO_64
  }

  /** The `j`-th id of the `k`-th block. */
  function BlockId(k: nat, j: nat, blockSize: nat): OrderId {
    (CounterAfter(k, blockSize) + j) % TWO_64
  }

  lemma AddWrapped(a: nat, b: nat)
    ensures (a % TWO_64 + b) % TWO_64 == (a + b) % TWO_64
  {
  }

  lemma {:induction false} CounterClosed(k: nat, blockSize: nat)
    ensures CounterAfter(k, blockSize) == (FIRST_ORDER_ID + k * blockSize) % TWO_64
  {
    if k > 0 {
      CounterClosed(k - 1, blockSize);
      AddWrapped(FIRST_ORDER_ID + (k - 1) * blockSize, blockSize);
      assert (k - 1) * blockSize + blockSize == k * blockSize;
    }
  }

  lemma BlockIdClosed(k: nat, j: nat, blockSize: nat)
    ensures BlockId(k, j, blockSize) == (FIRST_ORDER_ID + k * blockSize + j) % TWO_64
  {
    CounterClosed(k, blockSize);
    AddWrapped(FIRST_ORDER_ID + k * blockSize, j);
  }

  /** All ids of the first `n` blocks are at least 1 and pairwise distinct. */
  ghost predicate AllGood(n: nat, blockSize: nat) {
    && (forall k: nat, j: nat | k < n && j < blockSize :: BlockId(k, j, blockSize) >= FIRST_ORDER_ID)
    && (forall k: nat, j: nat, k': nat, j': nat |
          k < n && j < blockSize && k' < n && j' < blockSize && (k != k' || j != j') ::
          BlockId(k, j, blockSize) != BlockId(k', j', blockSize))
  }

  /** The blocks are good exactly while fewer than 2^64 ids have been handed out. */
  lemma BlocksGood(n: nat, blockSize: nat)
    requires blockSize >= 1
    ensures AllGood(n, blockSize) <==> n * blockSize < TWO_64
  {
    if n * blockSize < TWO_64 {
      BelowGood(n, blockSize);
    } else {
      var k, j := ZeroIssued(n, blockSize);
      assert BlockId(k, j, blockSize) == 0;
    }
  }

  lemma BelowGood(n: nat, blockSize: nat)
    requires n * blockSize < TWO_64
    ensures AllGood(n, blockSize)
  {
    hide BlockId;
    forall k: nat, j: nat | k < n && j < blockSize ensures BlockId(k, j, blockSize) >= FIRST_ORDER_ID {
      BlockIdBelow(k, j, n, blockSize);
    }
    forall k: nat, j: nat, k': nat, j': nat | k < n && j < blockSize && k' < n && j' < blockSize && (k != k' || j != j')
      ensures BlockId(k, j, blockSize) != BlockId(k', j', blockSize)
    {
      BlockIdBelow(k, j, n, blockSize);
      BlockIdBelow(k', j', n, blockSize);
      Apart(k, j, k', j', blockSize);
    }
  }

  lemma BlockIdBelow(k: nat, j: nat, n: nat, blockSize: nat)
    requires k < n && j < blockSize && n * blockSize < TWO_64
    ensures BlockId(k, j, blockSize) == FIRST_ORDER_ID + k * blockSize + j
    ensures k * blockSize >= 0
  {
    hide BlockId;
    InBlocks(k, j, n, blockSize);
    BlockIdClosed(k, j, blockSize);
    Arithmetic.MulGrows(k, blockSize);
  }

  /** The id number 2^64 is the default id 0. */
  lemma ZeroIssued(n: nat, blockSize: nat) returns (k: nat, j: nat)
    requires blockSize >= 1 && n * blockSize >= TWO_64
    ensures k < n && j < blockSize && BlockId(k, j, blockSize) == DEFAULT_ORDER_ID
  {
    var m := TWO_64 - 1;
    k, j := m / blockSize, m % blockSize;
    assert m == k * blockSize + j;
    Within(k, j, n, blockSize);
    BlockIdClosed(k, j, blockSize);
  }

  lemma InBlocks(k: nat, j: nat, n: nat, blockSize: nat)
    requires k < n && j < blockSize
    ensures k * blockSize + j < n * blockSize
  {
    assert (k + 1) * blockSize <= n * blockSize;
  }

  lemma Within(k: nat, j: nat, n: nat, blockSize: nat)
    requires k * blockSize + j < n * blockSize
    ensures k < n
  {
    MulMono(n, k, blockSize);
  }

  lemma MulMono(a: nat, b: nat, c: nat)
    ensures a <= b ==> a * c <= b * c
  {
  }

  lemma Apart(k: nat, j: nat, k': nat, j': nat, blockSize: nat)
    requires j < blockSize && j' < blockSize && (k != k' || j != j')
    ensures k * blockSize + j != k' * blockSize + j'
  {
    if k < k' {
      InBlocks(k, j, k', blockSize);
    } else if k' < k {
      InBlocks(k', j', k, blockSize);
    }
  }

  // ---- books drawing from the counter ----

  /** A book's current block and the ids it has issued, oldest first. */
  datatype Desk = Desk(next: nat, end: nat, issued: seq<OrderId>)

  ghost predicate Ascending(ids: seq<OrderId>) {
    forall i, j :: 0 <= i < j < |ids| ==> ids[i] < ids[j]
  }

  lemma AscendingSnoc(ids: seq<OrderId>, id: OrderId)
    requires Ascending(ids) && forall x <- ids :: x < id
    ensures Ascending(ids + [id])
  {
    assert forall i :: 0 <= i < |ids| ==> ids[i] in ids;
  }

  /** The ids have been issued in ascending order, and all lie below the next one. */
  ghost predicate DeskInv(d: Desk, counter: nat) {
    && FIRST_ORDER_ID <= d.next <= d.end <= counter
    && Ascending(d.issued)
    && (forall id <- d.issued :: FIRST_ORDER_ID <= id < d.next)
  }

  /** No id belongs, or will belong, to both. */
  ghost predicate Separate(d: Desk, e: Desk) {
    && (d.end <= e.next || e.end <= d.next || d.next == d.end || e.next == e.end)
    && (forall id <- d.issued :: id !in e.issued && !(e.next <= id < e.end))
    && (forall id <- e.issued :: !(d.next <= id < d.end))
  }

  datatype Supply<!K> = Supply(counter: nat, blockSize: nat, desks: map<K, Desk>)
  {
    /** Ids are pairwise distinct over all books, at least 1, and ahead of them every book owns a
        stretch of its own. */
    ghost predicate Inv() {
      && 1 <= blockSize && FIRST_ORDER_ID <= counter < TWO_64
      && (forall k <- desks :: DeskInv(desks[k], counter))
      && (forall k, l | k in desks && l in desks && k != l :: Separate(desks[k], desks[l]))
    }

    /** Issuing does not take the counter past 2^64. */
    predicate Fits(k: K)
      requires k in desks
    {
      desks[k].next == desks[k].end ==> counter + blockSize < TWO_64
    }
  }

  /** A book is opened with a first block. */
  function Open<K>(s: Supply<K>, k: K): Supply<K> {
    s.(counter := s.counter + s.blockSize, desks := s.desks[k := NewDesk(s.counter, s.blockSize)])
  }

  /** A book that has just fetched the block at `counter`. */
  function NewDesk(counter: nat, blockSize: nat): Desk {
    Desk(counter, counter + blockSize, [])
  }

  /** `get_order_id`, seen from the book: the desk and the counter afterwards, and the id. */
  function Draw(d: Desk, counter: nat, blockSize: nat): (Desk, nat, OrderId)
    requires DeskInv(d, counter) && counter < TWO_64
  {
    if d.next == d.end then
      (Desk(counter + 1, counter + blockSize, d.issued + [counter]), counter + blockSize, counter)
    else
      (Desk(d.next + 1, d.end, d.issued + [d.next]), counter, d.next)
  }

  /** Drawing is possible below 2^64, gives an id not drawn before, and keeps the desk in order. */
  lemma DrawKeeps(d: Desk, counter: nat, blockSize: nat)
    requires DeskInv(d, counter) && counter < TWO_64 && blockSize >= 1
    ensures var (d', counter', id) := Draw(d, counter, blockSize);
            && DeskInv(d', counter') && DeskInv(d', d'.end)
            && id !in d.issued && d'.issued == d.issued + [id]
  {
    AscendingSnoc(d.issued, Draw(d, counter, blockSize).2);
  }

  /** The book of `k` draws an id. */
  function Issue<K>(s: Supply<K>, k: K): (r: (Supply<K>, OrderId))
    requires s.Inv() && k in s.desks && s.Fits(k)
  {
    var (d, counter, id) := Draw(s.desks[k], s.counter, s.blockSize);
    (s.(counter := counter, desks := s.desks[k := d]), id)
  }

  lemma OpenKeeps<K>(s: Supply<K>, k: K)
    requires s.Inv() && k !in s.desks && s.counter + s.blockSize < TWO_64
    ensures Open(s, k).Inv()
  {
  }

  /** The shared counter before any book has been opened. */
  function Unopened<K>(blockSize: nat): Supply<K> {
    Supply(FIRST_ORDER_ID, blockSize, map[])
  }

  /** Books are opened one after another. A second book of the same name takes its block with it. */
  function OpenAll<K>(s: Supply<K>, keys: seq<K>): Supply<K> {
    if keys == [] then s
    else
      var before, k := OpenAll(s, keys[..|keys| - 1]), keys[|keys| - 1];
      if k in before.desks then before.(counter := before.counter + before.blockSize) else Open(before, k)
  }

  /** Every book starts on a block of its own, if the counter reaches that far. */
  lemma {:induction false} OpenAllKeeps<K>(s: Supply<K>, keys: seq<K>)
    requires s.Inv() && s.counter + |keys| * s.blockSize < TWO_64
    ensures var r := OpenAll(s, keys);
            && r.Inv() && r.blockSize == s.blockSize && r.counter == s.counter + |keys| * s.blockSize
            && (forall k :: k in r.desks <==> k in s.desks || k in keys)
            && (forall k <- r.desks :: k !in s.desks ==> r.desks[k].issued == [])
  {
    if keys != [] {
      var rest, k := keys[..|keys| - 1], keys[|keys| - 1];
      assert |keys| * s.blockSize == |rest| * s.blockSize + s.blockSize;
      OpenAllKeeps(s, rest);
      assert keys == rest + [k];
      if k !in OpenAll(s, rest).desks {
        OpenKeeps(OpenAll(s, rest), k);
      }
    }
  }

  /** The book named first at position `i` starts at the first id of the block number `i`. */
  lemma {:induction false} OpenAllAt<K>(s: Supply<K>, keys: seq<K>, i: nat)
    requires i < |keys| && keys[i] !in keys[..i] && keys[i] !in s.desks
    ensures var r := OpenAll(s, keys);
            && keys[i] in r.desks
            && r.desks[keys[i]] == Desk(s.counter + i * s.blockSize, s.counter + (i + 1) * s.blockSize, [])
  {
    var last := |keys| - 1;
    OpenAllCounts(s, keys[..last]);
    assert (i + 1) * s.blockSize == i * s.blockSize + s.blockSize;
    if i < last {
      assert keys[..last][..i] == keys[..i];
      OpenAllAt(s, keys[..last], i);
    }
  }

  lemma {:induction false} OpenAllCounts<K>(s: Supply<K>, keys: seq<K>)
    ensures var r := OpenAll(s, keys);
            && r.blockSize == s.blockSize && r.counter == s.counter + |keys| * s.blockSize
            && (forall k :: k in r.desks <==> k in s.desks || k in keys)
  {
    if keys != [] {
      var rest, k := keys[..|keys| - 1], keys[|keys| - 1];
      assert |keys| * s.blockSize == |rest| * s.blockSize + s.blockSize;
      OpenAllCounts(s, rest);
      assert keys == rest + [k];
    }
  }

  lemma IssueKeeps<K>(s: Supply<K>, k: K)
    requires s.Inv() && k in s.desks && s.Fits(k)
    ensures var (s', id) := Issue(s, k);
            && s'.Inv() && s'.desks.Keys == s.desks.Keys && s'.blockSize == s.blockSize
            && s'.desks[k].issued == s.desks[k].issued + [id]
            && (forall l <- s.desks :: id !in s.desks[l].issued)
            && (forall l <- s.desks :: l != k ==> s'.desks[l] == s.desks[l])
    ensures var (s', id), d := Issue(s, k), s.desks[k];
            if d.next == d.end then
              && id == s.counter && s'.counter == s.counter + s.blockSize
              && s'.desks[k] == Desk(id + 1, s'.counter, d.issued + [id])
            else id == d.next && s'.counter == s.counter && s'.desks[k] == Desk(id + 1, d.end, d.issued + [id])
  {
    var (s', id) := Issue(s, k);
    var d, d' := s.desks[k], s'.desks[k];
    IssueDesk(d, d', s.counter, s'.counter, id);
    forall l <- s.desks | l != k
      ensures Separate(d', s.desks[l]) && Separate(s.desks[l], d') && id !in s.desks[l].issued
      ensures DeskInv(s.desks[l], s'.counter)
    {
      assert Separate(d, s.desks[l]) && DeskInv(s.desks[l], s.counter);
      IssueApart(d, d', s.desks[l], s.counter, id);
    }
    hide Separate, DeskInv;
    assert forall l <- s.desks :: s'.desks[l] == if l == k then d' else s.desks[l];
  }

  /** What drawing `id` makes of a desk: the next of its block, or the first of a new one. */
  ghost predicate Draws(d: Desk, d': Desk, counter: nat, id: OrderId) {
    && d'.issued == d.issued + [id] && d'.next == id + 1 <= d'.end
    && (if d.next == d.end then id == counter else id == d.next && d'.end == d.end)
  }

  lemma IssueDesk(d: Desk, d': Desk, counter: nat, counter': nat, id: OrderId)
    requires DeskInv(d, counter) && Draws(d, d', counter, id) && counter <= counter' && d'.end <= counter'
    ensures DeskInv(d', counter')
  {
    AscendingSnoc(d.issued, id);
  }

  lemma IssueApart(d: Desk, d': Desk, e: Desk, counter: nat, id: OrderId)
    requires DeskInv(d, counter) && DeskInv(e, counter) && Separate(d, e) && Draws(d, d', counter, id)
    ensures Separate(d', e) && Separate(e, d') && id !in e.issued
  {
  }

  /** Whatever the order in which the books draw, below 2^64 ids no id is ever issued twice,
      neither by one book nor by two, and none is 0. */
  lemma {:induction false} NeverTwice<K>(s: Supply<K>, turns: seq<K>)
    requires s.Inv() && AllFit(s, turns)
    ensures var r := Drawn(s, turns);
            && r.Inv()
            && (forall k <- r.desks :: Ascending(r.desks[k].issued))
            && (forall k, l | k in r.desks && l in r.desks && k != l ::
                  forall id <- r.desks[k].issued :: id !in r.desks[l].issued)
            && (forall k <- r.desks, id <- r.desks[k].issued :: id != DEFAULT_ORDER_ID)
    decreases |turns|
  {
    if turns != [] {
      IssueKeeps(s, turns[0]);
      NeverTwice(Issue(s, turns[0]).0, turns[1..]);
    }
  }

  ghost predicate AllFit<K>(s: Supply<K>, turns: seq<K>)
    requires s.Inv()
    decreases |turns|
  {
    turns == [] ||
    (turns[0] in s.desks && s.Fits(turns[0]) && (IssueKeeps(s, turns[0]); AllFit(Issue(s, turns[0]).0, turns[1..])))
  }

  /** The supply after the books have drawn in the given order. */
  ghost function Drawn<K>(s: Supply<K>, turns: seq<K>): Supply<K>
    requires s.Inv() && AllFit(s, turns)
    decreases |turns|
  {
    if turns == [] then s else (IssueKeeps(s, turns[0]); Drawn(Issue(s, turns[0]).0, turns[1..]))
  }
}
