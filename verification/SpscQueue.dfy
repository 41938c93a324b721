/** The single-producer single-consumer ring of include/spsc_queue.h, as two threads that take one
    atomic load, slot access or store at a time, in any order. */
module SpscQueue {
  import opened Arithmetic

  datatype Option<+T> = None | Some(value: T)

  /** Where the producer is in `push`; the local copies are what it has loaded so far.
      `seenTail` is the consumer's count at the moment of the load, for the proofs only. */
  datatype Producer<T> =
    | PIdle(ok: bool)
    | PHead(item: T, head: nat)
    | PTail(item: T, head: nat, tail: nat, seenTail: nat)
    | PReady(item: T, head: nat)
    | PWritten(item: T, head: nat)

  /** Where the consumer is in `pop`. */
  datatype Consumer<T> =
    | CIdle(got: Option<T>)
    | CTail(tail: nat)
    | CHead(tail: nat, head: nat, seenHead: nat)
    | CReady(tail: nat)
    | CRead(tail: nat, item: T)

  /** `pushed` lists the items published so far, `popped` those released by the consumer. */
  datatype Ring<T> = Ring(buffer: seq<T>, head: nat, tail: nat, producer: Producer<T>, consumer: Consumer<T>,
                          pushed: seq<T>, popped: seq<T>)
  {
    function InFlight(): int {
      |pushed| - |popped|
    }

    ghost predicate Inv() {
      var n, h, t := |buffer|, |pushed|, |popped|;
      && 1 <= n && t <= h <= t + n - 1
      && head == h % n && tail == t % n
      && popped == pushed[..t]
      && (forall i :: t <= i < h ==> buffer[i % n] == pushed[i])
      && ProducerInv() && ConsumerInv()
    }

    ghost predicate ProducerInv()
      requires |buffer| >= 1
    {
      var n, h, t := |buffer|, |pushed|, |popped|;
      match producer
      case PIdle(_) => true
      case PHead(_, hd) => hd == head
      case PTail(_, hd, tl, seen) => hd == head && seen <= t && h <= seen + n - 1 && tl == seen % n
      case PReady(_, hd) => hd == head && h <= t + n - 2
      case PWritten(item, hd) => hd == head && h <= t + n - 2 && hd < n && buffer[hd] == item
    }

    ghost predicate ConsumerInv()
      requires |buffer| >= 1
    {
      var n, h, t := |buffer|, |pushed|, |popped|;
      match consumer
      case CIdle(_) => true
      case CTail(tl) => tl == tail
      case CHead(tl, hd, seen) => tl == tail && t <= seen <= h && hd == seen % n
      case CReady(tl) => tl == tail && t < h
      case CRead(tl, item) => tl == tail && t < h && item == pushed[t]
    }
  }

  function Empty<T>(buffer: seq<T>): Ring<T> {
    Ring(buffer, 0, 0, PIdle(true), CIdle(None), [], [])
  }

  /** One atomic step of the producer; an idle producer starts to push `item`. */
  function ProducerStep<T>(s: Ring<T>, item: T): Ring<T>
    requires s.Inv()
  {
    match s.producer
    case PIdle(_) => s.(producer := PHead(item, s.head))
    case PHead(x, hd) => s.(producer := PTail(x, hd, s.tail, |s.popped|))
    case PTail(x, hd, tl, _) => s.(producer := if (hd + 1) % |s.buffer| == tl then PIdle(false) else PReady(x, hd))
    case PReady(x, hd) => HeadInRange(s); s.(buffer := s.buffer[hd := x], producer := PWritten(x, hd))
    case PWritten(x, hd) => s.(head := (hd + 1) % |s.buffer|, pushed := s.pushed + [x], producer := PIdle(true))
  }

  /** One atomic step of the consumer. */
  function ConsumerStep<T>(s: Ring<T>): Ring<T>
    requires s.Inv()
  {
    match s.consumer
    case CIdle(_) => s.(consumer := CTail(s.tail))
    case CTail(tl) => s.(consumer := CHead(tl, s.head, |s.pushed|))
    case CHead(tl, hd, _) => s.(consumer := if tl == hd then CIdle(None) else CReady(tl))
    case CReady(tl) => HeadInRange(s); s.(consumer := CRead(tl, s.buffer[tl]))
    case CRead(tl, x) => s.(tail := (tl + 1) % |s.buffer|, popped := s.popped + [x], consumer := CIdle(Some(x)))
  }

  /** What a pop is about to read. */
  lemma ItemAtTail<T>(s: Ring<T>)
    requires s.Inv()
    ensures s.tail < |s.buffer|
    ensures s.InFlight() > 0 ==> s.buffer[s.tail] == s.pushed[|s.popped|]
  {
  }

  lemma HeadInRange<T>(s: Ring<T>)
    requires s.Inv()
    ensures s.head < |s.buffer| && s.tail < |s.buffer| && 0 <= s.InFlight() <= |s.buffer| - 1
  {
  }

  // ---- arithmetic of ring positions ----

  lemma ModSucc(a: nat, n: nat)
    requires n >= 1
    ensures (a % n + 1) % n == (a + 1) % n
  {
    var q, r := a / n, a % n;
    assert a == q * n + r;
    if r + 1 < n {
      DivModUnique(a + 1, n, q, r + 1);
      DivModUnique(r + 1, n, 0, r + 1);
    } else {
      assert (q + 1) * n == q * n + n;
      DivModUnique(a + 1, n, q + 1, 0);
      DivModUnique(r + 1, n, 1, 0);
    }
  }

  /** Less than a lap apart, equal positions are the same position. */
  lemma ModApart(a: nat, b: nat, n: nat)
    requires n >= 1 && a <= b < a + n && a % n == b % n
    ensures a == b
  {
    var d := b / n - a / n;
    assert a == (a / n) * n + a % n && b == (b / n) * n + b % n;
    assert b - a == d * n by {
      assert d * n == (b / n) * n - (a / n) * n;
    }
    MulGrows(d, n);
  }

  // ---- every step keeps the invariant ----

  lemma ProducerKeeps<T>(s: Ring<T>, item: T)
    requires s.Inv()
    ensures ProducerStep(s, item).Inv()
  {
    var n, h, t := |s.buffer|, |s.pushed|, |s.popped|;
    match s.producer
    case PIdle(_) =>
    case PHead(_, _) =>
    case PTail(_, hd, tl, seen) =>
      ModSucc(h, n);
      if h - seen == n - 1 {
        assert h + 1 == seen + n;
        DivModUnique(seen + n, n, seen / n + 1, seen % n);
      }
    case PReady(x, hd) => WriteKeeps(s, x);
    case PWritten(x, hd) => PublishKeeps(s);
  }

  /** Writing the free slot touches nothing in flight. */
  lemma WriteKeeps<T>(s: Ring<T>, x: T)
    requires s.Inv() && s.producer == PReady(x, s.head)
    ensures s.head < |s.buffer| && s.(buffer := s.buffer[s.head := x], producer := PWritten(x, s.head)).Inv()
  {
    var n, h, t := |s.buffer|, |s.pushed|, |s.popped|;
    forall i | t <= i < h ensures i % n != s.head {
      if i % n == h % n {
        ModApart(i, h, n);
      }
    }
  }

  lemma PublishKeeps<T>(s: Ring<T>)
    requires s.Inv() && s.producer.PWritten?
    ensures s.(head := (s.producer.head + 1) % |s.buffer|, pushed := s.pushed + [s.producer.item],
               producer := PIdle(true)).Inv()
  {
    ModSucc(|s.pushed|, |s.buffer|);
  }

  lemma ConsumerKeeps<T>(s: Ring<T>)
    requires s.Inv()
    ensures ConsumerStep(s).Inv()
  {
    var n, h, t := |s.buffer|, |s.pushed|, |s.popped|;
    match s.consumer
    case CIdle(_) =>
    case CTail(_) =>
    case CHead(tl, hd, seen) =>
    case CReady(tl) =>
      assert s.buffer[t % n] == s.pushed[t];
    case CRead(tl, x) =>
      ModSucc(t, n);
      assert s.pushed[..t + 1] == s.pushed[..t] + [s.pushed[t]];
  }

  // ---- whole runs ----

  /** Who takes the next step; a producer about to start a push brings its item. */
  datatype Turn<T> = Produce(item: T) | Consume

  function Step<T>(s: Ring<T>, turn: Turn<T>): (r: Ring<T>)
    requires s.Inv()
    ensures r.Inv()
  {
    match turn
    case Produce(item) => ProducerKeeps(s, item); ProducerStep(s, item)
    case Consume => ConsumerKeeps(s); ConsumerStep(s)
  }

  function Run<T>(s: Ring<T>, turns: seq<Turn<T>>): (r: Ring<T>)
    requires s.Inv()
    ensures r.Inv()
    decreases |turns|
  {
    if turns == [] then s else Run(Step(s, turns[0]), turns[1..])
  }

  /** From an empty ring, under every interleaving: what has been popped is a prefix of what has been
      pushed, at most capacity - 1 items are in flight, and while the producer is about to write a
      slot and the consumer about to read one, they are different slots. */
  lemma RunIsFifo<T>(buffer: seq<T>, turns: seq<Turn<T>>)
    requires |buffer| >= 1
    ensures Empty(buffer).Inv()
    ensures var s := Run(Empty(buffer), turns);
            && s.popped <= s.pushed && 0 <= s.InFlight() <= |s.buffer| - 1
            && (s.producer.PReady? && s.consumer.CReady? ==> s.producer.head != s.consumer.tail)
  {
    var s := Run(Empty(buffer), turns);
    if s.producer.PReady? && s.consumer.CReady? && s.producer.head == s.consumer.tail {
      ModApart(|s.popped|, |s.pushed|, |s.buffer|);
    }
  }

  /** The logs only grow, and the capacity never changes. */
  lemma {:induction false} RunGrows<T>(s: Ring<T>, turns: seq<Turn<T>>)
    requires s.Inv()
    ensures var r := Run(s, turns); s.pushed <= r.pushed && s.popped <= r.popped && |r.buffer| == |s.buffer|
    decreases |turns|
  {
    hide Ring.Inv, Step;
    if turns != [] {
      StepGrows(s, turns[0]);
      RunGrows(Step(s, turns[0]), turns[1..]);
    }
  }

  lemma StepGrows<T>(s: Ring<T>, turn: Turn<T>)
    requires s.Inv()
    ensures var r := Step(s, turn); s.pushed <= r.pushed && s.popped <= r.popped && |r.buffer| == |s.buffer|
  {
  }

  /** A push is refused exactly if the ring was full when the consumer's index was loaded, however
      far the consumer has got since; a pop, exactly if it was empty when the producer's index was
      loaded. Meanwhile neither thread's state is touched by the other. */
  lemma RefusalsAreHonest<T>(s: Ring<T>, item: T)
    requires s.Inv()
    ensures s.producer.PHead? ==>
              ProducerStep(s, item).producer.PTail? && ProducerStep(s, item).producer.seenTail == |s.popped|
    ensures ConsumerStep(s).producer == s.producer && ConsumerStep(s).pushed == s.pushed
    ensures s.producer.PTail? ==>
              (ProducerStep(s, item).producer == PIdle(false) <==>
                 |s.pushed| - s.producer.seenTail == |s.buffer| - 1)
    ensures s.consumer.CTail? ==>
              ConsumerStep(s).consumer.CHead? && ConsumerStep(s).consumer.seenHead == |s.pushed|
    ensures ProducerStep(s, item).consumer == s.consumer && ProducerStep(s, item).popped == s.popped
    ensures s.consumer.CHead? ==>
              (ConsumerStep(s).consumer == CIdle(None) <==> s.consumer.seenHead - |s.popped| == 0)
  {
    if s.producer.PTail? {
      FullTest(s.producer.seenTail, |s.pushed|, |s.buffer|);
    }
    if s.consumer.CHead? {
      FullTest(|s.popped|, s.consumer.seenHead, |s.buffer|);
    }
  }

  /** How a push goes on, step by step: it loads both indices, is refused if the ring was full at the
      second load, else writes, publishes its item and answers yes. */
  lemma PushAdvances<T>(s: Ring<T>, item: T)
    requires s.Inv()
    ensures var r := ProducerStep(s, item);
            && r.Inv() && r.consumer == s.consumer && r.popped == s.popped && |r.buffer| == |s.buffer|
            && (!s.producer.PWritten? ==> r.pushed == s.pushed)
            && match s.producer
               case PIdle(_) => r.producer.PHead? && r.producer.item == item
               case PHead(x, _) => r.producer.PTail? && r.producer.item == x && r.producer.seenTail == |s.popped|
               case PTail(x, _, _, seen) =>
                 if |s.pushed| - seen == |s.buffer| - 1 then r.producer == PIdle(false)
                 else r.producer.PReady? && r.producer.item == x
               case PReady(x, _) => r.producer.PWritten? && r.producer.item == x
               case PWritten(x, _) => r.producer == PIdle(true) && r.pushed == s.pushed + [x]
  {
    ProducerKeeps(s, item);
    RefusalsAreHonest(s, item);
  }

  /** How a pop goes on: it finds nothing if the ring was empty at the second load, else it takes the
      oldest item and answers with it. */
  lemma PopAdvances<T>(s: Ring<T>)
    requires s.Inv()
    ensures var r := ConsumerStep(s);
            && r.Inv() && r.producer == s.producer && r.pushed == s.pushed && |r.buffer| == |s.buffer|
            && (!s.consumer.CRead? ==> r.popped == s.popped)
            && match s.consumer
               case CIdle(_) => r.consumer.CTail?
               case CTail(_) => r.consumer.CHead? && r.consumer.seenHead == |s.pushed|
               case CHead(_, _, seen) => if seen == |s.popped| then r.consumer == CIdle(None) else r.consumer.CReady?
               case CReady(_) => r.consumer.CRead?
               case CRead(_, _) =>
                 && |s.popped| < |s.pushed|
                 && r.consumer == CIdle(Some(s.pushed[|s.popped|]))
                 && r.popped == s.popped + [s.pushed[|s.popped|]]
  {
    ConsumerKeeps(s);
    if s.consumer.CHead? {
      FullTest(|s.popped|, s.consumer.seenHead, |s.buffer|);
    }
  }

  /** The two tests of the ring on the counts behind the positions. */
  lemma FullTest(t: nat, h: nat, n: nat)
    requires n >= 1 && t <= h < t + n
    ensures (h % n + 1) % n == t % n <==> h + 1 == t + n
    ensures h % n == t % n <==> h == t
  {
    ModSucc(h, n);
    assert t + n == (t / n + 1) * n + t % n;
    DivModUnique(t + n, n, t / n + 1, t % n);
    if (h + 1) % n == t % n {
      ModApart(h + 1, t + n, n);
    }
    if h % n == t % n {
      ModApart(t, h, n);
    }
  }

  // ---- the object ----

  /** The queue between calls. Each line of `Push` and `Pop` that touches shared memory is one step
      of the machine above. */
  class SPSCQueue<T(0)> {
    const buffer: array<T>
    var head: nat
    var tail: nat
    ghost var ring: Ring<T>

    ghost predicate Valid()
      reads this, buffer
    {
      && ring.Inv() && ring.producer.PIdle? && ring.consumer.CIdle?
      && ring.buffer == buffer[..] && ring.head == head && ring.tail == tail
    }

    constructor (capacity: nat)
      requires capacity >= 1
      ensures Valid() && fresh(buffer) && buffer.Length == capacity
      ensures ring.pushed == [] && ring.popped == []
    {
      buffer := new T[capacity];
      head, tail := 0, 0;
      new;
      ring := Empty(buffer[..]);
    }

    method Push(item: T) returns (ok: bool)
      requires Valid()
      modifies `head, `ring, buffer
      ensures Valid()
      ensures ok <==> |old(ring).pushed| - |old(ring).popped| < buffer.Length - 1
      ensures ring.producer == PIdle(ok)
      ensures ring.pushed == (if ok then old(ring).pushed + [item] else old(ring).pushed)
      ensures ring.popped == old(ring).popped
    {
      hide Ring.Inv;
      HeadInRange(ring);
      var h := head;
      ring := Step(ring, Produce(item));
      var next := (h + 1) % buffer.Length;
      var t := tail;
      ring := Step(ring, Produce(item));
      RefusalsAreHonest(ring, item);
      ring := Step(ring, Produce(item));
      if next == t {
        return false;
      }
      buffer[h] := item;
      ring := Step(ring, Produce(item));
      head := next;
      ring := Step(ring, Produce(item));
      return true;
    }

    method Pop() returns (got: Option<T>)
      requires Valid()
      modifies `tail, `ring
      ensures Valid()
      ensures got.None? <==> |old(ring).pushed| == |old(ring).popped|
      ensures ring.consumer == CIdle(got)
      ensures got.Some? ==> got.value == old(ring).pushed[|old(ring).popped|]
      ensures ring.pushed == old(ring).pushed
      ensures ring.popped == (if got.Some? then old(ring).popped + [got.value] else old(ring).popped)
    {
      hide Ring.Inv;
      HeadInRange(ring);
      ItemAtTail(ring);
      var t := tail;
      ring := Step(ring, Consume);
      var h := head;
      ring := Step(ring, Consume);
      RefusalsAreHonest(ring, buffer[0]);
      ring := Step(ring, Consume);
      if t == h {
        return None;
      }
      var item := buffer[t];
      ring := Step(ring, Consume);
      tail := (t + 1) % buffer.Length;
      ring := Step(ring, Consume);
      return Some(item);
    }
  }
}
