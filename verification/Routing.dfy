/** Building the routing table: instruments are dealt round-robin to the workers
    (include/order_routing_system.h:36-67). */
module Routing {
  import opened Core
  import opened Arithmetic

  /** The instruments at the positions `i` with `i % n == w`, in order. */
  function Dealt(instruments: seq<Instrument>, n: nat, w: nat): seq<Instrument>
    requires n >= 1
  {
    if instruments == [] then []
    else
      var last := |instruments| - 1;
      Dealt(instruments[..last], n, w) + if last % n == w then [instruments[last]] else []
  }

  /** `emplace` keeps the first entry of an instrument. */
  function Router(instruments: seq<Instrument>, n: nat): map<Instrument, nat>
    requires n >= 1
  {
    if instruments == [] then map[]
    else
      var last := |instruments| - 1;
      var router := Router(instruments[..last], n);
      if instruments[last] in router then router else router[instruments[last] := last % n]
  }

  method BuildOrderRoutingSystem(instruments: seq<Instrument>, numWorkers: nat)
    returns (instrumentSets: seq<seq<Instrument>>, instrumentRouter: map<Instrument, nat>)
    requires numWorkers >= 1 && instruments != []
    ensures |instrumentSets| == numWorkers
    ensures forall w :: 0 <= w < numWorkers ==> instrumentSets[w] == Dealt(instruments, numWorkers, w)
    ensures instrumentRouter == Router(instruments, numWorkers)
    ensures forall w :: 0 <= w < numWorkers ==> EveryNth(instruments, numWorkers, w, instrumentSets[w])
    ensures forall x :: x in instrumentRouter <==> x in instruments
    ensures forall i :: 0 <= i < |instruments| && instruments[i] !in instruments[..i] ==>
              instrumentRouter[instruments[i]] == i % numWorkers
  {
    instrumentSets := seq(numWorkers, _ => []);
    instrumentRouter := map[];
    assert instruments[..0] == [];
    for i := 0 to |instruments|
      invariant |instrumentSets| == numWorkers
      invariant forall w :: 0 <= w < numWorkers ==> instrumentSets[w] == Dealt(instruments[..i], numWorkers, w)
      invariant instrumentRouter == Router(instruments[..i], numWorkers)
    {
      var allocatedWorkerIdx := i % numWorkers;
      var instrument := instruments[i];
      assert instruments[..i + 1][..i] == instruments[..i];
      instrumentSets := instrumentSets[allocatedWorkerIdx := instrumentSets[allocatedWorkerIdx] + [instrument]];
      if instrument !in instrumentRouter {
        instrumentRouter := instrumentRouter[instrument := allocatedWorkerIdx];
      }
    }
    assert instruments[..|instruments|] == instruments;
    AllInOrder(instruments, numWorkers);
  }

  /** `dealt` is the instruments at `w`, `w + n`, `w + 2 * n` and so on to the end, in that order. */
  predicate EveryNth(instruments: seq<Instrument>, n: nat, w: nat, dealt: seq<Instrument>) {
    && (forall j :: 0 <= j < |dealt| ==> PlacedAt(instruments, w + j * n, dealt[j]))
    && w + |dealt| * n >= |instruments|
  }

  predicate PlacedAt(instruments: seq<Instrument>, i: int, x: Instrument) {
    0 <= i < |instruments| && instruments[i] == x
  }

  lemma DealtEveryNth(instruments: seq<Instrument>, n: nat, w: nat)
    requires n >= 1 && w < n
    ensures EveryNth(instruments, n, w, Dealt(instruments, n, w))
  {
    hide Dealt;
    var dealt := Dealt(instruments, n, w);
    DealtInOrder(instruments, n, w, |dealt|);
    forall j | 0 <= j < |dealt| ensures PlacedAt(instruments, w + j * n, dealt[j]) {
      DealtInOrder(instruments, n, w, j);
      MulGrows(j, n);
    }
  }

  lemma AllInOrder(instruments: seq<Instrument>, n: nat)
    requires n >= 1
    ensures forall w :: 0 <= w < n ==> EveryNth(instruments, n, w, Dealt(instruments, n, w))
    ensures forall x :: x in Router(instruments, n) <==> x in instruments
    ensures forall i :: 0 <= i < |instruments| && instruments[i] !in instruments[..i] ==>
              instruments[i] in Router(instruments, n) && Router(instruments, n)[instruments[i]] == i % n
  {
    hide Dealt, Router, EveryNth;
    forall w | 0 <= w < n ensures EveryNth(instruments, n, w, Dealt(instruments, n, w)) {
      DealtEveryNth(instruments, n, w);
    }
    RoutedToOwner(instruments, n);
    forall i | 0 <= i < |instruments| && instruments[i] !in instruments[..i]
      ensures instruments[i] in Router(instruments, n) && Router(instruments, n)[instruments[i]] == i % n
    {
      RoutedToFirst(instruments, n, i);
    }
  }

  /** Worker `w` is dealt the instruments at `w`, `w + n`, `w + 2 * n` and so on, in that order. */
  lemma {:induction false} DealtInOrder(instruments: seq<Instrument>, n: nat, w: nat, j: nat)
    requires n >= 1 && w < n
    ensures j < |Dealt(instruments, n, w)| <==> w + j * n < |instruments|
    ensures j < |Dealt(instruments, n, w)| ==> Dealt(instruments, n, w)[j] == instruments[w + j * n]
  {
    MulGrows(j, n);
    if instruments != [] {
      var last := |instruments| - 1;
      DealtInOrder(instruments[..last], n, w, j);
      DealtEvenly(instruments[..last], n, w);
      PlaceOf(last, n, w, j);
    }
  }

  /** The position `w + j * n` is the one dealt to `w` in round `j`. */
  lemma PlaceOf(i: nat, n: nat, w: nat, j: nat)
    requires n >= 1 && w < n
    ensures w + j * n == i <==> i % n == w && i / n == j
  {
    assert i == (i / n) * n + i % n;
    if w + j * n == i {
      DivModUnique(i, n, j, w);
    }
  }

  /** Of several entries of a name the first decides. */
  lemma {:induction false} RoutedToFirst(instruments: seq<Instrument>, n: nat, i: nat)
    requires n >= 1 && i < |instruments| && instruments[i] !in instruments[..i]
    ensures instruments[i] in Router(instruments, n) && Router(instruments, n)[instruments[i]] == i % n
  {
    var last := |instruments| - 1;
    RoutedToOwner(instruments[..last], n);
    if i < last {
      assert instruments[..last][..i] == instruments[..i];
      RoutedToFirst(instruments[..last], n, i);
    }
  }

  /** Exactly the listed instruments are routed, each to a worker that was dealt it. */
  lemma {:induction false} RoutedToOwner(instruments: seq<Instrument>, n: nat)
    requires n >= 1
    ensures forall x :: x in Router(instruments, n) <==> x in instruments
    ensures forall x <- Router(instruments, n) ::
              Router(instruments, n)[x] < n && x in Dealt(instruments, n, Router(instruments, n)[x])
  {
    if instruments != [] {
      var last := |instruments| - 1;
      RoutedToOwner(instruments[..last], n);
      assert instruments == instruments[..last] + [instruments[last]];
    }
  }

  lemma {:induction false} DealtAt(instruments: seq<Instrument>, n: nat, w: nat, x: Instrument)
    requires n >= 1
    ensures x in Dealt(instruments, n, w) <==> exists i :: 0 <= i < |instruments| && instruments[i] == x && i % n == w
  {
    if instruments != [] {
      var last := |instruments| - 1;
      DealtAt(instruments[..last], n, w, x);
      if x in Dealt(instruments[..last], n, w) {
        var i :| 0 <= i < last && instruments[..last][i] == x && i % n == w;
        assert instruments[i] == x;
      }
      if i :| 0 <= i < |instruments| && instruments[i] == x && i % n == w {
        assert i < last ==> instruments[..last][i] == x;
      }
    }
  }

  /** With distinct names the owner is the only worker that was dealt the instrument. */
  lemma OwnerUnique(instruments: seq<Instrument>, n: nat, x: Instrument, w: nat)
    requires n >= 1 && x in Router(instruments, n) && x in Dealt(instruments, n, w)
    requires forall i, j :: 0 <= i < j < |instruments| ==> instruments[i] != instruments[j]
    ensures w == Router(instruments, n)[x]
  {
    RoutedToOwner(instruments, n);
    DealtAt(instruments, n, w, x);
    DealtAt(instruments, n, Router(instruments, n)[x], x);
  }

  /** The set sizes differ by at most one: the first `|instruments| % n` workers get one more. */
  lemma {:induction false} DealtEvenly(instruments: seq<Instrument>, n: nat, w: nat)
    requires n >= 1 && w < n
    ensures |Dealt(instruments, n, w)| == |instruments| / n + if w < |instruments| % n then 1 else 0
  {
    if instruments != [] {
      var last := |instruments| - 1;
      DealtEvenly(instruments[..last], n, w);
      Succ(last, n);
    } else {
      Succ(0, n);
    }
  }

  lemma Succ(a: nat, n: nat)
    requires n >= 1
    ensures if a % n == n - 1 then (a + 1) / n == a / n + 1 && (a + 1) % n == 0
            else (a + 1) / n == a / n && (a + 1) % n == a % n + 1
    ensures 0 / n == 0 && 0 % n == 0
  {
    var q, r := a / n, a % n;
    assert a == q * n + r;
    if r == n - 1 {
      assert a + 1 == (q + 1) * n + 0;
      DivModUnique(a + 1, n, q + 1, 0);
    } else {
      DivModUnique(a + 1, n, q, r + 1);
    }
    DivModUnique(0, n, 0, 0);
  }
}
