/** The shared vocabulary of the order book: identifiers, prices and quantities. */
module Core {

  const TWO_64: int := 0x1_0000_0000_0000_0000

  /** Order ids and quantities are unsigned 64-bit integers. */
  type OrderId = x: int | 0 <= x < TWO_64 witness 0
  type Quantity = x: int | 0 <= x < TWO_64 witness 0

  /** Prices are only ever compared, so a totally ordered `real` stands for the source's double. */
  type Price = real

  type Instrument = string

  /** Unsigned 64-bit wrap-around. */
  function Wrap(n: int): OrderId {
    n % TWO_64
  }

  lemma AddWrap(a: int, b: int)
    ensures Wrap(Wrap(a) + b) == Wrap(a + b)
  {
    WrapUnique(Wrap(a) + b, (a + b) / TWO_64 - a / TWO_64, Wrap(a + b));
  }

  lemma WrapUnique(a: int, q: int, r: nat)
    requires a == q * TWO_64 + r && r < TWO_64
    ensures Wrap(a) == r
  {
  }

  const DEFAULT_ORDER_ID: OrderId := 0
  const FIRST_ORDER_ID: OrderId := 1

  datatype Side = BUY | SELL

  function Opposite(side: Side): Side {
    if side == BUY then SELL else BUY
  }

  datatype Status = NEW | PARTIALLY_FILLED | FULLY_FILLED | CANCELLED

  /** `a` comes strictly before `b` in the iteration order of the map that holds `side`. */
  predicate Better(side: Side, a: Price, b: Price) {
    if side == BUY then a > b else a < b
  }

  /** An incoming order of `side` limited at `limit` may trade against a resting price. */
  predicate Crosses(side: Side, limit: Price, resting: Price) {
    if side == BUY then limit >= resting else limit <= resting
  }

  /** The result of what the source may leave undefined. */
  datatype Outcome<+T> = Defined(value: T) | Undefined

  function Min(a: int, b: int): (m: int)
    ensures m <= a && m <= b && (m == a || m == b)
  {
    if a <= b then a else b
  }
}

/** Facts about sequences without repetition, used for queues of order ids. */
module Sequences {

  ghost predicate Distinct<T>(s: seq<T>) {
    forall i, j :: 0 <= i < j < |s| ==> s[i] != s[j]
  }

  lemma SplitAt<T>(s: seq<T>, i: nat)
    requires i < |s|
    ensures s == s[..i] + ([s[i]] + s[i + 1..])
  {
  }

  lemma ConcatAssoc<T>(a: seq<T>, b: seq<T>, c: seq<T>)
    ensures a + (b + c) == a + b + c
  {
  }

  lemma DistinctConcat<T>(a: seq<T>, b: seq<T>)
    requires Distinct(a) && Distinct(b) && forall x <- a :: x !in b
    ensures Distinct(a + b)
  {
    assert forall i :: 0 <= i < |b| ==> b[i] in b;
  }

  lemma {:induction false} DistinctSize<T>(s: seq<T>, keys: set<T>)
    requires Distinct(s)
    requires (forall x <- keys :: x in s) && (forall x <- s :: x in keys)
    ensures |keys| == |s|
  {
    if s != [] {
      assert s == [s[0]] + s[1..];
      assert s[0] !in s[1..];
      DistinctSize(s[1..], keys - {s[0]});
    }
  }

  /** `s` with every occurrence of `x` taken out. */
  function Without<T(==,!new)>(s: seq<T>, x: T): (r: seq<T>)
    ensures forall y :: y in r <==> y in s && y != x
    ensures |r| <= |s|
    ensures x !in s ==> r == s
  {
    if s == [] then []
    else if s[0] == x then Without(s[1..], x)
    else [s[0]] + Without(s[1..], x)
  }

  lemma {:induction false} WithoutConcat<T(!new)>(a: seq<T>, b: seq<T>, x: T)
    ensures Without(a + b, x) == Without(a, x) + Without(b, x)
  {
    if a == [] {
      assert a + b == b;
    } else {
      assert (a + b)[1..] == a[1..] + b;
      WithoutConcat(a[1..], b, x);
    }
  }

  lemma {:induction false} WithoutDistinct<T(!new)>(s: seq<T>, x: T)
    requires Distinct(s)
    ensures Distinct(Without(s, x))
    ensures x in s ==> |Without(s, x)| == |s| - 1
  {
    if s != [] {
      WithoutDistinct(s[1..], x);
      assert s == [s[0]] + s[1..];
      assert s[0] !in s[1..];
      assert s[0] !in Without(s[1..], x);
    }
  }

  /** Taking out the head of a queue without repetition leaves its tail. */
  lemma WithoutHead<T(!new)>(s: seq<T>)
    requires s != [] && Distinct(s)
    ensures Without(s, s[0]) == s[1..]
  {
    assert s[0] !in s[1..];
  }

  lemma WithoutAt<T(!new)>(s: seq<T>, x: T) returns (k: nat)
    requires Distinct(s) && x in s
    ensures k < |s| && s[k] == x && Without(s, x) == s[..k] + s[k + 1..]
  {
    k :| 0 <= k < |s| && s[k] == x;
    var a, c := s[..k], s[k + 1..];
    assert x !in a && x !in c;
    SplitAt(s, k);
    WithoutConcat(a, [x] + c, x);
    WithoutConcat([x], c, x);
  }
}

/** The little number theory that positions in rings and rounds of dealing need. */
module Arithmetic {

  lemma MulGrows(d: int, n: int)
    requires n >= 0
    ensures d >= 1 ==> d * n >= n
    ensures d <= -1 ==> d * n <= -n
  {
  }

  lemma DivModUnique(a: nat, n: nat, q: int, r: int)
    requires n >= 1 && a == q * n + r && 0 <= r < n
    ensures a / n == q && a % n == r
  {
    var d := a / n - q;
    assert a == (a / n) * n + a % n;
    assert d * n == (a / n) * n - q * n;
    MulGrows(d, n);
  }
}
