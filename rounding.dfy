/**
 * Python's built-in `round` on the exact real value of its argument.
 *
 * `round(x)` returns the nearest integer and breaks a tie (a fractional part of
 * exactly one half) towards the even neighbour; `round(x, n)` does the same at
 * the n-th decimal place. Binary floating point is not modelled: the argument is
 * the real number the float stands for.
 */
module Rounding {

  /** `round(x)`: nearest integer, ties to even. */
  function RoundHalfEven(x: real): (r: int)
    ensures -0.5 <= r as real - x <= 0.5
    ensures (x - x.Floor as real) != 0.5 ==> (r == x.Floor || r == x.Floor + 1)
  {
    var f := x.Floor;
    var d := x - f as real;
    if d < 0.5 then f
    else if d > 0.5 then f + 1
    else if f % 2 == 0 then f
    else f + 1
  }

  /** An exact tie goes to the even neighbour. */
  lemma RoundTieIsEven(x: real)
    requires x - x.Floor as real == 0.5
    ensures RoundHalfEven(x) % 2 == 0
  {
  }

  /** Rounding an integer returns it. */
  lemma RoundOfInteger(n: int)
    ensures RoundHalfEven(n as real) == n
  {
  }

  /** Rounding never decreases: x <= y implies round(x) <= round(y). */
  lemma RoundMonotone(x: real, y: real)
    requires x <= y
    ensures RoundHalfEven(x) <= RoundHalfEven(y)
  {
    var fx, fy := x.Floor, y.Floor;
    if fx == fy {
      var dx, dy := x - fx as real, y - fy as real;
      assert dx <= dy;
    } else {
      assert fx < fy;
      assert RoundHalfEven(x) <= fx + 1 <= fy;
    }
  }

  /** Rounding keeps a value inside any integer bounds it already lies within. */
  lemma RoundWithin(x: real, lo: int, hi: int)
    requires lo as real <= x <= hi as real
    ensures lo <= RoundHalfEven(x) <= hi
  {
    RoundMonotone(lo as real, x);
    RoundMonotone(x, hi as real);
    RoundOfInteger(lo);
    RoundOfInteger(hi);
  }

  lemma ScaleMonotone(x: real, y: real, c: real)
    requires x <= y && c >= 0.0
    ensures x * c <= y * c
  {
  }

  /** Multiplying a non-negative value by a factor of at least 1 never makes it smaller. */
  lemma MulAtLeast(x: real, k: real)
    requires x >= 0.0 && k >= 1.0
    ensures x * k >= x
  {
    assert x * k - x == x * (k - 1.0);
  }

  lemma DivMonotone(x: real, y: real, c: real)
    requires x <= y && c > 0.0
    ensures x / c <= y / c
  {
  }

  /** `round(x, 4)`: x rounded half to even at the fourth decimal place. */
  function Round4(x: real): (r: real)
    ensures -0.00005 <= r - x <= 0.00005
  {
    RoundHalfEven(x * 10000.0) as real / 10000.0
  }

  /** `round(x, 2)`: x rounded half to even at the second decimal place. */
  function Round2(x: real): (r: real)
    ensures -0.005 <= r - x <= 0.005
  {
    RoundHalfEven(x * 100.0) as real / 100.0
  }

  lemma Round4Monotone(x: real, y: real)
    requires x <= y
    ensures Round4(x) <= Round4(y)
  {
    RoundMonotone(x * 10000.0, y * 10000.0);
  }

  lemma Round2Monotone(x: real, y: real)
    requires x <= y
    ensures Round2(x) <= Round2(y)
  {
    RoundMonotone(x * 100.0, y * 100.0);
  }

  /** `round(x, 4)` stays inside bounds that are themselves written with four decimals. */
  lemma Round4Within(x: real, a: int, b: int)
    requires a as real / 10000.0 <= x <= b as real / 10000.0
    ensures a as real / 10000.0 <= Round4(x) <= b as real / 10000.0
  {
    RoundWithin(x * 10000.0, a, b);
  }
}

/**
 * Sorting by a caller-supplied "goes before or together with" relation, as Python's
 * `sorted(..., key=...)` and a database `ORDER BY` do. Insertion sort on sequences;
 * what matters to the rest of the model is that its result is a sorted permutation.
 */
module Sorting {

  /** `le` is total and transitive: a valid ordering key for a sort. */
  ghost predicate TotalPreorder<T(!new)>(le: (T, T) -> bool) {
    && (forall a, b :: le(a, b) || le(b, a))
    && (forall a, b, c :: le(a, b) && le(b, c) ==> le(a, c))
  }

  ghost predicate Sorted<T>(s: seq<T>, le: (T, T) -> bool) {
    forall i, j :: 0 <= i < j < |s| ==> le(s[i], s[j])
  }

  function Insert<T>(x: T, s: seq<T>, le: (T, T) -> bool): (r: seq<T>)
    ensures multiset(r) == multiset(s) + multiset{x}
    ensures |r| == |s| + 1
  {
    if s == [] then [x]
    else if le(x, s[0]) then [x] + s
    else
      assert s == [s[0]] + s[1..];
      [s[0]] + Insert(x, s[1..], le)
  }

  function Sort<T>(s: seq<T>, le: (T, T) -> bool): (r: seq<T>)
    ensures multiset(r) == multiset(s)
    ensures |r| == |s|
  {
    if s == [] then []
    else
      assert s == [s[0]] + s[1..];
      Insert(s[0], Sort(s[1..], le), le)
  }

  lemma {:induction false} InsertSorted<T(!new)>(x: T, s: seq<T>, le: (T, T) -> bool)
    requires TotalPreorder(le)
    requires Sorted(s, le)
    ensures Sorted(Insert(x, s, le), le)
    decreases |s|
  {
    if s != [] && !le(x, s[0]) {
      var tail := Insert(x, s[1..], le);
      InsertSorted(x, s[1..], le);
      HeadBelowInsert(x, s, le);
      ConsSorted(s[0], tail, le);
    }
  }

  /** When x goes after the head, the head is below everything the rest of the insertion holds. */
  lemma HeadBelowInsert<T(!new)>(x: T, s: seq<T>, le: (T, T) -> bool)
    requires TotalPreorder(le)
    requires Sorted(s, le)
    requires s != [] && !le(x, s[0])
    ensures forall y :: y in multiset(Insert(x, s[1..], le)) ==> le(s[0], y)
  {
    assert le(s[0], x);
    forall y | y in multiset(Insert(x, s[1..], le)) ensures le(s[0], y) {
      assert y in multiset(s[1..]) + multiset{x};
      if y in multiset(s[1..]) {
        var k :| 0 <= k < |s[1..]| && s[1..][k] == y;
        assert s[k + 1] == y;
      }
    }
  }

  /** A sorted sequence stays sorted with an element below all of it in front. */
  lemma ConsSorted<T>(h: T, tail: seq<T>, le: (T, T) -> bool)
    requires Sorted(tail, le)
    requires forall y :: y in multiset(tail) ==> le(h, y)
    ensures Sorted([h] + tail, le)
  {
    var r := [h] + tail;
    forall i, j | 0 <= i < j < |r| ensures le(r[i], r[j]) {
      if i == 0 {
        assert r[j] == tail[j - 1];
        assert r[j] in multiset(tail);
      } else {
        assert r[i] == tail[i - 1] && r[j] == tail[j - 1];
      }
    }
  }

  lemma {:induction false} SortSorted<T(!new)>(s: seq<T>, le: (T, T) -> bool)
    requires TotalPreorder(le)
    ensures Sorted(Sort(s, le), le)
    decreases |s|
  {
    if s != [] {
      SortSorted(s[1..], le);
      InsertSorted(s[0], Sort(s[1..], le), le);
    }
  }
}
