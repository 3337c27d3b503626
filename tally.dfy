/** List operations the pages perform with `Array.prototype.filter`,
    `filter(...).length`, and the `Math.round(part / whole * 100)`
    percentage shown on the summary cards. */
module Tally {

  /** `s.filter(p)`: keeps exactly the elements satisfying `p`. */
  function Filter<T>(s: seq<T>, p: T -> bool): (r: seq<T>)
    ensures |r| <= |s|
    ensures forall x :: x in r ==> x in s && p(x)
    ensures forall x :: x in s && p(x) ==> x in r
  {
    if |s| == 0 then []
    else (if p(s[0]) then [s[0]] else []) + Filter(s[1..], p)
  }

  /** Filtering works piece by piece, so the kept elements stay in the
      order they had in the input. */
  lemma {:induction false} FilterAppend<T>(a: seq<T>, b: seq<T>, p: T -> bool)
    ensures Filter(a + b, p) == Filter(a, p) + Filter(b, p)
    decreases |a|
  {
    if |a| == 0 {
      assert a + b == b;
    } else {
      FilterAppend(a[1..], b, p);
      var head := if p(a[0]) then [a[0]] else [];
      assert (a + b)[0] == a[0] && (a + b)[1..] == a[1..] + b;
      assert Filter(a + b, p) == head + Filter(a[1..] + b, p);
      assert Filter(a, p) == head + Filter(a[1..], p);
    }
  }

  /** When every element passes, filtering returns the input unchanged
      (an empty search term keeps the whole list). */
  lemma {:induction false} FilterKeepsAll<T>(s: seq<T>, p: T -> bool)
    requires forall k :: 0 <= k < |s| ==> p(s[k])
    ensures Filter(s, p) == s
    decreases |s|
  {
    if |s| > 0 {
      FilterKeepsAll(s[1..], p);
    }
  }

  /** `s.filter(p).length`. */
  function Count<T>(s: seq<T>, p: T -> bool): (n: nat)
    ensures n <= |s|
  {
    |Filter(s, p)|
  }

  /** A weaker predicate never counts fewer elements. */
  lemma {:induction false} CountMonotone<T>(s: seq<T>, p: T -> bool, q: T -> bool)
    requires forall x :: p(x) ==> q(x)
    ensures Count(s, p) <= Count(s, q)
    decreases |s|
  {
    if |s| > 0 {
      CountMonotone(s[1..], p, q);
    }
  }

  /** Two tallies of predicates that no element satisfies together add up
      to the tally of their disjunction, so they never exceed the total. */
  lemma {:induction false} CountDisjoint<T>(s: seq<T>, p: T -> bool, q: T -> bool, pq: T -> bool)
    requires forall x :: !(p(x) && q(x))
    requires forall x :: pq(x) == (p(x) || q(x))
    ensures Count(s, p) + Count(s, q) == Count(s, pq)
    ensures Count(s, p) + Count(s, q) <= |s|
    decreases |s|
  {
    if |s| > 0 {
      CountDisjoint(s[1..], p, q, pq);
    }
  }

  /** `Math.round(part / whole * 100)` computed exactly: the integer nearest
      to the percentage, halves rounded up. A zero whole, which JavaScript
      would turn into `NaN`, is excluded here; the pages that use this
      compute over non-empty constant data. */
  function RoundedPercent(part: int, whole: int): (r: int)
    requires whole > 0
    ensures 2 * whole * r <= 200 * part + whole < 2 * whole * (r + 1)
  {
    var q := (200 * part + whole) / (2 * whole);
    assert (200 * part + whole) == q * (2 * whole) + (200 * part + whole) % (2 * whole);
    q
  }

  /** Multiplying by a non-negative factor keeps order. */
  lemma MulLe(a: int, b: int, c: int)
    requires a >= 0 && b <= c
    ensures a * b <= a * c
  {
    assert a * c - a * b == a * (c - b);
  }

  /** Multiplying by a positive factor keeps strict order, both ways. */
  lemma MulLtIff(a: int, x: int, y: int)
    requires a > 0
    ensures (x < y) == (a * x < a * y)
  {
    if x < y {
      MulLe(a, x + 1, y);
    } else {
      MulLe(a, y, x);
    }
  }

  /** A part no larger than its whole is between 0% and 100%. */
  lemma PercentBounds(part: int, whole: int)
    requires whole > 0 && 0 <= part <= whole
    ensures 0 <= RoundedPercent(part, whole) <= 100
  {
    var r := RoundedPercent(part, whole);
    MulLtIff(2 * whole, 0, r + 1);
    MulLtIff(2 * whole, r, 101);
  }

  /** The whole is 100% and nothing is 0%. */
  lemma PercentEnds(whole: int)
    requires whole > 0
    ensures RoundedPercent(whole, whole) == 100
    ensures RoundedPercent(0, whole) == 0
  {
    var r := RoundedPercent(whole, whole);
    MulLtIff(2 * whole, r, 101);
    MulLtIff(2 * whole, 99, r);
    var z := RoundedPercent(0, whole);
    MulLtIff(2 * whole, z, 1);
    MulLtIff(2 * whole, -1, z);
  }
}
