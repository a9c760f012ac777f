/** Exact-arithmetic stand-ins for the numpy operations the interpolation
    pipeline uses: sums, dot products, scaling, the arithmetic mean, and
    numpy's round-half-to-even (to a whole number and to one decimal). */
module Numeric {

  /** The sum of a sequence of reals (numpy's `.sum()`). */
  function Sum(s: seq<real>): real
  {
    if s == [] then 0.0 else s[0] + Sum(s[1..])
  }

  /** The dot product of two sequences of equal length (numpy's `np.dot`). */
  function Dot(w: seq<real>, v: seq<real>): real
    requires |w| == |v|
  {
    if w == [] then 0.0 else w[0] * v[0] + Dot(w[1..], v[1..])
  }

  /** Every element divided by `t` (numpy's `w / t`). */
  function Scale(w: seq<real>, t: real): (r: seq<real>)
    requires t != 0.0
    ensures |r| == |w|
    ensures forall i :: 0 <= i < |w| ==> r[i] * t == w[i]
  {
    seq(|w|, i requires 0 <= i < |w| => w[i] / t)
  }

  /** The arithmetic mean of a non-empty sequence (pandas' `.mean()`). */
  function Mean(s: seq<real>): real
    requires |s| > 0
  {
    Sum(s) / |s| as real
  }

  predicate IsWhole(x: real)
  {
    x.Floor as real == x
  }

  /** numpy's rounding to the nearest whole number, ties to the even
      neighbour, as `Series.round()` applies it. */
  function RoundHalfEven(x: real): (n: int)
    ensures -0.5 <= n as real - x <= 0.5
    ensures (n as real - x == 0.5 || x - n as real == 0.5) ==> n % 2 == 0
  {
    var f := x.Floor;
    var d := x - f as real;
    if d < 0.5 then f
    else if d > 0.5 then f + 1
    else if f % 2 == 0 then f
    else f + 1
  }

  /** numpy's `.round(1)`: scale by ten, round half to even, scale back. */
  function Round1(x: real): (r: real)
    ensures -0.05 <= r - x <= 0.05
    ensures IsWhole(r * 10.0)
    ensures ((r - x) * 10.0 == 0.5 || (x - r) * 10.0 == 0.5) ==> (r * 10.0).Floor % 2 == 0
  {
    var n := RoundHalfEven(x * 10.0);
    var r := n as real / 10.0;
    assert r * 10.0 == n as real;
    assert (r - x) * 10.0 == n as real - x * 10.0 && (x - r) * 10.0 == x * 10.0 - n as real;
    r
  }

  /** The two properties in RoundHalfEven's contract determine its result:
      the nearest whole number, and on a tie the even one. */
  lemma RoundHalfEvenUnique(x: real, n: int)
    requires -0.5 <= n as real - x <= 0.5
    requires (n as real - x == 0.5 || x - n as real == 0.5) ==> n % 2 == 0
    ensures n == RoundHalfEven(x)
  {
  }

  /** A whole number is left as it is by both roundings. */
  lemma RoundWhole(x: real)
    requires IsWhole(x)
    ensures RoundHalfEven(x) as real == x
    ensures Round1(x) == x
  {
    var k := x.Floor;
    RoundHalfEvenUnique(x, k);
    assert x * 10.0 == (10 * k) as real;
    RoundHalfEvenUnique(x * 10.0, 10 * k);
  }

  /** Scaling every element by `t` scales the sum by `t`. */
  lemma {:induction false} SumScale(w: seq<real>, t: real)
    requires t != 0.0
    ensures Sum(Scale(w, t)) == Sum(w) / t
  {
    if w != [] {
      var r := Scale(w, t);
      assert r[1..] == Scale(w[1..], t);
      SumScale(w[1..], t);
      DivideSum(w[0], Sum(w[1..]), t);
      assert Sum(r) == r[0] + Sum(r[1..]);
    }
  }

  lemma DivideSum(a: real, b: real, t: real)
    requires t != 0.0
    ensures a / t + b / t == (a + b) / t
  {
  }

  /** A non-empty sum of positive terms is positive. */
  lemma {:induction false} SumPositive(s: seq<real>)
    requires |s| > 0
    requires forall i :: 0 <= i < |s| ==> s[i] > 0.0
    ensures Sum(s) > 0.0
  {
    if |s| > 1 {
      SumPositive(s[1..]);
    }
  }

  /** A sum of terms in [lo, hi] lies in [n * lo, n * hi]. */
  lemma {:induction false} SumBounds(s: seq<real>, lo: real, hi: real)
    requires forall i :: 0 <= i < |s| ==> lo <= s[i] <= hi
    ensures |s| as real * lo <= Sum(s) <= |s| as real * hi
  {
    if s != [] {
      SumBounds(s[1..], lo, hi);
    }
  }

  /** The mean of values in [lo, hi] lies in [lo, hi]. */
  lemma MeanBounds(s: seq<real>, lo: real, hi: real)
    requires |s| > 0
    requires forall i :: 0 <= i < |s| ==> lo <= s[i] <= hi
    ensures lo <= Mean(s) <= hi
  {
    SumBounds(s, lo, hi);
  }

  /** A dot product with non-negative weights of values in [lo, hi] lies
      between lo and hi times the total weight. */
  lemma DotBounds(w: seq<real>, v: seq<real>, lo: real, hi: real)
    requires |w| == |v|
    requires forall i :: 0 <= i < |w| ==> w[i] >= 0.0
    requires forall i :: 0 <= i < |v| ==> lo <= v[i] <= hi
    ensures lo * Sum(w) <= Dot(w, v) <= hi * Sum(w)
  {
    DotLower(w, v, lo);
    DotUpper(w, v, hi);
  }

  lemma {:induction false} DotLower(w: seq<real>, v: seq<real>, lo: real)
    requires |w| == |v|
    requires forall i :: 0 <= i < |w| ==> w[i] >= 0.0
    requires forall i :: 0 <= i < |v| ==> lo <= v[i]
    ensures lo * Sum(w) <= Dot(w, v)
  {
    if w != [] {
      var tail := Sum(w[1..]);
      DotLower(w[1..], v[1..], lo);
      ScaleMonotone(w[0], lo, v[0]);
      Distribute(lo, w[0], tail);
      assert Sum(w) == w[0] + tail;
      assert Dot(w, v) == w[0] * v[0] + Dot(w[1..], v[1..]);
    }
  }

  lemma {:induction false} DotUpper(w: seq<real>, v: seq<real>, hi: real)
    requires |w| == |v|
    requires forall i :: 0 <= i < |w| ==> w[i] >= 0.0
    requires forall i :: 0 <= i < |v| ==> v[i] <= hi
    ensures Dot(w, v) <= hi * Sum(w)
  {
    if w != [] {
      var tail := Sum(w[1..]);
      DotUpper(w[1..], v[1..], hi);
      ScaleMonotone(w[0], v[0], hi);
      Distribute(hi, w[0], tail);
      assert Sum(w) == w[0] + tail;
      assert Dot(w, v) == w[0] * v[0] + Dot(w[1..], v[1..]);
    }
  }

  lemma ScaleMonotone(a: real, b: real, c: real)
    requires a >= 0.0 && b <= c
    ensures a * b <= a * c
  {
  }

  lemma Distribute(a: real, x: real, y: real)
    ensures a * (x + y) == x * a + a * y
  {
  }

  /** A square is non-negative. */
  lemma Square(x: real)
    ensures x * x >= 0.0
  {
    if x < 0.0 {
      ScaleStrict(-x, x, 0.0);
      assert (-x) * x == -(x * x);
    } else if x > 0.0 {
      ScaleStrict(x, 0.0, x);
    }
  }

  lemma ScaleStrict(a: real, b: real, c: real)
    requires a > 0.0 && b < c
    ensures a * b < a * c
  {
  }

  lemma SumPair(a: real, b: real)
    ensures Sum([a, b]) == a + b
  {
    assert [a, b][1..] == [b] && [b][1..] == [];
    assert Sum([b]) == b + Sum([]);
  }

  lemma DotPair(w: seq<real>, v: seq<real>)
    requires |w| == |v| == 2
    ensures Dot(w, v) == w[0] * v[0] + w[1] * v[1]
  {
    assert w[1..][1..] == [] && v[1..][1..] == [];
    assert Dot(w[1..], v[1..]) == w[1] * v[1] + Dot(w[1..][1..], v[1..][1..]);
  }

  /** Dividing positive terms by a positive total keeps them positive. */
  lemma ScalePositive(w: seq<real>, t: real)
    requires t > 0.0
    requires forall i :: 0 <= i < |w| ==> w[i] > 0.0
    ensures forall i :: 0 <= i < |w| ==> Scale(w, t)[i] > 0.0
  {
  }
}
