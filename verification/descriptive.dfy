/**
  Descriptive statistics over `seq<real>` with numpy's conventions: `mean`,
  population `var` (ddof 0), `percentile` and `median` with linear
  interpolation between order statistics, and the largest absolute
  deviation used by the Grubbs statistic.
 */
module Descriptive {
  import opened Wrappers

  /** Added to every scale estimate (`std + 1e-8`, `mad + 1e-8`, ...) so that a zero spread does not divide by zero. */
  const Epsilon: real := 0.00000001

  function Sum(s: seq<real>): real
  {
    if |s| == 0 then 0.0 else s[0] + Sum(s[1..])
  }

  function Mean(s: seq<real>): real
    requires |s| > 0
  {
    Sum(s) / (|s| as real)
  }

  /** `(s - c) ** 2`, element-wise. */
  function SquaredDeviations(s: seq<real>, c: real): (r: seq<real>)
    ensures |r| == |s|
  {
    seq(|s|, i requires 0 <= i < |s| => (s[i] - c) * (s[i] - c))
  }

  /** `abs(s - c)`, element-wise. */
  function AbsDeviations(s: seq<real>, c: real): (r: seq<real>)
    ensures |r| == |s|
  {
    seq(|s|, i requires 0 <= i < |s| => Abs(s[i] - c))
  }

  /** numpy's `var`: the mean squared deviation from the mean. */
  function Variance(s: seq<real>): real
    requires |s| > 0
  {
    Mean(SquaredDeviations(s, Mean(s)))
  }

  /** `max(abs(s - c))`: the deviation of the point farthest from `c`. */
  function MaxAbsDeviation(s: seq<real>, c: real): (r: real)
    requires |s| > 0
    ensures forall i :: 0 <= i < |s| ==> Abs(s[i] - c) <= r
    ensures exists i :: 0 <= i < |s| && r == Abs(s[i] - c)
  {
    if |s| == 1 then Abs(s[0] - c)
    else
      var rest := MaxAbsDeviation(s[1..], c);
      if Abs(s[0] - c) >= rest then Abs(s[0] - c) else rest
  }

  lemma {:induction false} SumNonNegative(s: seq<real>)
    requires forall i :: 0 <= i < |s| ==> s[i] >= 0.0
    ensures Sum(s) >= 0.0
  {
    if |s| > 0 {
      SumNonNegative(s[1..]);
    }
  }

  lemma {:induction false} SumConstant(s: seq<real>, c: real)
    requires forall i :: 0 <= i < |s| ==> s[i] == c
    ensures Sum(s) == (|s| as real) * c
  {
    if |s| > 0 {
      SumConstant(s[1..], c);
    }
  }

  /** The mean of a sample whose values are all `c` is `c`. */
  lemma MeanOfConstant(s: seq<real>, c: real)
    requires |s| > 0
    requires forall i :: 0 <= i < |s| ==> s[i] == c
    ensures Mean(s) == c
  {
    SumConstant(s, c);
  }

  /** Population variance is never negative. */
  lemma VarianceNonNegative(s: seq<real>)
    requires |s| > 0
    ensures Variance(s) >= 0.0
  {
    var d := SquaredDeviations(s, Mean(s));
    forall i | 0 <= i < |d|
      ensures d[i] >= 0.0
    {
      SquareNonNegative(s[i] - Mean(s));
    }
    SumNonNegative(d);
  }

  lemma SquareNonNegative(x: real)
    ensures x * x >= 0.0
  {
  }

  /** A sample whose values are all `c` has zero variance. */
  lemma VarianceOfConstant(s: seq<real>, c: real)
    requires |s| > 0
    requires forall i :: 0 <= i < |s| ==> s[i] == c
    ensures Variance(s) == 0.0
  {
    MeanOfConstant(s, c);
    var d := SquaredDeviations(s, Mean(s));
    SumConstant(d, 0.0);
  }

  // ---------------------------------------------------------------------
  // Order statistics
  // ---------------------------------------------------------------------

  predicate Sorted(s: seq<real>)
  {
    forall i, j :: 0 <= i < j < |s| ==> s[i] <= s[j]
  }

  /** Inserts `x` into the sorted `t`, keeping it sorted. */
  function Insert(x: real, t: seq<real>): (r: seq<real>)
    requires Sorted(t)
    ensures |r| == |t| + 1
    ensures Sorted(r)
    ensures multiset(r) == multiset(t) + multiset{x}
  {
    if |t| == 0 || x <= t[0] then [x] + t
    else
      var rest := Insert(x, t[1..]);
      assert t == [t[0]] + t[1..];
      assert forall k :: 0 <= k < |rest| ==> t[0] <= rest[k] by {
        forall k | 0 <= k < |rest|
          ensures t[0] <= rest[k]
        {
          assert rest[k] in multiset(rest);
          assert rest[k] == x || rest[k] in multiset(t[1..]);
        }
      }
      [t[0]] + rest
  }

  /** The sorted rearrangement of `s` that numpy's order statistics read. */
  function Sort(s: seq<real>): (r: seq<real>)
    ensures |r| == |s|
    ensures Sorted(r)
    ensures multiset(r) == multiset(s)
  {
    if |s| == 0 then []
    else
      assert s == [s[0]] + s[1..];
      Insert(s[0], Sort(s[1..]))
  }

  /** Sorting an already sorted sample changes nothing. */
  lemma {:induction false} SortOfSorted(s: seq<real>)
    requires Sorted(s)
    ensures Sort(s) == s
  {
    if |s| > 0 {
      SortOfSorted(s[1..]);
    }
  }

  lemma MulNonNegative(a: real, b: real)
    requires a >= 0.0 && b >= 0.0
    ensures a * b >= 0.0
  {
  }

  lemma QuotientNonNegative(a: real, b: real)
    requires a >= 0.0 && b > 0.0
    ensures a / b >= 0.0
  {
  }

  lemma MulMonotone(a: real, b: real, c: real)
    requires a <= b && c >= 0.0
    ensures a * c <= b * c
  {
    MulNonNegative(b - a, c);
    assert b * c - a * c == (b - a) * c;
  }

  lemma FractionOfGap(frac: real, gap: real)
    requires 0.0 <= frac <= 1.0 && gap >= 0.0
    ensures 0.0 <= frac * gap <= gap
  {
    MulNonNegative(frac, gap);
    MulMonotone(frac, 1.0, gap);
  }

  /** `x + f * (y - x)`: the point a fraction `f` of the way from `x` to `y`. */
  function Blend(x: real, y: real, f: real): (r: real)
    ensures x <= y && 0.0 <= f <= 1.0 ==> x <= r <= y
  {
    var g := y - x;
    assert x <= y && 0.0 <= f <= 1.0 ==> 0.0 <= f * g <= g by {
      if x <= y && 0.0 <= f <= 1.0 {
        FractionOfGap(f, g);
      }
    }
    x + f * g
  }

  /** Blending further along never goes back. */
  lemma BlendMonotone(x: real, y: real, f: real, h: real)
    requires x <= y && f <= h
    ensures Blend(x, y, f) <= Blend(x, y, h)
  {
    assert Blend(x, y, f) == x + f * (y - x);
    assert Blend(x, y, h) == x + h * (y - x);
    MulMonotone(f, h, y - x);
  }

  /**
    numpy's linear interpolation at the fractional position `pos` of the
    sorted sample `t`: between `t[floor(pos)]` and the next order statistic.
   */
  function Interpolate(t: seq<real>, pos: real): (r: real)
    requires |t| > 0 && 0.0 <= pos <= (|t| - 1) as real
    ensures Sorted(t) ==> t[0] <= r <= t[|t| - 1]
  {
    var lo := pos.Floor;
    if lo >= |t| - 1 then t[|t| - 1]
    else Blend(t[lo], t[lo + 1], pos - lo as real)
  }

  /** Interpolation stays between the two order statistics it blends. */
  lemma InterpolateBetween(t: seq<real>, pos: real)
    requires |t| > 0 && Sorted(t)
    requires 0.0 <= pos <= (|t| - 1) as real
    ensures pos.Floor < |t| - 1 ==> t[pos.Floor] <= Interpolate(t, pos) <= t[pos.Floor + 1]
    ensures pos.Floor >= |t| - 1 ==> Interpolate(t, pos) == t[|t| - 1]
  {
    var lo := pos.Floor;
    if lo < |t| - 1 {
      assert t[lo] <= t[lo + 1];
      assert Interpolate(t, pos) == Blend(t[lo], t[lo + 1], pos - lo as real);
    }
  }

  /** The interpolated order statistic never decreases as the position grows. */
  lemma InterpolateMonotone(t: seq<real>, a: real, b: real)
    requires |t| > 0 && Sorted(t)
    requires 0.0 <= a <= b <= (|t| - 1) as real
    ensures Interpolate(t, a) <= Interpolate(t, b)
  {
    var la, lb := a.Floor, b.Floor;
    InterpolateBetween(t, a);
    InterpolateBetween(t, b);
    if la < |t| - 1 && la == lb {
      assert t[la] <= t[la + 1];
      BlendMonotone(t[la], t[la + 1], a - la as real, b - la as real);
    } else if la < |t| - 1 {
      assert t[la + 1] <= t[lb];
    }
  }

  /** The position numpy reads for percentile `p` of `n` values. */
  function PercentilePosition(n: nat, p: real): (pos: real)
    requires n > 0 && 0.0 <= p <= 100.0
    ensures 0.0 <= pos <= (n - 1) as real
  {
    var frac, m := p / 100.0, (n - 1) as real;
    FractionOfGap(frac, m);
    frac * m
  }

  /** A value sandwiched by order statistics lies between two elements of the sample. */
  lemma BetweenSampleValues(s: seq<real>, r: real)
    requires |s| > 0
    requires Sort(s)[0] <= r <= Sort(s)[|s| - 1]
    ensures exists i :: 0 <= i < |s| && s[i] <= r
    ensures exists j :: 0 <= j < |s| && r <= s[j]
  {
    var t := Sort(s);
    assert t[0] in multiset(s) && t[|s| - 1] in multiset(s) by {
      assert t[0] in multiset(t) && t[|s| - 1] in multiset(t);
    }
    var i :| 0 <= i < |s| && s[i] == t[0];
    var j :| 0 <= j < |s| && s[j] == t[|s| - 1];
  }

  /** numpy's `percentile(s, p)` with the default linear method. */
  function Percentile(s: seq<real>, p: real): (r: real)
    requires |s| > 0 && 0.0 <= p <= 100.0
    ensures exists i :: 0 <= i < |s| && s[i] <= r
    ensures exists j :: 0 <= j < |s| && r <= s[j]
  {
    var r := Interpolate(Sort(s), PercentilePosition(|s|, p));
    BetweenSampleValues(s, r);
    r
  }

  /** Higher percentiles sit at later positions. */
  lemma PercentilePositionMonotone(n: nat, p: real, q: real)
    requires n > 0 && 0.0 <= p <= q <= 100.0
    ensures PercentilePosition(n, p) <= PercentilePosition(n, q)
  {
    var a, b, m := p / 100.0, q / 100.0, (n - 1) as real;
    MulMonotone(a, b, m);
    assert PercentilePosition(n, p) == a * m;
    assert PercentilePosition(n, q) == b * m;
  }

  /** Percentiles are ordered like their ranks; in particular Q1 <= median <= Q3. */
  lemma PercentileMonotone(s: seq<real>, p: real, q: real)
    requires |s| > 0 && 0.0 <= p <= q <= 100.0
    ensures Percentile(s, p) <= Percentile(s, q)
  {
    var t := Sort(s);
    var a := PercentilePosition(|s|, p);
    var b := PercentilePosition(|s|, q);
    PercentilePositionMonotone(|s|, p, q);
    InterpolateMonotone(t, a, b);
    assert Percentile(s, p) == Interpolate(t, a);
    assert Percentile(s, q) == Interpolate(t, b);
  }

  /**
    numpy's `median`: the middle order statistic, or the mean of the two
    middle ones when the sample has even size.
   */
  function Median(s: seq<real>): (r: real)
    requires |s| > 0
    ensures exists i :: 0 <= i < |s| && s[i] <= r
    ensures exists j :: 0 <= j < |s| && r <= s[j]
  {
    var t := Sort(s);
    var n := |t|;
    var r := if n % 2 == 1 then t[n / 2] else (t[n / 2 - 1] + t[n / 2]) / 2.0;
    BetweenSampleValues(s, r);
    r
  }

  lemma InterpolateAtWhole(t: seq<real>, k: nat)
    requires k < |t|
    ensures Interpolate(t, k as real) == t[k]
  {
    assert (k as real).Floor == k;
  }

  lemma InterpolateAtHalf(t: seq<real>, k: nat)
    requires k + 1 < |t|
    ensures Interpolate(t, k as real + 0.5) == (t[k] + t[k + 1]) / 2.0
  {
    assert (k as real + 0.5).Floor == k;
  }

  /** The median is the 50th percentile, so both definitions agree. */
  lemma MedianIsPercentile50(s: seq<real>)
    requires |s| > 0
    ensures Median(s) == Percentile(s, 50.0)
  {
    var n := |s|;
    var k := n / 2;
    var pos := PercentilePosition(n, 50.0);
    assert pos == 0.5 * ((n - 1) as real);
    if n % 2 == 1 {
      assert (n - 1) as real == 2.0 * (k as real);
      assert pos == k as real;
      InterpolateAtWhole(Sort(s), k);
    } else {
      assert (n - 1) as real == 2.0 * ((k - 1) as real) + 1.0;
      assert pos == (k - 1) as real + 0.5;
      InterpolateAtHalf(Sort(s), k - 1);
    }
  }

  /** Every order statistic of a constant sample is that constant. */
  lemma PercentileOfConstant(s: seq<real>, c: real, p: real)
    requires |s| > 0 && 0.0 <= p <= 100.0
    requires forall i :: 0 <= i < |s| ==> s[i] == c
    ensures Percentile(s, p) == c
  {
  }

  /** The median of a constant sample is that constant. */
  lemma MedianOfConstant(s: seq<real>, c: real)
    requires |s| > 0
    requires forall i :: 0 <= i < |s| ==> s[i] == c
    ensures Median(s) == c
  {
  }
}
