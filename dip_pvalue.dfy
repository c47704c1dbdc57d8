/**
 * The p-value of a dip (utils.py, dip_pval), over any critical-value table:
 * bracket the sample size in the breakpoints, blend the two bracketing rows on
 * the sqrt(N) scale, and read the significance level off the blended curve by
 * linear interpolation. The concrete table of the dip test is in DipTable; the
 * facts here are proved once for every well-formed table.
 *
 * The square root is a parameter. The range lemma needs nothing of it; the
 * monotonicity lemmas require it to be non-negative on every non-negative
 * input (NonNegativeRoot), and the zero-dip lemmas positive on every positive
 * input (PositiveRoot).
 */
module DipPValue {

  import opened Sorting
  import opened Interpolation

  /** Breakpoints n, significance levels sig, and the row cv[i] of critical values for sample size n[i]. */
  datatype Table = Table(n: seq<int>, sig: seq<real>, cv: seq<seq<real>>)

  /** The shape dip_pval indexes into: at least two breakpoints, strictly ascending, one row of |sig| values each. */
  predicate Shaped(t: Table) {
    && 2 <= |t.n|
    && StrictlyAscending(t.n)
    && 0 < |t.sig|
    && |t.cv| == |t.n|
    && (forall i :: 0 <= i < |t.cv| ==> |t.cv[i]| == |t.sig|)
  }

  /** A shaped table of positive sizes whose levels run upwards from 0 to 1 and whose rows are positive and ascend along the levels. */
  predicate WellFormed(t: Table) {
    && Shaped(t)
    && 0 < t.n[0]
    && Sorted(t.sig)
    && t.sig[0] == 0.0
    && t.sig[|t.sig| - 1] == 1.0
    && (forall i :: 0 <= i < |t.cv| ==> Sorted(t.cv[i]) && 0.0 < t.cv[i][0])
  }

  /** numpy's searchsorted(a, x, side='left'): the first position whose value is at least x. */
  function SearchSortedLeft(a: seq<int>, x: int): (r: nat)
    requires StrictlyAscending(a)
    ensures r <= |a|
    ensures forall k :: 0 <= k < r ==> a[k] < x
    ensures forall k :: r <= k < |a| ==> x <= a[k]
  {
    if a == [] || x <= a[0] then 0
    else 1 + SearchSortedLeft(a[1..], x)
  }

  /**
   * The bracketing rows (i0, i1) for a sample of n points: the position found
   * by searchsorted, clamped into the table, and moved one row left when both
   * ends land on the last row.
   */
  function Bracket(t: Table, n: int): (r: (nat, nat))
    requires Shaped(t)
    ensures r.0 <= r.1 < |t.n|
    ensures n <= t.n[0] ==> r == (0, 0)
    ensures n > t.n[0] ==> r.1 == r.0 + 1
    ensures t.n[0] < n <= t.n[|t.n| - 1] ==> t.n[r.0] < n <= t.n[r.1]
    ensures n > t.n[|t.n| - 1] ==> r == (|t.n| - 2, |t.n| - 1)
  {
    var pos := SearchSortedLeft(t.n, n);
    var i0 := if pos - 1 < 0 then 0 else pos - 1;
    var i1 := if |t.n| - 1 < pos then |t.n| - 1 else pos;
    if i0 == i1 && i0 == |t.n| - 1 then (i1 - 1, i1) else (i0, i1)
  }

  /** The fraction of the way from n[i0] to n[i1] at which the sample size lies. */
  function Fraction(t: Table, n: int): real
    requires Shaped(t) && n > t.n[0]
  {
    var (i0, i1) := Bracket(t, n);
    (n - t.n[i0]) as real / (t.n[i1] - t.n[i0]) as real
  }

  ghost predicate NonNegativeRoot(sqrt: real -> real) {
    forall x :: 0.0 <= x ==> 0.0 <= sqrt(x)
  }

  ghost predicate PositiveRoot(sqrt: real -> real) {
    forall x :: 0.0 < x ==> 0.0 < sqrt(x)
  }

  /** c * row, elementwise. */
  function Scale(c: real, row: seq<real>): (r: seq<real>)
    ensures |r| == |row|
  {
    seq(|row|, k requires 0 <= k < |row| => c * row[k])
  }

  /** y0 + f * (y1 - y0), elementwise. */
  function Blend(y0: seq<real>, y1: seq<real>, f: real): (r: seq<real>)
    requires |y0| == |y1|
    ensures |r| == |y0|
  {
    seq(|y0|, k requires 0 <= k < |y0| => y0[k] + f * (y1[k] - y0[k]))
  }

  /** The critical curve for n points: the two bracket rows, each scaled by the root of its size, blended by the fraction. */
  function Curve(t: Table, n: int, sqrt: real -> real): (y: seq<real>)
    requires Shaped(t) && n > t.n[0]
    ensures |y| == |t.sig|
  {
    var (i0, i1) := Bracket(t, n);
    var y0 := Scale(sqrt(t.n[i0] as real), t.cv[i0]);
    var y1 := Scale(sqrt(t.n[i1] as real), t.cv[i1]);
    Blend(y0, y1, Fraction(t, n))
  }

  /** The p-value of a dip over n points: one minus the level the scaled dip reaches on the curve. */
  function PValue(t: Table, dip: real, n: int, sqrt: real -> real): (r: real)
    requires Shaped(t) && n > t.n[0]
    ensures var y := Curve(t, n, sqrt); sqrt(n as real) * dip < y[0] ==> r == 1.0 - t.sig[0]
    ensures var y := Curve(t, n, sqrt); y[0] <= sqrt(n as real) * dip && y[|y| - 1] <= sqrt(n as real) * dip ==>
      r == 1.0 - t.sig[|t.sig| - 1]
  {
    1.0 - Interp(sqrt(n as real) * dip, Curve(t, n, sqrt), t.sig)
  }

  /** At or below the first breakpoint the two bracket rows coincide, so the fraction would divide by zero. */
  lemma SmallSampleBracketDegenerate(t: Table, n: int)
    requires Shaped(t) && n <= t.n[0]
    ensures Bracket(t, n).0 == Bracket(t, n).1
    ensures t.n[Bracket(t, n).1] - t.n[Bracket(t, n).0] == 0
  {
  }

  /** Every p-value is a probability: the interpolation is clamped to the first and last level, 0 and 1. */
  lemma PValueInUnitInterval(t: Table, dip: real, n: int, sqrt: real -> real)
    requires WellFormed(t) && n > t.n[0]
    ensures 0.0 <= PValue(t, dip, n, sqrt) <= 1.0
  {
    InterpWithinEnds(sqrt(n as real) * dip, Curve(t, n, sqrt), t.sig);
  }

  /** Within the table's range the blend fraction lies in (0, 1]. */
  lemma FractionInUnitInterval(t: Table, n: int)
    requires Shaped(t) && t.n[0] < n <= t.n[|t.n| - 1]
    ensures 0.0 < Fraction(t, n) <= 1.0
  {
    var (i0, i1) := Bracket(t, n);
    FractionBounds((n - t.n[i0]) as real, (t.n[i1] - t.n[i0]) as real);
  }

  /** Blending two ascending rows, scaled by non-negative factors, with a weight in [0, 1] gives an ascending curve. */
  lemma BlendSorted(r0: seq<real>, r1: seq<real>, s0: real, s1: real, f: real)
    requires |r0| == |r1| && Sorted(r0) && Sorted(r1)
    requires 0.0 <= s0 && 0.0 <= s1 && 0.0 <= f <= 1.0
    ensures Sorted(Blend(Scale(s0, r0), Scale(s1, r1), f))
  {
    var y := Blend(Scale(s0, r0), Scale(s1, r1), f);
    forall a, b | 0 <= a < b < |y| ensures y[a] <= y[b] {
      ScaleMonotone(s0, r0[a], r0[b]);
      ScaleMonotone(s1, r1[a], r1[b]);
      BlendMonotone(f, s0 * r0[a], s0 * r0[b], s1 * r1[a], s1 * r1[b]);
    }
  }

  /** Within the table's range the critical curve ascends along the levels. */
  lemma CurveSorted(t: Table, n: int, sqrt: real -> real)
    requires WellFormed(t) && t.n[0] < n <= t.n[|t.n| - 1]
    requires NonNegativeRoot(sqrt)
    ensures Sorted(Curve(t, n, sqrt))
  {
    FractionInUnitInterval(t, n);
    var (i0, i1) := Bracket(t, n);
    BlendSorted(t.cv[i0], t.cv[i1], sqrt(t.n[i0] as real), sqrt(t.n[i1] as real), Fraction(t, n));
  }

  /** On an ascending curve a larger dip reaches at least as high a level. */
  lemma LevelNonDecreasingOnSortedCurve(t: Table, dip: real, dip': real, n: int, sqrt: real -> real)
    requires WellFormed(t) && t.n[0] < n
    requires NonNegativeRoot(sqrt)
    requires dip <= dip'
    requires Sorted(Curve(t, n, sqrt))
    ensures Interp(sqrt(n as real) * dip, Curve(t, n, sqrt), t.sig)
         <= Interp(sqrt(n as real) * dip', Curve(t, n, sqrt), t.sig)
  {
    ScaledInterpMonotone(sqrt(n as real), dip, dip', Curve(t, n, sqrt), t.sig);
  }

  /** Within the table's range a larger dip reaches at least as high a level on the curve. */
  lemma LevelNonDecreasing(t: Table, dip: real, dip': real, n: int, sqrt: real -> real)
    requires WellFormed(t) && t.n[0] < n <= t.n[|t.n| - 1]
    requires NonNegativeRoot(sqrt)
    requires dip <= dip'
    ensures Interp(sqrt(n as real) * dip, Curve(t, n, sqrt), t.sig)
         <= Interp(sqrt(n as real) * dip', Curve(t, n, sqrt), t.sig)
  {
    CurveSorted(t, n, sqrt);
    LevelNonDecreasingOnSortedCurve(t, dip, dip', n, sqrt);
  }

  /** Within the table's range a larger dip never has a larger p-value. */
  lemma PValueNonIncreasing(t: Table, dip: real, dip': real, n: int, sqrt: real -> real)
    requires WellFormed(t) && t.n[0] < n <= t.n[|t.n| - 1]
    requires NonNegativeRoot(sqrt)
    requires dip <= dip'
    ensures PValue(t, dip', n, sqrt) <= PValue(t, dip, n, sqrt)
  {
    LevelNonDecreasing(t, dip, dip', n, sqrt);
  }

  /** A blend with weight in (0, 1] of two positive values is positive. */
  lemma BlendPositive(f: real, u0: real, u1: real)
    requires 0.0 < f <= 1.0 && 0.0 < u0 && 0.0 < u1
    ensures 0.0 < u0 + f * (u1 - u0)
  {
    var g := 1.0 - f;
    var a, b, c := g * u0, f * u1, f * (u1 - u0);
    assert 0.0 <= a by { assert 0.0 <= g; }
    assert 0.0 < b;
    assert c == b - f * u0;
    assert a == u0 - f * u0;
  }

  /** The product of two positive values is positive. */
  lemma ProductPositive(a: real, b: real)
    requires 0.0 < a && 0.0 < b
    ensures 0.0 < a * b
  {
  }

  /** Within the table's range the critical curve starts above zero when the root is positive. */
  lemma CurveStartsPositive(t: Table, n: int, sqrt: real -> real)
    requires WellFormed(t) && t.n[0] < n <= t.n[|t.n| - 1]
    requires PositiveRoot(sqrt)
    ensures 0.0 < Curve(t, n, sqrt)[0]
  {
    FractionInUnitInterval(t, n);
    var (i0, i1) := Bracket(t, n);
    var s0, s1 := sqrt(t.n[i0] as real), sqrt(t.n[i1] as real);
    assert 0.0 < s0 && 0.0 < s1;
    ProductPositive(s0, t.cv[i0][0]);
    ProductPositive(s1, t.cv[i1][0]);
    BlendPositive(Fraction(t, n), s0 * t.cv[i0][0], s1 * t.cv[i1][0]);
  }

  /**
   * Within the table's range a zero dip (the value the guard of dip returns
   * for degenerate samples) lies left of the whole curve, so its p-value is 1.
   */
  lemma ZeroDipPValueIsOne(t: Table, n: int, sqrt: real -> real)
    requires WellFormed(t) && t.n[0] < n <= t.n[|t.n| - 1]
    requires PositiveRoot(sqrt)
    ensures PValue(t, 0.0, n, sqrt) == 1.0
  {
    CurveStartsPositive(t, n, sqrt);
    assert sqrt(n as real) * 0.0 == 0.0;
  }
}
