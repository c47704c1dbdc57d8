/**
 * numpy's interp(x, xp, fp) on ascending breakpoints xp, with the order facts
 * the p-value needs: the result stays within the range of fp and, when fp
 * ascends too, grows with x.
 */
module Interpolation {

  import opened Sorting

  /** The first segment j, from lo on, with xp[j] <= x < xp[j + 1]. */
  function Segment(x: real, xp: seq<real>, lo: nat): (j: nat)
    requires lo < |xp| - 1
    requires xp[lo] <= x < xp[|xp| - 1]
    ensures lo <= j < |xp| - 1
    ensures xp[j] <= x < xp[j + 1]
    decreases |xp| - lo
  {
    if x < xp[lo + 1] then lo else Segment(x, xp, lo + 1)
  }

  /** The point at x on the straight line through (x0, y0) and (x1, y1), in numpy's slope form. */
  function Lerp(x0: real, x1: real, y0: real, y1: real, x: real): real
    requires x0 < x1
  {
    (y1 - y0) / (x1 - x0) * (x - x0) + y0
  }

  /**
   * np.interp(x, xp, fp): piecewise-linear interpolation with clamping; fp[0]
   * left of xp[0], the last fp at or right of the last xp, and the line through
   * the two ends of the segment that holds x in between.
   */
  function Interp(x: real, xp: seq<real>, fp: seq<real>): (r: real)
    requires 0 < |xp| == |fp|
    ensures x < xp[0] ==> r == fp[0]
    ensures xp[0] <= x && xp[|xp| - 1] <= x ==> r == fp[|fp| - 1]
  {
    if x < xp[0] then fp[0]
    else if xp[|xp| - 1] <= x then fp[|fp| - 1]
    else
      var j := Segment(x, xp, 0);
      Lerp(xp[j], xp[j + 1], fp[j], fp[j + 1], x)
  }

  /** On an ascending xp, the segment that holds x is the only one. */
  lemma SegmentUnique(x: real, xp: seq<real>, lo: nat, j: nat)
    requires Sorted(xp)
    requires lo < |xp| - 1 && xp[lo] <= x < xp[|xp| - 1]
    requires lo <= j < |xp| - 1 && xp[j] <= x < xp[j + 1]
    ensures Segment(x, xp, lo) == j
  {
  }

  /** On an ascending xp, a larger x never lies in an earlier segment. */
  lemma SegmentMonotone(x: real, x': real, xp: seq<real>)
    requires Sorted(xp) && 0 < |xp|
    requires xp[0] <= x <= x' < xp[|xp| - 1]
    ensures Segment(x, xp, 0) <= Segment(x', xp, 0)
  {
  }

  // Arithmetic facts, stated separately to keep non-linear terms out of the larger proofs.

  /** Multiplying by a non-negative factor keeps the order. */
  lemma ScaleMonotone(c: real, u: real, v: real)
    requires 0.0 <= c && u <= v
    ensures c * u <= c * v
  {
  }

  lemma AddMonotone(a: real, b: real, c: real, d: real)
    requires a <= b && c <= d
    ensures a + c <= b + d
  {
  }

  /** A non-negative part of a positive whole is a fraction in [0, 1]. */
  lemma FractionBounds(a: real, d: real)
    requires 0.0 <= a <= d && 0.0 < d
    ensures 0.0 <= a / d <= 1.0
    ensures 0.0 < a ==> 0.0 < a / d
  {
  }

  /** u0 + f * (u1 - u0) is monotone in both ends for a weight f in [0, 1]. */
  lemma BlendMonotone(f: real, u0: real, v0: real, u1: real, v1: real)
    requires 0.0 <= f <= 1.0 && u0 <= v0 && u1 <= v1
    ensures u0 + f * (u1 - u0) <= v0 + f * (v1 - v0)
  {
    var g := 1.0 - f;
    ScaleMonotone(g, u0, v0);
    ScaleMonotone(f, u1, v1);
    AddMonotone(g * u0, g * v0, f * u1, f * v1);
    assert u0 + f * (u1 - u0) == g * u0 + f * u1;
    assert v0 + f * (v1 - v0) == g * v0 + f * v1;
  }

  /** Between x0 and x1 the line stays between y0 and y1. */
  lemma LerpBetween(x0: real, x1: real, y0: real, y1: real, x: real)
    requires x0 <= x < x1
    ensures y0 <= y1 ==> y0 <= Lerp(x0, x1, y0, y1, x) <= y1
    ensures y1 <= y0 ==> y1 <= Lerp(x0, x1, y0, y1, x) <= y0
  {
    var t := (x - x0) / (x1 - x0);
    FractionBounds(x - x0, x1 - x0);
    assert Lerp(x0, x1, y0, y1, x) == y0 + t * (y1 - y0);
    if y0 <= y1 {
      BlendMonotone(t, y0, y0, y0, y1);
      BlendMonotone(t, y0, y1, y1, y1);
    } else {
      BlendMonotone(t, y0, y0, y1, y0);
      BlendMonotone(t, y1, y0, y1, y1);
    }
  }

  /** A line through ascending ends is non-decreasing. */
  lemma LerpMonotone(x0: real, x1: real, y0: real, y1: real, x: real, x': real)
    requires x0 < x1 && y0 <= y1 && x <= x'
    ensures Lerp(x0, x1, y0, y1, x) <= Lerp(x0, x1, y0, y1, x')
  {
    var slope := (y1 - y0) / (x1 - x0);
    assert 0.0 <= slope;
    ScaleMonotone(slope, x - x0, x' - x0);
    AddMonotone(slope * (x - x0), slope * (x' - x0), y0, y0);
  }

  /** The interpolated value lies between the two ends of its segment. */
  lemma InterpInSegment(x: real, xp: seq<real>, fp: seq<real>)
    requires 0 < |xp| == |fp|
    requires xp[0] <= x < xp[|xp| - 1]
    ensures var j := Segment(x, xp, 0);
      && (fp[j] <= fp[j + 1] ==> fp[j] <= Interp(x, xp, fp) <= fp[j + 1])
      && (fp[j + 1] <= fp[j] ==> fp[j + 1] <= Interp(x, xp, fp) <= fp[j])
  {
    var j := Segment(x, xp, 0);
    LerpBetween(xp[j], xp[j + 1], fp[j], fp[j + 1], x);
  }

  /** Interpolation never leaves the range of fp. */
  lemma InterpBounds(x: real, xp: seq<real>, fp: seq<real>, lo: real, hi: real)
    requires 0 < |xp| == |fp|
    requires forall k :: 0 <= k < |fp| ==> lo <= fp[k] <= hi
    ensures lo <= Interp(x, xp, fp) <= hi
  {
    if xp[0] <= x < xp[|xp| - 1] {
      InterpInSegment(x, xp, fp);
    }
  }

  /** On an ascending fp the value lies between fp[0] and the last fp. */
  lemma InterpWithinEnds(x: real, xp: seq<real>, fp: seq<real>)
    requires 0 < |xp| == |fp|
    requires Sorted(fp)
    ensures fp[0] <= Interp(x, xp, fp) <= fp[|fp| - 1]
  {
    InterpBounds(x, xp, fp, fp[0], fp[|fp| - 1]);
  }

  /** Inside the range of xp, the interpolation is non-decreasing in x. */
  lemma InterpMonotoneInside(x: real, x': real, xp: seq<real>, fp: seq<real>)
    requires 0 < |xp| == |fp|
    requires Sorted(xp) && Sorted(fp)
    requires xp[0] <= x <= x' < xp[|xp| - 1]
    ensures Interp(x, xp, fp) <= Interp(x', xp, fp)
  {
    var j, j' := Segment(x, xp, 0), Segment(x', xp, 0);
    SegmentMonotone(x, x', xp);
    assert fp[j] <= fp[j + 1] && fp[j'] <= fp[j' + 1];
    if j == j' {
      LerpMonotone(xp[j], xp[j + 1], fp[j], fp[j + 1], x, x');
    } else {
      InterpInSegment(x, xp, fp);
      InterpInSegment(x', xp, fp);
      assert fp[j + 1] <= fp[j'];
    }
  }

  /** With xp and fp ascending, the interpolation is non-decreasing in x. */
  lemma InterpMonotone(x: real, x': real, xp: seq<real>, fp: seq<real>)
    requires 0 < |xp| == |fp|
    requires Sorted(xp) && Sorted(fp)
    requires x <= x'
    ensures Interp(x, xp, fp) <= Interp(x', xp, fp)
  {
    InterpWithinEnds(x, xp, fp);
    InterpWithinEnds(x', xp, fp);
    if xp[0] <= x && x' < xp[|xp| - 1] {
      InterpMonotoneInside(x, x', xp, fp);
    }
  }

  /** Scaling x by a non-negative factor keeps interpolation on ascending xp and fp monotone. */
  lemma ScaledInterpMonotone(c: real, x: real, x': real, xp: seq<real>, fp: seq<real>)
    requires 0 < |xp| == |fp|
    requires Sorted(xp) && Sorted(fp)
    requires 0.0 <= c && x <= x'
    ensures Interp(c * x, xp, fp) <= Interp(c * x', xp, fp)
  {
    ScaleMonotone(c, x, x');
    var y, y' := c * x, c * x';
    assert y <= y';
    InterpMonotone(y, y', xp, fp);
  }
}
