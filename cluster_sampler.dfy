/**
 * get_nearest_points: the points of the larger cluster nearest to a center,
 * as many as the smaller cluster's size times the imbalance factor, topped up
 * so that the two together reach the minimum sample size when they can.
 *
 * The index order is whatever numpy's argsort returns: any order of all the
 * indices that ascends by distance. numpy's default sort is not stable, so
 * nothing here depends on how ties are ordered.
 */
module ClusterSampler {

  import opened Sorting
  import opened Points

  function Min(a: int, b: int): int {
    if a <= b then a else b
  }

  /**
   * The number of points to take from the larger cluster: factor times the
   * smaller size, or, when that union would stay below minSize, enough to
   * reach minSize, but never more than the larger cluster has.
   */
  function SampleSize(smaller: nat, factor: nat, minSize: nat, larger: nat): (s: nat)
    ensures minSize <= smaller + smaller * factor ==> s == smaller * factor
    ensures smaller + smaller * factor < minSize ==>
      && s <= larger
      && smaller + s <= minSize
      && (smaller + s == minSize || s == larger)
  {
    var s := smaller * factor;
    if smaller + s < minSize then Min(minSize - smaller, larger) else s
  }

  /**
   * points[order[:size]] for size = SampleSize(...): the first rows in
   * distance order, clipped to the number of rows.
   */
  function NearestPoints(points: seq<Vec>, center: Vec, dist: (Vec, Vec) -> real, order: seq<nat>,
                         smaller: nat, factor: nat, minSize: nat): (r: seq<Vec>)
    requires IsArgsort(order, Distances(points, center, dist))
    ensures |r| == Min(SampleSize(smaller, factor, minSize, |points|), |points|)
    ensures forall k :: 0 <= k < |r| ==> r[k] == points[order[k]]
  {
    var size := Min(SampleSize(smaller, factor, minSize, |points|), |points|);
    seq(size, k requires 0 <= k < size => points[order[k]])
  }

  /** Every chosen point is a point of the input, and no input point is chosen twice. */
  lemma NearestPointsFromInput(points: seq<Vec>, center: Vec, dist: (Vec, Vec) -> real, order: seq<nat>,
                               smaller: nat, factor: nat, minSize: nat)
    requires IsArgsort(order, Distances(points, center, dist))
    ensures var r := NearestPoints(points, center, dist, order, smaller, factor, minSize);
      && |r| <= |points|
      && (forall k :: 0 <= k < |r| ==> r[k] in points)
      && (forall k, k' :: 0 <= k < k' < |r| ==> order[k] != order[k'])
  {
  }

  /** Every chosen point is at least as near to the center as every point left out. */
  lemma NearestPointsAreNearest(points: seq<Vec>, center: Vec, dist: (Vec, Vec) -> real, order: seq<nat>,
                                smaller: nat, factor: nat, minSize: nat, k: nat, j: nat)
    requires IsArgsort(order, Distances(points, center, dist))
    requires k < |NearestPoints(points, center, dist, order, smaller, factor, minSize)|
    requires j < |points| && j !in order[..|NearestPoints(points, center, dist, order, smaller, factor, minSize)|]
    ensures dist(NearestPoints(points, center, dist, order, smaller, factor, minSize)[k], center)
         <= dist(points[j], center)
  {
    var size := |NearestPoints(points, center, dist, order, smaller, factor, minSize)|;
    var key := Distances(points, center, dist);
    assert j in order;
    var m :| 0 <= m < |order| && order[m] == j;
    assert forall t :: 0 <= t < size ==> order[t] in order[..size] by {
      forall t | 0 <= t < size ensures order[t] in order[..size] {
        assert order[..size][t] == order[t];
      }
    }
    assert size <= m;
    assert key[order[k]] <= key[order[m]];
  }
}
