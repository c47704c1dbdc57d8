/**
 * merge_by_dip_value: clusters a and b become one cluster, numbered n - 1,
 * where n is the number of clusters after the merge; the other clusters keep
 * their relative order and close up the gaps. The two old center rows are
 * removed and the data point nearest to the size-weighted mean of the two old
 * embedded centers is appended as the new center; then the p-value matrix is
 * recomputed.
 */
module ClusterMerger {

  import opened Interpolation
  import opened Points
  import opened DipMatrix

  // ---------------------------------------------------------------------------
  // Relabelling (the loop over cluster_labels_cpu)

  /** a and b are two different clusters among the n + 1 clusters before the merge. */
  predicate PairIn(a: int, b: int, n: int) {
    a != b && 0 <= a <= n && 0 <= b <= n
  }

  /** The new label of a point whose old label is l. */
  function Relabel(l: int, a: int, b: int, n: int): (r: int)
    ensures l == a || l == b ==> r == n - 1
    ensures l != a && l != b ==> r == l - (if a < l then 1 else 0) - (if b < l then 1 else 0)
  {
    if l == a || l == b then n - 1
    else if l < a && l < b then l
    else if l > a && l > b then l - 2
    else l - 1
  }

  /** The merged pair goes to n - 1 and every other old label to a label in 0 .. n - 2. */
  lemma RelabelRange(l: int, a: int, b: int, n: int)
    requires PairIn(a, b, n) && 0 <= l <= n
    ensures 0 <= Relabel(l, a, b, n) <= n - 1
    ensures l == a || l == b ==> Relabel(l, a, b, n) == n - 1
    ensures l != a && l != b ==> Relabel(l, a, b, n) <= n - 2
  {
  }

  /** On the labels outside the pair the renumbering keeps the order strictly. */
  lemma RelabelStrictlyIncreasing(l: int, l': int, a: int, b: int, n: int)
    requires a != b
    requires l != a && l != b && l' != a && l' != b
    requires l < l'
    ensures Relabel(l, a, b, n) < Relabel(l', a, b, n)
  {
  }

  /** The order of the pair does not matter. */
  lemma RelabelSymmetric(l: int, a: int, b: int, n: int)
    ensures Relabel(l, a, b, n) == Relabel(l, b, a, n)
  {
  }

  /** The old label outside the pair that the new label m in 0 .. n - 2 comes from. */
  function Unrelabel(m: int, a: int, b: int): int {
    var lo := if a < b then a else b;
    var hi := if a < b then b else a;
    if m < lo then m else if m + 1 < hi then m + 1 else m + 2
  }

  /** Relabelling maps the old labels outside the pair one to one onto 0 .. n - 2. */
  lemma RelabelBijective(a: int, b: int, n: int)
    requires PairIn(a, b, n)
    ensures forall m :: 0 <= m <= n - 2 ==>
      var l := Unrelabel(m, a, b);
      0 <= l <= n && l != a && l != b && Relabel(l, a, b, n) == m
    ensures forall l :: 0 <= l <= n && l != a && l != b ==> Unrelabel(Relabel(l, a, b, n), a, b) == l
  {
  }

  /** The labels after relabelling. */
  function RelabelAll(labels: seq<int>, a: int, b: int, n: int): (r: seq<int>)
    ensures |r| == |labels|
    ensures forall k :: 0 <= k < |labels| ==> r[k] == Relabel(labels[k], a, b, n)
  {
    seq(|labels|, k requires 0 <= k < |labels| => Relabel(labels[k], a, b, n))
  }

  /** Every old label is one of the n + 1 clusters 0 .. n. */
  predicate LabelsIn(labels: seq<int>, n: int) {
    forall k :: 0 <= k < |labels| ==> 0 <= labels[k] <= n
  }

  /** When every old cluster has a point, the new labels are exactly 0 .. n - 1. */
  lemma NewLabelSet(labels: seq<int>, a: int, b: int, n: int)
    requires PairIn(a, b, n) && LabelsIn(labels, n)
    requires forall c :: 0 <= c <= n ==> c in labels
    ensures forall c :: c in RelabelAll(labels, a, b, n) <==> 0 <= c < n
  {
    var r := RelabelAll(labels, a, b, n);
    RelabelBijective(a, b, n);
    forall c | 0 <= c < n ensures c in r {
      var l := if c == n - 1 then a else Unrelabel(c, a, b);
      assert 0 <= l <= n;
      assert l in labels;
      var k :| 0 <= k < |labels| && labels[k] == l;
      assert r[k] == c;
    }
    forall c | c in r ensures 0 <= c < n {
      var k :| 0 <= k < |r| && r[k] == c;
      RelabelRange(labels[k], a, b, n);
    }
  }

  lemma RelabelAllTail(labels: seq<int>, a: int, b: int, n: int)
    requires labels != []
    ensures RelabelAll(labels, a, b, n)[1..] == RelabelAll(labels[1..], a, b, n)
  {
  }

  /** A cluster outside the pair keeps exactly its points, in their order, under its new label. */
  lemma {:induction false} MembersKept<T>(data: seq<T>, labels: seq<int>, a: int, b: int, n: int, l: int)
    requires |data| == |labels| && PairIn(a, b, n) && LabelsIn(labels, n)
    requires 0 <= l <= n && l != a && l != b
    ensures Members(data, RelabelAll(labels, a, b, n), Relabel(l, a, b, n)) == Members(data, labels, l)
  {
    if data != [] {
      RelabelAllTail(labels, a, b, n);
      MembersKept(data[1..], labels[1..], a, b, n, l);
      RelabelBijective(a, b, n);
      RelabelRange(labels[0], a, b, n);
      RelabelRange(l, a, b, n);
    }
  }

  /** The merged cluster has as many points as the two old clusters together. */
  lemma {:induction false} MergedCount(labels: seq<int>, a: int, b: int, n: int)
    requires PairIn(a, b, n) && LabelsIn(labels, n)
    ensures Count(RelabelAll(labels, a, b, n), n - 1) == Count(labels, a) + Count(labels, b)
  {
    if labels != [] {
      RelabelAllTail(labels, a, b, n);
      MergedCount(labels[1..], a, b, n);
      RelabelRange(labels[0], a, b, n);
    }
  }

  /** cluster_labels_cpu[j] rewritten for every j, in place. */
  method RelabelInPlace(labels: array<int>, a: int, b: int, n: int)
    modifies labels
    ensures labels[..] == RelabelAll(old(labels[..]), a, b, n)
  {
    var j := 0;
    while j < labels.Length
      invariant 0 <= j <= labels.Length
      invariant forall k :: 0 <= k < j ==> labels[k] == Relabel(old(labels[k]), a, b, n)
      invariant forall k :: j <= k < labels.Length ==> labels[k] == old(labels[k])
    {
      var l := labels[j];
      if l == a || l == b {
        labels[j] := n - 1;
      } else if l < a && l < b {
        labels[j] := l;
      } else if l > a && l > b {
        labels[j] := l - 2;
      } else {
        labels[j] := l - 1;
      }
      j := j + 1;
    }
  }

  // ---------------------------------------------------------------------------
  // Center rows

  /** np.delete(rows, [a, b], axis=0): the rows without rows a and b. */
  function DeletePair<T>(rows: seq<T>, a: nat, b: nat): (r: seq<T>)
    requires a != b && a < |rows| && b < |rows|
    ensures |r| == |rows| - 2
    ensures forall x :: x in r ==> x in rows
  {
    var lo := if a < b then a else b;
    var hi := if a < b then b else a;
    assert rows == rows[..lo] + [rows[lo]] + rows[lo + 1..hi] + [rows[hi]] + rows[hi + 1..];
    rows[..lo] + rows[lo + 1..hi] + rows[hi + 1..]
  }

  /** After deleting the pair, the row of every other old cluster sits at that cluster's new label. */
  lemma DeletePairAligned<T>(rows: seq<T>, a: nat, b: nat, n: nat, l: nat)
    requires |rows| == n + 1 && PairIn(a, b, n)
    requires l <= n && l != a && l != b
    ensures Relabel(l, a, b, n) < |DeletePair(rows, a, b)|
    ensures DeletePair(rows, a, b)[Relabel(l, a, b, n)] == rows[l]
  {
  }

  /** Every remaining row is the row of the old cluster its position is the new label of. */
  lemma DeletePairRows<T>(rows: seq<T>, a: nat, b: nat, n: nat, m: nat)
    requires |rows| == n + 1 && PairIn(a, b, n)
    requires m < |DeletePair(rows, a, b)|
    ensures Unrelabel(m, a, b) <= n
    ensures DeletePair(rows, a, b)[m] == rows[Unrelabel(m, a, b)]
  {
  }

  // ---------------------------------------------------------------------------
  // The new center

  /** (ca * na + cb * nb) / (na + nb), elementwise. */
  function WeightedMean(ca: Vec, cb: Vec, na: nat, nb: nat): (w: Vec)
    requires |ca| == |cb| && na + nb > 0
    ensures |w| == |ca|
    ensures forall k :: 0 <= k < |w| ==> w[k] * (na + nb) as real == ca[k] * na as real + cb[k] * nb as real
  {
    seq(|ca|, k requires 0 <= k < |ca| => (ca[k] * na as real + cb[k] * nb as real) / (na + nb) as real)
  }

  /** The weighted mean lies, coordinate by coordinate, between the two centers. */
  lemma WeightedMeanBetween(ca: Vec, cb: Vec, na: nat, nb: nat, k: nat)
    requires |ca| == |cb| && na + nb > 0 && k < |ca|
    ensures ca[k] <= cb[k] ==> ca[k] <= WeightedMean(ca, cb, na, nb)[k] <= cb[k]
    ensures cb[k] <= ca[k] ==> cb[k] <= WeightedMean(ca, cb, na, nb)[k] <= ca[k]
  {
    var x, y := ca[k], cb[k];
    var s := (na + nb) as real;
    var t := nb as real / s;
    var p, q := na as real, nb as real;
    assert WeightedMean(ca, cb, na, nb)[k] == (x * p + y * q) / s;
    assert s == p + q;
    FractionBounds(q, s);
    MeanAsBlend(x, y, p, q);
    assert (x * p + y * q) / s == x + t * (y - x);
    if x <= y {
      BlendMonotone(t, x, x, x, y);
      BlendMonotone(t, x, y, y, y);
    } else {
      BlendMonotone(t, y, x, y, y);
      BlendMonotone(t, x, x, y, x);
    }
  }

  /** (x * p + y * q) / (p + q) is the blend of x towards y with weight q / (p + q). */
  lemma MeanAsBlend(x: real, y: real, p: real, q: real)
    requires 0.0 < p + q
    ensures (x * p + y * q) / (p + q) == x + q / (p + q) * (y - x)
  {
    var s := p + q;
    assert x * p + y * q == x * s + q * (y - x);
    assert (x * s + q * (y - x)) / s == x * s / s + q * (y - x) / s;
    assert x * s / s == x;
    assert q * (y - x) / s == q / s * (y - x);
  }

  /** np.argmin: the first index of a smallest value. */
  function ArgMin(ds: seq<real>): (r: nat)
    requires |ds| > 0
    ensures r < |ds|
    ensures forall k :: 0 <= k < |ds| ==> ds[r] <= ds[k]
    ensures forall k :: 0 <= k < r ==> ds[r] < ds[k]
  {
    if |ds| == 1 then 0
    else
      var t := ArgMin(ds[..|ds| - 1]);
      assert forall k :: 0 <= k < |ds| - 1 ==> ds[..|ds| - 1][k] == ds[k];
      if ds[|ds| - 1] < ds[t] then |ds| - 1 else t
  }

  /** cdist([target], embedded): the distance from target to every embedded point. */
  function DistancesFrom(target: Vec, embedded: seq<Vec>, dist: (Vec, Vec) -> real): (r: seq<real>)
    ensures |r| == |embedded|
    ensures forall k :: 0 <= k < |embedded| ==> r[k] == dist(target, embedded[k])
  {
    seq(|embedded|, k requires 0 <= k < |embedded| => dist(target, embedded[k]))
  }

  /**
   * get_nearest_points_to_optimal_centers(X, [target], embedded): the first
   * data point nearest to target, as its row in each of the two views and its
   * embedded row.
   */
  function NearestToCenter(views: seq<seq<Vec>>, embedded: seq<Vec>, target: Vec, dist: (Vec, Vec) -> real): (r: (seq<Vec>, Vec))
    requires |embedded| > 0 && |views| >= 2
    requires |views[0]| == |embedded| && |views[1]| == |embedded|
    ensures exists best :: (
      && 0 <= best < |embedded|
      && (forall k :: 0 <= k < |embedded| ==> dist(target, embedded[best]) <= dist(target, embedded[k]))
      && (forall k :: 0 <= k < best ==> dist(target, embedded[best]) < dist(target, embedded[k]))
      && r == ([views[0][best], views[1][best]], embedded[best]))
  {
    var best := NewCenterIndex(embedded, target, dist);
    ([views[0][best], views[1][best]], embedded[best])
  }

  /** np.argmin(cdist([target], embedded)): the first data point nearest to target. */
  function NewCenterIndex(embedded: seq<Vec>, target: Vec, dist: (Vec, Vec) -> real): (best: nat)
    requires |embedded| > 0
    ensures best < |embedded|
    ensures forall k :: 0 <= k < |embedded| ==> dist(target, embedded[best]) <= dist(target, embedded[k])
    ensures forall k :: 0 <= k < best ==> dist(target, embedded[best]) < dist(target, embedded[k])
  {
    ArgMin(DistancesFrom(target, embedded, dist))
  }

  // ---------------------------------------------------------------------------
  // merge_by_dip_value

  /**
   * Merges clusters a and b. labels is overwritten with the new labels; each
   * of the first two center arrays, and the embedded centers, lose rows a and
   * b and gain the new center's row. The weights of the mean are the cluster
   * sizes counted before relabelling. The matrix is get_dip_matrix on the new
   * labels and embedded centers, with its default factor 3 and minimum sample
   * size 100.
   */
  method Merge(views: seq<seq<Vec>>, embedded: seq<Vec>, labels: array<int>, a: nat, b: nat, n: nat,
               centers: seq<seq<Vec>>, embeddedCenters: seq<Vec>, ops: Routines)
    returns (newCenters: seq<seq<Vec>>, newEmbeddedCenters: seq<Vec>, m: array2<real>)
    modifies labels
    requires PairIn(a, b, n) && LabelsIn(labels[..], n)
    requires |views| >= 2 && |views[0]| == |embedded| && |views[1]| == |embedded|
    requires |centers| >= 2 && forall w :: 0 <= w < |centers| ==> |centers[w]| == n + 1
    requires |embeddedCenters| == n + 1 && Aligned(embedded, embeddedCenters, labels[..])
    requires Count(labels[..], a) + Count(labels[..], b) > 0
    requires Testable(RelabelAll(labels[..], a, b, n), n) && SortsIndices(ops.argsort)
    ensures labels[..] == RelabelAll(old(labels[..]), a, b, n)
    ensures var target := WeightedMean(embeddedCenters[a], embeddedCenters[b],
                                       Count(old(labels[..]), a), Count(old(labels[..]), b));
      var best := NewCenterIndex(embedded, target, ops.dist);
      && newCenters == [DeletePair(centers[0], a, b) + [views[0][best]], DeletePair(centers[1], a, b) + [views[1][best]]]
      && newEmbeddedCenters == DeletePair(embeddedCenters, a, b) + [embedded[best]]
    ensures m.Length0 == n && m.Length1 == n
    ensures forall r, c :: 0 <= r < n && 0 <= c < n ==>
      m[r, c] == Matrix(embedded, newEmbeddedCenters, labels[..], n, 3, 100, ops)[r][c]
  {
    var sizeA := Count(labels[..], a);
    var sizeB := Count(labels[..], b);
    RelabelInPlace(labels, a, b, n);

    assert |embeddedCenters[a]| == |embeddedCenters[b]| == Width(embeddedCenters);
    var target := WeightedMean(embeddedCenters[a], embeddedCenters[b], sizeA, sizeB);
    var (newCenter, newEmbeddedCenter) := NearestToCenter(views, embedded, target, ops.dist);
    ghost var best := NewCenterIndex(embedded, target, ops.dist);

    assert newCenter == [views[0][best], views[1][best]] && newEmbeddedCenter == embedded[best];
    newCenters, newEmbeddedCenters := ReplaceCenters(centers, embeddedCenters, a, b, n, newCenter, newEmbeddedCenter);

    NewCentersAligned(embedded, embeddedCenters, labels[..], a, b, best);
    m := GetDipMatrix(embedded, newEmbeddedCenters, labels[..], n, 3, 100, ops);
  }

  /**
   * Removes rows a and b from every center array and from the embedded
   * centers, then appends the new center's row to the first two arrays and to
   * the embedded centers.
   */
  method ReplaceCenters(centers: seq<seq<Vec>>, embeddedCenters: seq<Vec>, a: nat, b: nat, n: nat,
                        newCenter: seq<Vec>, newEmbeddedCenter: Vec)
    returns (newCenters: seq<seq<Vec>>, newEmbeddedCenters: seq<Vec>)
    requires PairIn(a, b, n) && |embeddedCenters| == n + 1
    requires |centers| >= 2 && forall w :: 0 <= w < |centers| ==> |centers[w]| == n + 1
    requires |newCenter| >= 2
    ensures newCenters == [DeletePair(centers[0], a, b) + [newCenter[0]], DeletePair(centers[1], a, b) + [newCenter[1]]]
    ensures newEmbeddedCenters == DeletePair(embeddedCenters, a, b) + [newEmbeddedCenter]
  {
    var tmp: seq<seq<Vec>> := [];
    var w := 0;
    while w < |centers|
      invariant 0 <= w <= |centers| && |tmp| == w
      invariant forall v :: 0 <= v < w ==> tmp[v] == DeletePair(centers[v], a, b)
    {
      tmp := tmp + [DeletePair(centers[w], a, b)];
      w := w + 1;
    }
    newCenters := [];
    w := 0;
    while w < 2
      invariant 0 <= w <= 2 && |newCenters| == w
      invariant forall v :: 0 <= v < w ==> newCenters[v] == tmp[v] + [newCenter[v]]
    {
      newCenters := newCenters + [tmp[w] + [newCenter[w]]];
      w := w + 1;
    }
    newEmbeddedCenters := DeletePair(embeddedCenters, a, b) + [newEmbeddedCenter];
  }

  /** The new embedded centers have the width of the data, so the matrix can project onto their differences. */
  lemma NewCentersAligned(embedded: seq<Vec>, embeddedCenters: seq<Vec>, labels: seq<int>, a: nat, b: nat, best: nat)
    requires Aligned(embedded, embeddedCenters, labels)
    requires a != b && a < |embeddedCenters| && b < |embeddedCenters| && best < |embedded|
    ensures Aligned(embedded, DeletePair(embeddedCenters, a, b) + [embedded[best]], labels)
  {
    var d := Width(embeddedCenters);
    var kept := DeletePair(embeddedCenters, a, b);
    var rows := kept + [embedded[best]];
    forall k | 0 <= k < |rows| ensures |rows[k]| == d {
      if k < |kept| {
        assert rows[k] in embeddedCenters;
      }
    }
  }
}
