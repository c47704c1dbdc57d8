/**
 * get_dip_matrix: the p-value of the dip test for every pair of clusters,
 * computed on the points of the two clusters projected onto the line through
 * their centers, and recomputed on a rebalanced sample when one cluster is
 * more than `factor` times the size of the other.
 */
module DipMatrix {

  import opened Sorting
  import opened Points
  import opened ClusterSampler
  import opened DipStatistic

  /** The numerical routines the matrix is computed with: square root, the compiled dip routine, cdist's metric, and numpy's argsort. */
  datatype Routines = Routines(sqrt: real -> real, hartigan: seq<real> -> real,
                               dist: (Vec, Vec) -> real, argsort: seq<real> -> seq<nat>)

  /** argsort returns, for every key, an order of all its indices that ascends by key. */
  ghost predicate SortsIndices(argsort: seq<real> -> seq<nat>) {
    forall key :: IsArgsort(argsort(key), key)
  }

  /** The index sort of the model meets that description, so the routines can be supplied. */
  lemma ArgSortSortsIndices()
    ensures SortsIndices(ArgSort)
  {
  }

  /** The width of the centers (0 when there are none). */
  function Width(centers: seq<Vec>): nat {
    if centers == [] then 0 else |centers[0]|
  }

  /** One label per data row, and data rows and centers of one width. */
  predicate Aligned(data: seq<Vec>, centers: seq<Vec>, labels: seq<int>) {
    && |data| == |labels|
    && (centers != [] ==> Dims(data, Width(centers)) && Dims(centers, Width(centers)))
  }

  /** Every pair of the first n clusters has more than 4 points together, so that dip_pval is defined on it. */
  predicate Testable(labels: seq<int>, n: nat) {
    forall i, j :: 0 <= i < j < n ==> Count(labels, i) + Count(labels, j) > 4
  }

  /** The sizes differ by more than factor. */
  predicate Imbalanced(si: nat, sj: nat, factor: nat) {
    si > sj * factor || sj > si * factor
  }

  /** The p-value dip_test gives the projected points of a pair. */
  function UnionPValue(pi: seq<Vec>, pj: seq<Vec>, direction: Vec, ops: Routines): (p: real)
    requires Dims(pi, |direction|) && Dims(pj, |direction|)
    requires |pi| + |pj| > 4
    ensures 0.0 <= p <= 1.0
  {
    var union := pi + pj;
    assert Dims(union, |direction|) by {
      forall k | 0 <= k < |union| ensures |union[k]| == |direction| {
        if k >= |pi| { assert union[k] == pj[k - |pi|]; }
      }
    }
    DipTest(Flat(Project(union, direction)), false, ops.hartigan, ops.sqrt).value.1
  }

  /** get_nearest_points(points, center, smaller, factor, minSize), with the index order numpy's argsort gives. */
  function Nearest(points: seq<Vec>, center: Vec, smaller: nat, factor: nat, minSize: nat, ops: Routines): (r: seq<Vec>)
    requires SortsIndices(ops.argsort)
    ensures r == NearestPoints(points, center, ops.dist, ops.argsort(Distances(points, center, ops.dist)),
                               smaller, factor, minSize)
    ensures |r| == Min(SampleSize(smaller, factor, minSize, |points|), |points|)
    ensures forall k :: 0 <= k < |r| ==> r[k] in points
  {
    var key := Distances(points, center, ops.dist);
    var order := ops.argsort(key);
    assert IsArgsort(order, key);
    NearestPointsFromInput(points, center, ops.dist, order, smaller, factor, minSize);
    NearestPoints(points, center, ops.dist, order, smaller, factor, minSize)
  }

  /**
   * The pair after rebalancing: the strictly larger side (the first when both
   * exceed factor times the other) is replaced by its points nearest to the
   * other cluster's center; the other side is kept.
   */
  function Resampled(pi: seq<Vec>, pj: seq<Vec>, ci: Vec, cj: Vec, factor: nat, minSize: nat, ops: Routines): (r: (seq<Vec>, seq<Vec>))
    requires SortsIndices(ops.argsort)
    requires Imbalanced(|pi|, |pj|, factor)
    ensures r.0 == pi || r.1 == pj
    ensures |r.0| <= |pi| && |r.1| <= |pj|
  {
    if |pi| > |pj| * factor then (Nearest(pi, cj, |pj|, factor, minSize, ops), pj)
    else (pi, Nearest(pj, ci, |pi|, factor, minSize, ops))
  }

  /**
   * Only the larger side is resampled, and only from its own points; and with
   * a minimum sample size above 4, the rebalanced pair still has more than 4
   * points, so its p-value is defined.
   */
  lemma ResampledSides(pi: seq<Vec>, pj: seq<Vec>, ci: Vec, cj: Vec, factor: nat, minSize: nat, ops: Routines)
    requires SortsIndices(ops.argsort)
    requires Imbalanced(|pi|, |pj|, factor)
    requires |pi| + |pj| > 4 && minSize > 4
    ensures var (qi, qj) := Resampled(pi, pj, ci, cj, factor, minSize, ops);
      && (|pi| > |pj| * factor ==> qi == Nearest(pi, cj, |pj|, factor, minSize, ops) && qj == pj)
      && (|pi| <= |pj| * factor ==> qi == pi && qj == Nearest(pj, ci, |pi|, factor, minSize, ops))
      && (|pi| > |pj| * factor ==> |qi| == Min(SampleSize(|pj|, factor, minSize, |pi|), |pi|))
      && (|pi| <= |pj| * factor ==> |qj| == Min(SampleSize(|pi|, factor, minSize, |pj|), |pj|))
      && (forall k :: 0 <= k < |qi| ==> qi[k] in pi)
      && (forall k :: 0 <= k < |qj| ==> qj[k] in pj)
      && |qi| + |qj| > 4
  {
    if |pi| > |pj| * factor {
      ResampledLargerHasEnough(|pi|, |pj|, factor, minSize);
    } else {
      ResampledLargerHasEnough(|pj|, |pi|, factor, minSize);
    }
  }

  /** Taking Min(SampleSize, larger) points of the larger side leaves the pair with more than 4 points. */
  lemma ResampledLargerHasEnough(larger: nat, smaller: nat, factor: nat, minSize: nat)
    requires larger > smaller * factor
    requires larger + smaller > 4 && minSize > 4
    ensures smaller + Min(SampleSize(smaller, factor, minSize, larger), larger) > 4
  {
  }

  /** Rows taken from rows of one width have that width. */
  lemma SubsetDims(sub: seq<Vec>, rows: seq<Vec>, d: nat)
    requires Dims(rows, d)
    requires forall k :: 0 <= k < |sub| ==> sub[k] in rows
    ensures Dims(sub, d)
  {
    forall k | 0 <= k < |sub| ensures |sub[k]| == d {
      var m :| 0 <= m < |rows| && rows[m] == sub[k];
    }
  }

  /**
   * The matrix cell of clusters i < j: the p-value of their union projected on
   * centers[i] - centers[j]; for an imbalanced pair, the smaller of that and
   * the p-value of the rebalanced union (Python's min, which keeps the first
   * unless the second is smaller; on a tie both are the same value).
   */
  function PairPValue(data: seq<Vec>, centers: seq<Vec>, labels: seq<int>, i: nat, j: nat,
                      factor: nat, minSize: nat, ops: Routines): (p: real)
    requires Aligned(data, centers, labels) && i < j < |centers|
    requires Count(labels, i) + Count(labels, j) > 4
    requires minSize > 4 && SortsIndices(ops.argsort)
    ensures 0.0 <= p <= 1.0
    ensures p <= FullPValue(data, centers, labels, i, j, ops)
    ensures !Imbalanced(Count(labels, i), Count(labels, j), factor) ==> p == FullPValue(data, centers, labels, i, j, ops)
    ensures Imbalanced(Count(labels, i), Count(labels, j), factor) ==>
      && p <= RebalancedPValue(data, centers, labels, i, j, factor, minSize, ops)
      && (p == RebalancedPValue(data, centers, labels, i, j, factor, minSize, ops)
          || p == FullPValue(data, centers, labels, i, j, ops))
  {
    var p := FullPValue(data, centers, labels, i, j, ops);
    if Imbalanced(Count(labels, i), Count(labels, j), factor) then
      var p2 := RebalancedPValue(data, centers, labels, i, j, factor, minSize, ops);
      if p2 < p then p2 else p
    else p
  }

  /**
   * The p-value of the rebalanced pair: the union of Resampled(members of i,
   * members of j) projected on centers[i] - centers[j].
   */
  function RebalancedPValue(data: seq<Vec>, centers: seq<Vec>, labels: seq<int>, i: nat, j: nat,
                            factor: nat, minSize: nat, ops: Routines): (p: real)
    requires Aligned(data, centers, labels) && i < j < |centers|
    requires Count(labels, i) + Count(labels, j) > 4
    requires minSize > 4 && SortsIndices(ops.argsort)
    requires Imbalanced(Count(labels, i), Count(labels, j), factor)
    ensures 0.0 <= p <= 1.0
  {
    var direction := Sub(centers[i], centers[j]);
    var pi, pj := Members(data, labels, i), Members(data, labels, j);
    MembersDims(data, labels, i, |direction|);
    MembersDims(data, labels, j, |direction|);
    var (qi, qj) := Resampled(pi, pj, centers[i], centers[j], factor, minSize, ops);
    ResampledSides(pi, pj, centers[i], centers[j], factor, minSize, ops);
    SubsetDims(qi, pi, |direction|);
    SubsetDims(qj, pj, |direction|);
    UnionPValue(qi, qj, direction, ops)
  }

  /** The p-value of the whole union of clusters i and j, before any rebalancing. */
  function FullPValue(data: seq<Vec>, centers: seq<Vec>, labels: seq<int>, i: nat, j: nat, ops: Routines): (p: real)
    requires Aligned(data, centers, labels) && i < j < |centers|
    requires Count(labels, i) + Count(labels, j) > 4
    ensures 0.0 <= p <= 1.0
  {
    var direction := Sub(centers[i], centers[j]);
    MembersDims(data, labels, i, |direction|);
    MembersDims(data, labels, j, |direction|);
    UnionPValue(Members(data, labels, i), Members(data, labels, j), direction, ops)
  }

  /** Cell (r, c) of the matrix: zero on the diagonal, the pair's p-value on both sides of it. */
  function Cell(data: seq<Vec>, centers: seq<Vec>, labels: seq<int>, n: nat, factor: nat, minSize: nat,
                ops: Routines, r: nat, c: nat): real
    requires Aligned(data, centers, labels) && n <= |centers| && Testable(labels, n)
    requires minSize > 4 && SortsIndices(ops.argsort)
    requires r < n && c < n
  {
    if r == c then 0.0
    else if r < c then PairPValue(data, centers, labels, r, c, factor, minSize, ops)
    else PairPValue(data, centers, labels, c, r, factor, minSize, ops)
  }

  /**
   * The matrix get_dip_matrix computes: n by n, symmetric, zero on the
   * diagonal, every cell a probability, and cell (i, j) for i < j the pair's
   * p-value.
   */
  function Matrix(data: seq<Vec>, centers: seq<Vec>, labels: seq<int>, n: nat, factor: nat, minSize: nat,
                  ops: Routines): (M: seq<seq<real>>)
    requires Aligned(data, centers, labels) && n <= |centers| && Testable(labels, n)
    requires minSize > 4 && SortsIndices(ops.argsort)
    ensures |M| == n && forall r :: 0 <= r < n ==> |M[r]| == n
    ensures forall r, c :: 0 <= r < n && 0 <= c < n ==> M[r][c] == M[c][r]
    ensures forall r :: 0 <= r < n ==> M[r][r] == 0.0
    ensures forall r, c :: 0 <= r < n && 0 <= c < n ==> 0.0 <= M[r][c] <= 1.0
    ensures forall r, c :: 0 <= r < c < n ==> M[r][c] == PairPValue(data, centers, labels, r, c, factor, minSize, ops)
  {
    seq(n, r requires 0 <= r < n =>
      seq(n, c requires 0 <= c < n => Cell(data, centers, labels, n, factor, minSize, ops, r, c)))
  }

  /** Cell (r, c) is set once rows and columns before i, and row and column i up to j, are done. */
  predicate Written(r: nat, c: nat, i: nat, j: nat) {
    r < i || c < i || (r == i && i < c < j) || (c == i && i < r < j)
  }

  /** The n-by-n array m holds M's value in every written cell and zero in every other. */
  ghost predicate Filled(m: array2<real>, M: seq<seq<real>>, n: nat, i: nat, j: nat)
    reads m
    requires m.Length0 == n && m.Length1 == n && |M| == n && forall r :: 0 <= r < n ==> |M[r]| == n
  {
    forall r, c :: 0 <= r < n && 0 <= c < n ==> m[r, c] == if Written(r, c, i, j) then M[r][c] else 0.0
  }

  /**
   * get_dip_matrix(data, centers, labels, n, factor, minSize): an n-by-n
   * matrix of zeros whose cells (i, j) and (j, i), for each i < j, are set to
   * the pair's p-value.
   */
  method GetDipMatrix(data: seq<Vec>, centers: seq<Vec>, labels: seq<int>, n: nat, factor: nat, minSize: nat,
                      ops: Routines) returns (m: array2<real>)
    requires Aligned(data, centers, labels) && n <= |centers| && Testable(labels, n)
    requires minSize > 4 && SortsIndices(ops.argsort)
    ensures m.Length0 == n && m.Length1 == n
    ensures forall r, c :: 0 <= r < n && 0 <= c < n ==>
      m[r, c] == Matrix(data, centers, labels, n, factor, minSize, ops)[r][c]
  {
    ghost var M := Matrix(data, centers, labels, n, factor, minSize, ops);
    m := new real[n, n]((r, c) => 0.0);
    var i := 0;
    while i < n - 1
      invariant i <= n
      invariant n > 0 ==> i <= n - 1
      invariant Filled(m, M, n, i, i)
    {
      FillRow(m, M, data, centers, labels, n, factor, minSize, ops, i);
      i := i + 1;
    }
  }

  /** The inner loop: cells (i, j) and (j, i) for every j > i, given the matrix M they are to agree with. */
  method FillRow(m: array2<real>, ghost M: seq<seq<real>>, data: seq<Vec>, centers: seq<Vec>, labels: seq<int>,
                 n: nat, factor: nat, minSize: nat, ops: Routines, i: nat)
    requires Aligned(data, centers, labels) && n <= |centers| && Testable(labels, n)
    requires minSize > 4 && SortsIndices(ops.argsort)
    requires m.Length0 == n && m.Length1 == n && i < n
    requires |M| == n && (forall r :: 0 <= r < n ==> |M[r]| == n) && M[i][i] == 0.0
    requires forall c :: i < c < n ==>
      M[i][c] == M[c][i] == PairPValue(data, centers, labels, i, c, factor, minSize, ops)
    requires Filled(m, M, n, i, i)
    modifies m
    ensures Filled(m, M, n, i + 1, i + 1)
  {
    var j := i + 1;
    while j < n
      invariant i + 1 <= j <= n
      invariant Filled(m, M, n, i, j)
    {
      var p := PairStep(data, centers, labels, i, j, factor, minSize, ops);
      SetPair(m, M, n, i, j, p);
      j := j + 1;
    }
    FilledRowDone(m, M, n, i);
  }

  /** dip_matrix[i, j] = dip_matrix[j, i] = p. */
  method SetPair(m: array2<real>, ghost M: seq<seq<real>>, n: nat, i: nat, j: nat, p: real)
    requires m.Length0 == n && m.Length1 == n && i < j < n
    requires |M| == n && forall r :: 0 <= r < n ==> |M[r]| == n
    requires p == M[i][j] == M[j][i]
    requires Filled(m, M, n, i, j)
    modifies m
    ensures Filled(m, M, n, i, j + 1)
  {
    m[i, j] := p;
    m[j, i] := p;
  }

  /** Once row and column i are written to the end, everything before i + 1 is. */
  lemma FilledRowDone(m: array2<real>, M: seq<seq<real>>, n: nat, i: nat)
    requires m.Length0 == n && m.Length1 == n && i < n
    requires |M| == n && (forall r :: 0 <= r < n ==> |M[r]| == n) && M[i][i] == 0.0
    requires Filled(m, M, n, i, n)
    ensures Filled(m, M, n, i + 1, i + 1)
  {
  }

  /** The body of the inner loop: one pair's p-value, computed step by step as get_dip_matrix does. */
  method PairStep(data: seq<Vec>, centers: seq<Vec>, labels: seq<int>, i: nat, j: nat,
                  factor: nat, minSize: nat, ops: Routines) returns (p: real)
    requires Aligned(data, centers, labels) && i < j < |centers|
    requires Count(labels, i) + Count(labels, j) > 4
    requires minSize > 4 && SortsIndices(ops.argsort)
    ensures p == PairPValue(data, centers, labels, i, j, factor, minSize, ops)
  {
    var direction := Sub(centers[i], centers[j]);
    var pi := Members(data, labels, i);
    var pj := Members(data, labels, j);
    MembersDims(data, labels, i, |direction|);
    MembersDims(data, labels, j, |direction|);
    p := UnionPValue(pi, pj, direction, ops);
    if |pi| > |pj| * factor || |pj| > |pi| * factor {
      ResampledSides(pi, pj, centers[i], centers[j], factor, minSize, ops);
      var full := pi;
      if |pi| > |pj| * factor {
        pi := Nearest(pi, centers[j], |pj|, factor, minSize, ops);
      } else if |pj| > |pi| * factor {
        pj := Nearest(pj, centers[i], |full|, factor, minSize, ops);
      }
      SubsetDims(pi, Members(data, labels, i), |direction|);
      SubsetDims(pj, Members(data, labels, j), |direction|);
      var p2 := UnionPValue(pi, pj, direction, ops);
      p := if p2 < p then p2 else p;
    }
  }
}
