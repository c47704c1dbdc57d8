/**
 * Data points, centers and cluster labels as the merge engine handles them:
 * rows of reals, numpy's elementwise difference and dot product, the distance
 * of each row to one center (cdist, whose metric is a parameter), and the
 * boolean-mask selection data[labels == c].
 */
module Points {

  type Vec = seq<real>

  /** Every row has d coordinates. */
  predicate Dims(rows: seq<Vec>, d: nat) {
    forall k :: 0 <= k < |rows| ==> |rows[k]| == d
  }

  /** u - v, elementwise. */
  function Sub(u: Vec, v: Vec): (w: Vec)
    requires |u| == |v|
    ensures |w| == |u|
    ensures forall k :: 0 <= k < |w| ==> v[k] + w[k] == u[k]
  {
    seq(|u|, k requires 0 <= k < |u| => u[k] - v[k])
  }

  /** np.dot of two vectors. */
  function Dot(u: Vec, v: Vec): real
    requires |u| == |v|
  {
    if u == [] then 0.0 else u[0] * v[0] + Dot(u[1..], v[1..])
  }

  /** np.dot(points, direction): the projection of every row onto direction. */
  function Project(points: seq<Vec>, direction: Vec): (r: seq<real>)
    requires Dims(points, |direction|)
    ensures |r| == |points|
    ensures forall k :: 0 <= k < |r| ==> r[k] == Dot(points[k], direction)
  {
    seq(|points|, k requires 0 <= k < |points| => Dot(points[k], direction))
  }

  /** cdist(points, [center]) read down its single column. */
  function Distances(points: seq<Vec>, center: Vec, dist: (Vec, Vec) -> real): (r: seq<real>)
    ensures |r| == |points|
    ensures forall k :: 0 <= k < |points| ==> r[k] == dist(points[k], center)
  {
    seq(|points|, k requires 0 <= k < |points| => dist(points[k], center))
  }

  /** The number of points labelled c: len(labels[labels == c]). */
  function Count(labels: seq<int>, c: int): (r: nat)
    ensures r <= |labels|
  {
    if labels == [] then 0
    else (if labels[0] == c then 1 else 0) + Count(labels[1..], c)
  }

  /** The count is the number of times c occurs among the labels. */
  lemma {:induction false} CountMultiplicity(labels: seq<int>, c: int)
    ensures Count(labels, c) == multiset(labels)[c]
  {
    if labels != [] {
      assert labels == [labels[0]] + labels[1..];
      CountMultiplicity(labels[1..], c);
    }
  }

  /** The positions base + k, in ascending order, of the labels k equal to c. */
  function Positions(labels: seq<int>, c: int, base: nat): (r: seq<nat>)
    ensures |r| == Count(labels, c)
    ensures forall i :: 0 <= i < |r| ==> base <= r[i] < base + |labels|
    ensures forall i, j :: 0 <= i < j < |r| ==> r[i] < r[j]
  {
    if labels == [] then []
    else (if labels[0] == c then [base] else []) + Positions(labels[1..], c, base + 1)
  }

  /** The positions are exactly those of the labels equal to c. */
  lemma {:induction false} PositionsExact(labels: seq<int>, c: int, base: nat)
    ensures forall k :: 0 <= k < |labels| ==> (base + k in Positions(labels, c, base) <==> labels[k] == c)
  {
    if labels != [] {
      PositionsExact(labels[1..], c, base + 1);
      var rest := Positions(labels[1..], c, base + 1);
      assert base !in rest;
      assert forall k :: 1 <= k < |labels| ==> labels[k] == labels[1..][k - 1];
    }
  }

  /** The rows of data at the given positions, in that order. */
  function Pick<T>(data: seq<T>, idx: seq<nat>): (r: seq<T>)
    requires forall i :: 0 <= i < |idx| ==> idx[i] < |data|
    ensures |r| == |idx|
    ensures forall i :: 0 <= i < |idx| ==> r[i] == data[idx[i]]
  {
    seq(|idx|, i requires 0 <= i < |idx| => data[idx[i]])
  }

  /** data[labels == c]: the rows labelled c, in their order in data. */
  function Members<T>(data: seq<T>, labels: seq<int>, c: int): (r: seq<T>)
    requires |data| == |labels|
    ensures |r| == Count(labels, c)
    ensures forall x :: x in r ==> x in data
  {
    if data == [] then []
    else
      var rest := Members(data[1..], labels[1..], c);
      assert forall x :: x in rest ==> x in data by {
        forall x | x in rest ensures x in data {
          assert x in data[1..];
        }
      }
      (if labels[0] == c then [data[0]] else []) + rest
  }

  /**
   * data[labels == c] is exactly the rows whose label is c, in their order in
   * data: the rows at the ascending positions of the labels equal to c
   * (which PositionsExact shows are exactly those positions).
   */
  lemma MembersSelect<T>(data: seq<T>, labels: seq<int>, c: int)
    requires |data| == |labels|
    ensures Members(data, labels, c) == Pick(data, Positions(labels, c, 0))
  {
    MembersFrom(data, labels, c, 0);
    assert data[0..] == data;
    assert labels[0..] == labels;
  }

  /** The same, for the rows from position j on. */
  lemma {:induction false} MembersFrom<T>(data: seq<T>, labels: seq<int>, c: int, j: nat)
    requires |data| == |labels| && j <= |data|
    ensures Members(data[j..], labels[j..], c) == Pick(data, Positions(labels[j..], c, j))
    decreases |data| - j
  {
    if j < |data| {
      MembersFrom(data, labels, c, j + 1);
      assert data[j..][1..] == data[j + 1..];
      assert labels[j..][1..] == labels[j + 1..];
    }
  }

  /** Members of rows of one dimension have that dimension. */
  lemma MembersDims(data: seq<Vec>, labels: seq<int>, c: int, d: nat)
    requires |data| == |labels| && Dims(data, d)
    ensures Dims(Members(data, labels, c), d)
  {
    var r := Members(data, labels, c);
    forall k | 0 <= k < |r| ensures |r[k]| == d {
      assert r[k] in r;
      var m :| 0 <= m < |data| && data[m] == r[k];
    }
  }
}
