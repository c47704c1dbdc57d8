/** Sorting of real samples (np.sort) and of indices by a key (np.argsort). */
module Sorting {

  predicate Sorted(s: seq<real>) {
    forall i, j :: 0 <= i < j < |s| ==> s[i] <= s[j]
  }

  predicate StrictlyAscending(s: seq<int>) {
    forall i, j :: 0 <= i < j < |s| ==> s[i] < s[j]
  }

  /** Each element is at most its successor. */
  predicate Stepwise(s: seq<real>) {
    forall k :: 0 <= k < |s| - 1 ==> s[k] <= s[k + 1]
  }

  lemma {:induction false} StepwiseIsSorted(s: seq<real>)
    requires Stepwise(s)
    ensures Sorted(s)
  {
    if |s| > 1 {
      StepwiseIsSorted(s[1..]);
      forall j | 1 <= j < |s| ensures s[0] <= s[j] {
        assert s[0] <= s[1];
        if j > 1 { assert s[1..][0] <= s[1..][j - 1]; }
      }
      forall i, j | 0 <= i < j < |s| ensures s[i] <= s[j] {
        if i > 0 { assert s[1..][i - 1] <= s[1..][j - 1]; }
      }
    }
  }

  /** Inserts x before the first element of s that is not smaller than it. */
  function Insert(x: real, s: seq<real>): (r: seq<real>)
    requires Stepwise(s)
    ensures Stepwise(r)
    ensures multiset(r) == multiset(s) + multiset{x}
    ensures |r| == |s| + 1 && (r[0] == x || (s != [] && r[0] == s[0]))
  {
    if s == [] || x <= s[0] then [x] + s
    else
      assert s == [s[0]] + s[1..];
      [s[0]] + Insert(x, s[1..])
  }

  /** Insertion sort: the ascending rearrangement of s. */
  function Sort(s: seq<real>): (r: seq<real>)
    ensures Stepwise(r) && Sorted(r)
    ensures multiset(r) == multiset(s)
    ensures |r| == |s|
  {
    if s == [] then []
    else
      assert s == [s[0]] + s[1..];
      var r := Insert(s[0], Sort(s[1..]));
      StepwiseIsSorted(r);
      r
  }

  /** Two ascending arrangements of one non-empty multiset start with the same, smallest, element. */
  lemma SortedSameHead(a: seq<real>, b: seq<real>)
    requires Sorted(a) && Sorted(b) && a != [] && b != []
    requires multiset(a) == multiset(b)
    ensures a[0] == b[0]
  {
    assert a[0] in multiset(b);
    assert b[0] in multiset(a);
    var i :| 0 <= i < |b| && b[i] == a[0];
    var j :| 0 <= j < |a| && a[j] == b[0];
  }

  /** A multiset has exactly one ascending arrangement. */
  lemma {:induction false} SortedUnique(a: seq<real>, b: seq<real>)
    requires Sorted(a) && Sorted(b)
    requires multiset(a) == multiset(b)
    ensures a == b
  {
    assert |a| == |multiset(a)| == |multiset(b)| == |b|;
    if a != [] {
      SortedSameHead(a, b);
      assert a == [a[0]] + a[1..];
      assert b == [b[0]] + b[1..];
      assert multiset(a[1..]) == multiset(a) - multiset{a[0]};
      assert multiset(b[1..]) == multiset(b) - multiset{b[0]};
      SortedUnique(a[1..], b[1..]);
    }
  }

  /** Sorting depends only on the multiset of the input. */
  lemma SortPermutationInvariant(a: seq<real>, b: seq<real>)
    requires multiset(a) == multiset(b)
    ensures Sort(a) == Sort(b)
  {
    SortedUnique(Sort(a), Sort(b));
  }

  /** Sorting an ascending sample leaves it unchanged. */
  lemma SortOfSorted(s: seq<real>)
    requires Sorted(s)
    ensures Sort(s) == s
  {
    SortedUnique(Sort(s), s);
  }

  // ---------------------------------------------------------------------------
  // Index sorting.

  predicate Distinct(order: seq<nat>) {
    forall i, j :: 0 <= i < j < |order| ==> order[i] != order[j]
  }

  /** order lists every index of key once, in an order that ascends by key. */
  predicate IsArgsort(order: seq<nat>, key: seq<real>) {
    && |order| == |key|
    && (forall k :: 0 <= k < |order| ==> order[k] < |key|)
    && Distinct(order)
    && (forall i :: 0 <= i < |key| ==> i in order)
    && (forall i, j :: 0 <= i < j < |order| ==> key[order[i]] <= key[order[j]])
  }

  /** Inserts index x into order before the first index whose key is larger. */
  function InsertIndex(x: nat, order: seq<nat>, key: seq<real>): (r: seq<nat>)
    requires x < |key|
    requires forall k :: 0 <= k < |order| ==> order[k] < |key|
    requires forall i, j :: 0 <= i < j < |order| ==> key[order[i]] <= key[order[j]]
    ensures |r| == |order| + 1
    ensures forall y :: y in r <==> y == x || y in order
    ensures forall k :: 0 <= k < |r| ==> r[k] < |key|
    ensures forall i, j :: 0 <= i < j < |r| ==> key[r[i]] <= key[r[j]]
  {
    if order == [] || key[x] < key[order[0]] then [x] + order
    else
      var rest := InsertIndex(x, order[1..], key);
      assert order == [order[0]] + order[1..];
      assert forall k :: 0 <= k < |rest| ==> key[order[0]] <= key[rest[k]] by {
        forall k | 0 <= k < |rest|
          ensures key[order[0]] <= key[rest[k]]
        {
          assert rest[k] in rest;
        }
      }
      [order[0]] + rest
  }

  lemma {:induction false} InsertIndexDistinct(x: nat, order: seq<nat>, key: seq<real>)
    requires x < |key|
    requires forall k :: 0 <= k < |order| ==> order[k] < |key|
    requires forall i, j :: 0 <= i < j < |order| ==> key[order[i]] <= key[order[j]]
    requires x !in order && Distinct(order)
    ensures Distinct(InsertIndex(x, order, key))
  {
    if order == [] || key[x] < key[order[0]] {
    } else {
      assert order == [order[0]] + order[1..];
      InsertIndexDistinct(x, order[1..], key);
      var rest := InsertIndex(x, order[1..], key);
      assert order[0] !in order[1..];
      assert order[0] !in rest;
    }
  }

  /** The indices 0 .. n-1 ordered by key. */
  function ArgSortPrefix(key: seq<real>, n: nat): (r: seq<nat>)
    requires n <= |key|
    ensures |r| == n
    ensures forall k :: 0 <= k < n ==> r[k] < n
    ensures forall i :: 0 <= i < n ==> i in r
    ensures Distinct(r)
    ensures forall i, j :: 0 <= i < j < |r| ==> key[r[i]] <= key[r[j]]
  {
    if n == 0 then []
    else
      var prev := ArgSortPrefix(key, n - 1);
      assert n - 1 !in prev;
      var r := InsertIndex(n - 1, prev, key);
      InsertIndexDistinct(n - 1, prev, key);
      assert forall k :: 0 <= k < n ==> r[k] < n by {
        forall k | 0 <= k < n ensures r[k] < n {
          assert r[k] in r;
          if r[k] != n - 1 {
            var m :| 0 <= m < |prev| && prev[m] == r[k];
          }
        }
      }
      r
  }

  /** One index order that sorts key (ties in index order). */
  function ArgSort(key: seq<real>): (r: seq<nat>)
    ensures IsArgsort(r, key)
  {
    ArgSortPrefix(key, |key|)
  }
}
