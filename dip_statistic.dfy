/**
 * The dip test front end (utils.py, dip and dip_test) and dip_pval on the dip
 * test's own table.
 *
 * The dip statistic proper is Hartigan's algorithm AS 217, a compiled routine
 * called through ctypes; it is the parameter `hartigan`, applied to the data
 * exactly as dip hands it over. The square root is the parameter `sqrt`.
 */
module DipStatistic {

  import opened Sorting
  import opened DipPValue
  import opened DipTable

  datatype Result<T> = Success(value: T) | Failure(error: string)

  /** A numpy array handed to dip: one-dimensional, or with further axes. */
  datatype Sample = Flat(values: seq<real>) | Nested(rows: seq<seq<real>>)

  /** X.shape[0]: the length of the first axis. */
  function Length(x: Sample): nat {
    match x
    case Flat(values) => |values|
    case Nested(rows) => |rows|
  }

  // ---------------------------------------------------------------------------
  // dip_pval on the dip test's table

  /** dip_pval(data_dip, n_points), defined for more points than the first breakpoint (4). */
  function DipPVal(dip: real, n: int, sqrt: real -> real): (p: real)
    requires n > 4
    ensures 0.0 <= p <= 1.0
  {
    TableWellFormed();
    PValueInUnitInterval(TABLE, dip, n, sqrt);
    PValue(TABLE, dip, n, sqrt)
  }

  /** Up to 72000 points a larger dip never has a larger p-value. */
  lemma DipPValNonIncreasing(dip: real, dip': real, n: int, sqrt: real -> real)
    requires 4 < n <= 72000
    requires NonNegativeRoot(sqrt)
    requires dip <= dip'
    ensures DipPVal(dip', n, sqrt) <= DipPVal(dip, n, sqrt)
  {
    TableWellFormed();
    PValueNonIncreasing(TABLE, dip, dip', n, sqrt);
  }

  /** Up to 72000 points a zero dip has p-value exactly 1. */
  lemma ZeroDipPValIsOne(n: int, sqrt: real -> real)
    requires 4 < n <= 72000
    requires PositiveRoot(sqrt)
    ensures DipPVal(0.0, n, sqrt) == 1.0
  {
    TableWellFormed();
    ZeroDipPValueIsOne(TABLE, n, sqrt);
  }

  /**
   * The rows of the dip test's table that dip_pval blends for n points: both
   * row 0 up to 4 points (the blend fraction then divides by zero), the two
   * consecutive rows whose breakpoints bracket n up to 72000, and the top two
   * rows, extrapolated, beyond.
   */
  function DipBracket(n: int): (r: (nat, nat))
    ensures r.0 <= r.1 <= 20
    ensures n <= 4 ==> r == (0, 0)
    ensures n > 4 ==> r.1 == r.0 + 1
    ensures 4 < n <= 72000 ==> N[r.0] < n <= N[r.1]
    ensures n > 72000 ==> r == (19, 20)
  {
    TableShaped();
    BreakpointsShape();
    Bracket(TABLE, n)
  }

  // ---------------------------------------------------------------------------
  // dip and dip_test

  /**
   * dip(X, just_dip=True, is_data_sorted): an assertion failure unless X is
   * one-dimensional; the data sorted unless the caller says it already is;
   * 0.0 for fewer than 4 points or when the first and last (sorted) values
   * agree; otherwise the compiled routine's dip of the (sorted) data.
   */
  function Dip(x: Sample, isSorted: bool, hartigan: seq<real> -> real): (r: Result<real>)
    ensures r.Failure? <==> x.Nested?
  {
    match x
    case Nested(_) => Failure("Data must be 1-dimensional for the dip-test")
    case Flat(values) =>
      var s := Prepared(values, isSorted);
      if |values| < 4 || s[0] == s[|s| - 1] then Success(0.0)
      else Success(hartigan(s))
  }

  /** The data as dip passes it on: sorted, unless the caller says it already is. */
  function Prepared(values: seq<real>, isSorted: bool): (s: seq<real>)
    ensures multiset(s) == multiset(values) && |s| == |values|
    ensures isSorted ==> s == values
    ensures !isSorted ==> Sorted(s)
  {
    if isSorted then values else Sort(values)
  }

  /** Without the sorted flag the dip depends only on the multiset of the data, not on its order. */
  lemma DipOrderIndependent(a: seq<real>, b: seq<real>, hartigan: seq<real> -> real)
    requires multiset(a) == multiset(b)
    ensures Dip(Flat(a), false, hartigan) == Dip(Flat(b), false, hartigan)
  {
    SortPermutationInvariant(a, b);
    assert Prepared(a, false) == Prepared(b, false);
  }

  /** On data that is already ascending the sorted flag changes nothing. */
  lemma DipSortedFlagAgrees(values: seq<real>, hartigan: seq<real> -> real)
    requires Sorted(values)
    ensures Dip(Flat(values), true, hartigan) == Dip(Flat(values), false, hartigan)
  {
    SortOfSorted(values);
  }

  /**
   * The guard: with fewer than 4 points, or a constant sample, the dip is 0.0
   * whatever the compiled routine would have returned.
   */
  lemma DipGuard(values: seq<real>, isSorted: bool, hartigan: seq<real> -> real)
    requires |values| < 4 || forall k :: 0 <= k < |values| ==> values[k] == values[0]
    ensures Dip(Flat(values), isSorted, hartigan) == Success(0.0)
  {
    if 4 <= |values| {
      var s := Prepared(values, isSorted);
      assert s[0] in multiset(values) && s[|s| - 1] in multiset(values);
      assert s[0] == values[0] by {
        var i :| 0 <= i < |values| && values[i] == s[0];
      }
      assert s[|s| - 1] == values[0] by {
        var i :| 0 <= i < |values| && values[i] == s[|s| - 1];
      }
    }
  }

  /** Past the guard the result is the compiled routine's dip of the data in the order dip sorted it into. */
  lemma DipCallsRoutine(values: seq<real>, isSorted: bool, hartigan: seq<real> -> real)
    requires 4 <= |values|
    requires Prepared(values, isSorted)[0] != Prepared(values, isSorted)[|values| - 1]
    ensures Dip(Flat(values), isSorted, hartigan) == Success(hartigan(Prepared(values, isSorted)))
  {
  }

  /**
   * dip_test(X): the dip and its p-value for X.shape[0] points; a failure
   * exactly when dip fails. The p-value is always taken, a zero dip included.
   */
  function DipTest(x: Sample, isSorted: bool, hartigan: seq<real> -> real, sqrt: real -> real): (r: Result<(real, real)>)
    requires Length(x) > 4
    ensures r.Failure? <==> x.Nested?
    ensures r.Success? ==> r.value.0 == Dip(x, isSorted, hartigan).value
    ensures r.Success? ==> r.value.1 == DipPVal(r.value.0, Length(x), sqrt)
    ensures r.Success? ==> 0.0 <= r.value.1 <= 1.0
  {
    match Dip(x, isSorted, hartigan)
    case Failure(e) => Failure(e)
    case Success(d) =>
      Success((d, DipPVal(d, Length(x), sqrt)))
  }

  /** A constant sample of 5 to 72000 points has dip 0 and p-value 1. */
  lemma ConstantSampleNotSeparated(values: seq<real>, isSorted: bool, hartigan: seq<real> -> real, sqrt: real -> real)
    requires 4 < |values| <= 72000
    requires forall k :: 0 <= k < |values| ==> values[k] == values[0]
    requires PositiveRoot(sqrt)
    ensures DipTest(Flat(values), isSorted, hartigan, sqrt) == Success((0.0, 1.0))
  {
    DipGuard(values, isSorted, hartigan);
    ZeroDipPValIsOne(|values|, sqrt);
  }
}
