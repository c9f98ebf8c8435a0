/**
 * The collector's summary statistics (`calcular_estatisticas` in main.py):
 * minimum, maximum, arithmetic mean and median of a list of numbers, or
 * all four absent for an empty list.  The numbers are exact reals; the
 * rounding to two decimals that the collector applies to the mean and the
 * median is not modelled.
 */
module Statistics {
  import opened Wrappers

  /** One summary row: the four statistics, all absent when there is no data. */
  datatype Summary = Summary(min: Option<real>, max: Option<real>, mean: Option<real>, median: Option<real>)

  /** The smallest element, as Python's `min`. */
  function Min(s: seq<real>): (m: real)
    requires |s| > 0
    ensures m in s
    ensures forall x :: x in s ==> m <= x
  {
    if |s| == 1 then s[0]
    else
      var rest := Min(s[1..]);
      assert forall x :: x in s ==> x == s[0] || x in s[1..];
      if s[0] <= rest then s[0] else rest
  }

  /** The largest element, as Python's `max`. */
  function Max(s: seq<real>): (m: real)
    requires |s| > 0
    ensures m in s
    ensures forall x :: x in s ==> x <= m
  {
    if |s| == 1 then s[0]
    else
      var rest := Max(s[1..]);
      assert forall x :: x in s ==> x == s[0] || x in s[1..];
      if rest <= s[0] then s[0] else rest
  }

  function Sum(s: seq<real>): real
  {
    if s == [] then 0.0 else s[0] + Sum(s[1..])
  }

  /** The arithmetic mean, as `statistics.mean` computes it exactly. */
  function Mean(s: seq<real>): real
    requires |s| > 0
  {
    Sum(s) / (|s| as real)
  }

  /** Every element lies in [lo, hi], so the sum lies in [|s| * lo, |s| * hi]. */
  lemma {:induction false} SumBetween(s: seq<real>, lo: real, hi: real)
    requires forall i :: 0 <= i < |s| ==> lo <= s[i] <= hi
    ensures (|s| as real) * lo <= Sum(s) <= (|s| as real) * hi
  {
    if s != [] {
      var n := (|s| - 1) as real;
      SumBetween(s[1..], lo, hi);
      assert (n + 1.0) * lo == n * lo + lo && (n + 1.0) * hi == n * hi + hi;
    }
  }

  /** The mean never leaves the range of the data. */
  lemma MeanBetween(s: seq<real>)
    requires |s| > 0
    ensures Min(s) <= Mean(s) <= Max(s)
  {
    assert forall i :: 0 <= i < |s| ==> s[i] in s;
    MeanWithin(s, Min(s), Max(s));
  }

  /** Every element lies in [lo, hi], so the mean does too. */
  lemma MeanWithin(s: seq<real>, lo: real, hi: real)
    requires |s| > 0
    requires forall i :: 0 <= i < |s| ==> lo <= s[i] <= hi
    ensures lo <= Mean(s) <= hi
  {
    SumBetween(s, lo, hi);
    QuotientBetween(Sum(s), |s| as real, lo, hi);
  }

  lemma QuotientBetween(a: real, n: real, lo: real, hi: real)
    requires n > 0.0 && n * lo <= a <= n * hi
    ensures lo <= a / n <= hi
  {
    assert a == (a / n) * n;
  }

  ghost predicate Ascending(s: seq<real>)
  {
    forall i, j :: 0 <= i < j < |s| ==> s[i] <= s[j]
  }

  /** Inserts `x` into an ascending sequence, keeping it ascending. */
  function Insert(x: real, s: seq<real>): (r: seq<real>)
    requires Ascending(s)
    ensures |r| == |s| + 1
    ensures r[0] == if s == [] || x <= s[0] then x else s[0]
    ensures Ascending(r)
    ensures multiset(r) == multiset(s) + multiset{x}
  {
    if s == [] || x <= s[0] then
      PrependAscending(x, s);
      [x] + s
    else
      var tail := Insert(x, s[1..]);
      assert multiset(s) == multiset{s[0]} + multiset(s[1..]) by {
        assert s == [s[0]] + s[1..];
      }
      PrependAscending(s[0], tail);
      [s[0]] + tail
  }

  /** An element no larger than the head of an ascending sequence can go in front of it. */
  lemma PrependAscending(a: real, t: seq<real>)
    requires Ascending(t) && (t == [] || a <= t[0])
    ensures Ascending([a] + t)
  {
    var u := [a] + t;
    forall i, j | 0 <= i < j < |u| ensures u[i] <= u[j] {
      assert u[j] == t[j - 1];
      if i > 0 {
        assert u[i] == t[i - 1];
      } else {
        assert t[0] <= t[j - 1];
      }
    }
  }

  /** Python's `sorted`: an ascending permutation of the input. */
  function SortAscending(s: seq<real>): (r: seq<real>)
    ensures Ascending(r)
    ensures multiset(r) == multiset(s)
    ensures |r| == |s|
  {
    if s == [] then []
    else
      assert s == [s[0]] + s[1..];
      Insert(s[0], SortAscending(s[1..]))
  }

  /** Sorting leaves an ascending sequence as it is; in particular sorting is idempotent. */
  lemma {:induction false} SortFixesAscending(s: seq<real>)
    requires Ascending(s)
    ensures SortAscending(s) == s
  {
    if s != [] {
      SortFixesAscending(s[1..]);
      assert s == [s[0]] + s[1..];
    }
  }

  /**
   * The middle of an already sorted sequence: its middle element for an odd
   * length, the mean of its two middle elements for an even length.
   */
  function Middle(t: seq<real>): real
    requires |t| > 0
  {
    var h := |t| / 2;
    if |t| % 2 == 1 then t[h] else (t[h - 1] + t[h]) / 2.0
  }

  /** `statistics.median`: the middle of the sorted data. */
  function Median(s: seq<real>): real
    requires |s| > 0
  {
    Middle(SortAscending(s))
  }

  /** The middle of a sequence whose elements lie in [lo, hi] lies in [lo, hi]. */
  lemma MiddleWithin(t: seq<real>, lo: real, hi: real)
    requires |t| > 0
    requires forall k :: 0 <= k < |t| ==> lo <= t[k] <= hi
    ensures lo <= Middle(t) <= hi
  {
    var h := |t| / 2;
    assert lo <= t[h] <= hi;
    if |t| % 2 == 0 {
      assert lo <= t[h - 1] <= hi;
    }
  }

  /** The median never leaves the range of the data. */
  lemma MedianBetween(s: seq<real>)
    requires |s| > 0
    ensures Min(s) <= Median(s) <= Max(s)
  {
    var t := SortAscending(s);
    forall k | 0 <= k < |t| ensures Min(s) <= t[k] <= Max(s) {
      assert t[k] in multiset(t);
      assert t[k] in s;
    }
    MiddleWithin(t, Min(s), Max(s));
  }

  /** For an odd length, the median is the middle element of the sorted data. */
  lemma MedianOdd(s: seq<real>)
    requires |s| % 2 == 1
    ensures |SortAscending(s)| == |s|
    ensures Median(s) == SortAscending(s)[|s| / 2]
  {
  }

  /** For an even length, the median is the mean of the two middle elements of the sorted data. */
  lemma MedianEven(s: seq<real>)
    requires |s| > 0 && |s| % 2 == 0
    ensures |SortAscending(s)| == |s|
    ensures Median(s) == (SortAscending(s)[|s| / 2 - 1] + SortAscending(s)[|s| / 2]) / 2.0
  {
    var t := SortAscending(s);
    assert |t| % 2 == 0;
  }

  /** The mean times the length is the sum of the data. */
  lemma MeanTimesLength(s: seq<real>)
    requires |s| > 0
    ensures Mean(s) * (|s| as real) == Sum(s)
  {
  }

  /**
   * `calcular_estatisticas`: all four statistics absent for an empty list;
   * otherwise the minimum and the maximum are elements bounding the data,
   * and the mean and the median lie between them.
   */
  function Summarize(s: seq<real>): (r: Summary)
    ensures s == [] <==> r == Summary(None, None, None, None)
    ensures s != [] ==> r.min.Some? && r.max.Some? && r.mean.Some? && r.median.Some?
    ensures s != [] ==> r.min.value in s && forall x :: x in s ==> r.min.value <= x
    ensures s != [] ==> r.max.value in s && forall x :: x in s ==> x <= r.max.value
    ensures s != [] ==> r.min.value <= r.mean.value <= r.max.value
    ensures s != [] ==> r.min.value <= r.median.value <= r.max.value
    ensures s != [] ==> r.mean == Some(Mean(s)) && r.median == Some(Median(s))
  {
    if s == [] then Summary(None, None, None, None)
    else
      MeanBetween(s);
      MedianBetween(s);
      Summary(Some(Min(s)), Some(Max(s)), Some(Mean(s)), Some(Median(s)))
  }

  /** Example: [1, 2, 3, 4] has minimum 1, maximum 4, mean 2.5 and median 2.5. */
  lemma SummarizeExample(s: seq<real>)
    requires s == [1.0, 2.0, 3.0, 4.0]
    ensures Summarize(s) == Summary(Some(1.0), Some(4.0), Some(2.5), Some(2.5))
  {
    assert Min(s) == 1.0 && Max(s) == 4.0 by {
      ExampleMinMax(s);
    }
    assert Mean(s) == 2.5 by {
      ExampleSum(s);
    }
    assert Median(s) == 2.5 by {
      ExampleMedian(s);
    }
    assert Summarize(s) == Summary(Some(Min(s)), Some(Max(s)), Some(Mean(s)), Some(Median(s)));
  }

  lemma ExampleMinMax(s: seq<real>)
    requires s == [1.0, 2.0, 3.0, 4.0]
    ensures Min(s) == 1.0 && Max(s) == 4.0
  {
    assert s[0] == 1.0 && s[3] == 4.0 && s[0] in s && s[3] in s;
    assert forall x :: x in s ==> 1.0 <= x <= 4.0;
  }

  lemma ExampleSum(s: seq<real>)
    requires s == [1.0, 2.0, 3.0, 4.0]
    ensures Sum(s) == 10.0
  {
    assert s[3..][1..] == [];
    assert Sum(s[3..]) == 4.0;
    assert s[2..][1..] == s[3..];
    assert Sum(s[2..]) == 7.0;
    assert s[1..][1..] == s[2..];
    assert Sum(s[1..]) == 9.0;
  }

  lemma ExampleMedian(s: seq<real>)
    requires s == [1.0, 2.0, 3.0, 4.0]
    ensures Median(s) == 2.5
  {
    assert Middle(s) == 2.5;
    assert forall k :: 0 <= k < |s| ==> s[k] == (k + 1) as real;
    ExampleSorted(s);
  }

  lemma ExampleSorted(s: seq<real>)
    requires forall k :: 0 <= k < |s| ==> s[k] == (k + 1) as real
    ensures SortAscending(s) == s
  {
    SortFixesAscending(s);
  }
}
