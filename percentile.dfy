/**
 * `_calculate_percentile`: the q-th percentile of the sentences' distances,
 * as `numpy.percentile` computes it with its default 'linear' method: sort
 * the values, take the virtual index q/100 * (n - 1) and interpolate between
 * the two values around it.
 */
module Percentile {
  import opened Types

  predicate SortedReals(xs: seq<real>)
  {
    forall j, k :: 0 <= j < k < |xs| ==> xs[j] <= xs[k]
  }

  /** `x` put into place in front of the first value of `xs` that is not below it. */
  function InsertSorted(x: real, xs: seq<real>): (r: seq<real>)
    ensures |r| == |xs| + 1
    decreases |xs|
  {
    if |xs| == 0 then [x]
    else if x <= xs[0] then [x] + xs
    else [xs[0]] + InsertSorted(x, xs[1..])
  }

  /** Inserting into a sorted list keeps it sorted. */
  lemma {:induction false} InsertSortedSorts(x: real, xs: seq<real>)
    requires SortedReals(xs)
    ensures SortedReals(InsertSorted(x, xs))
    decreases |xs|
  {
    if |xs| > 0 && xs[0] < x {
      InsertSortedSorts(x, xs[1..]);
      var rest := InsertSorted(x, xs[1..]);
      var r := [xs[0]] + rest;
      assert InsertSorted(x, xs) == r;
      assert xs[0] <= rest[0] by {
        if |xs| > 1 && xs[1] < x {
          assert rest[0] == xs[1];
        }
      }
      assert forall k :: 0 < k < |r| ==> r[k] == rest[k - 1] && rest[0] <= rest[k - 1];
    }
  }

  /** Inserting adds exactly `x` to the values. */
  lemma {:induction false} InsertAddsOne(x: real, xs: seq<real>)
    ensures multiset(InsertSorted(x, xs)) == multiset(xs) + multiset{x}
    decreases |xs|
  {
    if |xs| > 0 && xs[0] < x {
      InsertAddsOne(x, xs[1..]);
      var rest := InsertSorted(x, xs[1..]);
      assert InsertSorted(x, xs) == [xs[0]] + rest;
      assert xs == [xs[0]] + xs[1..];
      assert multiset(InsertSorted(x, xs)) == multiset{xs[0]} + multiset(rest);
      assert multiset(xs) == multiset{xs[0]} + multiset(xs[1..]);
    }
  }

  /** The values in ascending order (an insertion sort). */
  function SortReals(xs: seq<real>): (r: seq<real>)
    ensures |r| == |xs|
    decreases |xs|
  {
    if |xs| == 0 then []
    else InsertSorted(xs[0], SortReals(xs[1..]))
  }

  /** The insertion sort gives the values in ascending order, as a permutation of its input. */
  lemma SortRealsSorts(xs: seq<real>)
    ensures SortedReals(SortReals(xs)) && multiset(SortReals(xs)) == multiset(xs)
  {
    SortRealsSorted(xs);
    SortRealsPermutes(xs);
  }

  lemma {:induction false} SortRealsSorted(xs: seq<real>)
    ensures SortedReals(SortReals(xs))
    decreases |xs|
  {
    if |xs| > 0 {
      SortRealsSorted(xs[1..]);
      InsertSortedSorts(xs[0], SortReals(xs[1..]));
    }
  }

  lemma {:induction false} SortRealsPermutes(xs: seq<real>)
    ensures multiset(SortReals(xs)) == multiset(xs)
    decreases |xs|
  {
    if |xs| > 0 {
      var rest := SortReals(xs[1..]);
      SortRealsPermutes(xs[1..]);
      InsertAddsOne(xs[0], rest);
      assert xs == [xs[0]] + xs[1..];
      assert multiset(xs) == multiset(xs[1..]) + multiset{xs[0]};
    }
  }

  /** A fraction `g` in 0..1 of a non-negative gap `a` stays within the gap. */
  lemma ScaleWithin(a: real, g: real)
    requires 0.0 <= a && 0.0 <= g <= 1.0
    ensures 0.0 <= a * g <= a
  {
    assert a - a * g == a * (1.0 - g);
  }

  /** Adding a fraction `g` of a non-negative step `d` to `x` stays within the step. */
  lemma Shift(x: real, d: real, g: real)
    requires 0.0 <= d && 0.0 <= g <= 1.0
    ensures x <= x + d * g <= x + d
  {
    ScaleWithin(d, g);
  }

  /** The point a fraction `g` of the way from `x` to `y`. */
  function Lerp(x: real, y: real, g: real): real
  {
    x + (y - x) * g
  }

  /** Moving a fraction `g` of the way from `x` to `y` stays between them. */
  lemma Between(x: real, y: real, g: real)
    requires x <= y && 0.0 <= g <= 1.0
    ensures x <= Lerp(x, y, g) <= y
  {
    Shift(x, y - x, g);
  }

  /** Bounds of the product that gives the virtual index. */
  lemma RankWithin(percentage: int, n: int)
    requires 0 <= percentage <= 100 && 0 <= n
    ensures 0 <= percentage * n <= 100 * n
    ensures 0 <= percentage * n / 100 <= n
  {
    var m := percentage * n;
    assert 100 * n - m == (100 - percentage) * n;
    assert m == 100 * (m / 100) + m % 100 && 0 <= m % 100 < 100;
  }

  /**
   * The 'linear' interpolation of `numpy.percentile` on sorted values: the
   * virtual index percentage / 100 * (n - 1) is split into its whole part
   * `lo` and its fraction `g`, and the result is ys[lo] + (ys[lo + 1] - ys[lo]) * g.
   */
  function Interpolate(ys: seq<real>, percentage: int): (r: real)
    requires |ys| > 0 && SortedReals(ys) && 0 <= percentage <= 100
    ensures ys[0] <= r <= ys[|ys| - 1]
  {
    var m := percentage * (|ys| - 1);
    RankWithin(percentage, |ys| - 1);
    var lo := m / 100;
    var hi := if lo + 1 < |ys| then lo + 1 else lo;
    var g := (m % 100) as real / 100.0;
    assert 0 <= lo <= |ys| - 1;
    assert ys[0] <= ys[lo] && ys[lo] <= ys[hi] && ys[hi] <= ys[|ys| - 1];
    Between(ys[lo], ys[hi], g);
    Lerp(ys[lo], ys[hi], g)
  }

  /** The `cosine_distance` of every sentence, in order. */
  function Distances(s: seq<CombinedSentence>): (r: seq<Option<real>>)
    ensures |r| == |s| && forall j :: 0 <= j < |s| ==> r[j] == s[j].cosineDistance
  {
    seq(|s|, j requires 0 <= j < |s| => s[j].cosineDistance)
  }

  predicate AllMeasured(ds: seq<Option<real>>)
  {
    forall j :: 0 <= j < |ds| ==> ds[j].Some?
  }

  function Values(ds: seq<Option<real>>): (r: seq<real>)
    requires AllMeasured(ds)
    ensures |r| == |ds| && forall j :: 0 <= j < |ds| ==> ds[j] == Some(r[j])
  {
    seq(|ds|, j requires 0 <= j < |ds| => ds[j].value)
  }

  /**
   * `numpy.percentile(ds, percentage)`: a percentage outside 0..100 is a
   * ValueError, and a None among the values makes the comparisons of the
   * sort fail with a TypeError.
   */
  function PercentileOf(ds: seq<Option<real>>, percentage: int): (r: Result<real>)
    requires |ds| > 0
    ensures r.Ok? <==> 0 <= percentage <= 100 && AllMeasured(ds)
    ensures r.Err? ==> r.error == (if 0 <= percentage <= 100 then TypeError else ValueError)
    ensures r.Ok? ==>
              (exists j :: 0 <= j < |ds| && ds[j].value <= r.value)
              && (exists j :: 0 <= j < |ds| && r.value <= ds[j].value)
  {
    if !(0 <= percentage <= 100) then Err(ValueError)
    else if !AllMeasured(ds) then Err(TypeError)
    else
      var xs := Values(ds);
      var ys := SortReals(xs);
      SortRealsSorts(xs);
      assert ys[0] in multiset(xs) && ys[|ys| - 1] in multiset(xs);
      Ok(Interpolate(ys, percentage))
  }

  /**
   * `_calculate_percentile`: None for an empty list; otherwise the percentile
   * of the distances, which lies between the smallest and the largest of
   * them and depends on nothing else of the sentences.
   */
  function CalculatePercentile(s: seq<CombinedSentence>, percentage: int): (r: Result<Option<real>>)
    ensures r == Ok(None) <==> |s| == 0
    ensures r.Ok? && r.value.Some? ==>
              (exists j :: 0 <= j < |s| && s[j].cosineDistance.Some? && s[j].cosineDistance.value <= r.value.value)
              && (exists j :: 0 <= j < |s| && s[j].cosineDistance.Some? && r.value.value <= s[j].cosineDistance.value)
    ensures |s| > 0 ==> (r.Ok? <==> 0 <= percentage <= 100 && AllMeasured(Distances(s)))
    ensures r.Err? ==> r.error == (if 0 <= percentage <= 100 then TypeError else ValueError)
  {
    if |s| == 0 then Ok(None)
    else
      match PercentileOf(Distances(s), percentage)
      case Ok(v) => Ok(Some(v))
      case Err(e) => Err(e)
  }

  /** Every value of `xs` lies between the ends of its sorted copy. */
  lemma SortedEnds(xs: seq<real>, j: int)
    requires 0 <= j < |xs|
    ensures SortReals(xs)[0] <= xs[j] <= SortReals(xs)[|xs| - 1]
  {
    SortedLow(xs, j);
    SortedHigh(xs, j);
  }

  lemma {:induction false} SortedLow(xs: seq<real>, j: int)
    requires 0 <= j < |xs|
    ensures SortReals(xs)[0] <= xs[j]
    decreases |xs|
  {
    SortStepEnds(xs);
    if j > 0 {
      SortedLow(xs[1..], j - 1);
      assert xs[1..][j - 1] == xs[j];
    }
  }

  lemma {:induction false} SortedHigh(xs: seq<real>, j: int)
    requires 0 <= j < |xs|
    ensures xs[j] <= SortReals(xs)[|xs| - 1]
    decreases |xs|
  {
    SortStepEnds(xs);
    if j > 0 {
      SortedHigh(xs[1..], j - 1);
      assert xs[1..][j - 1] == xs[j];
    }
  }

  /** One step of the sort: the first value and the ends of the rest's sorted copy lie within the new ends. */
  lemma SortStepEnds(xs: seq<real>)
    requires |xs| > 0
    ensures var r, n := SortReals(xs), |xs|;
            r[0] <= xs[0] <= r[n - 1]
            && (n > 1 ==> r[0] <= SortReals(xs[1..])[0] && SortReals(xs[1..])[n - 2] <= r[n - 1])
  {
    var rest := SortReals(xs[1..]);
    SortRealsSorts(xs[1..]);
    InsertEnds(xs[0], rest);
  }

  /** The inserted value and the old ends lie between the new ends. */
  lemma {:induction false} InsertEnds(x: real, xs: seq<real>)
    requires SortedReals(xs)
    ensures var r := InsertSorted(x, xs);
            r[0] <= x <= r[|r| - 1]
            && (|xs| > 0 ==> r[0] <= xs[0] && xs[|xs| - 1] <= r[|r| - 1])
    decreases |xs|
  {
    if |xs| > 0 && xs[0] < x {
      InsertEnds(x, xs[1..]);
      var rest := InsertSorted(x, xs[1..]);
      assert InsertSorted(x, xs) == [xs[0]] + rest;
      if |xs| == 1 {
        assert rest == [x];
      } else {
        assert xs[1..][|xs| - 2] == xs[|xs| - 1];
      }
    }
  }

  /** The interpolation at 0 and at 100 lands exactly on the ends. */
  lemma InterpolateEnds(ys: seq<real>)
    requires |ys| > 0 && SortedReals(ys)
    ensures Interpolate(ys, 0) == ys[0] && Interpolate(ys, 100) == ys[|ys| - 1]
  {
    var m := 100 * (|ys| - 1);
    assert m / 100 == |ys| - 1 && m % 100 == 0;
  }

  /** The 0th percentile is the smallest distance. */
  lemma {:induction false} PercentileZeroIsMin(ds: seq<Option<real>>)
    requires |ds| > 0 && AllMeasured(ds)
    ensures PercentileOf(ds, 0).Ok?
    ensures forall j :: 0 <= j < |ds| ==> PercentileOf(ds, 0).value <= ds[j].value
  {
    var xs := Values(ds);
    var ys := SortReals(xs);
    SortRealsSorts(xs);
    InterpolateEnds(ys);
    assert PercentileOf(ds, 0) == Ok(ys[0]);
    forall j | 0 <= j < |ds|
      ensures ys[0] <= ds[j].value
    {
      SortedEnds(xs, j);
    }
  }

  /** The 100th percentile is the largest distance. */
  lemma {:induction false} PercentileHundredIsMax(ds: seq<Option<real>>)
    requires |ds| > 0 && AllMeasured(ds)
    ensures PercentileOf(ds, 100).Ok?
    ensures forall j :: 0 <= j < |ds| ==> ds[j].value <= PercentileOf(ds, 100).value
  {
    var xs := Values(ds);
    var ys := SortReals(xs);
    SortRealsSorts(xs);
    InterpolateEnds(ys);
    assert PercentileOf(ds, 100) == Ok(ys[|ys| - 1]);
    forall j | 0 <= j < |ds|
      ensures ds[j].value <= ys[|ys| - 1]
    {
      SortedEnds(xs, j);
    }
  }
}
