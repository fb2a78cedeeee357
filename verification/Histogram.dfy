/** Histograms: recorded samples, and the statistics read from them.  Samples are real numbers. */
module Histogram {
  import opened Arithmetic
  import opened Sequences
  import opened Events

  datatype HistogramData = HistogramData(values: seq<real>, count: nat, sum: real) {
    /** What every recording keeps. */
    predicate Consistent() { count == |values| > 0 && sum == Total(values) }
  }

  datatype Statistics = Statistics(p50: real, p90: real, p95: real, p99: real, max: real, avg: real)

  ghost predicate Sorted(xs: seq<real>) { forall i, j :: 0 <= i <= j < |xs| ==> xs[i] <= xs[j] }

  function Insert(xs: seq<real>, x: real): (r: seq<real>)
    ensures |r| == |xs| + 1
  {
    if |xs| == 0 || xs[|xs| - 1] <= x then xs + [x]
    else Insert(xs[..|xs| - 1], x) + [xs[|xs| - 1]]
  }

  function Sort(xs: seq<real>): (r: seq<real>)
    ensures |r| == |xs|
  {
    if |xs| == 0 then [] else Insert(Sort(xs[..|xs| - 1]), xs[|xs| - 1])
  }

  function Index(p: real, n: nat): (i: nat)
    requires 0.0 <= p < 1.0 && n > 0
    ensures i < n && i as real <= p * (n - 1) as real < i as real + 1.0
  {
    Scaled(p, (n - 1) as real);
    (p * (n - 1) as real).Floor
  }

  lemma {:induction false} Scaled(p: real, x: real)
    requires 0.0 <= p < 1.0 && x >= 0.0
    ensures 0.0 <= p * x <= x
  {
  }

  function Percentile(sorted: seq<real>, p: real): real
    requires 0.0 <= p < 1.0
  {
    if |sorted| == 0 then 0.0 else sorted[Index(p, |sorted|)]
  }

  function StatisticsOf(d: HistogramData): Option<Statistics> {
    if |d.values| == 0 then None
    else
      var sorted := Sort(d.values);
      Some(Statistics(Percentile(sorted, 0.5), Percentile(sorted, 0.9), Percentile(sorted, 0.95), Percentile(sorted, 0.99),
                      sorted[|sorted| - 1], if d.count == 0 then 0.0 else d.sum / d.count as real))
  }

  class MetricsRegistry {
    var histograms: map<string, HistogramData>

    ghost predicate Valid()
      reads this
    {
      forall name :: name in histograms ==> histograms[name].Consistent()
    }

    constructor ()
      ensures histograms == map[] && Valid()
    {
      histograms := map[];
    }

    method RecordHistogram(name: string, value: real)
      requires Valid()
      modifies this
      ensures Valid()
      ensures histograms.Keys == old(histograms.Keys) + {name}
      ensures histograms[name].values == (if name in old(histograms) then old(histograms)[name].values else []) + [value]
      ensures forall other :: other in old(histograms) && other != name ==> histograms[other] == old(histograms)[other]
    {
      if name in histograms {
        var d := histograms[name];
        assert (d.values + [value])[..|d.values|] == d.values;
        histograms := histograms[name := HistogramData(d.values + [value], d.count + 1, d.sum + value)];
      } else {
        assert [value][..0] == [] && Total([value]) == value;
        histograms := histograms[name := HistogramData([value], 1, value)];
      }
    }

    method GetHistogramStats(name: string) returns (stats: Option<Statistics>)
      requires Valid()
      ensures stats == if name in histograms then StatisticsOf(histograms[name]) else None
      ensures stats.Some? <==> name in histograms
    {
      if name !in histograms {
        return None;
      }
      stats := StatisticsOf(histograms[name]);
    }
  }

  // ---------------------------------------------------------------- sorting

  lemma {:induction false} InsertIsPermutation(xs: seq<real>, x: real)
    ensures multiset(Insert(xs, x)) == multiset(xs) + multiset{x}
  {
    if |xs| > 0 && xs[|xs| - 1] > x {
      InsertIsPermutation(xs[..|xs| - 1], x);
      assert xs == xs[..|xs| - 1] + [xs[|xs| - 1]];
    }
  }

  lemma {:induction false} InsertSorts(xs: seq<real>, x: real, high: real)
    requires Sorted(xs) && x <= high && forall i :: 0 <= i < |xs| ==> xs[i] <= high
    ensures Sorted(Insert(xs, x)) && forall i :: 0 <= i < |Insert(xs, x)| ==> Insert(xs, x)[i] <= high
  {
    if |xs| > 0 && xs[|xs| - 1] > x {
      InsertSorts(xs[..|xs| - 1], x, xs[|xs| - 1]);
    }
  }

  lemma {:induction false} InsertKeepsSorted(xs: seq<real>, x: real)
    requires Sorted(xs)
    ensures Sorted(Insert(xs, x))
  {
    InsertSorts(xs, x, if |xs| > 0 && xs[|xs| - 1] > x then xs[|xs| - 1] else x);
  }

  lemma {:induction false} SortSorts(xs: seq<real>)
    ensures Sorted(Sort(xs)) && multiset(Sort(xs)) == multiset(xs)
  {
    if |xs| > 0 {
      SortSorts(xs[..|xs| - 1]);
      InsertIsPermutation(Sort(xs[..|xs| - 1]), xs[|xs| - 1]);
      InsertKeepsSorted(Sort(xs[..|xs| - 1]), xs[|xs| - 1]);
      assert xs == xs[..|xs| - 1] + [xs[|xs| - 1]];
    }
  }

  // ---------------------------------------------------------------- what a percentile means

  function AtMost(xs: seq<real>, x: real): nat {
    if |xs| == 0 then 0 else AtMost(xs[..|xs| - 1], x) + if xs[|xs| - 1] <= x then 1 else 0
  }

  function AtLeast(xs: seq<real>, x: real): nat {
    if |xs| == 0 then 0 else AtLeast(xs[..|xs| - 1], x) + if xs[|xs| - 1] >= x then 1 else 0
  }

  /** Sorting changes neither count. */
  lemma {:induction false} CountsOfInsert(xs: seq<real>, y: real, x: real)
    ensures AtMost(Insert(xs, y), x) == AtMost(xs, x) + (if y <= x then 1 else 0)
    ensures AtLeast(Insert(xs, y), x) == AtLeast(xs, x) + (if y >= x then 1 else 0)
  {
    if |xs| == 0 || xs[|xs| - 1] <= y {
      assert (xs + [y])[..|xs|] == xs;
    } else {
      var front := xs[..|xs| - 1];
      CountsOfInsert(front, y, x);
      var r := Insert(front, y);
      assert (r + [xs[|xs| - 1]])[..|r|] == r;
    }
  }

  lemma {:induction false} CountsOfSort(xs: seq<real>, x: real)
    ensures AtMost(Sort(xs), x) == AtMost(xs, x) && AtLeast(Sort(xs), x) == AtLeast(xs, x)
  {
    if |xs| > 0 {
      CountsOfSort(xs[..|xs| - 1], x);
      CountsOfInsert(Sort(xs[..|xs| - 1]), xs[|xs| - 1], x);
    }
  }

  /** In a sorted sequence, at least `i + 1` elements are at most the `i`-th, and at least `n - i` are at least it. */
  lemma {:induction false} CountsOfSorted(xs: seq<real>, i: nat, x: real)
    requires Sorted(xs) && i < |xs| && x == xs[i]
    ensures AtMost(xs, x) >= i + 1 && AtLeast(xs, x) >= |xs| - i
  {
    var front := xs[..|xs| - 1];
    if i < |xs| - 1 {
      CountsOfSorted(front, i, x);
    } else {
      AllAtMost(front, x);
    }
  }

  lemma {:induction false} AllAtMost(xs: seq<real>, x: real)
    requires forall i :: 0 <= i < |xs| ==> xs[i] <= x
    ensures AtMost(xs, x) == |xs|
  {
    if |xs| > 0 {
      AllAtMost(xs[..|xs| - 1], x);
    }
  }

  /** At least `floor(p(n-1)) + 1` of the recorded samples are at most the percentile, and `n - floor(p(n-1))` at least it. */
  lemma {:induction false} PercentileRank(values: seq<real>, p: real)
    requires |values| > 0 && 0.0 <= p < 1.0
    ensures var x := Percentile(Sort(values), p);
            && x in values
            && AtMost(values, x) >= Index(p, |values|) + 1
            && AtLeast(values, x) >= |values| - Index(p, |values|)
  {
    var sorted := Sort(values);
    var x := Percentile(sorted, p);
    SortSorts(values);
    CountsOfSorted(sorted, Index(p, |values|), x);
    CountsOfSort(values, x);
    assert x in multiset(sorted);
  }

  /** `x` is a sample at the rank of the `p`-th percentile. */
  predicate HasRank(values: seq<real>, x: real, p: real)
    requires |values| > 0
  {
    && x in values
    && AtMost(values, x) >= (p * (|values| - 1) as real).Floor + 1
    && AtLeast(values, x) >= |values| - (p * (|values| - 1) as real).Floor
  }

  /** Every field holds what its name says. */
  lemma {:induction false} StatisticsRanks(d: HistogramData)
    requires d.Consistent()
    ensures StatisticsOf(d).Some?
    ensures var s := StatisticsOf(d).value;
            && HasRank(d.values, s.p50, 0.5) && HasRank(d.values, s.p90, 0.9)
            && HasRank(d.values, s.p95, 0.95) && HasRank(d.values, s.p99, 0.99)
  {
    PercentileRank(d.values, 0.5);
    PercentileRank(d.values, 0.9);
    PercentileRank(d.values, 0.95);
    PercentileRank(d.values, 0.99);
  }

  lemma {:induction false} AverageTimesCount(d: HistogramData)
    requires d.Consistent()
    ensures StatisticsOf(d).Some? && StatisticsOf(d).value.avg * |d.values| as real == Total(d.values)
  {
    var n := |d.values| as real;
    assert (d.sum / n) * n == d.sum;
  }

  lemma {:induction false} FloorOrdered(a: real, b: real)
    requires a <= b
    ensures a.Floor <= b.Floor
  {
  }

  lemma {:induction false} IndexOrdered(p: real, q: real, n: nat)
    requires 0.0 <= p <= q < 1.0 && n > 0
    ensures Index(p, n) <= Index(q, n)
  {
    ScaleOrdered(p, q, (n - 1) as real);
    FloorOrdered(p * (n - 1) as real, q * (n - 1) as real);
  }

  lemma {:induction false} TotalBetween(xs: seq<real>, low: real, high: real)
    requires forall i :: 0 <= i < |xs| ==> low <= xs[i] <= high
    ensures low * |xs| as real <= Total(xs) <= high * |xs| as real
  {
    if |xs| > 0 {
      TotalBetween(xs[..|xs| - 1], low, high);
      var n := |xs| as real;
      assert low * n == low * (n - 1.0) + low && high * n == high * (n - 1.0) + high;
    }
  }

  lemma {:induction false} Quotient(low: real, total: real, high: real, n: real)
    requires n > 0.0 && low * n <= total <= high * n
    ensures low <= total / n <= high
  {
    var q := total / n;
    assert q * n == total;
    Cancel(low, q, n);
    Cancel(q, high, n);
  }

  lemma {:induction false} Cancel(a: real, b: real, n: real)
    requires n > 0.0 && a * n <= b * n
    ensures a <= b
  {
    assert (b - a) * n >= 0.0;
  }

  lemma {:induction false} PercentilesOrdered(sorted: seq<real>)
    requires |sorted| > 0 && Sorted(sorted)
    ensures Percentile(sorted, 0.5) <= Percentile(sorted, 0.9) <= Percentile(sorted, 0.95) <= Percentile(sorted, 0.99)
    ensures Percentile(sorted, 0.99) <= sorted[|sorted| - 1]
  {
    var n := |sorted|;
    IndexOrdered(0.5, 0.9, n);
    IndexOrdered(0.9, 0.95, n);
    IndexOrdered(0.95, 0.99, n);
  }

  lemma {:induction false} AverageBetween(d: HistogramData, low: real, high: real)
    requires d.Consistent() && forall i :: 0 <= i < |d.values| ==> low <= d.values[i] <= high
    ensures low <= d.sum / d.count as real <= high
  {
    TotalBetween(d.values, low, high);
    Quotient(low, d.sum, high, |d.values| as real);
  }

  /** The statistics of any recorded histogram are ordered, its maximum is its largest sample, and its average lies between. */
  lemma {:induction false} StatisticsOrdered(d: HistogramData)
    requires d.Consistent()
    ensures StatisticsOf(d).Some?
    ensures var s := StatisticsOf(d).value;
            && s.p50 <= s.p90 <= s.p95 <= s.p99 <= s.max
            && s.max in d.values && (forall i :: 0 <= i < |d.values| ==> d.values[i] <= s.max)
            && s.avg <= s.max && (exists i :: 0 <= i < |d.values| && d.values[i] <= s.avg)
  {
    var sorted := Sort(d.values);
    SortSorts(d.values);
    Extremes(d.values);
    PercentilesOrdered(sorted);
    AverageBetween(d, sorted[0], sorted[|sorted| - 1]);
  }

  lemma {:induction false} Extremes(values: seq<real>)
    requires |values| > 0
    ensures var sorted := Sort(values);
            && sorted[0] in values && sorted[|sorted| - 1] in values
            && forall i :: 0 <= i < |values| ==> sorted[0] <= values[i] <= sorted[|sorted| - 1]
  {
    var sorted := Sort(values);
    SortSorts(values);
    assert sorted[0] in multiset(sorted) && sorted[|sorted| - 1] in multiset(sorted);
    forall i | 0 <= i < |values| ensures sorted[0] <= values[i] <= sorted[|sorted| - 1] {
      assert values[i] in multiset(values);
      assert values[i] in sorted;
    }
  }
}
