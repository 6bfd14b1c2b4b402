/**
 The aggregation a metrics query performs over a snapshot of the samples and
 the configured intervals: one count per interval, the outliers, the mean and
 the population variance.
 */
module Metrics {
  import opened Intervals
  import opened Statistics

  /** How many samples the membership scan places in the single interval i.
      Every interval is counted on its own. */
  function Count(samples: seq<real>, i: Interval): (n: nat)
    ensures n <= |samples|
  {
    if |samples| == 0 then 0
    else Count(samples[..|samples| - 1], i) + (if WithinAny(samples[|samples| - 1], [i]) then 1 else 0)
  }

  /** The positions of the samples that lie in i. */
  ghost function Positions(samples: seq<real>, i: Interval): set<int> {
    set k | 0 <= k < |samples| && InInterval(samples[k], i)
  }

  /** The count of i is the number of positions whose sample lies in i. */
  lemma {:induction false} CountIsPositions(samples: seq<real>, i: Interval)
    ensures Count(samples, i) == |Positions(samples, i)|
  {
    if |samples| > 0 {
      var p := samples[..|samples| - 1];
      var x := samples[|samples| - 1];
      CountIsPositions(p, i);
      WithinSingleton(x, i);
      if InInterval(x, i) {
        assert Positions(samples, i) == Positions(p, i) + {|p|};
      } else {
        assert Positions(samples, i) == Positions(p, i);
      }
    } else {
      assert Positions(samples, i) == {};
    }
  }

  /** Counting over a concatenation adds the two counts. */
  lemma {:induction false} CountAppend(a: seq<real>, b: seq<real>, i: Interval)
    ensures Count(a + b, i) == Count(a, i) + Count(b, i)
  {
    if |b| > 0 {
      assert (a + b)[..|a + b| - 1] == a + b[..|b| - 1];
      CountAppend(a, b[..|b| - 1], i);
    } else {
      assert a + b == a;
    }
  }

  /** An inverted or empty interval counts nothing, whatever the samples. */
  lemma {:induction false} InvertedCountsNothing(samples: seq<real>, i: Interval)
    requires i.high <= i.low
    ensures Count(samples, i) == 0
  {
    if |samples| > 0 {
      InvertedCountsNothing(samples[..|samples| - 1], i);
      InvertedHoldsNothing(samples[|samples| - 1], i);
    }
  }

  /** One count per configured interval, in configuration order. */
  function Counts(samples: seq<real>, ivs: seq<Interval>): (cs: seq<nat>)
    ensures |cs| == |ivs|
    ensures forall k | 0 <= k < |ivs| :: cs[k] <= |samples|
  {
    seq(|ivs|, k requires 0 <= k < |ivs| => Count(samples, ivs[k]))
  }

  /** Entry k of the counts counts exactly the samples lying in ivs[k],
      independently of every other interval. */
  lemma CountsArePerInterval(samples: seq<real>, ivs: seq<Interval>, k: int)
    requires 0 <= k < |ivs|
    ensures Counts(samples, ivs)[k] == |Positions(samples, ivs[k])|
    ensures Counts(samples, ivs)[k] == Counts(samples, [ivs[k]])[0]
  {
    CountIsPositions(samples, ivs[k]);
  }

  /** The samples the inline test finds in no interval, in their original
      order and with their repetitions. */
  function Outliers(samples: seq<real>, ivs: seq<Interval>): (r: seq<real>)
    ensures |r| <= |samples|
    ensures forall k | 0 <= k < |r| :: !AnyContains(r[k], ivs)
  {
    if |samples| == 0 then []
    else
      var x := samples[|samples| - 1];
      Outliers(samples[..|samples| - 1], ivs) + (if AnyContains(x, ivs) then [] else [x])
  }

  /** The samples the membership scan finds in some interval, in order. */
  function Inside(samples: seq<real>, ivs: seq<Interval>): (r: seq<real>)
    ensures |r| <= |samples|
    ensures forall k | 0 <= k < |r| :: WithinAny(r[k], ivs)
  {
    if |samples| == 0 then []
    else
      var x := samples[|samples| - 1];
      Inside(samples[..|samples| - 1], ivs) + (if WithinAny(x, ivs) then [x] else [])
  }

  /** The positions of s flagged in mask, kept in order. */
  function Keep(s: seq<real>, mask: seq<bool>): (r: seq<real>)
    requires |mask| == |s|
    ensures |r| <= |s|
  {
    if |s| == 0 then []
    else Keep(s[..|s| - 1], mask[..|mask| - 1]) + (if mask[|mask| - 1] then [s[|s| - 1]] else [])
  }

  /** a is obtained from b by deleting elements and keeping the rest in order. */
  ghost predicate IsSubsequence(a: seq<real>, b: seq<real>) {
    exists mask: seq<bool> | |mask| == |b| :: Keep(b, mask) == a
  }

  /** Flags the samples that lie in no interval. */
  function OutlierMask(samples: seq<real>, ivs: seq<Interval>): (mask: seq<bool>)
    ensures |mask| == |samples|
    ensures forall k | 0 <= k < |samples| :: mask[k] == !AnyContains(samples[k], ivs)
  {
    seq(|samples|, k requires 0 <= k < |samples| => !AnyContains(samples[k], ivs))
  }

  /** The outliers are exactly the samples at the positions that lie in no
      interval, so they form a subsequence of the samples. */
  lemma {:induction false} OutliersAreSubsequence(samples: seq<real>, ivs: seq<Interval>)
    ensures Outliers(samples, ivs) == Keep(samples, OutlierMask(samples, ivs))
    ensures IsSubsequence(Outliers(samples, ivs), samples)
  {
    if |samples| > 0 {
      var p := samples[..|samples| - 1];
      OutliersAreSubsequence(p, ivs);
      assert OutlierMask(samples, ivs)[..|samples| - 1] == OutlierMask(p, ivs);
    }
  }

  /** Each value occurs among the outliers exactly as often as among the
      samples when no interval holds it, and not at all otherwise. */
  lemma {:induction false} OutlierMultiplicity(samples: seq<real>, ivs: seq<Interval>, v: real)
    ensures multiset(Outliers(samples, ivs))[v]
         == if AnyContains(v, ivs) then 0 else multiset(samples)[v]
  {
    if |samples| > 0 {
      var p := samples[..|samples| - 1];
      var x := samples[|samples| - 1];
      OutlierMultiplicity(p, ivs, v);
      assert samples == p + [x];
      assert multiset(samples) == multiset(p) + multiset{x};
    }
  }

  /** With no intervals configured every sample is an outlier. */
  lemma {:induction false} NoIntervalsAllOutliers(samples: seq<real>)
    ensures Outliers(samples, []) == samples
  {
    if |samples| > 0 {
      NoIntervalsAllOutliers(samples[..|samples| - 1]);
      assert samples == samples[..|samples| - 1] + [samples[|samples| - 1]];
    }
  }

  /** The outliers of a concatenation are the outliers of each part, in turn. */
  lemma {:induction false} OutliersAppend(a: seq<real>, b: seq<real>, ivs: seq<Interval>)
    ensures Outliers(a + b, ivs) == Outliers(a, ivs) + Outliers(b, ivs)
  {
    if |b| > 0 {
      assert (a + b)[..|a + b| - 1] == a + b[..|b| - 1];
      OutliersAppend(a, b[..|b| - 1], ivs);
    } else {
      assert a + b == a;
    }
  }

  /** Configuring the intervals a followed by b leaves as outliers exactly the
      outliers of a that b does not hold either. */
  lemma {:induction false} OutliersOfMoreIntervals(samples: seq<real>, a: seq<Interval>, b: seq<Interval>)
    ensures Outliers(samples, a + b) == Outliers(Outliers(samples, a), b)
  {
    if |samples| > 0 {
      var p := samples[..|samples| - 1];
      var x := samples[|samples| - 1];
      OutliersOfMoreIntervals(p, a, b);
      WithinAnyConcat(x, a, b);
      assert AnyContains(x, a + b) <==> AnyContains(x, a) || AnyContains(x, b);
      if !AnyContains(x, a) {
        var o := Outliers(p, a) + [x];
        assert Outliers(samples, a) == o;
        assert o[..|o| - 1] == Outliers(p, a);
      } else {
        assert Outliers(samples, a) == Outliers(p, a);
      }
    }
  }

  /** Every sample is either inside some interval or an outlier, never both:
      the two filters split the samples, counted with repetitions. */
  lemma {:induction false} InsideOutliersPartition(samples: seq<real>, ivs: seq<Interval>)
    ensures |Inside(samples, ivs)| + |Outliers(samples, ivs)| == |samples|
    ensures multiset(Inside(samples, ivs)) + multiset(Outliers(samples, ivs)) == multiset(samples)
    ensures forall v :: v in Inside(samples, ivs) ==> v !in Outliers(samples, ivs)
  {
    if |samples| > 0 {
      var p := samples[..|samples| - 1];
      var x := samples[|samples| - 1];
      InsideOutliersPartition(p, ivs);
      assert samples == p + [x];
      assert multiset(samples) == multiset(p) + multiset{x};
    }
  }

  /** What a metrics query reports: the per-interval counts aligned with the
      configured intervals, the mean, the population variance and the
      outliers. */
  datatype Report = Report(counts: seq<nat>, mean: real, variance: real, outliers: seq<real>)

  /** The report for a snapshot of the samples under the configured intervals. */
  function Aggregate(samples: seq<real>, ivs: seq<Interval>): (r: Report)
    ensures |r.counts| == |ivs|
    ensures forall k | 0 <= k < |ivs| :: r.counts[k] <= |samples|
    ensures |samples| > 0 ==> r.mean * (|samples| as real) == Sum(samples)
    ensures r.variance >= 0.0
    ensures |r.outliers| <= |samples|
    ensures forall k | 0 <= k < |r.outliers| :: !WithinAny(r.outliers[k], ivs)
  {
    Report(Counts(samples, ivs), Mean(samples), Variance(samples), Outliers(samples, ivs))
  }

  /** With no samples every count is 0, the mean and variance are 0 and there
      are no outliers. */
  lemma EmptyReport(ivs: seq<Interval>)
    ensures Aggregate([], ivs) == Report(seq(|ivs|, k => 0), 0.0, 0.0, [])
  {
  }

  /** A value lying in two overlapping intervals is counted by both and is
      not an outlier. */
  lemma OverlapCountedByBoth(samples: seq<real>, ivs: seq<Interval>, j: int, k: int, x: real)
    requires 0 <= j < |ivs| && 0 <= k < |ivs|
    requires InInterval(x, ivs[j]) && InInterval(x, ivs[k])
    ensures Aggregate(samples + [x], ivs).counts[j] == Aggregate(samples, ivs).counts[j] + 1
    ensures Aggregate(samples + [x], ivs).counts[k] == Aggregate(samples, ivs).counts[k] + 1
    ensures Aggregate(samples + [x], ivs).outliers == Aggregate(samples, ivs).outliers
  {
  }
}
