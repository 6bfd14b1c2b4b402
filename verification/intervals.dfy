/**
 Half-open numeric intervals and the two membership tests the metrics service
 applies to a sample: the scanning test used for per-interval counts and the
 inline "any interval holds it" test used for outliers.
 */
module Intervals {

  /** A configured bucket [low, high). Nothing forces low <= high: an inverted
      pair is accepted as it is and simply holds no value. */
  datatype Interval = Interval(low: real, high: real)

  /** v lies in the half-open range of i: the lower bound is included, the
      upper bound is not. */
  predicate InInterval(v: real, i: Interval) {
    i.low <= v < i.high
  }

  /** Some interval of ivs holds v (the inline test of the outlier filter). */
  predicate AnyContains(v: real, ivs: seq<Interval>) {
    exists k | 0 <= k < |ivs| :: InInterval(v, ivs[k])
  }

  /** The scan of the service's membership helper: walk the intervals in
      order and answer true at the first one that holds v, false once the
      list is exhausted. */
  function WithinAny(v: real, ivs: seq<Interval>): (b: bool)
    ensures b <==> AnyContains(v, ivs)
    ensures b ==> |ivs| > 0
  {
    if |ivs| == 0 then false
    else if InInterval(v, ivs[0]) then true
    else
      assert forall k | 1 <= k < |ivs| :: ivs[1..][k - 1] == ivs[k];
      WithinAny(v, ivs[1..])
  }

  /** The scan over a single interval is exactly membership in it. */
  lemma WithinSingleton(v: real, i: Interval)
    ensures WithinAny(v, [i]) <==> InInterval(v, i)
  {
  }

  /** Boundaries are half-open: a proper interval holds its lower bound and
      not its upper bound. */
  lemma HalfOpenBoundaries(i: Interval)
    requires i.low < i.high
    ensures WithinAny(i.low, [i])
    ensures !WithinAny(i.high, [i])
  {
  }

  /** An inverted or empty interval (low >= high) holds no value at all. */
  lemma InvertedHoldsNothing(v: real, i: Interval)
    requires i.high <= i.low
    ensures !WithinAny(v, [i])
  {
  }

  /** Scanning a concatenated list finds v iff one of the two parts holds it. */
  lemma {:induction false} WithinAnyConcat(v: real, a: seq<Interval>, b: seq<Interval>)
    ensures WithinAny(v, a + b) <==> WithinAny(v, a) || WithinAny(v, b)
  {
    if |a| == 0 {
      assert a + b == b;
    } else {
      assert (a + b)[1..] == a[1..] + b;
      WithinAnyConcat(v, a[1..], b);
    }
  }
}
