/**
 Sum, mean and population variance of a sequence of samples, over exact reals.
 Every fold peels the LAST sample, so a sequence extended at its end is the
 shape the recursion follows; over the reals the order of summation does not
 change the result.
 */
module Statistics {

  /** The square of any real is non-negative. */
  lemma SquareNonNegative(d: real)
    ensures d * d >= 0.0
  {
  }

  /** The total of all samples; 0 for no samples. */
  function Sum(s: seq<real>): real {
    if |s| == 0 then 0.0 else Sum(s[..|s| - 1]) + s[|s| - 1]
  }

  /** The total of the squared deviations of the samples from m. */
  function SquaredDeviations(s: seq<real>, m: real): real {
    if |s| == 0 then 0.0
    else SquaredDeviations(s[..|s| - 1], m) + (s[|s| - 1] - m) * (s[|s| - 1] - m)
  }

  /** A total of squares is never negative. */
  lemma {:induction false} SquaredDeviationsNonNegative(s: seq<real>, m: real)
    ensures SquaredDeviations(s, m) >= 0.0
  {
    if |s| > 0 {
      SquaredDeviationsNonNegative(s[..|s| - 1], m);
      SquareNonNegative(s[|s| - 1] - m);
    }
  }

  /** The arithmetic mean, defined as 0 when there are no samples. */
  function Mean(s: seq<real>): (m: real)
    ensures |s| == 0 ==> m == 0.0
    ensures |s| > 0 ==> m * (|s| as real) == Sum(s)
  {
    if |s| == 0 then 0.0 else Sum(s) / (|s| as real)
  }

  /** The population variance (divisor N, not N - 1), defined as 0 when there
      are no samples. */
  function Variance(s: seq<real>): (v: real)
    ensures v >= 0.0
    ensures |s| == 0 ==> v == 0.0
    ensures |s| > 0 ==> v * (|s| as real) == SquaredDeviations(s, Mean(s))
  {
    if |s| == 0 then 0.0
    else
      SquaredDeviationsNonNegative(s, Mean(s));
      SquaredDeviations(s, Mean(s)) / (|s| as real)
  }

  /** The total of a concatenation is the sum of the totals. */
  lemma {:induction false} SumAppend(a: seq<real>, b: seq<real>)
    ensures Sum(a + b) == Sum(a) + Sum(b)
  {
    if |b| > 0 {
      assert (a + b)[..|a + b| - 1] == a + b[..|b| - 1];
      SumAppend(a, b[..|b| - 1]);
    } else {
      assert a + b == a;
    }
  }

  /** Samples bounded below by lo and above by hi sum to between N*lo and N*hi. */
  lemma {:induction false} SumBounds(s: seq<real>, lo: real, hi: real)
    requires forall k | 0 <= k < |s| :: lo <= s[k] <= hi
    ensures (|s| as real) * lo <= Sum(s) <= (|s| as real) * hi
  {
    if |s| > 0 {
      var p := s[..|s| - 1];
      assert forall k | 0 <= k < |p| :: p[k] == s[k];
      SumBounds(p, lo, hi);
      assert (|s| as real) * lo == (|p| as real) * lo + lo;
      assert (|s| as real) * hi == (|p| as real) * hi + hi;
    }
  }

  /** The mean of non-empty samples lies between their lower and upper bound. */
  lemma MeanBounds(s: seq<real>, lo: real, hi: real)
    requires |s| > 0
    requires forall k | 0 <= k < |s| :: lo <= s[k] <= hi
    ensures lo <= Mean(s) <= hi
  {
    SumBounds(s, lo, hi);
    var n := |s| as real;
    assert Mean(s) * n == Sum(s);
    assert n * lo <= Mean(s) * n <= n * hi;
  }

  /** All samples equal to m leave no squared deviation from m. */
  lemma {:induction false} SquaredDeviationsOfConstant(s: seq<real>, m: real)
    requires forall k | 0 <= k < |s| :: s[k] == m
    ensures SquaredDeviations(s, m) == 0.0
  {
    if |s| > 0 {
      var p := s[..|s| - 1];
      assert forall k | 0 <= k < |p| :: p[k] == s[k];
      SquaredDeviationsOfConstant(p, m);
    }
  }

  /** N copies of c sum to N*c. */
  lemma {:induction false} SumConstant(s: seq<real>, c: real)
    requires forall k | 0 <= k < |s| :: s[k] == c
    ensures Sum(s) == (|s| as real) * c
  {
    if |s| > 0 {
      var p := s[..|s| - 1];
      assert forall k | 0 <= k < |p| :: p[k] == s[k];
      SumConstant(p, c);
    }
  }

  /** Samples that all equal c have mean c and variance 0. */
  lemma ConstantSamples(s: seq<real>, c: real)
    requires |s| > 0
    requires forall k | 0 <= k < |s| :: s[k] == c
    ensures Mean(s) == c
    ensures Variance(s) == 0.0
  {
    SumConstant(s, c);
    var n := |s| as real;
    assert Mean(s) * n == c * n;
    SquaredDeviationsOfConstant(s, c);
  }
}
