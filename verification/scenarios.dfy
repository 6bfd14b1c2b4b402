/**
 Concrete reports for small inputs: the mean and variance of four samples,
 interval counts and outliers, half-open boundaries and overlapping
 intervals.
 */
module Scenarios {
  import opened Intervals
  import opened Statistics
  import opened Metrics

  /** Samples 1, 2, 3, 4 have mean 2.5 and population variance 1.25. */
  lemma MeanAndVarianceExample()
    ensures Mean([1.0, 2.0, 3.0, 4.0]) == 2.5
    ensures Variance([1.0, 2.0, 3.0, 4.0]) == 1.25
  {
    var s1, s2, s3, s4 := [1.0], [1.0, 2.0], [1.0, 2.0, 3.0], [1.0, 2.0, 3.0, 4.0];
    assert s2[..1] == s1 && s3[..2] == s2 && s4[..3] == s3;
    assert Sum(s1) == 1.0;
    assert Sum(s2) == 3.0;
    assert Sum(s3) == 6.0;
    assert Sum(s4) == 10.0;
    assert SquaredDeviations(s1, 2.5) == 2.25;
    assert SquaredDeviations(s2, 2.5) == 2.5;
    assert SquaredDeviations(s3, 2.5) == 2.75;
    assert SquaredDeviations(s4, 2.5) == 5.0;
  }

  /** Buckets [0, 10) and [10, 20) over 5, 15, 25, -5, 9.999: the first holds
      5 and 9.999 and the second holds 15. */
  lemma CountsExample()
    ensures Aggregate([5.0, 15.0, 25.0, -5.0, 9.999], [Interval(0.0, 10.0), Interval(10.0, 20.0)]).counts == [2, 1]
  {
    var a, b := Interval(0.0, 10.0), Interval(10.0, 20.0);
    var s1, s2, s3, s4, s5 := [5.0], [5.0, 15.0], [5.0, 15.0, 25.0], [5.0, 15.0, 25.0, -5.0], [5.0, 15.0, 25.0, -5.0, 9.999];
    assert s2[..1] == s1 && s3[..2] == s2 && s4[..3] == s3 && s5[..4] == s4;
    assert s1[..0] == [];
    assert Count(s1, a) == 1 && Count(s1, b) == 0;
    assert Count(s2, a) == 1 && Count(s2, b) == 1;
    assert Count(s3, a) == 1 && Count(s3, b) == 1;
    assert Count(s4, a) == 1 && Count(s4, b) == 1;
    assert Count(s5, a) == 2 && Count(s5, b) == 1;
  }

  /** With the same buckets and samples, 25 and -5 are the outliers. */
  lemma OutliersExample()
    ensures Aggregate([5.0, 15.0, 25.0, -5.0, 9.999], [Interval(0.0, 10.0), Interval(10.0, 20.0)]).outliers == [25.0, -5.0]
  {
    var ivs := [Interval(0.0, 10.0), Interval(10.0, 20.0)];
    var s1, s2, s3, s4, s5 := [5.0], [5.0, 15.0], [5.0, 15.0, 25.0], [5.0, 15.0, 25.0, -5.0], [5.0, 15.0, 25.0, -5.0, 9.999];
    assert s2[..1] == s1 && s3[..2] == s2 && s4[..3] == s3 && s5[..4] == s4;
    assert s1[..0] == [];
    assert InInterval(5.0, ivs[0]) && InInterval(15.0, ivs[1]) && InInterval(9.999, ivs[0]);
    assert !AnyContains(25.0, ivs) && !AnyContains(-5.0, ivs);
    assert Outliers(s1, ivs) == [];
    assert Outliers(s2, ivs) == [];
    assert Outliers(s3, ivs) == [25.0];
    assert Outliers(s4, ivs) == [25.0, -5.0];
  }

  /** For [0, 10): the sample 0 is counted and the sample 10 is not. */
  lemma BoundaryExample()
    ensures Count([0.0], Interval(0.0, 10.0)) == 1
    ensures Count([10.0], Interval(0.0, 10.0)) == 0
    ensures Outliers([10.0], [Interval(0.0, 10.0)]) == [10.0]
  {
  }

  /** For overlapping [0, 10) and [5, 15) the sample 7 counts for both and is
      not an outlier. */
  lemma OverlapExample()
    ensures Aggregate([7.0], [Interval(0.0, 10.0), Interval(5.0, 15.0)]).counts == [1, 1]
    ensures Aggregate([7.0], [Interval(0.0, 10.0), Interval(5.0, 15.0)]).outliers == []
  {
    var ivs := [Interval(0.0, 10.0), Interval(5.0, 15.0)];
    assert [7.0][..0] == [];
    assert InInterval(7.0, ivs[0]);
    assert AnyContains(7.0, ivs);
  }
}
