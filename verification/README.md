# Metrics aggregation service — Dafny model

The service receives batches of numeric samples and reports metrics over all
samples received so far. The reported metrics are a count per configured
half-open interval `[low, high)`, the mean, the population variance and the
outliers (samples that lie in no interval). This project models that core
over exact reals:

- `intervals.dfy` (module `Intervals`): the `Interval` pair and the two
  membership tests. One is the scanning helper `is_within_intervals` of
  app.py lines 30-34 (`WithinAny`). The other is the inline `any(...)` test
  of the outlier filter at app.py line 63 (`AnyContains`).
- `statistics.dfy` (module `Statistics`): sum, mean and population variance.
  `Sum` is the `sum(samples)` of app.py line 55, and `SquaredDeviations` is
  the generator sum of squared deviations at app.py line 56. Both the mean
  and the variance are 0 when there are no samples.
- `metrics.dfy` (module `Metrics`): per-interval counts, outliers, the
  complementary "inside" filter and the `Report` a query returns.
- `store.dfy` (module `SampleStore`): the append-only sample store, the
  insert and fetch requests, and runs of requests served one after another.
- `scenarios.dfy` (module `Scenarios`): worked examples with concrete
  samples and intervals.

Samples and bounds are Dafny `real`. Every fold over the samples peels off
the last element. Over the reals the order of summation does not matter, so
this gives the same totals as Python's left-to-right `sum`. It also makes the
"query after append" lemmas direct. The per-interval counts are a
`seq<nat>` aligned with the interval list. The source keys a dict by
`str(interval)` instead.

The shared list and its lock are modelled as a value `Store`. Requests are
served in lock-acquisition order, so a run of the service is a sequence of
`Request`s. `Serve` is the single step: one insert (app.py lines 41-45) or
one fetch (app.py lines 48-65). `Replay` gives the store after a prefix of the
run by serving its requests one after another. `Responses` gives the answer to
each request, computed on the store that the earlier requests left behind.

## Model

| member | source | states |
|---|---|---|
| `Intervals.WithinAny` | RohitAssignment/python/app.py:30-34 | The in-order scan returns true exactly when some interval holds the value with low <= v < high. It is false for an empty interval list. |
| `Intervals.WithinSingleton` | RohitAssignment/python/app.py:52 | Scanning the one-element list `[i]`, as the count does, is exactly half-open membership in `i`. |
| `Intervals.HalfOpenBoundaries` | RohitAssignment/python/app.py:32 | A proper interval holds its lower bound and does not hold its upper bound. |
| `Intervals.InvertedHoldsNothing` | RohitAssignment/python/app.py:32 | An interval with low >= high holds no value. |
| `Intervals.WithinAnyConcat` | RohitAssignment/python/app.py:30-34 | Scanning two interval lists one after the other finds the value iff one of the lists holds it. |
| `Statistics.Mean` | RohitAssignment/python/app.py:55 | The mean is 0 for no samples. Otherwise mean * N equals the sum of the samples. |
| `Statistics.Variance` | RohitAssignment/python/app.py:56 | The variance is never negative and is 0 for no samples. Otherwise variance * N equals the total squared deviation from the mean, so the divisor is N (population variance). |
| `Statistics.SquaredDeviationsNonNegative` | RohitAssignment/python/app.py:56 | The total of squared deviations from any centre is non-negative. |
| `Statistics.SumAppend` | RohitAssignment/python/app.py:55 | The sum of a concatenation is the sum of the parts. |
| `Statistics.MeanBounds` | RohitAssignment/python/app.py:55 | The mean of non-empty samples lies between any lower and upper bound of the samples. |
| `Statistics.ConstantSamples` | RohitAssignment/python/app.py:55-56 | Non-empty samples that all equal c have mean c and variance 0. |
| `Metrics.Count` | RohitAssignment/python/app.py:52 | The count for one interval never exceeds the number of samples. |
| `Metrics.CountIsPositions` | RohitAssignment/python/app.py:52 | The count for an interval equals the number of sample positions whose value lies in it, duplicates included. |
| `Metrics.CountAppend` | RohitAssignment/python/app.py:52 | Counting over a concatenation adds the counts of the parts. |
| `Metrics.InvertedCountsNothing` | RohitAssignment/python/app.py:52 | An inverted or empty interval always has count 0. |
| `Metrics.Counts` | RohitAssignment/python/app.py:52 | There is one count per configured interval, in configuration order, each at most the number of samples. |
| `Metrics.CountsArePerInterval` | RohitAssignment/python/app.py:52 | Each count counts exactly the samples in its own interval, independently of the other intervals, so overlapping intervals both count a shared sample. |
| `Metrics.Outliers` | RohitAssignment/python/app.py:63 | No outlier lies in any interval, and there are at most as many outliers as samples. |
| `Metrics.Inside` | RohitAssignment/python/app.py:30-34 | Every kept sample passes the membership scan, and no more samples are kept than given. |
| `Metrics.OutliersAreSubsequence` | RohitAssignment/python/app.py:63 | The outliers are the samples at exactly the positions that lie in no interval, kept in original order, so they form a subsequence of the samples. |
| `Metrics.OutlierMultiplicity` | RohitAssignment/python/app.py:63 | A value occurs among the outliers as often as among the samples when no interval holds it, and never otherwise. Duplicates are preserved. |
| `Metrics.NoIntervalsAllOutliers` | RohitAssignment/python/app.py:63 | With no intervals configured, the outliers are all the samples. |
| `Metrics.OutliersAppend` | RohitAssignment/python/app.py:63 | The outliers of a concatenation are the outliers of the first part followed by those of the second. |
| `Metrics.OutliersOfMoreIntervals` | RohitAssignment/python/app.py:63 | With the intervals a followed by b configured, the outliers are exactly the outliers under a that b does not hold either, in the same order. |
| `Metrics.InsideOutliersPartition` | RohitAssignment/python/app.py:63 | Every sample is either inside some interval or an outlier, never both. The two parts' lengths add up to the number of samples, and their multisets add up to the samples' multiset. |
| `Metrics.Aggregate` | RohitAssignment/python/app.py:52-63 | The report has one count per interval, each at most N. Its mean times N is the sum, its variance is non-negative, and no reported outlier passes the membership scan. |
| `Metrics.EmptyReport` | RohitAssignment/python/app.py:55-63 | With no samples, every count is 0, the mean and the variance are 0, and there are no outliers. |
| `Metrics.OverlapCountedByBoth` | RohitAssignment/python/app.py:52-63 | A sample that lies in two overlapping intervals raises both counts by one and does not become an outlier. |
| `SampleStore.Empty` | RohitAssignment/python/app.py:24 | The service starts with no samples. |
| `SampleStore.Append` | RohitAssignment/python/app.py:44 | The length grows by the batch length. The old samples are an unchanged prefix, the batch follows in its own order, and an empty batch changes nothing. |
| `SampleStore.Query` | RohitAssignment/python/app.py:49-65 | A query reports one count per interval, a non-negative variance and at most as many outliers as stored samples. |
| `SampleStore.CountsAfterAppend` | RohitAssignment/python/app.py:44-52 | After an append, each interval's count grows by the batch's count for that interval. |
| `SampleStore.OutliersAfterAppend` | RohitAssignment/python/app.py:44-63 | After an append, the batch's outliers follow the earlier outliers. |
| `SampleStore.SumAfterAppend` | RohitAssignment/python/app.py:44-55 | After an append, the total the mean is computed from is the old total plus the batch's total. |
| `SampleStore.Serve` | RohitAssignment/python/app.py:41-65 | Serving a request never loses or changes a stored sample: the old samples remain a prefix of the new store. A fetch, or an insert of an empty batch, leaves the answer to a query unchanged. Exactly the fetches get a report, and that report is the query of the store as it stood. |
| `SampleStore.Replay` | RohitAssignment/python/app.py:41-65 | Serving a run of requests in lock order never loses or changes a sample already stored: the starting samples remain a prefix of the resulting store. |
| `SampleStore.ReplayIsServe` | RohitAssignment/python/app.py:41-65 | The store after a run extended by one request is the store that serving that request leaves on the store of the earlier run, for any configured intervals. |
| `SampleStore.Responses` | RohitAssignment/python/app.py:41-65 | A run gets one answer per request, in order. Exactly the fetches are answered with a report (line 65); every insert gets the plain acknowledgement (line 45). |
| `SampleStore.EarlierResponseUnchanged` | RohitAssignment/python/app.py:41-65 | A request served later never changes the answer an earlier request got. |
| `SampleStore.ResponsesStep` | RohitAssignment/python/app.py:41-65 | Extending a run by one request keeps every earlier answer and answers the new request on the store the earlier requests left. |
| `SampleStore.ReplayAppendsBatches` | RohitAssignment/python/app.py:43-44 | After a run of requests, the store holds the old samples followed by every inserted batch, contiguous and in order. Nothing is lost or duplicated. |
| `SampleStore.ReplayLength` | RohitAssignment/python/app.py:44 | After a run of requests, the store length is the old length plus the total size of the inserted batches. |
| `SampleStore.ReplayMonotone` | RohitAssignment/python/app.py:44 | The store only grows: the store after any prefix of a run is a prefix of the store after the whole run. |
| `SampleStore.NoInsertSameStore` | RohitAssignment/python/app.py:49-65 | Over any stretch of a run that holds only fetches, the store stays the same. |
| `SampleStore.RepeatedFetchSameReport` | RohitAssignment/python/app.py:49-65 | Two fetches at positions i <= j of a run, with only fetches from i to j, return identical reports. |
| `Scenarios.MeanAndVarianceExample` | RohitAssignment/python/app.py:55-56 | Samples 1, 2, 3, 4 have mean 2.5 and population variance 1.25. |
| `Scenarios.CountsExample` | RohitAssignment/python/app.py:52 | With intervals [0, 10) and [10, 20) and samples 5, 15, 25, -5, 9.999, the counts are 2 and 1. |
| `Scenarios.OutliersExample` | RohitAssignment/python/app.py:63 | With the same intervals and samples, the outliers are 25 and -5, in that order. |
| `Scenarios.BoundaryExample` | RohitAssignment/python/app.py:32 | For [0, 10), the sample 0 is counted, and the sample 10 is not counted and is an outlier. |
| `Scenarios.OverlapExample` | RohitAssignment/python/app.py:52-63 | For overlapping [0, 10) and [5, 15), the sample 7 counts for both intervals and is not an outlier. |

## Left out

- The HTTP endpoints, the request body model and the response dictionary (app.py lines 1-8, 36-42, 45, 47-49, 59-62, 64-65) are serialization around the core. `Report` carries the same four fields.
- Reading and parsing the `INTERVALS` environment setting (app.py lines 10-21) depends on the process environment and on string-to-float conversion. The model takes an already-parsed `seq<Interval>`.
- The lock (app.py lines 26-27, 43, 50) is not modelled as concurrency. Each insert and each fetch is one atomic step, and a run of the service is the sequence of those steps in lock order.
- IEEE-754 rounding is not modelled. Samples are exact reals, so the model makes no claims about floating-point results, overflow, NaN or infinities. With floats, summation order and the int `0` versus the float results can matter. Neither matters over the reals.
- The `str(interval)` dictionary keys (app.py line 52) are display formatting. The counts are a sequence aligned with the configured intervals. With string keys, two identical configured intervals collapse into one entry holding the same count. The aligned sequence keeps one entry per configured interval.
- Statistics.Variance: the contract states that the variance is non-negative, and a separate lemma shows that constant samples give 0. The converse (a variance of 0 forces all samples to equal the mean) and the "mean of squares minus square of mean" identity are not proved. Both need strict-positivity facts about real products that the solver does not establish reliably.
