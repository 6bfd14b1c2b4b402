/**
 The shared sample store and the two requests the service answers: inserting
 a batch of samples and fetching the metrics. Requests are served one at a
 time in the order they take the store's lock, so a run of the service is a
 sequence of requests, each applied atomically to the store.
 */
module SampleStore {
  import opened Intervals
  import opened Statistics
  import opened Metrics

  /** All samples received so far, in arrival order. */
  datatype Store = Store(samples: seq<real>)

  /** The store of a freshly started service. */
  function Empty(): (st: Store)
    ensures |st.samples| == 0
  {
    Store([])
  }

  /** Appends a batch at the end of the store: the old samples stay as they
      were, the batch follows them in its own order, and an empty batch
      changes nothing. */
  function Append(st: Store, batch: seq<real>): (st': Store)
    ensures |st'.samples| == |st.samples| + |batch|
    ensures st'.samples[..|st.samples|] == st.samples
    ensures st'.samples[|st.samples|..] == batch
    ensures batch == [] ==> st' == st
  {
    Store(st.samples + batch)
  }

  /** The metrics of the current store under the configured intervals. */
  function Query(st: Store, ivs: seq<Interval>): (r: Report)
    ensures |r.counts| == |ivs|
    ensures r.variance >= 0.0
    ensures |r.outliers| <= |st.samples|
  {
    Aggregate(st.samples, ivs)
  }

  /** After an append each count grows by the batch's count for its
      interval. */
  lemma CountsAfterAppend(st: Store, batch: seq<real>, ivs: seq<Interval>, k: int)
    requires 0 <= k < |ivs|
    ensures Query(Append(st, batch), ivs).counts[k] == Query(st, ivs).counts[k] + Count(batch, ivs[k])
  {
    CountAppend(st.samples, batch, ivs[k]);
  }

  /** After an append the batch's outliers follow the earlier outliers. */
  lemma OutliersAfterAppend(st: Store, batch: seq<real>, ivs: seq<Interval>)
    ensures Query(Append(st, batch), ivs).outliers == Query(st, ivs).outliers + Outliers(batch, ivs)
  {
    OutliersAppend(st.samples, batch, ivs);
  }

  /** The total of the samples after an append is the old total plus the
      batch's total. */
  lemma SumAfterAppend(st: Store, batch: seq<real>)
    ensures Sum(Append(st, batch).samples) == Sum(st.samples) + Sum(batch)
  {
    SumAppend(st.samples, batch);
  }

  /** A request to the service. */
  datatype Request = Insert(batch: seq<real>) | Fetch

  /** The service's answer to one request. */
  datatype Response = Inserted | Reported(report: Report)

  /** The store after a request and the answer given to it. */
  datatype Served = Served(store: Store, response: Response)

  /** Serves one request: an insert appends its batch, a fetch reports the
      metrics of the store as it stands and leaves the store alone. */
  function Serve(st: Store, ivs: seq<Interval>, req: Request): (sv: Served)
    ensures |st.samples| <= |sv.store.samples|
    ensures sv.store.samples[..|st.samples|] == st.samples
    ensures req.Fetch? || req.batch == [] ==> Query(sv.store, ivs) == Query(st, ivs)
    ensures sv.response.Reported? <==> req.Fetch?
    ensures sv.response.Reported? ==> sv.response.report == Query(st, ivs)
  {
    match req
    case Insert(batch) => Served(Append(st, batch), Inserted)
    case Fetch => Served(st, Reported(Query(st, ivs)))
  }

  /** The store after serving reqs in order: each request is served on the
      store the earlier ones left. The intervals do not influence the store,
      so none are passed. The old samples are never lost or changed. */
  function Replay(st: Store, reqs: seq<Request>): (r: Store)
    ensures |st.samples| <= |r.samples|
    ensures r.samples[..|st.samples|] == st.samples
  {
    if |reqs| == 0 then st
    else Serve(Replay(st, reqs[..|reqs| - 1]), [], reqs[|reqs| - 1]).store
  }

  /** Replaying one more request is serving it on the store the earlier
      requests left, whatever the configured intervals. */
  lemma ReplayIsServe(st: Store, ivs: seq<Interval>, reqs: seq<Request>, r: Request)
    ensures Replay(st, reqs + [r]) == Serve(Replay(st, reqs), ivs, r).store
  {
    assert (reqs + [r])[..|reqs + [r]| - 1] == reqs;
  }

  /** The answers to reqs, each computed on the store left by the requests
      before it. */
  function Responses(st: Store, ivs: seq<Interval>, reqs: seq<Request>): (rs: seq<Response>)
    ensures |rs| == |reqs|
    ensures forall j | 0 <= j < |reqs| :: rs[j].Reported? <==> reqs[j].Fetch?
  {
    seq(|reqs|, j requires 0 <= j < |reqs| => Serve(Replay(st, reqs[..j]), ivs, reqs[j]).response)
  }

  /** Appending a request to a run does not change the answer to an earlier
      request. */
  lemma EarlierResponseUnchanged(st: Store, ivs: seq<Interval>, reqs: seq<Request>, r: Request, j: int)
    requires 0 <= j < |reqs|
    ensures Responses(st, ivs, reqs + [r])[j] == Responses(st, ivs, reqs)[j]
  {
    var ext := reqs + [r];
    assert ext[..j] == reqs[..j];
    assert ext[j] == reqs[j];
  }

  /** A run extended by one request answers the earlier requests as before and
      answers the new one on the store the earlier requests left. */
  lemma ResponsesStep(st: Store, ivs: seq<Interval>, reqs: seq<Request>, r: Request)
    ensures Responses(st, ivs, reqs + [r])
         == Responses(st, ivs, reqs) + [Serve(Replay(st, reqs), ivs, r).response]
  {
    var rs, before := Responses(st, ivs, reqs + [r]), Responses(st, ivs, reqs);
    forall j | 0 <= j < |reqs|
      ensures rs[j] == before[j]
    {
      EarlierResponseUnchanged(st, ivs, reqs, r, j);
    }
    assert (reqs + [r])[..|reqs|] == reqs;
    assert rs == before + [Serve(Replay(st, reqs), ivs, r).response];
  }

  /** All values inserted by reqs, batch after batch. */
  function InsertedValues(reqs: seq<Request>): seq<real> {
    if |reqs| == 0 then []
    else
      var last := reqs[|reqs| - 1];
      InsertedValues(reqs[..|reqs| - 1]) + (if last.Insert? then last.batch else [])
  }

  /** The total number of values inserted by reqs. */
  function InsertedCount(reqs: seq<Request>): nat {
    if |reqs| == 0 then 0
    else
      var last := reqs[|reqs| - 1];
      InsertedCount(reqs[..|reqs| - 1]) + (if last.Insert? then |last.batch| else 0)
  }

  /** Serving a run of requests leaves exactly the old samples followed by
      every inserted batch, each contiguous and in its own order; no value is
      lost or duplicated. */
  lemma {:induction false} ReplayAppendsBatches(st: Store, reqs: seq<Request>)
    ensures Replay(st, reqs).samples == st.samples + InsertedValues(reqs)
  {
    if |reqs| > 0 {
      ReplayAppendsBatches(st, reqs[..|reqs| - 1]);
    }
  }

  /** The store grows by exactly the number of inserted values. */
  lemma {:induction false} ReplayLength(st: Store, reqs: seq<Request>)
    ensures |Replay(st, reqs).samples| == |st.samples| + InsertedCount(reqs)
  {
    if |reqs| > 0 {
      ReplayLength(st, reqs[..|reqs| - 1]);
    }
  }

  /** The store only ever grows: the store after a prefix of the requests is a
      prefix of the store after all of them. */
  lemma {:induction false} ReplayMonotone(st: Store, reqs: seq<Request>, j: nat)
    requires j <= |reqs|
    ensures |Replay(st, reqs[..j]).samples| <= |Replay(st, reqs).samples|
    ensures Replay(st, reqs).samples[..|Replay(st, reqs[..j]).samples|] == Replay(st, reqs[..j]).samples
  {
    if j < |reqs| {
      var p := reqs[..|reqs| - 1];
      assert reqs[..j] == p[..j];
      ReplayMonotone(st, p, j);
    } else {
      assert reqs[..j] == reqs;
    }
  }

  /** Fetches do not change the store: over a stretch of fetches the store
      stays the same. */
  lemma {:induction false} NoInsertSameStore(st: Store, reqs: seq<Request>, i: nat, j: nat)
    requires i <= j <= |reqs|
    requires forall m | i <= m < j :: reqs[m].Fetch?
    ensures Replay(st, reqs[..j]) == Replay(st, reqs[..i])
  {
    if i < j {
      NoInsertSameStore(st, reqs, i, j - 1);
      assert reqs[..j][..j - 1] == reqs[..j - 1];
    }
  }

  /** Two fetches with only fetches between them report the same metrics. */
  lemma RepeatedFetchSameReport(st: Store, ivs: seq<Interval>, reqs: seq<Request>, i: nat, j: nat)
    requires i <= j < |reqs|
    requires forall m | i <= m <= j :: reqs[m].Fetch?
    ensures Responses(st, ivs, reqs)[i] == Responses(st, ivs, reqs)[j]
    ensures Responses(st, ivs, reqs)[i].Reported?
  {
    NoInsertSameStore(st, reqs, i, j);
  }
}
