/**
 * The dashboard's in-memory store: the three event lists, trimmed to their
 * capacities after every append, the success and failure counters of
 * `/predict` and the window of recent response times; the handlers that
 * write to it; and read-only views of it for the dashboard endpoints.
 *
 * Ghost logs record every event ever accepted and every request completed,
 * so that the invariant can say what the trimmed lists and the counters
 * hold: the newest events of each log, and counts over the completions.
 */
module Analytics {
  import opened Seqs
  import opened Events
  import opened Requests
  import opened Buffers
  import opened Queries
  import DaySeries
  import TypeSeries

  const PredictionCapacity: nat := 2000
  const ContactCapacity: nat := 500
  const DatasetCapacity: nat := 500
  /** `deque(maxlen=500)` of response times. */
  const ResponseWindow: nat := 500

  const PredictPath: string := "/predict"

  /** One request as the `after_request` hook sees it: its path, status and elapsed time. */
  datatype Completion = Completion(path: string, status: int, elapsedMs: real)

  predicate Succeeded(c: Completion) {
    c.path == PredictPath && c.status < 400
  }

  predicate Failed(c: Completion) {
    c.path == PredictPath && c.status >= 400
  }

  /** The elapsed times of the successful `/predict` requests, oldest first. */
  function SuccessTimes(cs: seq<Completion>): seq<real> {
    if cs == [] then []
    else
      var c := cs[|cs| - 1];
      SuccessTimes(cs[..|cs| - 1]) + (if Succeeded(c) then [c.elapsedMs] else [])
  }

  function SuccessCount(cs: seq<Completion>): nat {
    if cs == [] then 0
    else SuccessCount(cs[..|cs| - 1]) + (if Succeeded(cs[|cs| - 1]) then 1 else 0)
  }

  function FailCount(cs: seq<Completion>): nat {
    if cs == [] then 0
    else FailCount(cs[..|cs| - 1]) + (if Failed(cs[|cs| - 1]) then 1 else 0)
  }

  function PredictCount(cs: seq<Completion>): nat {
    if cs == [] then 0
    else PredictCount(cs[..|cs| - 1]) + (if cs[|cs| - 1].path == PredictPath then 1 else 0)
  }

  /** Every `/predict` completion is counted exactly once, as a success or as a failure. */
  lemma {:induction false} CountsPartitionPredictRequests(cs: seq<Completion>)
    ensures SuccessCount(cs) + FailCount(cs) == PredictCount(cs)
    ensures |SuccessTimes(cs)| == SuccessCount(cs)
  {
    if cs != [] {
      CountsPartitionPredictRequests(cs[..|cs| - 1]);
    }
  }

  /**
   * The window keeps at most ResponseWindow times, and no more than there
   * were successful requests; with fewer successes it keeps all of them.
   */
  lemma WindowBound(cs: seq<Completion>)
    ensures |Newest(SuccessTimes(cs), ResponseWindow)| <= ResponseWindow
    ensures |Newest(SuccessTimes(cs), ResponseWindow)| <= SuccessCount(cs)
    ensures SuccessCount(cs) <= ResponseWindow ==> Newest(SuccessTimes(cs), ResponseWindow) == SuccessTimes(cs)
  {
    CountsPartitionPredictRequests(cs);
  }

  /** One more completion extends each count by its own outcome. */
  lemma CompletionStep(cs: seq<Completion>, c: Completion)
    ensures SuccessTimes(cs + [c]) == SuccessTimes(cs) + (if Succeeded(c) then [c.elapsedMs] else [])
    ensures SuccessCount(cs + [c]) == SuccessCount(cs) + (if Succeeded(c) then 1 else 0)
    ensures FailCount(cs + [c]) == FailCount(cs) + (if Failed(c) then 1 else 0)
    ensures PredictCount(cs + [c]) == PredictCount(cs) + (if c.path == PredictPath then 1 else 0)
  {
    assert (cs + [c])[..|cs|] == cs;
  }

  /**
   * A successful completion counts one more success, no failure, and its
   * time enters the window of the newest times.
   */
  lemma SuccessStep(cs: seq<Completion>, c: Completion, window: seq<real>, cs2: seq<Completion>)
    requires Succeeded(c) && cs2 == cs + [c]
    requires window == Newest(SuccessTimes(cs), ResponseWindow)
    ensures Newest(window + [c.elapsedMs], ResponseWindow) == Newest(SuccessTimes(cs2), ResponseWindow)
    ensures SuccessCount(cs2) == SuccessCount(cs) + 1
    ensures FailCount(cs2) == FailCount(cs)
  {
    CompletionStep(cs, c);
    NewestAppend(SuccessTimes(cs), c.elapsedMs, ResponseWindow);
  }

  class Store {
    /** `DASHBOARD_PREDICTIONS`, `DASHBOARD_CONTACTS`, `DASHBOARD_DATASETS` */
    const predictions: EventList<Prediction>
    const contacts: EventList<Contact>
    const datasets: EventList<DatasetShare>
    /** `PREDICTION_RESPONSE_TIMES_MS` */
    const responseTimes: BoundedDeque<real>
    /** `PREDICTION_REQUEST_SUCCESS`, `PREDICTION_REQUEST_FAIL` */
    var successCount: nat
    var failCount: nat

    /** Every event recorded, oldest first, and every request completed. */
    ghost var predictionLog: seq<Prediction>
    ghost var contactLog: seq<Contact>
    ghost var datasetLog: seq<DatasetShare>
    ghost var completions: seq<Completion>

    ghost predicate PredictionsValid()
      reads this`predictionLog, predictions
    {
      predictions.items == Newest(predictionLog, PredictionCapacity)
    }

    ghost predicate ContactsValid()
      reads this`contactLog, contacts
    {
      contacts.items == Newest(contactLog, ContactCapacity)
    }

    ghost predicate DatasetsValid()
      reads this`datasetLog, datasets
    {
      datasets.items == Newest(datasetLog, DatasetCapacity)
    }

    ghost predicate RequestsValid()
      reads this`successCount, this`failCount, this`completions, responseTimes
    {
      && responseTimes.maxlen == ResponseWindow
      && responseTimes.Valid()
      && responseTimes.items == Newest(SuccessTimes(completions), ResponseWindow)
      && successCount == SuccessCount(completions)
      && failCount == FailCount(completions)
    }

    /** The four containers are four different objects. */
    predicate Separate() {
      && predictions as object != contacts as object
      && predictions as object != datasets as object
      && contacts as object != datasets as object
      && responseTimes as object != predictions as object
      && responseTimes as object != contacts as object
      && responseTimes as object != datasets as object
    }

    /**
     * The lists hold the newest events of their logs, up to their
     * capacities; the counters count the completed `/predict` requests by
     * outcome, and the window holds the newest times of the successful ones.
     */
    ghost predicate Valid()
      reads this, predictions, contacts, datasets, responseTimes
    {
      Separate() && PredictionsValid() && ContactsValid() && DatasetsValid() && RequestsValid()
    }

    /** The state at start-up: everything empty, the counters 0. */
    constructor()
      ensures Valid()
      ensures predictionLog == [] && contactLog == [] && datasetLog == [] && completions == []
      ensures predictions.items == [] && contacts.items == [] && datasets.items == []
      ensures responseTimes.items == [] && successCount == 0 && failCount == 0
      ensures fresh(predictions) && fresh(contacts) && fresh(datasets) && fresh(responseTimes)
    {
      predictions := new EventList();
      contacts := new EventList();
      datasets := new EventList();
      responseTimes := new BoundedDeque(ResponseWindow);
      successCount := 0;
      failCount := 0;
      predictionLog := [];
      contactLog := [];
      datasetLog := [];
      completions := [];
    }

    /**
     * The logging block of `predict_toxicity`: the record goes last, then
     * the list is trimmed to its capacity.
     */
    method LogPrediction(p: Prediction)
      requires Valid()
      modifies this`predictionLog, predictions
      ensures Valid()
      ensures predictionLog == old(predictionLog) + [p]
      ensures predictions.items == Newest(old(predictions.items) + [p], PredictionCapacity)
    {
      predictions.Append(p);
      LimitList(predictions, PredictionCapacity);
      NewestAppend(predictionLog, p, PredictionCapacity);
      predictionLog := predictionLog + [p];
    }

    /** A successful `/predict`: one more success, and its time pushed into the window. */
    method CountSuccess(c: Completion)
      requires Valid() && Succeeded(c)
      modifies this`successCount, this`completions, responseTimes
      ensures Valid()
      ensures completions == old(completions) + [c]
      ensures successCount == old(successCount) + 1
      ensures responseTimes.items == Newest(old(responseTimes.items) + [c.elapsedMs], ResponseWindow)
    {
      ghost var cs := completions + [c];
      SuccessStep(completions, c, responseTimes.items, cs);
      successCount := successCount + 1;
      responseTimes.Append(c.elapsedMs);
      completions := cs;
    }

    /** A failed `/predict`: one more failure. */
    method CountFailure(c: Completion)
      requires Valid() && Failed(c)
      modifies this`failCount, this`completions
      ensures Valid()
      ensures completions == old(completions) + [c]
      ensures failCount == old(failCount) + 1
    {
      CompletionStep(completions, c);
      failCount := failCount + 1;
      completions := completions + [c];
    }

    /** Any other path: nothing is counted. */
    method CountNothing(c: Completion)
      requires Valid() && c.path != PredictPath
      modifies this`completions
      ensures Valid()
      ensures completions == old(completions) + [c]
    {
      CompletionStep(completions, c);
      completions := completions + [c];
    }

    /**
     * `_record_request_stats`: for `/predict` only, a status below 400
     * counts a success and pushes the elapsed time into the window, and any
     * other status counts a failure; other paths count nothing.
     */
    method RecordRequestStats(path: string, status: int, elapsedMs: real)
      requires Valid()
      modifies this`successCount, this`failCount, this`completions, responseTimes
      ensures Valid()
      ensures completions == old(completions) + [Completion(path, status, elapsedMs)]
      ensures path != PredictPath ==>
        successCount == old(successCount) && failCount == old(failCount)
        && responseTimes.items == old(responseTimes.items)
      ensures path == PredictPath && status < 400 ==>
        successCount == old(successCount) + 1 && failCount == old(failCount)
        && responseTimes.items == Newest(old(responseTimes.items) + [elapsedMs], ResponseWindow)
      ensures path == PredictPath && status >= 400 ==>
        successCount == old(successCount) && failCount == old(failCount) + 1
        && responseTimes.items == old(responseTimes.items)
    {
      var c := Completion(path, status, elapsedMs);
      if path == PredictPath {
        if status < 400 {
          CountSuccess(c);
        } else {
          CountFailure(c);
        }
      } else {
        CountNothing(c);
      }
    }

    /** Appends an accepted contact request and trims the list to its capacity. */
    method StoreContact(c: Contact)
      requires Valid()
      modifies this`contactLog, contacts
      ensures Valid()
      ensures contactLog == old(contactLog) + [c]
      ensures contacts.items == Newest(old(contacts.items) + [c], ContactCapacity)
    {
      contacts.Append(c);
      LimitList(contacts, ContactCapacity);
      NewestAppend(contactLog, c, ContactCapacity);
      contactLog := contactLog + [c];
    }

    /**
     * `contact_us`: a rejected payload sends nothing and stores nothing; an
     * accepted one is sent, and stored only if the send reports success.
     * `sent` is that report.
     */
    method SubmitContact(data: map<string, string>, sent: bool, now: string) returns (reply: Reply)
      requires Valid()
      modifies this`contactLog, contacts
      ensures Valid()
      ensures var v := ValidateContact(data, now);
        && (v.Err? ==> reply == Rejected(v.error))
        && (v.Ok? && !sent ==> reply == SendFailed)
        && (v.Ok? && sent ==> reply == Sent)
      ensures reply == Sent ==>
        && contactLog == old(contactLog) + [ValidateContact(data, now).value]
        && contacts.items == Newest(old(contacts.items) + [ValidateContact(data, now).value], ContactCapacity)
      ensures reply != Sent ==> contactLog == old(contactLog) && contacts.items == old(contacts.items)
    {
      var v := ValidateContact(data, now);
      if v.Err? {
        reply := Rejected(v.error);
      } else if !sent {
        reply := SendFailed;
      } else {
        StoreContact(v.value);
        reply := Sent;
      }
    }

    /** Appends an accepted dataset share and trims the list to its capacity. */
    method StoreDataset(d: DatasetShare)
      requires Valid()
      modifies this`datasetLog, datasets
      ensures Valid()
      ensures datasetLog == old(datasetLog) + [d]
      ensures datasets.items == Newest(old(datasets.items) + [d], DatasetCapacity)
    {
      datasets.Append(d);
      LimitList(datasets, DatasetCapacity);
      NewestAppend(datasetLog, d, DatasetCapacity);
      datasetLog := datasetLog + [d];
    }

    /** `share_dataset`, on the same pattern as SubmitContact. */
    method ShareDataset(data: map<string, string>, sent: bool, now: string) returns (reply: Reply)
      requires Valid()
      modifies this`datasetLog, datasets
      ensures Valid()
      ensures var v := ValidateDataset(data, now);
        && (v.Err? ==> reply == Rejected(v.error))
        && (v.Ok? && !sent ==> reply == SendFailed)
        && (v.Ok? && sent ==> reply == Sent)
      ensures reply == Sent ==>
        && datasetLog == old(datasetLog) + [ValidateDataset(data, now).value]
        && datasets.items == Newest(old(datasets.items) + [ValidateDataset(data, now).value], DatasetCapacity)
      ensures reply != Sent ==> datasetLog == old(datasetLog) && datasets.items == old(datasets.items)
    {
      var v := ValidateDataset(data, now);
      if v.Err? {
        reply := Rejected(v.error);
      } else if !sent {
        reply := SendFailed;
      } else {
        StoreDataset(v.value);
        reply := Sent;
      }
    }

    /** The lists never exceed their capacities, nor the window its length. */
    lemma Bounded()
      requires Valid()
      ensures |predictions.items| <= PredictionCapacity
      ensures |contacts.items| <= ContactCapacity
      ensures |datasets.items| <= DatasetCapacity
      ensures |responseTimes.items| <= ResponseWindow
    {
    }

    /**
     * The stored predictions are the newest ones: once the log holds one
     * more than the capacity, exactly the first prediction has been evicted.
     */
    lemma OldestPredictionEvicted()
      requires Valid()
      requires |predictionLog| == PredictionCapacity + 1
      ensures predictions.items == predictionLog[1..]
      ensures predictions.items[0] == predictionLog[1]
    {
      NewestEvictsOldest(predictionLog, PredictionCapacity);
    }

    /** The request counters and the window agree with the completed requests. */
    lemma CountersAgree()
      requires Valid()
      ensures successCount + failCount == PredictCount(completions)
      ensures |responseTimes.items| == Min(successCount, ResponseWindow)
    {
      CountsPartitionPredictRequests(completions);
    }

    // -------------------------------------------------------------------
    // Read-only endpoints: no modifies clause, so the store is unchanged
    // -------------------------------------------------------------------

    /** `/api/dashboard/stats` */
    method GetStats() returns (s: Stats)
      requires Valid()
      ensures s == DashboardStats(predictions.items, responseTimes.items, successCount, failCount)
      ensures s.totalPredictions <= PredictionCapacity
    {
      s := DashboardStats(predictions.items, responseTimes.items, successCount, failCount);
    }

    /** `/api/dashboard/request-stats` */
    method GetRequestStats() returns (r: RequestStats)
      requires Valid()
      ensures r == DashboardRequestStats(successCount, failCount)
      ensures r.total == PredictCount(completions)
    {
      CountersAgree();
      r := DashboardRequestStats(successCount, failCount);
    }

    /** `/api/dashboard/toxicity-distribution` */
    method GetToxicityDistribution() returns (d: Distribution)
      ensures d == ToxicityDistribution(predictions.items)
    {
      d := ToxicityDistribution(predictions.items);
    }

    /** `/api/dashboard/predictions-over-time` */
    method GetPredictionsOverTime() returns (series: seq<DaySeries.DayPoint>)
      ensures DaySeries.Ascending(series)
      ensures DaySeries.CountsMatch(predictions.items, series)
      ensures DaySeries.CoversDays(predictions.items, series)
    {
      series := DaySeries.PredictionsOverTime(predictions.items);
    }

    /** `/api/dashboard/nanoparticle-types` */
    method GetNanoparticleTypes() returns (series: seq<TypeSeries.TypePoint>)
      ensures TypeSeries.SortedByCount(predictions.items, TypeSeries.TypeOf, series)
      ensures TypeSeries.CountsMatch(predictions.items, TypeSeries.TypeOf, series)
      ensures TypeSeries.CoversTypes(predictions.items, TypeSeries.TypeOf, series)
    {
      series := TypeSeries.NanoparticleTypes(predictions.items);
    }

    /** `/api/dashboard/contact-requests`: the stored contacts, newest first. */
    method GetContactRequests() returns (r: seq<Contact>)
      ensures r == Reverse(contacts.items)
    {
      r := Reverse(contacts.items);
    }

    /** `/api/dashboard/dataset-requests`: the stored dataset requests, newest first. */
    method GetDatasetRequests() returns (r: seq<DatasetShare>)
      ensures r == Reverse(datasets.items)
    {
      r := Reverse(datasets.items);
    }

    /** `/api/dashboard/recent-predictions?limit=...` */
    method GetRecentPredictions(limitArg: int) returns (r: seq<Prediction>)
      ensures r == RecentPredictions(predictions.items, limitArg)
      ensures 1 <= limitArg ==> r == RecentPredictionsCapped(predictions.items, limitArg) && |r| <= RecentCap
    {
      r := RecentPredictions(predictions.items, limitArg);
      if 1 <= limitArg {
        RecentAgreesWhenPositive(predictions.items, limitArg);
      }
    }

    /** `/api/dashboard/prediction-history?limit=...&offset=...` */
    method GetPredictionHistory(limitArg: int, offsetArg: int) returns (h: HistoryPage<Prediction>)
      ensures h == PredictionHistory(predictions.items, limitArg, offsetArg)
      ensures 0 <= limitArg ==> h == PredictionHistoryCapped(predictions.items, limitArg, offsetArg)
    {
      h := PredictionHistory(predictions.items, limitArg, offsetArg);
    }
  }

  /**
   * The scenario of the readiness check: on a fresh store one successful
   * `/predict` is logged and then its completion recorded. The KPI card
   * shows one prediction, one success, no failure and that request's time
   * as the average; the distribution counts the one verdict.
   */
  method SeedOnePrediction(p: Prediction, elapsedMs: real) returns (s: Stats, d: Distribution)
    ensures s.totalPredictions == 1 && s.predictionSuccessCount == 1 && s.predictionFailCount == 0
    ensures s.averageResponseTimeMs == elapsedMs
    ensures d.total == 1 && (d.toxic == 1 <==> IsToxic(p.toxicity))
  {
    var store := new Store();
    store.LogPrediction(p);
    NewestWhenFits([p], PredictionCapacity);
    assert store.predictions.items == [p];
    assert store.responseTimes.items == [] && store.successCount == 0 && store.failCount == 0;
    store.RecordRequestStats(PredictPath, 200, elapsedMs);
    NewestWhenFits([elapsedMs], ResponseWindow);
    assert store.responseTimes.items == [elapsedMs];
    assert store.predictions.items == [p];
    s := store.GetStats();
    d := store.GetToxicityDistribution();
    assert Sum([elapsedMs]) == elapsedMs;
  }
}
