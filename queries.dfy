/**
 * The read-only dashboard endpoints over the stored events: KPI totals and
 * the average response time, request counts, the toxicity split, the
 * contact and dataset tables, the most recent predictions and the paged
 * history. Each is a function of the stored lists and counters, so none of
 * them changes the store.
 */
module Queries {
  import opened Seqs
  import opened Text
  import opened Events

  // ---------------------------------------------------------------------
  // /api/dashboard/stats
  // ---------------------------------------------------------------------

  function Sum(xs: seq<real>): real {
    if xs == [] then 0.0 else Sum(xs[..|xs| - 1]) + xs[|xs| - 1]
  }

  /** `sum(times) / len(times) if times else 0`, before rounding. */
  function Average(xs: seq<real>): (a: real)
    ensures xs == [] ==> a == 0.0
    ensures xs != [] ==> a * (|xs| as real) == Sum(xs)
  {
    if xs == [] then 0.0 else Sum(xs) / (|xs| as real)
  }

  lemma {:induction false} SumBounds(xs: seq<real>, lo: real, hi: real)
    requires forall k :: 0 <= k < |xs| ==> lo <= xs[k] <= hi
    ensures lo * (|xs| as real) <= Sum(xs) <= hi * (|xs| as real)
  {
    if xs != [] {
      var init := xs[..|xs| - 1];
      assert forall k :: 0 <= k < |init| ==> init[k] == xs[k];
      SumBounds(init, lo, hi);
      assert (|xs| as real) == (|init| as real) + 1.0;
    }
  }

  /** The average of a non-empty window lies between its smallest and largest possible entries. */
  lemma AverageBounds(xs: seq<real>, lo: real, hi: real)
    requires xs != []
    requires forall k :: 0 <= k < |xs| ==> lo <= xs[k] <= hi
    ensures lo <= Average(xs) <= hi
  {
    SumBounds(xs, lo, hi);
    var n := |xs| as real;
    var a := Average(xs);
    assert (a - lo) * n >= 0.0 && (hi - a) * n >= 0.0;
  }

  /** The KPI card payload, with the average unrounded. */
  datatype Stats = Stats(
    totalPredictions: nat,
    averageResponseTimeMs: real,
    predictionSuccessCount: nat,
    predictionFailCount: nat)

  /**
   * `dashboard_stats()`: the number of stored predictions, the mean of the
   * response-time window (0 for an empty window) and the two counters.
   */
  function DashboardStats(ps: seq<Prediction>, times: seq<real>, success: nat, fail: nat): (s: Stats)
    ensures s.totalPredictions == |ps|
    ensures times == [] ==> s.averageResponseTimeMs == 0.0
    ensures times != [] ==> s.averageResponseTimeMs * (|times| as real) == Sum(times)
    ensures s.predictionSuccessCount == success && s.predictionFailCount == fail
  {
    Stats(|ps|, Average(times), success, fail)
  }

  // ---------------------------------------------------------------------
  // /api/dashboard/request-stats
  // ---------------------------------------------------------------------

  datatype RequestStats = RequestStats(success: nat, failed: nat, total: nat)

  /** `dashboard_request_stats()`: the two counters and their sum. */
  function DashboardRequestStats(success: nat, fail: nat): (r: RequestStats)
    ensures r.success == success && r.failed == fail
    ensures r.total == r.success + r.failed
  {
    RequestStats(success, fail, success + fail)
  }

  // ---------------------------------------------------------------------
  // /api/dashboard/toxicity-distribution
  // ---------------------------------------------------------------------

  /** `(p.get('toxicity') or '').upper() == 'TOXIC'` */
  predicate IsToxic(t: string) {
    Upper(t) == "TOXIC"
  }

  /**
   * The verdicts that count as toxic: five characters spelling "toxic" in
   * any mix of cases, where the `i` may also be a dotless i. "NON-TOXIC"
   * never counts.
   */
  lemma IsToxicIff(t: string)
    ensures IsToxic(t) <==>
      && |t| == 5
      && (t[0] == 't' || t[0] == 'T')
      && (t[1] == 'o' || t[1] == 'O')
      && (t[2] == 'x' || t[2] == 'X')
      && (t[3] == 'i' || t[3] == 'I' || t[3] == '\U{131}')
      && (t[4] == 'c' || t[4] == 'C')
    ensures !IsToxic("NON-TOXIC")
  {
    var u := Upper(t);
    if |t| == 5 {
      assert u == "TOXIC" <==> u[0] == 'T' && u[1] == 'O' && u[2] == 'X' && u[3] == 'I' && u[4] == 'C';
    }
    assert |Upper("NON-TOXIC")| == 9;
  }

  /** The number of stored predictions whose verdict is toxic. */
  function ToxicCount(ps: seq<Prediction>): (n: nat)
    ensures n <= |ps|
  {
    if ps == [] then 0
    else ToxicCount(ps[..|ps| - 1]) + (if IsToxic(ps[|ps| - 1].toxicity) then 1 else 0)
  }

  /** Counting distributes over concatenation. */
  lemma {:induction false} ToxicCountAppend(a: seq<Prediction>, b: seq<Prediction>)
    ensures ToxicCount(a + b) == ToxicCount(a) + ToxicCount(b)
  {
    if b == [] {
      assert a + b == a;
    } else {
      var b' := b[..|b| - 1];
      assert (a + b)[..|a + b| - 1] == a + b';
      assert (a + b)[|a + b| - 1] == b[|b| - 1];
      ToxicCountAppend(a, b');
    }
  }

  /** No prediction counts exactly when none is toxic; all count exactly when all are. */
  lemma {:induction false} ToxicCountExtremes(ps: seq<Prediction>)
    ensures ToxicCount(ps) == 0 <==> forall k :: 0 <= k < |ps| ==> !IsToxic(ps[k].toxicity)
    ensures ToxicCount(ps) == |ps| <==> forall k :: 0 <= k < |ps| ==> IsToxic(ps[k].toxicity)
  {
    if ps != [] {
      var init := ps[..|ps| - 1];
      ToxicCountExtremes(init);
      assert forall k :: 0 <= k < |init| ==> init[k] == ps[k];
    }
  }

  datatype Distribution = Distribution(toxic: nat, nonToxic: nat, total: nat)

  /**
   * `dashboard_toxicity_distribution()`: every stored prediction is counted
   * once, as toxic or as non-toxic.
   */
  function ToxicityDistribution(ps: seq<Prediction>): (d: Distribution)
    ensures d.toxic == ToxicCount(ps)
    ensures d.toxic + d.nonToxic == d.total == |ps|
    ensures d.toxic == 0 <==> forall k :: 0 <= k < |ps| ==> !IsToxic(ps[k].toxicity)
    ensures d.nonToxic == 0 <==> forall k :: 0 <= k < |ps| ==> IsToxic(ps[k].toxicity)
  {
    ToxicCountExtremes(ps);
    var toxic := ToxicCount(ps);
    Distribution(toxic, |ps| - toxic, |ps|)
  }

  /** Appending one prediction raises the total by one and exactly one of the two counts. */
  lemma DistributionAppend(ps: seq<Prediction>, p: Prediction)
    ensures var d, e := ToxicityDistribution(ps), ToxicityDistribution(ps + [p]);
      && e.total == d.total + 1
      && (IsToxic(p.toxicity) ==> e.toxic == d.toxic + 1 && e.nonToxic == d.nonToxic)
      && (!IsToxic(p.toxicity) ==> e.toxic == d.toxic && e.nonToxic == d.nonToxic + 1)
  {
    assert (ps + [p])[..|ps|] == ps;
  }

  // ---------------------------------------------------------------------
  // /api/dashboard/recent-predictions
  // ---------------------------------------------------------------------

  const RecentCap: int := 100

  /**
   * `dashboard_recent_predictions()` as written, for the integer value of
   * the `limit` argument: `reversed(DASHBOARD_PREDICTIONS[-limit:])` with
   * `limit = min(limit, 100)`. A positive limit gives the newest entries;
   * Python's `lst[-0:]` is the whole list, and a negative limit drops
   * entries from the front.
   */
  function RecentPredictions<T>(ps: seq<T>, limitArg: int): (r: seq<T>)
    ensures 1 <= limitArg ==> r == Reverse(Newest(ps, Min(limitArg, RecentCap)))
    ensures limitArg == 0 ==> r == Reverse(ps)
    ensures limitArg < 0 ==> r == Reverse(ps[Min(-limitArg, |ps|)..])
  {
    var limit := Min(limitArg, RecentCap);
    if limit >= 1 then
      PySliceNegativeStart(ps, limit);
      Reverse(PySlice(ps, -limit, |ps|))
    else
      Reverse(PySlice(ps, -limit, |ps|))
  }

  /** A limit of 0 lists every stored prediction, past the cap of 100. */
  lemma RecentZeroLimitPassesCap<T>(ps: seq<T>)
    requires |ps| > RecentCap
    ensures |RecentPredictions(ps, 0)| == |ps| > RecentCap
  {
  }

  /** A limit of -1 lists every prediction except the oldest. */
  lemma RecentNegativeLimitDropsOldest<T>(ps: seq<T>)
    requires |ps| >= 1
    ensures RecentPredictions(ps, -1) == Reverse(ps[1..])
    ensures |RecentPredictions(ps, -1)| == |ps| - 1
  {
  }

  /**
   * The recent-predictions query with the limit also clamped from below:
   * never more than 100 entries, the newest first.
   */
  function RecentPredictionsCapped<T>(ps: seq<T>, limitArg: int): (r: seq<T>)
    ensures |r| == Min(Max(limitArg, 0), Min(RecentCap, |ps|))
    ensures |r| <= RecentCap
    ensures forall k :: 0 <= k < |r| ==> r[k] == ps[|ps| - 1 - k]
  {
    var limit := Max(0, Min(limitArg, RecentCap));
    if limit == 0 then []
    else
      NewestReversed(ps, limit);
      RecentPredictions(ps, limit)
  }

  /** For limits from 1 to 100 the written and the capped query agree. */
  lemma RecentAgreesWhenPositive<T>(ps: seq<T>, limitArg: int)
    requires 1 <= limitArg
    ensures RecentPredictions(ps, limitArg) == RecentPredictionsCapped(ps, limitArg)
  {
  }

  // ---------------------------------------------------------------------
  // /api/dashboard/prediction-history
  // ---------------------------------------------------------------------

  const HistoryCap: int := 200

  datatype HistoryPage<T> = HistoryPage(predictions: seq<T>, total: nat, offset: nat, limit: int)

  /**
   * `dashboard_prediction_history()` as written, for the integer values of
   * the `limit` and `offset` arguments: `limit = min(limit, 200)`,
   * `offset = max(0, offset)` and the page `reversed(...)[offset:offset + limit]`.
   * For a non-negative limit the page is the window of the newest-first list
   * at `offset` of at most `limit` entries; a negative limit makes the slice
   * end count from the back of the list.
   */
  function PredictionHistory<T>(ps: seq<T>, limitArg: int, offsetArg: int): (h: HistoryPage<T>)
    ensures h.total == |ps| && h.offset == Max(0, offsetArg) && h.limit == Min(limitArg, HistoryCap)
    ensures h.limit >= 0 ==> h.predictions == Window(Reverse(ps), h.offset, h.limit)
    ensures h.limit < 0 ==>
      var lo := Min(h.offset, |ps|);
      h.predictions == Reverse(ps)[lo..Max(lo, SliceBound(h.offset + h.limit, |ps|))]
  {
    var limit := Min(limitArg, HistoryCap);
    var offset := Max(0, offsetArg);
    var all := Reverse(ps);
    if limit >= 0 then
      PySliceWindow(all, offset, limit);
      HistoryPage(PySlice(all, offset, offset + limit), |ps|, offset, limit)
    else
      HistoryPage(PySlice(all, offset, offset + limit), |ps|, offset, limit)
  }

  /** A limit of -1 at offset 0 returns all but one prediction instead of none. */
  lemma HistoryNegativeLimitListsAllButOne<T>(ps: seq<T>)
    requires |ps| >= 1
    ensures |PredictionHistory(ps, -1, 0).predictions| == |ps| - 1
    ensures PredictionHistory(ps, -1, 0).limit == -1
  {
  }

  /**
   * The history query with the limit also clamped from below: a page is the
   * window of the newest-first list at the offset and never holds more than
   * `limit <= 200` entries.
   */
  function PredictionHistoryCapped<T>(ps: seq<T>, limitArg: int, offsetArg: int): (h: HistoryPage<T>)
    ensures h.total == |ps| && h.offset == Max(0, offsetArg)
    ensures 0 <= h.limit <= HistoryCap && h.limit == Max(0, Min(limitArg, HistoryCap))
    ensures |h.predictions| <= h.limit
    ensures h.predictions == Window(Reverse(ps), h.offset, h.limit)
  {
    PredictionHistory(ps, Max(0, Min(limitArg, HistoryCap)), offsetArg)
  }

  /** Two consecutive pages of the capped history make up the page of twice the size. */
  lemma HistoryPagesAdjoin<T>(ps: seq<T>, limit: nat, offset: nat)
    requires limit <= HistoryCap / 2
    ensures PredictionHistoryCapped(ps, limit, offset).predictions
         + PredictionHistoryCapped(ps, limit, offset + limit).predictions
         == PredictionHistoryCapped(ps, 2 * limit, offset).predictions
  {
    WindowsAdjoin(Reverse(ps), offset, limit);
  }

  /** For limits from 1 to 100 the recent predictions are the first history page of that size. */
  lemma RecentIsFirstHistoryPage<T>(ps: seq<T>, limit: int)
    requires 1 <= limit <= RecentCap
    ensures RecentPredictions(ps, limit) == PredictionHistory(ps, limit, 0).predictions
  {
    var r := RecentPredictions(ps, limit);
    var h := PredictionHistory(ps, limit, 0).predictions;
    assert |r| == |h|;
    forall k | 0 <= k < |r| ensures r[k] == h[k] {
    }
  }
}
