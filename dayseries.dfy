/**
 * `/api/dashboard/predictions-over-time`: the stored predictions grouped by
 * the day of their timestamp, with toxic and non-toxic counts per day, in
 * ascending order of the day.
 */
module DaySeries {
  import opened Seqs
  import opened Events
  import opened Queries
  import opened Tallies

  /** `ts[:10] if len(ts) >= 10 else ts`: the date part of an ISO timestamp. */
  function Day(ts: string): (d: string)
    ensures |d| == Min(|ts|, 10) && d == ts[..|d|]
  {
    if |ts| >= 10 then ts[..10] else ts
  }

  function DayOf(p: Prediction): string {
    Day(p.timestamp)
  }

  predicate IsToxicPrediction(p: Prediction) {
    IsToxic(p.toxicity)
  }


  /** The number of predictions in `ps` logged on day `d`. */
  function DayTotal(ps: seq<Prediction>, d: string): nat {
    CountWhere(ps, DayOf, Always, d)
  }

  /** The number of toxic predictions in `ps` logged on day `d`. */
  function DayToxic(ps: seq<Prediction>, d: string): nat {
    CountWhere(ps, DayOf, IsToxicPrediction, d)
  }

  lemma {:induction false} CountKeptToxic(ps: seq<Prediction>)
    ensures CountKept(ps, IsToxicPrediction) == ToxicCount(ps)
  {
    if ps != [] {
      CountKeptToxic(ps[..|ps| - 1]);
    }
  }

  // ---------------------------------------------------------------------
  // Python's ordering of strings
  // ---------------------------------------------------------------------

  /** `a < b` on Python strings: lexicographic by code point, a proper prefix first. */
  predicate StrLt(a: string, b: string) {
    if a == [] then b != []
    else if b == [] then false
    else if a[0] != b[0] then a[0] < b[0]
    else StrLt(a[1..], b[1..])
  }

  lemma {:induction false} StrLtIrreflexive(a: string)
    ensures !StrLt(a, a)
  {
    if a != [] {
      StrLtIrreflexive(a[1..]);
    }
  }

  lemma {:induction false} StrLtTransitive(a: string, b: string, c: string)
    requires StrLt(a, b) && StrLt(b, c)
    ensures StrLt(a, c)
  {
    if a != [] && b != [] && c != [] && a[0] == b[0] && b[0] == c[0] {
      StrLtTransitive(a[1..], b[1..], c[1..]);
    }
  }

  /** Two different strings are ordered one way or the other. */
  lemma {:induction false} StrLtTotal(a: string, b: string)
    requires a != b
    ensures StrLt(a, b) || StrLt(b, a)
  {
    if a != [] && b != [] && a[0] == b[0] {
      assert a == [a[0]] + a[1..] && b == [b[0]] + b[1..];
      StrLtTotal(a[1..], b[1..]);
    }
  }

  // ---------------------------------------------------------------------
  // sorted(by_day.items())
  // ---------------------------------------------------------------------

  datatype DayPoint = DayPoint(date: string, total: nat, toxic: nat, nonToxic: nat)

  /** Each day comes before the next one. */
  predicate Ascending(s: seq<DayPoint>) {
    forall i :: 0 <= i < |s| - 1 ==> StrLt(s[i].date, s[i + 1].date)
  }

  /** Every day comes before every later one; in particular no day occurs twice. */
  lemma {:induction false} AscendingStrict(s: seq<DayPoint>)
    requires Ascending(s)
    ensures forall i, j :: 0 <= i < j < |s| ==> StrLt(s[i].date, s[j].date)
    ensures forall i, j :: 0 <= i < j < |s| ==> s[i].date != s[j].date
  {
    if s != [] {
      var t := s[1..];
      assert Ascending(t) by {
        forall i | 0 <= i < |t| - 1 ensures StrLt(t[i].date, t[i + 1].date) {
          assert t[i] == s[i + 1] && t[i + 1] == s[i + 2];
        }
      }
      AscendingStrict(t);
      forall i, j | 0 <= i < j < |s| ensures StrLt(s[i].date, s[j].date) {
        if i > 0 {
          assert s[i] == t[i - 1] && s[j] == t[j - 1];
        } else if j > 1 {
          assert s[1] == t[0] && s[j] == t[j - 1];
          StrLtTransitive(s[0].date, s[1].date, s[j].date);
        }
      }
      forall i, j | 0 <= i < j < |s| ensures s[i].date != s[j].date {
        if s[i].date == s[j].date {
          StrLtIrreflexive(s[i].date);
        }
      }
    }
  }

  function InsertByDate(x: DayPoint, r: seq<DayPoint>): (res: seq<DayPoint>)
    ensures |res| == |r| + 1
    ensures multiset(res) == multiset(r) + multiset{x}
    ensures res[0] == x || (r != [] && res[0] == r[0])
  {
    if r == [] || StrLt(x.date, r[0].date) then [x] + r
    else
      assert r == [r[0]] + r[1..];
      [r[0]] + InsertByDate(x, r[1..])
  }

  lemma {:induction false} InsertByDateAscending(x: DayPoint, r: seq<DayPoint>)
    requires Ascending(r)
    requires forall k :: 0 <= k < |r| ==> r[k].date != x.date
    ensures Ascending(InsertByDate(x, r))
  {
    if r != [] && !StrLt(x.date, r[0].date) {
      var t := r[1..];
      assert Ascending(t) by {
        forall i | 0 <= i < |t| - 1 ensures StrLt(t[i].date, t[i + 1].date) {
          assert t[i] == r[i + 1] && t[i + 1] == r[i + 2];
        }
      }
      assert forall k :: 0 <= k < |t| ==> t[k] == r[k + 1];
      InsertByDateAscending(x, t);
      var u := InsertByDate(x, t);
      StrLtTotal(x.date, r[0].date);
      assert StrLt(r[0].date, u[0].date) by {
        if u[0] != x {
          assert u[0] == r[1];
        }
      }
      var res := [r[0]] + u;
      forall i | 0 <= i < |res| - 1 ensures StrLt(res[i].date, res[i + 1].date) {
        if i > 0 {
          assert res[i] == u[i - 1] && res[i + 1] == u[i];
        }
      }
    }
  }

  /** `sorted(...)` on entries with distinct dates, as an insertion sort. */
  function SortByDate(s: seq<DayPoint>): (r: seq<DayPoint>)
    ensures |r| == |s|
    ensures multiset(r) == multiset(s)
  {
    if s == [] then []
    else
      assert s == [s[0]] + s[1..];
      InsertByDate(s[0], SortByDate(s[1..]))
  }

  /** Sorting entries with distinct dates puts them in ascending order. */
  lemma {:induction false} SortByDateAscending(s: seq<DayPoint>)
    requires forall i, j :: 0 <= i < j < |s| ==> s[i].date != s[j].date
    ensures Ascending(SortByDate(s))
  {
    if s != [] {
      var t := s[1..];
      assert forall i, j :: 0 <= i < j < |t| ==> t[i].date != t[j].date by {
        forall i, j | 0 <= i < j < |t| ensures t[i].date != t[j].date {
          assert t[i] == s[i + 1] && t[j] == s[j + 1];
        }
      }
      SortByDateAscending(t);
      var r := SortByDate(t);
      forall k | 0 <= k < |r| ensures r[k].date != s[0].date {
        assert r[k] in multiset(t);
        var m :| 0 <= m < |t| && t[m] == r[k];
        assert t[m] == s[m + 1];
      }
      InsertByDateAscending(s[0], r);
    }
  }

  // ---------------------------------------------------------------------
  // dashboard_predictions_over_time
  // ---------------------------------------------------------------------

  /** The value the service keeps per day: `{'total': ..., 'toxic': ..., 'non_toxic': ...}`. */
  datatype Tally = Tally(total: nat, toxic: nat, nonToxic: nat)

  /** `[{'date': k, **v} for k, v in ...]`, for the days in `days`. */
  function Points(days: seq<string>, byDay: map<string, Tally>): (r: seq<DayPoint>)
    requires forall j :: 0 <= j < |days| ==> days[j] in byDay
    ensures |r| == |days|
    ensures forall j :: 0 <= j < |days| ==>
      r[j] == DayPoint(days[j], byDay[days[j]].total, byDay[days[j]].toxic, byDay[days[j]].nonToxic)
  {
    if days == [] then []
    else
      var d := days[|days| - 1];
      Points(days[..|days| - 1], byDay) + [DayPoint(d, byDay[d].total, byDay[d].toxic, byDay[d].nonToxic)]
  }

  /** Each entry holds the number of predictions of its day, split into toxic and non-toxic. */
  predicate CountsMatch(ps: seq<Prediction>, series: seq<DayPoint>) {
    forall i :: 0 <= i < |series| ==>
      && series[i].total == DayTotal(ps, series[i].date)
      && series[i].toxic == DayToxic(ps, series[i].date)
      && series[i].toxic + series[i].nonToxic == series[i].total
      && series[i].total > 0
  }

  /** Some entry is for day `d`. */
  predicate HasDay(series: seq<DayPoint>, d: string) {
    exists i :: 0 <= i < |series| && series[i].date == d
  }

  /** The day of every prediction has an entry. */
  predicate CoversDays(ps: seq<Prediction>, series: seq<DayPoint>) {
    forall k :: 0 <= k < |ps| ==> HasDay(series, DayOf(ps[k]))
  }

  /**
   * What the loop of `dashboard_predictions_over_time()` has built after
   * the predictions `xs`: `days` lists, without repetition, the keys of
   * `byDay` in insertion order, and each day's tally counts the predictions
   * of `xs` on that day.
   */
  ghost predicate Grouped(xs: seq<Prediction>, days: seq<string>, byDay: map<string, Tally>) {
    && Distinct(days)
    && (forall d :: d in byDay <==> d in days)
    && (forall k :: 0 <= k < |xs| ==> DayOf(xs[k]) in byDay)
    && TalliesHold(xs, byDay)
  }

  /** Counting one more prediction changes the counts of its own day only. */
  lemma DayCountsAppend(xs: seq<Prediction>, p: Prediction, d: string)
    ensures DayTotal(xs + [p], d) == DayTotal(xs, d) + (if d == DayOf(p) then 1 else 0)
    ensures DayToxic(xs + [p], d) == DayToxic(xs, d) + (if d == DayOf(p) && IsToxic(p.toxicity) then 1 else 0)
  {
    CountWhereAppend(xs, p, DayOf, Always, d);
    CountWhereAppend(xs, p, DayOf, IsToxicPrediction, d);
  }

  /** A day without predictions so far has counts 0. */
  lemma DayCountsAbsent(xs: seq<Prediction>, d: string)
    requires forall k :: 0 <= k < |xs| ==> DayOf(xs[k]) != d
    ensures DayTotal(xs, d) == 0 && DayToxic(xs, d) == 0
  {
    CountWhereAbsent(xs, DayOf, Always, d);
    CountWhereAbsent(xs, DayOf, IsToxicPrediction, d);
  }

  /** The unsorted entries of a finished grouping already hold the right counts. */
  lemma PointsOfGrouped(ps: seq<Prediction>, days: seq<string>, byDay: map<string, Tally>)
    requires Grouped(ps, days, byDay)
    ensures forall j :: 0 <= j < |days| ==> days[j] in byDay
    ensures var points := Points(days, byDay);
      && CountsMatch(ps, points) && CoversDays(ps, points)
      && forall j1, j2 :: 0 <= j1 < j2 < |points| ==> points[j1].date != points[j2].date
  {
    var points := Points(days, byDay);
    forall k | 0 <= k < |ps|
      ensures HasDay(points, DayOf(ps[k]))
    {
      assert DayOf(ps[k]) in days;
      var j :| 0 <= j < |days| && days[j] == DayOf(ps[k]);
      assert points[j].date == days[j];
    }
  }

  /** Sorting neither loses nor invents an entry. */
  lemma SortByDateSameEntries(points: seq<DayPoint>)
    ensures var series := SortByDate(points);
      && (forall i :: 0 <= i < |series| ==> series[i] in points)
      && (forall j :: 0 <= j < |points| ==> points[j] in series)
  {
    var series := SortByDate(points);
    forall i | 0 <= i < |series|
      ensures series[i] in points
    {
      assert series[i] in multiset(points);
    }
    forall j | 0 <= j < |points|
      ensures points[j] in series
    {
      assert points[j] in multiset(series);
    }
  }

  /** Entries drawn from a list with the right counts have the right counts. */
  lemma CountsMatchOfEntries(ps: seq<Prediction>, a: seq<DayPoint>, b: seq<DayPoint>)
    requires CountsMatch(ps, a)
    requires forall i :: 0 <= i < |b| ==> b[i] in a
    ensures CountsMatch(ps, b)
  {
    forall i | 0 <= i < |b|
      ensures b[i].total == DayTotal(ps, b[i].date) && b[i].toxic == DayToxic(ps, b[i].date)
      ensures b[i].toxic + b[i].nonToxic == b[i].total && b[i].total > 0
    {
      var j :| 0 <= j < |a| && a[j] == b[i];
    }
  }

  /** A list holding every entry of a list that covers the days covers them too. */
  lemma CoversDaysOfEntries(ps: seq<Prediction>, a: seq<DayPoint>, b: seq<DayPoint>)
    requires CoversDays(ps, a)
    requires forall j :: 0 <= j < |a| ==> a[j] in b
    ensures CoversDays(ps, b)
  {
    forall k | 0 <= k < |ps|
      ensures HasDay(b, DayOf(ps[k]))
    {
      assert HasDay(a, DayOf(ps[k]));
      var j :| 0 <= j < |a| && a[j].date == DayOf(ps[k]);
      assert a[j] in b;
      var m :| 0 <= m < |b| && b[m] == a[j];
    }
  }

  /** The sorted entries of a finished grouping form the series. */
  lemma SeriesOfGrouped(ps: seq<Prediction>, days: seq<string>, byDay: map<string, Tally>)
    requires Grouped(ps, days, byDay)
    ensures forall j :: 0 <= j < |days| ==> days[j] in byDay
    ensures var series := SortByDate(Points(days, byDay));
      Ascending(series) && CountsMatch(ps, series) && CoversDays(ps, series)
  {
    PointsOfGrouped(ps, days, byDay);
    var points := Points(days, byDay);
    SortByDateAscending(points);
    SortByDateSameEntries(points);
    CountsMatchOfEntries(ps, points, SortByDate(points));
    CoversDaysOfEntries(ps, points, SortByDate(points));
  }

  /**
   * Counting prediction `p` into the grouping of `xs`: its day gets the
   * tally `t`, one more than before (from zero for a new day, which is
   * appended to the days).
   */
  lemma GroupedStep(xs: seq<Prediction>, p: Prediction, days: seq<string>, byDay: map<string, Tally>,
                    t: Tally, xs2: seq<Prediction>, days2: seq<string>, byDay2: map<string, Tally>)
    requires Grouped(xs, days, byDay)
    requires var before := if DayOf(p) in byDay then byDay[DayOf(p)] else Tally(0, 0, 0);
      && t.total == before.total + 1
      && t.toxic == before.toxic + (if IsToxic(p.toxicity) then 1 else 0)
      && t.nonToxic == before.nonToxic + (if IsToxic(p.toxicity) then 0 else 1)
    requires days2 == if DayOf(p) in byDay then days else days + [DayOf(p)]
    requires byDay2 == byDay[DayOf(p) := t]
    requires xs2 == xs + [p]
    ensures Grouped(xs2, days2, byDay2)
  {
    var day := DayOf(p);
    if day !in byDay {
      DayCountsAbsent(xs, day);
      DistinctAppend(days, day);
    }
    DaysCoveredStep(xs, p, byDay2);
    TalliesStep(xs, p, byDay, t, byDay2);
  }

  /** Each day's tally holds that day's counts. */
  ghost predicate TalliesHold(xs: seq<Prediction>, byDay: map<string, Tally>) {
    forall d :: d in byDay ==>
      && byDay[d].total == DayTotal(xs, d)
      && byDay[d].toxic == DayToxic(xs, d)
      && byDay[d].toxic + byDay[d].nonToxic == byDay[d].total
      && byDay[d].total > 0
  }

  /** Tallying `p` into its own day keeps every day's tally equal to its counts. */
  lemma TalliesStep(xs: seq<Prediction>, p: Prediction, byDay: map<string, Tally>, t: Tally, byDay2: map<string, Tally>)
    requires TalliesHold(xs, byDay)
    requires DayOf(p) !in byDay ==> DayTotal(xs, DayOf(p)) == 0 && DayToxic(xs, DayOf(p)) == 0
    requires var before := if DayOf(p) in byDay then byDay[DayOf(p)] else Tally(0, 0, 0);
      && t.total == before.total + 1
      && t.toxic == before.toxic + (if IsToxic(p.toxicity) then 1 else 0)
      && t.nonToxic == before.nonToxic + (if IsToxic(p.toxicity) then 0 else 1)
    requires byDay2 == byDay[DayOf(p) := t]
    ensures TalliesHold(xs + [p], byDay2)
  {
    forall d | d in byDay2
      ensures && byDay2[d].total == DayTotal(xs + [p], d)
              && byDay2[d].toxic == DayToxic(xs + [p], d)
              && byDay2[d].toxic + byDay2[d].nonToxic == byDay2[d].total
              && byDay2[d].total > 0
    {
      DayCountsAppend(xs, p, d);
      if d != DayOf(p) {
        assert byDay2[d] == byDay[d];
      }
    }
  }

  /** A new key added at the end keeps a list free of repetitions. */
  lemma DistinctAppend(ks: seq<string>, k: string)
    requires Distinct(ks) && k !in ks
    ensures Distinct(ks + [k])
  {
    var ks2 := ks + [k];
    forall i, j | 0 <= i < j < |ks2| ensures ks2[i] != ks2[j] {
      assert ks2[i] == ks[i];
      if j < |ks| {
        assert ks2[j] == ks[j];
      }
    }
  }

  /** When the earlier predictions' days and the new one's are keys, so are those of all of them. */
  lemma DaysCoveredStep(xs: seq<Prediction>, p: Prediction, byDay2: map<string, Tally>)
    requires forall k :: 0 <= k < |xs| ==> DayOf(xs[k]) in byDay2
    requires DayOf(p) in byDay2
    ensures forall k :: 0 <= k < |xs + [p]| ==> DayOf((xs + [p])[k]) in byDay2
  {
    forall k | 0 <= k < |xs + [p]|
      ensures DayOf((xs + [p])[k]) in byDay2
    {
      if k < |xs| {
        assert (xs + [p])[k] == xs[k];
      }
    }
  }

  /**
   * `dashboard_predictions_over_time()`: one entry per day that has a
   * prediction, holding that day's counts, sorted by date.
   */
  method PredictionsOverTime(ps: seq<Prediction>) returns (series: seq<DayPoint>)
    ensures Ascending(series)
    ensures CountsMatch(ps, series)
    ensures CoversDays(ps, series)
  {
    var byDay: map<string, Tally> := map[];
    var days: seq<string> := [];
    var i := 0;
    while i < |ps|
      invariant 0 <= i <= |ps|
      invariant Grouped(ps[..i], days, byDay)
    {
      var p := ps[i];
      var day := Day(p.timestamp);
      ghost var i0, days0, byDay0 := i, days, byDay;
      if day !in byDay {
        byDay := byDay[day := Tally(0, 0, 0)];
        days := days + [day];
      }
      var t := byDay[day];
      if IsToxic(p.toxicity) {
        t := Tally(t.total + 1, t.toxic + 1, t.nonToxic);
      } else {
        t := Tally(t.total + 1, t.toxic, t.nonToxic + 1);
      }
      byDay := byDay[day := t];
      assert byDay == byDay0[day := t];
      i := i + 1;
      assert ps[..i] == ps[..i0] + [p];
      GroupedStep(ps[..i0], p, days0, byDay0, t, ps[..i], days, byDay);
    }
    assert ps[..i] == ps;
    SeriesOfGrouped(ps, days, byDay);
    series := SortByDate(Points(days, byDay));
  }

  // ---------------------------------------------------------------------
  // The per-day counts partition the predictions
  // ---------------------------------------------------------------------

  function Dates(series: seq<DayPoint>): (ds: seq<string>)
    ensures |ds| == |series|
    ensures forall i :: 0 <= i < |series| ==> ds[i] == series[i].date
  {
    if series == [] then [] else Dates(series[..|series| - 1]) + [series[|series| - 1].date]
  }

  function SumTotals(series: seq<DayPoint>): nat {
    if series == [] then 0 else SumTotals(series[..|series| - 1]) + series[|series| - 1].total
  }

  function SumToxic(series: seq<DayPoint>): nat {
    if series == [] then 0 else SumToxic(series[..|series| - 1]) + series[|series| - 1].toxic
  }

  lemma {:induction false} SumsAreSumOver(ps: seq<Prediction>, series: seq<DayPoint>)
    requires CountsMatch(ps, series)
    ensures SumTotals(series) == SumOver(ps, DayOf, Always, Dates(series))
    ensures SumToxic(series) == SumOver(ps, DayOf, IsToxicPrediction, Dates(series))
  {
    if series != [] {
      var init := series[..|series| - 1];
      assert forall i :: 0 <= i < |init| ==> init[i] == series[i];
      SumsAreSumOver(ps, init);
      assert Dates(series)[..|series| - 1] == Dates(init);
    }
  }

  /**
   * The series loses and duplicates no prediction: the per-day totals add up
   * to the number of stored predictions, and the per-day toxic counts to the
   * toxic count of the distribution.
   */
  lemma SeriesPartition(ps: seq<Prediction>, series: seq<DayPoint>)
    requires Ascending(series) && CountsMatch(ps, series) && CoversDays(ps, series)
    ensures SumTotals(series) == |ps|
    ensures SumToxic(series) == ToxicCount(ps)
  {
    AscendingStrict(series);
    var ds := Dates(series);
    assert Distinct(ds);
    forall k | 0 <= k < |ps| ensures DayOf(ps[k]) in ds {
      var i :| 0 <= i < |series| && series[i].date == DayOf(ps[k]);
      assert ds[i] == DayOf(ps[k]);
    }
    SumsAreSumOver(ps, series);
    PartitionSum(ps, DayOf, Always, ds);
    PartitionSum(ps, DayOf, IsToxicPrediction, ds);
    CountKeptAlways(ps);
    CountKeptToxic(ps);
  }
}
