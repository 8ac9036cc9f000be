/**
 * `GET /api/stats/yearly?websiteId=...&fromYear=...&toYear=...`: the report of
 * one website over a range of calendar years, newest year first, with the
 * year-over-year growth of the page views.
 */
module YearlyRoute {
  import opened Wrappers
  import opened Text
  import opened Sequences
  import opened Visits
  import opened Metrics
  import opened Tallies
  import opened Ranking
  import opened Http
  import opened CalendarTotals

  /** One entry of `yearlyData`. */
  datatype YearStats = YearStats(
    year: int,
    pageViews: nat,
    uniqueVisitors: nat,
    totalSessions: nat,
    averageDuration: nat,
    bounceRate: nat,
    growthRate: int)

  function EmptyYear(year: int): YearStats {
    YearStats(year, 0, 0, 0, 0, 0, 0)
  }

  /** How many years lie from `fromYear` to `toYear`; none when the range is reversed. */
  function YearCount(fromYear: int, toYear: int): nat {
    if toYear < fromYear then 0 else toYear - fromYear + 1
  }

  /** What `generateEmptyYears` builds: a zero entry per year, from `toYear` down to `fromYear`. */
  function EmptyYears(fromYear: int, toYear: int): seq<YearStats> {
    seq(YearCount(fromYear, toYear), i requires 0 <= i < YearCount(fromYear, toYear) => EmptyYear(toYear - i))
  }

  /** `generateEmptyYears`: the descending `for` loop. */
  method GenerateEmptyYears(fromYear: int, toYear: int) returns (years: seq<YearStats>)
    ensures years == EmptyYears(fromYear, toYear)
  {
    years := [];
    var year := toYear;
    while year >= fromYear
      invariant year <= toYear && (fromYear - 1 <= year || year == toYear)
      invariant |years| == toYear - year
      invariant forall j :: 0 <= j < |years| ==> years[j] == EmptyYear(toYear - j)
      decreases year - fromYear
    {
      years := years + [YearStats(year, 0, 0, 0, 0, 0, 0)];
      year := year - 1;
    }
    assert |years| == YearCount(fromYear, toYear);
  }

  /** The entry of year `y` before growth rates: the counts of the rows dated in that year. */
  function YearStatsOf(rows: seq<Visit>, y: int): YearStats {
    var t := TotalsOf(rows, YearOf, y);
    YearStats(y, t.pageViews, |t.sessions|, |t.sessions|, MeanDuration(t), GuardedBounceRate(Filter(rows, YearOf, y)), 0)
  }

  /** The entries sorted by year, newest first, before growth rates. */
  function YearEntries(rows: seq<Visit>, fromYear: int, toYear: int): seq<YearStats> {
    seq(YearCount(fromYear, toYear), i requires 0 <= i < YearCount(fromYear, toYear) => YearStatsOf(rows, toYear - i))
  }

  /**
   * `Math.round((current - previous) / previous * 100)`: the nearest integer to
   * the percentage change from `previous` to `current`, halves rounded up.
   */
  function GrowthRate(current: nat, previous: nat): (r: int)
    requires previous > 0
    ensures 2 * previous * r <= 200 * (current - previous) + previous < 2 * previous * (r + 1)
  {
    RoundPercent(current - previous, previous)
  }

  /** Entry `i` after the growth-rate loop: the growth over the next (older) entry when that one has page views. */
  function GrowthAt(ys: seq<YearStats>, i: nat): YearStats
    requires i < |ys|
  {
    if i + 1 < |ys| && ys[i + 1].pageViews > 0
    then ys[i].(growthRate := GrowthRate(ys[i].pageViews, ys[i + 1].pageViews))
    else ys[i]
  }

  /**
   * The entries after the growth-rate loop: one per entry before it, the
   * oldest, which has no older one to grow over, left as it was.
   */
  function WithGrowthRates(ys: seq<YearStats>): (r: seq<YearStats>)
    ensures |r| == |ys|
    ensures |ys| > 0 ==> r[|ys| - 1] == ys[|ys| - 1]
  {
    seq(|ys|, i requires 0 <= i < |ys| => GrowthAt(ys, i))
  }

  /** The growth-rate loop writes `growthRate` and nothing else. */
  lemma GrowthKeepsCounts(ys: seq<YearStats>)
    ensures |WithGrowthRates(ys)| == |ys|
    ensures forall i :: 0 <= i < |ys| ==> WithGrowthRates(ys)[i] == ys[i].(growthRate := WithGrowthRates(ys)[i].growthRate)
  {
  }

  lemma YearEntriesAt(rows: seq<Visit>, fromYear: int, toYear: int, i: int)
    requires 0 <= i < YearCount(fromYear, toYear)
    ensures |YearEntries(rows, fromYear, toYear)| == YearCount(fromYear, toYear)
    ensures YearEntries(rows, fromYear, toYear)[i] == YearStatsOf(rows, toYear - i)
    ensures YearEntries(rows, fromYear, toYear)[i].year == toYear - i
    ensures YearEntries(rows, fromYear, toYear)[i].growthRate == 0
  {
  }

  /** What `groupByYear` returns. */
  function YearlyOf(rows: seq<Visit>, fromYear: int, toYear: int): seq<YearStats> {
    WithGrowthRates(YearEntries(rows, fromYear, toYear))
  }

  /** The growth-rate loop, overwriting `growthRate` in place. */
  method ApplyGrowthRates(a: array<YearStats>)
    modifies a
    ensures a[..] == WithGrowthRates(old(a[..]))
  {
    ghost var original := a[..];
    var i := 0;
    while i + 1 < a.Length
      invariant 0 <= i <= a.Length
      invariant forall j :: 0 <= j < i ==> a[j] == GrowthAt(original, j)
      invariant forall j :: i <= j < a.Length ==> a[j] == original[j]
    {
      var current := a[i];
      var previous := a[i + 1];
      if previous.pageViews > 0 {
        a[i] := current.(growthRate := GrowthRate(current.pageViews, previous.pageViews));
      }
      i := i + 1;
    }
    assert forall j :: 0 <= j < a.Length ==> a[j] == GrowthAt(original, j);
  }

  /**
   * `groupByYear`: open an accumulator for each year of the range, add every row
   * dated in the range to the one of its year, list the years newest first,
   * then fill in the growth rates.
   */
  method GroupByYear(rows: seq<Visit>, fromYear: int, toYear: int) returns (yearly: seq<YearStats>)
    ensures yearly == YearlyOf(rows, fromYear, toYear)
  {
    var yearlyMap: map<int, Totals> := map[];
    var year := fromYear;
    while year <= toYear
      invariant fromYear <= year && (year <= toYear + 1 || year == fromYear)
      invariant forall k :: k in yearlyMap <==> fromYear <= k < year
      invariant forall k :: k in yearlyMap ==> yearlyMap[k] == NoTotals
      decreases toYear - year
    {
      yearlyMap := yearlyMap[year := NoTotals];
      year := year + 1;
    }
    TotalsMatchStart(yearlyMap, rows, YearOf, fromYear, toYear);
    for i := 0 to |rows|
      invariant TotalsMatch(yearlyMap, rows[..i], YearOf, fromYear, toYear)
    {
      TotalsStep(yearlyMap, rows, i, YearOf, fromYear, toYear);
      var v := rows[i];
      var y := v.local.year;
      if y >= fromYear && y <= toYear {
        yearlyMap := yearlyMap[y := AddVisit(yearlyMap[y], v)];
      }
    }
    assert rows[..|rows|] == rows;
    var entries := YearEntriesOf(rows, yearlyMap, fromYear, toYear);
    var a := new YearStats[|entries|](i requires 0 <= i < |entries| => entries[i]);
    ApplyGrowthRates(a);
    yearly := a[..];
  }

  /** The entries of `groupByYear` newest first, each with the bounce rate of `calculateYearBounceRate`. */
  method YearEntriesOf(rows: seq<Visit>, yearlyMap: map<int, Totals>, fromYear: int, toYear: int)
    returns (entries: seq<YearStats>)
    requires TotalsMatch(yearlyMap, rows, YearOf, fromYear, toYear)
    ensures entries == YearEntries(rows, fromYear, toYear)
  {
    var n := YearCount(fromYear, toYear);
    entries := [];
    for k := 0 to n
      invariant |entries| == k
      invariant forall j :: 0 <= j < k ==> entries[j] == YearStatsOf(rows, toYear - j)
    {
      var y := toYear - k;
      var stats := yearlyMap[y];
      var bounceRate := PeriodBounceRate(rows, YearOf, y);
      var entry := YearStats(y, stats.pageViews, |stats.sessions|, |stats.sessions|, MeanDuration(stats), bounceRate, 0);
      assert stats == TotalsOf(rows, YearOf, y);
      assert entry == YearStatsOf(rows, y);
      entries := entries + [entry];
    }
    forall j | 0 <= j < n ensures entries[j] == YearEntries(rows, fromYear, toYear)[j] {
      YearEntriesAt(rows, fromYear, toYear, j);
    }
  }

  /** One entry per year of the range, newest first, so the years strictly decrease. */
  lemma YearlyShape(rows: seq<Visit>, fromYear: int, toYear: int)
    ensures |YearlyOf(rows, fromYear, toYear)| == YearCount(fromYear, toYear)
    ensures forall i :: 0 <= i < YearCount(fromYear, toYear) ==> YearlyOf(rows, fromYear, toYear)[i].year == toYear - i
    ensures forall i, j :: 0 <= i < j < YearCount(fromYear, toYear) ==>
      YearlyOf(rows, fromYear, toYear)[i].year > YearlyOf(rows, fromYear, toYear)[j].year
  {
    var ys := YearlyOf(rows, fromYear, toYear);
    GrowthKeepsCounts(YearEntries(rows, fromYear, toYear));
    forall i | 0 <= i < YearCount(fromYear, toYear) ensures ys[i].year == toYear - i {
      YearEntriesAt(rows, fromYear, toYear, i);
    }
  }

  /**
   * Each entry grows over the next older one when that one has page views and
   * is 0 otherwise; the oldest entry is always 0.
   */
  lemma GrowthRates(rows: seq<Visit>, fromYear: int, toYear: int)
    ensures var ys := YearlyOf(rows, fromYear, toYear);
      && (forall i :: 0 <= i < |ys| - 1 ==>
            ys[i].growthRate == if ys[i + 1].pageViews > 0 then GrowthRate(ys[i].pageViews, ys[i + 1].pageViews) else 0)
      && (|ys| > 0 ==> ys[|ys| - 1].growthRate == 0)
  {
    var entries := YearEntries(rows, fromYear, toYear);
    var ys := YearlyOf(rows, fromYear, toYear);
    GrowthKeepsCounts(entries);
    forall i | 0 <= i < |ys|
      ensures ys[i].growthRate == if i + 1 < |ys| && ys[i + 1].pageViews > 0 then GrowthRate(ys[i].pageViews, ys[i + 1].pageViews) else 0
    {
      YearEntriesAt(rows, fromYear, toYear, i);
      assert ys[i] == GrowthAt(entries, i);
    }
    if |ys| > 0 {
      var last := |ys| - 1;
      YearEntriesAt(rows, fromYear, toYear, last);
      assert ys[last] == GrowthAt(entries, last);
    }
  }

  /**
   * A growth rate is never below -100 %, is 0 for an unchanged count, is
   * non-negative for a rise and non-positive for a fall, and is 100 % when the
   * count doubles.
   */
  lemma GrowthRateSign(current: nat, previous: nat)
    requires previous > 0
    ensures GrowthRate(current, previous) >= -100
    ensures current >= previous ==> GrowthRate(current, previous) >= 0
    ensures current <= previous ==> GrowthRate(current, previous) <= 0
    ensures current == previous ==> GrowthRate(current, previous) == 0
    ensures current == 2 * previous ==> GrowthRate(current, previous) == 100
  {
    var r := GrowthRate(current, previous);
    var part := current - previous;
    assert 2 * previous * r <= 200 * part + previous < 2 * previous * (r + 1);
    MulCancel(2 * previous, -101, r + 1);
    if current >= previous {
      MulCancel(2 * previous, -1, r + 1);
    }
    if current <= previous {
      MulCancel(2 * previous, r, 1);
    }
    if current == 2 * previous {
      MulCancel(2 * previous, 99, r + 1);
      MulCancel(2 * previous, r, 101);
    }
  }

  /** Every year's entry: visitors equal sessions, at most its page views; a percentage bounce rate; all zero for an empty year. */
  lemma YearBounds(rows: seq<Visit>, y: int)
    ensures var e := YearStatsOf(rows, y);
      && e.uniqueVisitors == e.totalSessions <= e.pageViews
      && e.bounceRate <= 100
      && (e.pageViews == 0 <==> e == EmptyYear(y))
  {
    PeriodBounds(rows, YearOf, y);
  }

  /** A row of another year leaves the entry of year `y` as it was. */
  lemma YearStatsSkip(rows: seq<Visit>, v: Visit, y: int)
    requires YearOf(v) != y
    ensures YearStatsOf(rows + [v], y) == YearStatsOf(rows, y)
  {
    TotalsOfSnoc(rows, v, YearOf, y);
    FilterSnoc(rows, v, YearOf, y);
    assert Filter(rows, YearOf, y) + [] == Filter(rows, YearOf, y);
  }

  /** A row dated outside the range changes nothing. */
  lemma OutOfRangeIgnored(rows: seq<Visit>, v: Visit, fromYear: int, toYear: int)
    requires v.local.year < fromYear || v.local.year > toYear
    ensures YearlyOf(rows + [v], fromYear, toYear) == YearlyOf(rows, fromYear, toYear)
  {
    var before := YearEntries(rows, fromYear, toYear);
    var after := YearEntries(rows + [v], fromYear, toYear);
    forall i | 0 <= i < |before| ensures after[i] == before[i] {
      YearStatsSkip(rows, v, toYear - i);
    }
    assert after == before;
  }

  function YearPageViews(e: YearStats): nat { e.pageViews }

  /** The years of the range, newest first. */
  function YearsDown(fromYear: int, toYear: int): seq<int> {
    seq(YearCount(fromYear, toYear), i requires 0 <= i < YearCount(fromYear, toYear) => toYear - i)
  }

  /** The page views of the entry of year `toYear - i` are the number of rows of that year. */
  lemma EntryPageViewsAt(rows: seq<Visit>, fromYear: int, toYear: int, i: int)
    requires 0 <= i < YearCount(fromYear, toYear)
    ensures |YearlyOf(rows, fromYear, toYear)| == YearCount(fromYear, toYear)
    ensures YearlyOf(rows, fromYear, toYear)[i].pageViews == Count(Project(rows, YearOf), toYear - i)
  {
    var entries := YearEntries(rows, fromYear, toYear);
    assert entries[i] == YearStatsOf(rows, toYear - i);
    assert YearlyOf(rows, fromYear, toYear)[i] == GrowthAt(entries, i);
    FilterLength(rows, YearOf, toYear - i);
  }

  /** The page views of the entries are the row counts of their years. */
  lemma EntryPageViews(rows: seq<Visit>, fromYear: int, toYear: int)
    ensures var counts := Project(YearlyOf(rows, fromYear, toYear), YearPageViews);
      var keys := YearsDown(fromYear, toYear);
      && |counts| == |keys|
      && forall i :: 0 <= i < |keys| ==> counts[i] == Count(Project(rows, YearOf), keys[i])
  {
    var counts := Project(YearlyOf(rows, fromYear, toYear), YearPageViews);
    var keys := YearsDown(fromYear, toYear);
    assert |YearlyOf(rows, fromYear, toYear)| == |keys|;
    forall i | 0 <= i < |keys| ensures counts[i] == Count(Project(rows, YearOf), keys[i]) {
      EntryPageViewsAt(rows, fromYear, toYear, i);
      assert counts[i] == YearlyOf(rows, fromYear, toYear)[i].pageViews;
    }
  }

  /** Conservation: when every row is dated in the range, the yearly page views add up to the row count. */
  lemma {:induction false} YearlyConserves(rows: seq<Visit>, fromYear: int, toYear: int)
    requires forall v :: v in rows ==> fromYear <= v.local.year <= toYear
    ensures Sum(Project(YearlyOf(rows, fromYear, toYear), YearPageViews)) == |rows|
  {
    var keys := YearsDown(fromYear, toYear);
    var years := Project(rows, YearOf);
    EntryPageViews(rows, fromYear, toYear);
    SumMatchesTotal(Project(YearlyOf(rows, fromYear, toYear), YearPageViews), keys, years);
    forall x | x in years ensures x in keys {
      var j :| 0 <= j < |rows| && years[j] == x;
      assert rows[j] in rows;
      assert keys[toYear - x] == x;
    }
    CountsSumToLength(keys, years);
  }

  /** The yearly list of an empty slice is the zero list `generateEmptyYears` builds. */
  lemma EmptyYearly(fromYear: int, toYear: int)
    ensures YearlyOf([], fromYear, toYear) == EmptyYears(fromYear, toYear)
  {
    var zeros := EmptyYears(fromYear, toYear);
    var entries := YearEntries([], fromYear, toYear);
    forall i | 0 <= i < |zeros| ensures entries[i] == zeros[i] {
      YearBounds([], toYear - i);
    }
    assert entries == zeros;
    forall i | 0 <= i < |zeros| ensures GrowthAt(zeros, i) == zeros[i] {
      if i + 1 < |zeros| {
        assert zeros[i + 1] == EmptyYear(toYear - (i + 1));
      }
    }
    assert WithGrowthRates(zeros) == zeros;
  }

  datatype YearlyQuery = YearlyQuery(websiteId: Option<string>, fromYear: Option<string>, toYear: Option<string>)

  /** The JSON body of the yearly report. */
  datatype YearlyReport = YearlyReport(
    summary: Summary,
    yearlyData: seq<YearStats>,
    topPages: seq<PageEntry>,
    deviceStats: DeviceStats,
    referrerStats: map<string, nat>)

  function YearlyReportOf(rows: seq<Visit>, fromYear: int, toYear: int): YearlyReport {
    YearlyReport(GuardedSummaryOf(rows), YearlyOf(rows, fromYear, toYear), TopPages(rows, 10), DeviceStatsOf(rows), ReferrerStatsOf(rows))
  }

  /** The literal body sent when the range has no row. */
  function EmptyYearlyReport(fromYear: int, toYear: int): YearlyReport {
    YearlyReport(ZeroSummary, EmptyYears(fromYear, toYear), [], EmptyDeviceStats, map[])
  }

  /** `parseInt(fromYear || String(currentYear - 4), 10)`. */
  function RequestedFromYear(q: YearlyQuery, currentYear: int): Option<int> {
    ParseInt(OrElse(q.fromYear, IntToString(currentYear - 4)))
  }

  /** `parseInt(toYear || String(currentYear), 10)`. */
  function RequestedToYear(q: YearlyQuery, currentYear: int): Option<int> {
    ParseInt(OrElse(q.toYear, IntToString(currentYear)))
  }

  /**
   * What `GET` answers: 400 without a website id; 500 when either year is not a
   * number; otherwise the report of the website's rows in the range.
   */
  function YearlyResponse(q: YearlyQuery, currentYear: int, table: seq<Visit>): (r: Response<YearlyReport>)
    ensures r.BadRequest? <==> !Present(q.websiteId)
    ensures r.ServerError? <==>
      Present(q.websiteId) && (RequestedFromYear(q, currentYear).None? || RequestedToYear(q, currentYear).None?)
    ensures r.BadRequest? || r.ServerError? || r.Ok?
  {
    if !Present(q.websiteId) then BadRequest("Website ID is required")
    else if RequestedFromYear(q, currentYear).None? || RequestedToYear(q, currentYear).None? then
      ServerError("Internal server error")
    else
      var fromYear := RequestedFromYear(q, currentYear).value;
      var toYear := RequestedToYear(q, currentYear).value;
      Ok(YearlyReportOf(YearsRows(table, q.websiteId.value, fromYear, toYear), fromYear, toYear))
  }

  /** The empty-range shortcut answers what the aggregation of no row would. */
  lemma EmptyReportAgrees(fromYear: int, toYear: int)
    ensures YearlyReportOf([], fromYear, toYear) == EmptyYearlyReport(fromYear, toYear)
  {
    EmptySummaries();
    EmptyYearly(fromYear, toYear);
    assert PageCounts([]) == [];
  }

  method Get(q: YearlyQuery, currentYear: int, table: seq<Visit>) returns (response: Response<YearlyReport>)
    ensures response == YearlyResponse(q, currentYear, table)
  {
    var fromYear := ParseInt(OrElse(q.fromYear, IntToString(currentYear - 4)));
    var toYear := ParseInt(OrElse(q.toYear, IntToString(currentYear)));
    if !Present(q.websiteId) {
      return BadRequest("Website ID is required");
    }
    if fromYear.None? || toYear.None? {
      return ServerError("Internal server error");
    }
    var rows := YearsRows(table, q.websiteId.value, fromYear.value, toYear.value);
    assert YearlyResponse(q, currentYear, table) == Ok(YearlyReportOf(rows, fromYear.value, toYear.value));
    if |rows| == 0 {
      var years := GenerateEmptyYears(fromYear.value, toYear.value);
      EmptyReportAgrees(fromYear.value, toYear.value);
      assert rows == [];
      return Ok(YearlyReport(ZeroSummary, years, [], EmptyDeviceStats, map[]));
    }
    var report := Aggregate(rows, fromYear.value, toYear.value);
    response := Ok(report);
  }

  /** The body of `GET` past the empty-range shortcut: summary, yearly list, page ranking and tallies. */
  method Aggregate(rows: seq<Visit>, fromYear: int, toYear: int) returns (report: YearlyReport)
    ensures report == YearlyReportOf(rows, fromYear, toYear)
  {
    var sessions := |SessionIds(rows)|;
    var bounceRate := CalculateGuardedBounceRate(rows);
    var summary := Summary(|rows|, sessions, sessions, AverageDuration(rows), Some(bounceRate));
    var yearlyData := GroupByYear(rows, fromYear, toYear);
    var topPages := TopPages(rows, 10);
    var deviceStats := GetDeviceStats(rows);
    var referrerStats := GetReferrerStats(rows);
    report := YearlyReport(summary, yearlyData, topPages, deviceStats, referrerStats);
  }

  /** Without years the range is the current year and the four before it. */
  lemma DefaultRange(q: YearlyQuery, currentYear: int)
    requires !Present(q.fromYear) && !Present(q.toYear)
    ensures RequestedFromYear(q, currentYear) == Some(currentYear - 4)
    ensures RequestedToYear(q, currentYear) == Some(currentYear)
  {
    ParseIntRoundTrip(currentYear - 4);
    ParseIntRoundTrip(currentYear);
  }

  /**
   * For a range of years written with at least three digits, the report covers
   * exactly the website's rows dated in the range, and its yearly page views add
   * up to the summary's.
   */
  lemma YearlyReportCoversRange(q: YearlyQuery, currentYear: int, table: seq<Visit>)
    requires YearlyResponse(q, currentYear, table).Ok?
    requires RequestedFromYear(q, currentYear).value >= 100 && RequestedToYear(q, currentYear).value >= 100
    ensures var fromYear := RequestedFromYear(q, currentYear).value;
      var toYear := RequestedToYear(q, currentYear).value;
      var rows := YearsRows(table, q.websiteId.value, fromYear, toYear);
      var r := YearlyResponse(q, currentYear, table).body;
      && (forall v :: v in rows <==> v in table && v.websiteId == q.websiteId.value && fromYear <= v.local.year <= toYear)
      && r.summary.totalPageViews == |rows| == Sum(Project(r.yearlyData, YearPageViews))
  {
    var fromYear := RequestedFromYear(q, currentYear).value;
    var toYear := RequestedToYear(q, currentYear).value;
    var rows := YearsRows(table, q.websiteId.value, fromYear, toYear);
    YearsRowsMembers(table, q.websiteId.value, fromYear, toYear);
    YearlyConserves(rows, fromYear, toYear);
  }
}
