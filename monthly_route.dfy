/**
 * `GET /api/stats/monthly?websiteId=...&year=...`: the report of one website over
 * one calendar year, with a line per month.
 */
module MonthlyRoute {
  import opened Wrappers
  import opened Text
  import opened Sequences
  import opened Visits
  import opened Metrics
  import opened Tallies
  import opened Ranking
  import opened Http
  import opened CalendarTotals

  const MonthNames: seq<string> := ["Jan", "Feb", "Mar", "Apr", "May", "Jun", "Jul", "Aug", "Sep", "Oct", "Nov", "Dec"]

  /** One entry of `monthlyData`. */
  datatype MonthStats = MonthStats(
    month: int,
    monthName: string,
    pageViews: nat,
    uniqueVisitors: nat,
    totalSessions: nat,
    averageDuration: nat,
    bounceRate: nat)

  function EmptyMonth(m: Month): MonthStats {
    MonthStats(m, MonthNames[m - 1], 0, 0, 0, 0, 0)
  }

  /** What `generateEmptyMonths` builds. */
  function EmptyMonths(): seq<MonthStats> {
    seq(12, i requires 0 <= i < 12 => EmptyMonth(i + 1))
  }

  /** `generateEmptyMonths`. */
  method GenerateEmptyMonths() returns (months: seq<MonthStats>)
    ensures |months| == 12
    ensures forall i :: 0 <= i < 12 ==> months[i] == EmptyMonth(i + 1)
  {
    months := [];
    for i := 0 to 12
      invariant |months| == i
      invariant forall j :: 0 <= j < i ==> months[j] == EmptyMonth(j + 1)
    {
      months := months + [MonthStats(i + 1, MonthNames[i], 0, 0, 0, 0, 0)];
    }
  }

  /** The entry of month `m`: the counts of the rows dated in that month. */
  function MonthStatsOf(rows: seq<Visit>, m: Month): MonthStats {
    var t := TotalsOf(rows, MonthOf, m);
    MonthStats(m, MonthNames[m - 1], t.pageViews, |t.sessions|, |t.sessions|, MeanDuration(t),
      GuardedBounceRate(Filter(rows, MonthOf, m)))
  }

  /** What `groupByMonth` returns: the twelve months in order. */
  function MonthlyOf(rows: seq<Visit>): seq<MonthStats> {
    seq(12, i requires 0 <= i < 12 => MonthStatsOf(rows, i + 1))
  }

  /**
   * `groupByMonth`: open an accumulator for each month, add every row to the one
   * of its month, then turn the accumulators into entries.
   */
  method GroupByMonth(rows: seq<Visit>) returns (monthly: seq<MonthStats>)
    ensures monthly == MonthlyOf(rows)
  {
    var monthlyMap: map<int, Totals> := map[];
    for m := 1 to 13
      invariant forall k :: k in monthlyMap <==> 1 <= k < m
      invariant forall k :: k in monthlyMap ==> monthlyMap[k] == NoTotals
    {
      monthlyMap := monthlyMap[m := NoTotals];
    }
    TotalsMatchStart(monthlyMap, rows, MonthOf, 1, 12);
    for i := 0 to |rows|
      invariant TotalsMatch(monthlyMap, rows[..i], MonthOf, 1, 12)
    {
      TotalsStep(monthlyMap, rows, i, MonthOf, 1, 12);
      var v := rows[i];
      var month := v.local.month;
      assert month == MonthOf(v);
      monthlyMap := monthlyMap[month := AddVisit(monthlyMap[month], v)];
    }
    assert rows[..|rows|] == rows;
    monthly := MonthEntries(rows, monthlyMap);
  }

  /**
   * The entries of `groupByMonth`, month by month in the order `Object.entries`
   * gives integer keys, each with the bounce rate of `calculateMonthBounceRate`.
   */
  method MonthEntries(rows: seq<Visit>, monthlyMap: map<int, Totals>) returns (monthly: seq<MonthStats>)
    requires TotalsMatch(monthlyMap, rows, MonthOf, 1, 12)
    ensures monthly == MonthlyOf(rows)
  {
    monthly := [];
    for m := 1 to 13
      invariant |monthly| == m - 1
      invariant forall j :: 0 <= j < m - 1 ==> monthly[j] == MonthStatsOf(rows, j + 1)
    {
      var stats := monthlyMap[m];
      var bounceRate := PeriodBounceRate(rows, MonthOf, m);
      var entry := MonthStats(m, MonthNames[m - 1], stats.pageViews, |stats.sessions|, |stats.sessions|, MeanDuration(stats), bounceRate);
      assert entry == MonthStatsOf(rows, m);
      monthly := monthly + [entry];
    }
    assert forall j :: 0 <= j < 12 ==> monthly[j] == MonthlyOf(rows)[j];
  }

  /** The twelve entries are numbered 1 to 12 in order and named after their month. */
  lemma MonthlyShape(rows: seq<Visit>)
    ensures |MonthlyOf(rows)| == 12
    ensures forall i :: 0 <= i < 12 ==> MonthlyOf(rows)[i].month == i + 1 && MonthlyOf(rows)[i].monthName == MonthNames[i]
  {
  }

  /** Every entry: visitors equal sessions, at most its page views; a percentage bounce rate; all zero for an empty month. */
  lemma MonthBounds(rows: seq<Visit>, m: Month)
    ensures var e := MonthStatsOf(rows, m);
      && e.uniqueVisitors == e.totalSessions <= e.pageViews
      && e.bounceRate <= 100
      && (e.pageViews == 0 <==> e == EmptyMonth(m))
  {
    PeriodBounds(rows, MonthOf, m);
  }

  function MonthPageViews(e: MonthStats): nat { e.pageViews }

  /** The month numbers 1 to 12. */
  function MonthNumbers(): seq<int> {
    seq(12, i requires 0 <= i < 12 => i + 1)
  }

  /** The page views of the entries are the row counts of their months. */
  lemma MonthEntryPageViews(rows: seq<Visit>)
    ensures var counts := Project(MonthlyOf(rows), MonthPageViews);
      && |counts| == 12
      && forall i :: 0 <= i < 12 ==> counts[i] == Count(Project(rows, MonthOf), MonthNumbers()[i])
  {
    var counts := Project(MonthlyOf(rows), MonthPageViews);
    forall i | 0 <= i < 12 ensures counts[i] == Count(Project(rows, MonthOf), MonthNumbers()[i]) {
      assert counts[i] == MonthStatsOf(rows, i + 1).pageViews;
      FilterLength(rows, MonthOf, i + 1);
    }
  }

  /** Conservation: every row lands in exactly one month, so the monthly page views add up to the row count. */
  lemma {:induction false} MonthlyConserves(rows: seq<Visit>)
    ensures Sum(Project(MonthlyOf(rows), MonthPageViews)) == |rows|
  {
    var keys := MonthNumbers();
    var months := Project(rows, MonthOf);
    MonthEntryPageViews(rows);
    SumMatchesTotal(Project(MonthlyOf(rows), MonthPageViews), keys, months);
    forall x | x in months ensures x in keys {
      assert keys[x - 1] == x;
    }
    CountsSumToLength(keys, months);
  }

  /** The twelve months of an empty slice are the zero months `generateEmptyMonths` lists. */
  lemma EmptyMonthly()
    ensures MonthlyOf([]) == EmptyMonths()
  {
    forall i | 0 <= i < 12 ensures MonthlyOf([])[i] == EmptyMonths()[i] {
      MonthBounds([], i + 1);
    }
  }

  datatype MonthlyQuery = MonthlyQuery(websiteId: Option<string>, year: Option<string>)

  /** The JSON body of the monthly report. */
  datatype MonthlyReport = MonthlyReport(
    summary: Summary,
    monthlyData: seq<MonthStats>,
    topPages: seq<PageEntry>,
    deviceStats: DeviceStats,
    referrerStats: map<string, nat>)

  function MonthlyReportOf(rows: seq<Visit>): MonthlyReport {
    MonthlyReport(GuardedSummaryOf(rows), MonthlyOf(rows), TopPages(rows, 10), DeviceStatsOf(rows), ReferrerStatsOf(rows))
  }

  /** The literal body sent when the year has no row. */
  function EmptyMonthlyReport(): MonthlyReport {
    MonthlyReport(ZeroSummary, EmptyMonths(), [], EmptyDeviceStats, map[])
  }

  /** The year asked for, `parseInt(year || String(currentYear), 10)`; `None` is `NaN`. */
  function RequestedYear(q: MonthlyQuery, currentYear: int): Option<int> {
    ParseInt(OrElse(q.year, IntToString(currentYear)))
  }

  /**
   * What `GET` answers: 400 without a website id; 500 when the year is not a
   * number (the `Invalid Date` it builds cannot be printed as an ISO string);
   * otherwise the report of the website's rows in that year.
   */
  function MonthlyResponse(q: MonthlyQuery, currentYear: int, table: seq<Visit>): (r: Response<MonthlyReport>)
    ensures r.BadRequest? <==> !Present(q.websiteId)
    ensures r.ServerError? <==> Present(q.websiteId) && RequestedYear(q, currentYear).None?
    ensures r.BadRequest? || r.ServerError? || r.Ok?
  {
    if !Present(q.websiteId) then BadRequest("Website ID is required")
    else
      match RequestedYear(q, currentYear)
      case None => ServerError("Internal server error")
      case Some(y) => Ok(MonthlyReportOf(YearsRows(table, q.websiteId.value, y, y)))
  }

  /** The empty-year shortcut answers what the aggregation of no row would. */
  lemma EmptyReportAgrees()
    ensures MonthlyReportOf([]) == EmptyMonthlyReport()
  {
    EmptySummaries();
    EmptyMonthly();
    assert PageCounts([]) == [];
  }

  method Get(q: MonthlyQuery, currentYear: int, table: seq<Visit>) returns (response: Response<MonthlyReport>)
    ensures response == MonthlyResponse(q, currentYear, table)
  {
    if !Present(q.websiteId) {
      return BadRequest("Website ID is required");
    }
    var year := if Present(q.year) then q.year.value else IntToString(currentYear);
    var yearNum := ParseInt(year);
    if yearNum.None? {
      return ServerError("Internal server error");
    }
    var rows := YearsRows(table, q.websiteId.value, yearNum.value, yearNum.value);
    var report := Aggregate(rows);
    response := Ok(report);
  }

  /**
   * The body of `GET` past the parameter checks: the empty-year shortcut, or
   * the summary, monthly list, page ranking and tallies.
   */
  method Aggregate(rows: seq<Visit>) returns (report: MonthlyReport)
    ensures report == MonthlyReportOf(rows)
  {
    if |rows| == 0 {
      var months := GenerateEmptyMonths();
      EmptyReportAgrees();
      assert months == EmptyMonths();
      return MonthlyReport(ZeroSummary, months, [], EmptyDeviceStats, map[]);
    }
    var sessions := |SessionIds(rows)|;
    var bounceRate := CalculateGuardedBounceRate(rows);
    var summary := Summary(|rows|, sessions, sessions, AverageDuration(rows), Some(bounceRate));
    var monthlyData := GroupByMonth(rows);
    var topPages := TopPages(rows, 10);
    var deviceStats := GetDeviceStats(rows);
    var referrerStats := GetReferrerStats(rows);
    report := MonthlyReport(summary, monthlyData, topPages, deviceStats, referrerStats);
  }

  /** Without a year the current year is reported; a year that is not a number gives 500. */
  lemma YearParameter(q: MonthlyQuery, currentYear: int, table: seq<Visit>)
    requires Present(q.websiteId)
    ensures !Present(q.year) ==> RequestedYear(q, currentYear) == Some(currentYear)
    ensures MonthlyResponse(q, currentYear, table).ServerError? <==> RequestedYear(q, currentYear).None?
  {
    ParseIntRoundTrip(currentYear);
  }

  /**
   * The months of a report add up to its page views, and its summary stays
   * within its bounds (`MonthBounds` gives those of each month).
   */
  lemma MonthlyReportBounds(rows: seq<Visit>)
    ensures var r := MonthlyReportOf(rows);
      && r.summary.totalPageViews == |rows| == Sum(Project(r.monthlyData, MonthPageViews))
      && r.summary.uniqueVisitors == r.summary.totalSessions <= r.summary.totalPageViews
      && r.summary.bounceRate.Some? && r.summary.bounceRate.value <= 100
  {
    MonthlyConserves(rows);
    SummaryInvariants(rows);
  }

  /**
   * A report covers exactly the website's rows of one calendar year, a year
   * written with one or two digits reaching back to the 1900s.
   */
  lemma MonthlyReportCoversYear(q: MonthlyQuery, currentYear: int, table: seq<Visit>)
    requires MonthlyResponse(q, currentYear, table).Ok?
    ensures var y := RequestedYear(q, currentYear).value;
      var rows := YearsRows(table, q.websiteId.value, y, y);
      && MonthlyResponse(q, currentYear, table).body == MonthlyReportOf(rows)
      && (forall v :: v in rows <==> v in table && v.websiteId == q.websiteId.value && v.local.year == DateYear(y))
  {
    var y := RequestedYear(q, currentYear).value;
    YearsRowsMembers(table, q.websiteId.value, y, y);
  }
}
