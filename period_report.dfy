/**
 * The report of the single-site and all-sites routes for one slice of rows:
 * the summary, the time series, the ten most viewed pages and the label tallies
 * (the body of `GET` in the single-site route and `processStatsData` in the
 * all-sites route compute the same thing).
 */
module PeriodReport {
  import opened Wrappers
  import opened Sequences
  import opened Visits
  import opened Metrics
  import opened Tallies
  import opened Ranking
  import opened TimeSeries

  /** The JSON body of a period report. */
  datatype Report = Report(
    summary: Summary,
    timeSeries: seq<Bucket>,
    topPages: seq<PageEntry>,
    deviceStats: DeviceStats,
    referrerStats: map<string, nat>)

  /** `.slice(0, 10)` of the page ranking. */
  const TopPagesLimit: nat := 10

  function ReportOf(rows: seq<Visit>, g: Granularity): Report {
    Report(SummaryOf(rows), TimeSeriesOf(rows, g), TopPages(rows, TopPagesLimit), DeviceStatsOf(rows), ReferrerStatsOf(rows))
  }

  /** The literal report the all-sites route sends when there is no website at all. */
  const ZeroReport := Report(ZeroSummary, [], [], EmptyDeviceStats, map[])

  /**
   * The aggregation: the summary expressions, the bounce-rate loops, the
   * time-series grouping, the page ranking and the two tally loops.
   */
  method ProcessStats(rows: seq<Visit>, g: Granularity) returns (report: Report)
    ensures report == ReportOf(rows, g)
  {
    var totalPageViews := |rows|;
    var uniqueVisitors := |SessionIds(rows)|;
    var averageDuration := AverageDuration(rows);
    var bounceRate := CalculateBounceRate(rows);
    var timeSeries := GroupTimeSeries(rows, g);
    var topPages := TopPages(rows, TopPagesLimit);
    var deviceStats := GetDeviceStats(rows);
    var referrerStats := GetReferrerStats(rows);
    report := Report(
      Summary(totalPageViews, uniqueVisitors, uniqueVisitors, averageDuration, bounceRate),
      timeSeries, topPages, deviceStats, referrerStats);
  }

  /**
   * What a report says about its slice, whatever the rows: the page views of the
   * time series add up to the row count, the visitor counts agree and never
   * exceed it, the bounce rate is a percentage when there is a row (and `NaN`
   * otherwise), at most ten pages are ranked, highest count first, and every
   * tally counts every row once.
   */
  lemma ReportInvariants(rows: seq<Visit>, g: Granularity)
    ensures var r := ReportOf(rows, g);
      && r.summary.totalPageViews == |rows| == SumPageViews(r.timeSeries)
      && r.summary.uniqueVisitors == r.summary.totalSessions <= r.summary.totalPageViews
      && (r.summary.bounceRate.Some? <==> rows != [])
      && (r.summary.bounceRate.Some? ==> r.summary.bounceRate.value <= 100)
      && |r.topPages| <= TopPagesLimit && NonIncreasing(r.topPages)
      && MapSum(r.deviceStats.devices) == |rows| && MapSum(r.deviceStats.browsers) == |rows|
      && MapSum(r.deviceStats.os) == |rows| && MapSum(r.referrerStats) == |rows|
  {
    SummaryInvariants(rows);
    TimeSeriesConserves(rows, g);
    TopPagesSpec(rows, TopPagesLimit);
    TalliesConserve(rows);
  }

  /**
   * The literal zero report agrees with the report of an empty slice except for
   * the bounce rate, which the aggregation leaves as `NaN` and the literal sets to 0.
   */
  lemma ZeroReportIsEmptyAggregate(g: Granularity)
    ensures ReportOf([], g) == ZeroReport.(summary := ZeroReport.summary.(bounceRate := None))
  {
    EmptySummaries();
    var all := PageCounts([]);
    assert all == [];
  }
}
