/**
 * `GET /api/stats/all?period=...`: one report over every website together.
 */
module AllStatsRoute {
  import opened Wrappers
  import opened Sequences
  import opened Visits
  import opened Metrics
  import opened Http
  import opened DateRange
  import opened PeriodReport
  import StatsRoute

  datatype AllQuery = AllQuery(period: Option<string>)

  /** The SQL filter `website_id = ANY($1) AND visit_time >= $2 AND visit_time <= $3`. */
  function OfSitesIn(ids: seq<string>, w: Window): Visit -> bool {
    (v: Visit) => v.websiteId in ids && InWindow(v.time, w)
  }

  function SitesRows(table: seq<Visit>, ids: seq<string>, w: Window): seq<Visit> {
    Filter(table, OfSitesIn(ids, w), true)
  }

  /**
   * What `GET` answers, `websiteIds` being the ids `SELECT id FROM websites`
   * returns: the literal zero report when there is no website, otherwise the
   * report of every website's rows in the period (by default the week).
   */
  function AllStatsResponse(q: AllQuery, c: Clock, websiteIds: seq<string>, table: seq<Visit>): (r: Report)
    ensures r.summary.bounceRate.None? <==>
      websiteIds != [] && SitesRows(table, websiteIds, GetDateRange(OrElse(q.period, "week"), c).window) == []
    ensures r.summary.bounceRate.Some? ==> r.summary.bounceRate.value <= 100
  {
    if websiteIds == [] then ZeroReport
    else
      var range := GetDateRange(OrElse(q.period, "week"), c);
      ReportOf(SitesRows(table, websiteIds, range.window), range.groupBy)
  }

  /** `GET` and `processStatsData`. */
  method Get(q: AllQuery, c: Clock, websiteIds: seq<string>, table: seq<Visit>) returns (report: Report)
    ensures report == AllStatsResponse(q, c, websiteIds, table)
  {
    var period := if Present(q.period) then q.period.value else "week";
    var range := GetDateRange(period, c);
    if |websiteIds| == 0 {
      return ZeroReport;
    }
    var rows := SitesRows(table, websiteIds, range.window);
    report := ProcessStats(rows, range.groupBy);
  }

  /** A missing or empty period is served as `week`. */
  lemma PeriodDefaultsToWeek(period: Option<string>, c: Clock, websiteIds: seq<string>, table: seq<Visit>)
    requires !Present(period)
    ensures AllStatsResponse(AllQuery(period), c, websiteIds, table)
      == AllStatsResponse(AllQuery(Some("week")), c, websiteIds, table)
  {
    assert OrElse(period, "week") == OrElse(Some("week"), "week");
  }

  /**
   * With no website the answer is all zeros and empty lists and tallies; with
   * websites but no row in the window the bounce rate is `NaN` instead of 0, the
   * only point where the two empty answers differ.
   */
  lemma EmptyAnswers(q: AllQuery, c: Clock, websiteIds: seq<string>, table: seq<Visit>)
    ensures websiteIds == [] ==> AllStatsResponse(q, c, websiteIds, table) == ZeroReport
    ensures websiteIds != [] && SitesRows(table, websiteIds, GetDateRange(OrElse(q.period, "week"), c).window) == []
      ==> AllStatsResponse(q, c, websiteIds, table) == ZeroReport.(summary := ZeroSummary.(bounceRate := None))
  {
    ZeroReportIsEmptyAggregate(GetDateRange(OrElse(q.period, "week"), c).groupBy);
  }

  /**
   * With a single website and an explicit period, the all-sites report is the
   * single-site report of that website.
   */
  lemma OneSiteAgreesWithStatsRoute(site: string, period: string, c: Clock, table: seq<Visit>)
    requires site != "" && period != ""
    ensures StatsRoute.StatsResponse(StatsRoute.StatsQuery(Some(site), Some(period)), c, table)
      == Http.Ok(AllStatsResponse(AllQuery(Some(period)), c, [site], table))
  {
    var range := GetDateRange(period, c);
    var w := range.window;
    assert forall v :: v in table ==> OfSitesIn([site], w)(v) == StatsRoute.OfSiteIn(site, w)(v);
    FilterSameColumn(table, OfSitesIn([site], w), StatsRoute.OfSiteIn(site, w), true);
    var rows := StatsRoute.SiteRows(table, site, w);
    assert AllStatsResponse(AllQuery(Some(period)), c, [site], table) == ReportOf(rows, range.groupBy);
  }
}
