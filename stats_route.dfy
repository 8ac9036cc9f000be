/**
 * `GET /api/stats?websiteId=...&period=...`: the report of one website over a
 * named period.
 */
module StatsRoute {
  import opened Wrappers
  import opened Sequences
  import opened Visits
  import opened Http
  import opened DateRange
  import opened PeriodReport

  datatype StatsQuery = StatsQuery(websiteId: Option<string>, period: Option<string>)

  /** The SQL filter `website_id = $1 AND visit_time >= $2 AND visit_time <= $3`. */
  function OfSiteIn(site: string, w: Window): Visit -> bool {
    (v: Visit) => v.websiteId == site && InWindow(v.time, w)
  }

  function SiteRows(table: seq<Visit>, site: string, w: Window): seq<Visit> {
    Filter(table, OfSiteIn(site, w), true)
  }

  /** The slice holds exactly the rows of the website whose instant lies in the window. */
  lemma SiteRowsMembers(table: seq<Visit>, site: string, w: Window)
    ensures forall v :: v in SiteRows(table, site, w) <==> v in table && v.websiteId == site && InWindow(v.time, w)
  {
    FilterMembers(table, OfSiteIn(site, w), true);
    FilterKeeps(table, OfSiteIn(site, w), true);
  }

  /** What `GET` answers, `c` being the clock it reads and `table` the `visitors` table. */
  function StatsResponse(q: StatsQuery, c: Clock, table: seq<Visit>): (r: Response<Report>)
    ensures r.BadRequest? <==> !Present(q.websiteId)
    ensures r.Ok? <==> Present(q.websiteId)
  {
    if !Present(q.websiteId) then BadRequest("Website ID is required")
    else
      var range := GetDateRange(OrElse(q.period, "today"), c);
      Ok(ReportOf(SiteRows(table, q.websiteId.value, range.window), range.groupBy))
  }

  method Get(q: StatsQuery, c: Clock, table: seq<Visit>) returns (response: Response<Report>)
    ensures response == StatsResponse(q, c, table)
  {
    if !Present(q.websiteId) {
      return BadRequest("Website ID is required");
    }
    var period := if Present(q.period) then q.period.value else "today";
    var range := GetDateRange(period, c);
    var rows := SiteRows(table, q.websiteId.value, range.window);
    var report := ProcessStats(rows, range.groupBy);
    response := Ok(report);
  }

  /** A missing or empty period is served as `today`. */
  lemma PeriodDefaultsToToday(site: string, period: Option<string>, c: Clock, table: seq<Visit>)
    requires !Present(period)
    ensures StatsResponse(StatsQuery(Some(site), period), c, table)
      == StatsResponse(StatsQuery(Some(site), Some("today")), c, table)
  {
  }

  /**
   * Rows of another website, and rows outside the period's window, do not
   * change the report: adding one to the table leaves the answer as it was.
   */
  lemma ForeignRowsIgnored(q: StatsQuery, c: Clock, table: seq<Visit>, v: Visit)
    requires Present(q.websiteId)
    requires v.websiteId != q.websiteId.value
      || !InWindow(v.time, GetDateRange(OrElse(q.period, "today"), c).window)
    ensures StatsResponse(q, c, table + [v]) == StatsResponse(q, c, table)
  {
    var range := GetDateRange(OrElse(q.period, "today"), c);
    var site := q.websiteId.value;
    FilterSnoc(table, v, OfSiteIn(site, range.window), true);
    assert Filter(table, OfSiteIn(site, range.window), true) + [] == Filter(table, OfSiteIn(site, range.window), true);
    assert SiteRows(table + [v], site, range.window) == SiteRows(table, site, range.window);
  }

  /** The reported page views are the number of the website's rows inside the window. */
  lemma PageViewsCountSiteRows(q: StatsQuery, c: Clock, table: seq<Visit>)
    requires Present(q.websiteId)
    ensures var range := GetDateRange(OrElse(q.period, "today"), c);
      StatsResponse(q, c, table).body.summary.totalPageViews
        == Count(Project(table, OfSiteIn(q.websiteId.value, range.window)), true)
  {
    var range := GetDateRange(OrElse(q.period, "today"), c);
    FilterLength(table, OfSiteIn(q.websiteId.value, range.window), true);
  }
}
