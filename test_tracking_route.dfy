/**
 * `POST /api/test-tracking`: the installation check of a website's tracking
 * script. It looks the website up by its tracking id, reads the website's most
 * recent rows, picks out the test visits (those whose page URL carries
 * `test=true`) and answers with a verdict and a list of recommendations.
 */
module TestTrackingRoute {
  import opened Wrappers
  import opened Text
  import opened Sequences
  import opened Visits
  import opened Http

  /** A row of the `websites` table, as the route reports it. */
  datatype Website = Website(id: string, name: string, domain: string, trackingId: string, isActive: bool)

  /**
   * `SELECT * FROM websites WHERE tracking_id = $1` read by `queryOne`: the first
   * website with that tracking id, if there is one.
   */
  function FindWebsite(websites: seq<Website>, trackingId: string): (r: Option<Website>)
    ensures r.Some? ==> r.value in websites && r.value.trackingId == trackingId
    ensures r.None? <==> forall w :: w in websites ==> w.trackingId != trackingId
  {
    if websites == [] then None
    else if websites[0].trackingId == trackingId then Some(websites[0])
    else
      assert forall w :: w in websites ==> w == websites[0] || w in websites[1..];
      FindWebsite(websites[1..], trackingId)
  }

  /** The marker of a test visit in a page URL. */
  const TestMarker := "test=true"

  /** `v.page_url && v.page_url.includes('test=true')`. */
  predicate IsTest(v: Visit) {
    v.pageUrl != "" && Contains(v.pageUrl, TestMarker)
  }

  /** `testVisits`: the recent rows that are test visits, in their order. */
  function TestVisits(recent: seq<Visit>): seq<Visit> {
    Filter(recent, IsTest, true)
  }

  /** One entry of `recentVisitors`. */
  datatype RecentVisitor = RecentVisitor(
    pageUrl: string,
    pageTitle: string,
    visitTime: int,
    browser: Option<string>,
    os: Option<string>,
    deviceType: Option<string>,
    isTest: bool)

  function Summarise(v: Visit): RecentVisitor {
    RecentVisitor(v.pageUrl, v.pageTitle, v.time, v.browser, v.os, v.deviceType, IsTest(v))
  }

  function IsTestEntry(e: RecentVisitor): bool { e.isTest }

  /** `tracking`: the verdict on the recent rows. */
  datatype Tracking = Tracking(
    hasRecentActivity: bool,
    hasTestActivity: bool,
    recentVisitorCount: nat,
    testVisitorCount: nat,
    lastTestVisit: Option<int>,
    recentVisitors: seq<RecentVisitor>)

  /**
   * `tracking`: the test visits are among the recent ones, so there are never
   * more of them, and test activity implies recent activity.
   */
  function TrackingOf(recent: seq<Visit>): (r: Tracking)
    ensures r.testVisitorCount <= r.recentVisitorCount
    ensures r.hasTestActivity ==> r.hasRecentActivity
  {
    var tests := TestVisits(recent);
    FilterLength(recent, IsTest, true);
    Tracking(
      |recent| > 0,
      |tests| > 0,
      |recent|,
      |tests|,
      if tests == [] then None else Some(tests[0].time),
      Project(recent, Summarise))
  }

  /** One entry of `recommendations`; `kind` is the JSON member `type`. */
  datatype Recommendation = Recommendation(kind: string, message: string, action: string)

  const ActivateWarning := Recommendation("warning", "Website is not active. Activate it to start tracking.", "activate_website")
  const NoDataError := Recommendation("error", "No recent tracking data detected. Check if the tracking script is properly installed.", "check_script")
  const NoTestInfo := Recommendation("info", "Tracking is working, but no test visits found. Try visiting your website with ?test=true parameter.", "test_visit")
  const AllGood := Recommendation("success", "Tracking is working perfectly! Test visits detected.", "none")

  /**
   * The recommendation list: one recommendation for an active website and two
   * for an inactive one, whose first is the activation warning; the last is an
   * error without recent data, information with recent data but no test visit,
   * and success with both.
   */
  function Recommendations(hasRecentActivity: bool, hasTestActivity: bool, website: Website): (r: seq<Recommendation>)
    ensures |r| == (if website.isActive then 1 else 2)
    ensures !website.isActive <==> r[0] == ActivateWarning
    ensures r[|r| - 1].kind == "error" <==> !hasRecentActivity
    ensures r[|r| - 1].kind == "info" <==> hasRecentActivity && !hasTestActivity
    ensures r[|r| - 1].kind == "success" <==> hasRecentActivity && hasTestActivity
    ensures forall i :: 0 <= i < |r| - 1 ==> r[i].kind == "warning"
  {
    (if website.isActive then [] else [ActivateWarning])
      + [if !hasRecentActivity then NoDataError else if !hasTestActivity then NoTestInfo else AllGood]
  }

  /** `generateRecommendations`, pushing onto a list. */
  method GenerateRecommendations(hasRecentActivity: bool, hasTestActivity: bool, website: Website)
    returns (recommendations: seq<Recommendation>)
    ensures recommendations == Recommendations(hasRecentActivity, hasTestActivity, website)
  {
    recommendations := [];
    if !website.isActive {
      recommendations := recommendations + [ActivateWarning];
    }
    if !hasRecentActivity {
      recommendations := recommendations + [NoDataError];
    } else if !hasTestActivity {
      recommendations := recommendations + [NoTestInfo];
    } else {
      recommendations := recommendations + [AllGood];
    }
  }

  /** The request body. */
  datatype TestRequest = TestRequest(trackingId: Option<string>, testUrl: Option<string>)

  /** The JSON body of a successful check. */
  datatype TestReport = TestReport(
    website: Website,
    tracking: Tracking,
    testUrl: string,
    recommendations: seq<Recommendation>)

  /** `testUrl || \`${domain}?test=true\``. */
  function TestUrlOf(req: TestRequest, website: Website): string {
    OrElse(req.testUrl, website.domain + "?" + TestMarker)
  }

  /**
   * What `POST` answers, given the websites table and `recent`, the rows the
   * recent-visitors query returns for the website found: 400 without a tracking
   * id, 404 when no website has it, the report otherwise.
   */
  function TestTrackingResponse(req: TestRequest, websites: seq<Website>, recent: seq<Visit>): (r: Response<TestReport>)
    ensures r.BadRequest? <==> !Present(req.trackingId)
    ensures r.NotFound? <==> Present(req.trackingId) && forall w :: w in websites ==> w.trackingId != req.trackingId.value
    ensures r.Ok? ==> r.body.website in websites && r.body.website.trackingId == req.trackingId.value
    ensures r.BadRequest? || r.NotFound? || r.Ok?
  {
    if !Present(req.trackingId) then BadRequest("Tracking ID is required")
    else
      match FindWebsite(websites, req.trackingId.value)
      case None => NotFound("Invalid tracking ID or website not found")
      case Some(website) =>
        var tracking := TrackingOf(recent);
        Ok(TestReport(website, tracking, TestUrlOf(req, website),
          Recommendations(tracking.hasRecentActivity, tracking.hasTestActivity, website)))
  }

  method Post(req: TestRequest, websites: seq<Website>, recent: seq<Visit>) returns (response: Response<TestReport>)
    ensures response == TestTrackingResponse(req, websites, recent)
  {
    if !Present(req.trackingId) {
      return BadRequest("Tracking ID is required");
    }
    var found := FindWebsite(websites, req.trackingId.value);
    if found.None? {
      return NotFound("Invalid tracking ID or website not found");
    }
    var website := found.value;
    var tracking := TrackingOf(recent);
    var recommendations := GenerateRecommendations(tracking.hasRecentActivity, tracking.hasTestActivity, website);
    response := Ok(TestReport(website, tracking, TestUrlOf(req, website), recommendations));
  }

  /**
   * The verdict agrees with itself: the test visits are among the recent ones,
   * so there are never more of them and test activity implies recent activity;
   * the listed visitors are the recent rows one for one, in order, flagged as
   * tests by the same marker; the test count is the number of flagged entries;
   * and the last test visit is the time of the first flagged row.
   */
  lemma {:induction false} TrackingConsistent(recent: seq<Visit>)
    ensures var t := TrackingOf(recent);
      && t.testVisitorCount <= t.recentVisitorCount
      && (t.hasTestActivity ==> t.hasRecentActivity)
      && (t.hasRecentActivity <==> t.recentVisitorCount > 0)
      && |t.recentVisitors| == |recent|
      && (forall i :: 0 <= i < |recent| ==>
            t.recentVisitors[i].pageUrl == recent[i].pageUrl && t.recentVisitors[i].visitTime == recent[i].time
            && (t.recentVisitors[i].isTest <==> Contains(recent[i].pageUrl, TestMarker)))
      && t.testVisitorCount == Count(Project(t.recentVisitors, IsTestEntry), true)
      && (t.lastTestVisit.Some? <==> t.hasTestActivity)
  {
    var t := TrackingOf(recent);
    FilterLength(recent, IsTest, true);
    assert Project(t.recentVisitors, IsTestEntry) == Project(recent, IsTest);
    forall i | 0 <= i < |recent|
      ensures t.recentVisitors[i].isTest <==> Contains(recent[i].pageUrl, TestMarker)
    {
      if Contains(recent[i].pageUrl, TestMarker) {
        var k :| 0 <= k <= |recent[i].pageUrl| - |TestMarker| && OccursAt(recent[i].pageUrl, TestMarker, k);
      }
    }
  }

  /** The last test visit is the newest one: the first test row of the list, every row before it being no test. */
  lemma LastTestVisitIsFirstTest(recent: seq<Visit>)
    requires TrackingOf(recent).lastTestVisit.Some?
    ensures exists i :: (0 <= i < |recent| && IsTest(recent[i])
      && TrackingOf(recent).lastTestVisit.value == recent[i].time
      && forall j :: 0 <= j < i ==> !IsTest(recent[j]))
  {
    FilterFirst(recent, IsTest, true);
  }

  /** Without recent rows there is no test activity, and the verdict says no data was received. */
  lemma NoRecentRows(website: Website)
    ensures var t := TrackingOf([]);
      && !t.hasRecentActivity && !t.hasTestActivity && t.lastTestVisit == None
      && Recommendations(t.hasRecentActivity, t.hasTestActivity, website)[|Recommendations(t.hasRecentActivity, t.hasTestActivity, website)| - 1] == NoDataError
  {
  }

  /** The default test URL carries the test marker, so a visit to it is counted as a test visit. */
  lemma DefaultTestUrlIsTest(req: TestRequest, website: Website, v: Visit)
    requires !Present(req.testUrl)
    requires v.pageUrl == TestUrlOf(req, website)
    ensures TestUrlOf(req, website) == website.domain + "?test=true"
    ensures IsTest(v)
  {
    ContainsSuffix(website.domain + "?", TestMarker);
  }
}
