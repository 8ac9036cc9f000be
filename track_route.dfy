/**
 * `POST /api/track`: the tracking script's beacon. The route checks the three
 * required fields, reads the client address and the user agent from the
 * headers, classifies the user agent, and inserts one row into `visitors`.
 */
module TrackRoute {
  import opened Wrappers
  import opened Text
  import opened Visits
  import opened Http

  /** `{ browser, os, device_type }` as `parseUserAgent` returns it. */
  datatype Agent = Agent(browser: string, os: string, deviceType: string)

  /** The browser: the first of the tests that matches, `Unknown` when none does. */
  function BrowserOf(ua: string): (r: string)
    ensures r in {"Chrome", "Firefox", "Safari", "Edge", "Opera", "Unknown"}
  {
    if Contains(ua, "Chrome") then "Chrome"
    else if Contains(ua, "Firefox") then "Firefox"
    else if Contains(ua, "Safari") && !Contains(ua, "Chrome") then "Safari"
    else if Contains(ua, "Edge") then "Edge"
    else if Contains(ua, "Opera") then "Opera"
    else "Unknown"
  }

  /** The operating system, tested in the order Windows, Mac OS, Linux, Android, iOS. */
  function OsOf(ua: string): (r: string)
    ensures r in {"Windows", "macOS", "Linux", "Android", "iOS", "Unknown"}
  {
    if Contains(ua, "Windows") then "Windows"
    else if Contains(ua, "Mac OS") then "macOS"
    else if Contains(ua, "Linux") then "Linux"
    else if Contains(ua, "Android") then "Android"
    else if Contains(ua, "iOS") || Contains(ua, "iPhone") || Contains(ua, "iPad") then "iOS"
    else "Unknown"
  }

  /** The device type: phones before tablets, a desktop otherwise. */
  function DeviceTypeOf(ua: string): (r: string)
    ensures r in {"mobile", "tablet", "desktop"}
  {
    if Contains(ua, "Mobile") || Contains(ua, "Android") || Contains(ua, "iPhone") then "mobile"
    else if Contains(ua, "Tablet") || Contains(ua, "iPad") then "tablet"
    else "desktop"
  }

  /**
   * `parseUserAgent`: every agent, even the empty one, gets one of the fixed
   * labels of each kind, and with nothing to go on the answer is an unknown
   * browser and system on a desktop, the initial values of the three variables.
   */
  function ParseUserAgent(ua: string): (r: Agent)
    ensures r.browser in {"Chrome", "Firefox", "Safari", "Edge", "Opera", "Unknown"}
    ensures r.os in {"Windows", "macOS", "Linux", "Android", "iOS", "Unknown"}
    ensures r.deviceType in {"mobile", "tablet", "desktop"}
    ensures ua == "" ==> r == Agent("Unknown", "Unknown", "desktop")
  {
    Agent(BrowserOf(ua), OsOf(ua), DeviceTypeOf(ua))
  }

  /**
   * The first browser named wins, tested in the order Chrome, Firefox, Safari,
   * Edge, Opera. Any agent naming Chrome is counted as Chrome, so the
   * Chromium-based Edge and Opera, whose agents also name Chrome, never count as
   * Edge or Opera; Safari is counted only for an agent that names Safari but
   * neither Chrome nor Firefox; `Unknown` is left for an agent naming none.
   */
  lemma BrowserPrecedence(ua: string)
    ensures BrowserOf(ua) == "Chrome" <==> Contains(ua, "Chrome")
    ensures BrowserOf(ua) == "Firefox" <==> !Contains(ua, "Chrome") && Contains(ua, "Firefox")
    ensures BrowserOf(ua) == "Safari" <==> Contains(ua, "Safari") && !Contains(ua, "Chrome") && !Contains(ua, "Firefox")
    ensures BrowserOf(ua) == "Edge" <==>
      !Contains(ua, "Chrome") && !Contains(ua, "Firefox") && !Contains(ua, "Safari") && Contains(ua, "Edge")
    ensures BrowserOf(ua) == "Opera" <==>
      !Contains(ua, "Chrome") && !Contains(ua, "Firefox") && !Contains(ua, "Safari") && !Contains(ua, "Edge") && Contains(ua, "Opera")
    ensures BrowserOf(ua) == "Unknown" <==>
      !Contains(ua, "Chrome") && !Contains(ua, "Firefox") && !Contains(ua, "Safari") && !Contains(ua, "Edge") && !Contains(ua, "Opera")
  {
  }

  /**
   * The first system named wins, tested in the order Windows, Mac OS, Linux,
   * Android, then any of the Apple mobile names. Android agents also name Linux,
   * and Apple phone and tablet agents name `Mac OS`; as those tests come first,
   * `Android` is reported only for an agent naming none of Windows, Mac OS and
   * Linux, and `iOS` only for one naming none of those nor Android. `Unknown`
   * is left for an agent that names none of the seven.
   */
  lemma OsPrecedence(ua: string)
    ensures Contains(ua, "Windows") ==> OsOf(ua) == "Windows"
    ensures Contains(ua, "Mac OS") && !Contains(ua, "Windows") ==> OsOf(ua) == "macOS"
    ensures Contains(ua, "Linux") && !Contains(ua, "Windows") && !Contains(ua, "Mac OS") ==> OsOf(ua) == "Linux"
    ensures OsOf(ua) == "Android" <==>
      Contains(ua, "Android") && !Contains(ua, "Windows") && !Contains(ua, "Mac OS") && !Contains(ua, "Linux")
    ensures OsOf(ua) == "iOS" <==>
      !Contains(ua, "Windows") && !Contains(ua, "Mac OS") && !Contains(ua, "Linux") && !Contains(ua, "Android")
      && (Contains(ua, "iOS") || Contains(ua, "iPhone") || Contains(ua, "iPad"))
    ensures OsOf(ua) == "Unknown" <==>
      !Contains(ua, "Windows") && !Contains(ua, "Mac OS") && !Contains(ua, "Linux") && !Contains(ua, "Android")
      && !Contains(ua, "iOS") && !Contains(ua, "iPhone") && !Contains(ua, "iPad")
  {
  }

  /** Phones are recognised by `Mobile`, `Android` or `iPhone`; tablets by `Tablet` or `iPad` on a non-phone agent. */
  lemma DeviceTypeCases(ua: string)
    ensures DeviceTypeOf(ua) == "mobile" <==> Contains(ua, "Mobile") || Contains(ua, "Android") || Contains(ua, "iPhone")
    ensures DeviceTypeOf(ua) == "tablet" <==>
      !Contains(ua, "Mobile") && !Contains(ua, "Android") && !Contains(ua, "iPhone") && (Contains(ua, "Tablet") || Contains(ua, "iPad"))
    ensures DeviceTypeOf(ua) == "desktop" <==>
      !Contains(ua, "Mobile") && !Contains(ua, "Android") && !Contains(ua, "iPhone") && !Contains(ua, "Tablet") && !Contains(ua, "iPad")
  {
  }

  /**
   * An agent reported as Android is always a phone. One reported as iOS is a
   * phone or a tablet when it names an iPhone or an iPad, but an agent that only
   * names `iOS` is counted as a desktop.
   */
  lemma OsImpliesDevice(ua: string)
    ensures OsOf(ua) == "Android" ==> DeviceTypeOf(ua) == "mobile"
    ensures OsOf(ua) == "iOS" && (Contains(ua, "iPhone") || Contains(ua, "iPad")) ==> DeviceTypeOf(ua) in {"mobile", "tablet"}
    ensures OsOf(ua) == "iOS" && !Contains(ua, "Mobile") && !Contains(ua, "iPhone") && !Contains(ua, "iPad") && !Contains(ua, "Tablet")
      ==> DeviceTypeOf(ua) == "desktop"
  {
  }

  /** The JSON body the tracking script posts; missing members are `None`. */
  datatype TrackBody = TrackBody(
    websiteId: Option<string>,
    sessionId: Option<string>,
    pageUrl: Option<string>,
    pageTitle: Option<string>,
    userAgent: Option<string>,
    referrer: Option<string>,
    durationSeconds: Option<nat>,
    isFake: Option<bool>,
    country: Option<string>,
    city: Option<string>)

  /** The request headers the route reads. */
  datatype TrackHeaders = TrackHeaders(
    forwardedFor: Option<string>,
    realIp: Option<string>,
    userAgent: Option<string>)

  /** `value || null`: an empty string is stored as `NULL`. */
  function NullIfEmpty(o: Option<string>): (r: Option<string>)
    ensures r.Some? <==> Present(o)
    ensures r.Some? ==> r.value == o.value && r.value != ""
  {
    if Present(o) then o else None
  }

  /**
   * Storing `NULL` for an empty string loses nothing a reader with a `||`
   * fallback sees: such a reader gets from the stored value what it would have
   * got from the beacon's, and storing a stored value again changes nothing.
   */
  lemma NullIfEmptyReadBack(o: Option<string>, fallback: string)
    ensures OrElse(NullIfEmpty(o), fallback) == OrElse(o, fallback)
    ensures NullIfEmpty(NullIfEmpty(o)) == NullIfEmpty(o)
  {
  }

  /** `x-forwarded-for`, else `x-real-ip`, else `unknown`. */
  function ClientAddress(h: TrackHeaders): string {
    OrElse(h.forwardedFor, OrElse(h.realIp, "unknown"))
  }

  /** The `user-agent` header, else the body's `user_agent`, else the empty string. */
  function UserAgentOf(h: TrackHeaders, body: TrackBody): string {
    OrElse(h.userAgent, OrElse(body.userAgent, ""))
  }

  /** The three fields without which nothing is stored. */
  predicate HasRequiredFields(body: TrackBody) {
    Present(body.websiteId) && Present(body.sessionId) && Present(body.pageUrl)
  }

  /**
   * What `POST` answers: 400 exactly when a required field is missing or empty,
   * otherwise the row it inserts, stamped with the current instant `now` (and
   * its local reading `local`), whose browser, system and device are those of
   * the user agent stored with it.
   */
  function Post(body: TrackBody, h: TrackHeaders, now: int, local: LocalTime): (r: Response<Visit>)
    ensures r.Ok? <==> HasRequiredFields(body)
    ensures !r.Ok? ==> r == BadRequest("Missing required fields")
    ensures r.Ok? ==> (r.body.time == now && r.body.local == local
      && r.body.browser == Some(BrowserOf(r.body.userAgent))
      && r.body.os == Some(OsOf(r.body.userAgent))
      && r.body.deviceType == Some(DeviceTypeOf(r.body.userAgent)))
  {
    if !HasRequiredFields(body) then BadRequest("Missing required fields")
    else
      var ua := UserAgentOf(h, body);
      var agent := ParseUserAgent(ua);
      Ok(Visit(
        body.websiteId.value,
        body.sessionId.value,
        ClientAddress(h),
        ua,
        NullIfEmpty(body.referrer),
        body.pageUrl.value,
        OrElse(body.pageTitle, "Unknown Page"),
        now,
        local,
        Some(body.durationSeconds.GetOr(0)),
        body.isFake.GetOr(false),
        NullIfEmpty(body.country),
        NullIfEmpty(body.city),
        Some(agent.browser),
        Some(agent.os),
        Some(agent.deviceType)))
  }

  /**
   * The stored row carries the beacon's identifiers and page, the stamp of the
   * current instant, the first address header present, a header user agent in
   * preference to the body's, the beacon's title or `Unknown Page`, the fake
   * flag or `false`, and the referrer, country and city with an empty value
   * stored as `NULL`.
   */
  lemma StoredRow(body: TrackBody, h: TrackHeaders, now: int, local: LocalTime)
    requires HasRequiredFields(body)
    ensures var row := Post(body, h, now, local).body;
      && row.websiteId == body.websiteId.value && row.sessionId == body.sessionId.value
      && row.pageUrl == body.pageUrl.value
      && row.time == now && row.local == local
      && (Present(h.forwardedFor) ==> row.ipAddress == h.forwardedFor.value)
      && (!Present(h.forwardedFor) && Present(h.realIp) ==> row.ipAddress == h.realIp.value)
      && (!Present(h.forwardedFor) && !Present(h.realIp) ==> row.ipAddress == "unknown")
      && (Present(h.userAgent) ==> row.userAgent == h.userAgent.value)
      && (!Present(h.userAgent) ==> row.userAgent == OrElse(body.userAgent, ""))
      && row.pageTitle != ""
      && (Present(body.pageTitle) ==> row.pageTitle == body.pageTitle.value)
      && (!Present(body.pageTitle) ==> row.pageTitle == "Unknown Page")
      && row.isFake == body.isFake.GetOr(false)
      && row.referrer == NullIfEmpty(body.referrer)
      && row.country == NullIfEmpty(body.country)
      && row.city == NullIfEmpty(body.city)
      && row.durationSeconds == Some(body.durationSeconds.GetOr(0))
  {
  }

  /**
   * How the stored row is tallied by the statistics routes: its device, browser
   * and system are always set, so they are never counted as `unknown`; its
   * device is one of the three types; and it is counted as a `direct` visit
   * exactly when the beacon gave no referrer (or a referrer spelled `direct`).
   */
  lemma StoredRowLabels(body: TrackBody, h: TrackHeaders, now: int, local: LocalTime)
    requires HasRequiredFields(body)
    ensures var row := Post(body, h, now, local).body;
      && DeviceLabel(row) in {"mobile", "tablet", "desktop"}
      && BrowserLabel(row) != "unknown" && OsLabel(row) != "unknown"
      && DeviceLabel(row) == ParseUserAgent(row.userAgent).deviceType
      && (ReferrerLabel(row) == "direct" <==> !Present(body.referrer) || body.referrer.value == "direct")
      && (Present(body.referrer) ==> ReferrerLabel(row) == body.referrer.value)
      && DurationOf(row) == body.durationSeconds.GetOr(0)
  {
  }
}
