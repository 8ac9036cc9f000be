/**
 * The `visitors` table row and the two ways the routes look at its time stamp:
 * as an instant (compared with the period windows of the summary routes) and as
 * a calendar reading in the server's local time zone (used to bucket rows and by
 * the monthly and yearly windows).
 */
module Visits {
  import opened Wrappers

  type Month = m: int | 1 <= m <= 12 witness 1
  type Day = d: int | 1 <= d <= 31 witness 1
  type Hour = h: int | 0 <= h <= 23
  type Minute = m: int | 0 <= m <= 59
  type Second = s: int | 0 <= s <= 59
  type Millisecond = ms: int | 0 <= ms <= 999

  /** What `getFullYear()`, `getMonth() + 1`, `getDate()`, `getHours()`, ... return for a time stamp. */
  datatype LocalTime = LocalTime(
    year: int, month: Month, day: Day,
    hour: Hour, minute: Minute, second: Second, millisecond: Millisecond)

  /** One row of the `visitors` table; nullable columns are `Option`s. */
  datatype Visit = Visit(
    websiteId: string,
    sessionId: string,
    ipAddress: string,
    userAgent: string,
    referrer: Option<string>,
    pageUrl: string,
    pageTitle: string,
    time: int,              // visit_time as milliseconds since the epoch
    local: LocalTime,       // visit_time read in the server's local time zone
    durationSeconds: Option<nat>,
    isFake: bool,
    country: Option<string>,
    city: Option<string>,
    browser: Option<string>,
    os: Option<string>,
    deviceType: Option<string>)

  /** JavaScript truthiness of a nullable string: neither missing nor empty. */
  predicate Present(o: Option<string>) {
    o.Some? && o.value != ""
  }

  /** `o || fallback` for a nullable string. */
  function OrElse(o: Option<string>, fallback: string): (r: string)
    ensures fallback != "" ==> r != ""
  {
    if Present(o) then o.value else fallback
  }

  function SessionOf(v: Visit): string { v.sessionId }
  function UrlOf(v: Visit): string { v.pageUrl }
  function MonthOf(v: Visit): int { v.local.month }
  function YearOf(v: Visit): int { v.local.year }

  /** `v.duration_seconds || 0`. */
  function DurationOf(v: Visit): nat { v.durationSeconds.GetOr(0) }

  /** `v.device_type || 'unknown'`, and likewise for browser and OS. */
  function DeviceLabel(v: Visit): string { OrElse(v.deviceType, "unknown") }
  function BrowserLabel(v: Visit): string { OrElse(v.browser, "unknown") }
  function OsLabel(v: Visit): string { OrElse(v.os, "unknown") }

  /** `v.referrer || 'direct'`. */
  function ReferrerLabel(v: Visit): string { OrElse(v.referrer, "direct") }

  /** A window on instants; the SQL filter is `visit_time >= start AND visit_time <= end`. */
  datatype Window = Window(start: int, end: int)

  predicate InWindow(t: int, w: Window) {
    w.start <= t <= w.end
  }

  /** Chronological order of local calendar readings. */
  predicate LocalLeq(a: LocalTime, b: LocalTime) {
    if a.year != b.year then a.year < b.year
    else if a.month != b.month then a.month < b.month
    else if a.day != b.day then a.day < b.day
    else if a.hour != b.hour then a.hour < b.hour
    else if a.minute != b.minute then a.minute < b.minute
    else if a.second != b.second then a.second < b.second
    else a.millisecond <= b.millisecond
  }

  /** A window given by two local dates, both ends included. */
  datatype LocalWindow = LocalWindow(from: LocalTime, to: LocalTime)

  predicate InLocalWindow(t: LocalTime, w: LocalWindow) {
    LocalLeq(w.from, t) && LocalLeq(t, w.to)
  }

  /** `new Date(fromYear, 0, 1)` to `new Date(toYear, 11, 31, 23, 59, 59, 999)`. */
  function YearsWindow(fromYear: int, toYear: int): LocalWindow {
    LocalWindow(LocalTime(fromYear, 1, 1, 0, 0, 0, 0), LocalTime(toYear, 12, 31, 23, 59, 59, 999))
  }

  /** The monthly and yearly windows hold exactly the readings whose year lies in the range. */
  lemma YearsWindowIsYearRange(t: LocalTime, fromYear: int, toYear: int)
    ensures InLocalWindow(t, YearsWindow(fromYear, toYear)) <==> fromYear <= t.year <= toYear
  {
  }
}
