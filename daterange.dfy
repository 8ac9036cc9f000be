/**
 * `getDateRange` of the single-site and all-sites routes: the window of instants
 * a named period covers and the bucket size of its time series. Both routes hold
 * an identical copy of it.
 */
module DateRange {
  import opened Visits
  import opened TimeSeries

  /** One day in milliseconds, `24 * 60 * 60 * 1000`. */
  const DayMs: int := 24 * 60 * 60 * 1000

  /**
   * The two readings of the clock the routes take: `now`, and `today`, the
   * instant of the most recent local midnight, both in milliseconds.
   */
  datatype Clock = Clock(now: int, midnight: int)

  /**
   * `today` is the start of the local day that contains `now`, that day lasting
   * 24 hours. On a day with a clock change it lasts 23 or 25 hours, and the
   * code's `today + 24h` is then not the next midnight.
   */
  predicate ValidClock(c: Clock) {
    c.midnight <= c.now < c.midnight + DayMs
  }

  /** `{ startDate, endDate, groupBy }`. */
  datatype PeriodRange = PeriodRange(window: Window, groupBy: Granularity)

  /** The `today` case, which is also the `default` case. */
  function TodayRange(c: Clock): PeriodRange {
    PeriodRange(Window(c.midnight, c.midnight + DayMs), ByHour)
  }

  /**
   * The `switch (period)`: every window starts at today's local midnight minus
   * 0, 1, 7, 30 or 365 times 24 hours, never earlier, and ends now, at today's
   * midnight or at today's midnight plus 24 hours. Across a clock change these
   * instants are not themselves local midnights.
   */
  function GetDateRange(period: string, c: Clock): (r: PeriodRange)
    ensures c.midnight - 365 * DayMs <= r.window.start <= c.midnight
    ensures r.window.start in {c.midnight, c.midnight - DayMs, c.midnight - 7 * DayMs, c.midnight - 30 * DayMs, c.midnight - 365 * DayMs}
    ensures r.window.end == c.now || r.window.end == c.midnight || r.window.end == c.midnight + DayMs
  {
    if period == "today" then TodayRange(c)
    else if period == "yesterday" then PeriodRange(Window(c.midnight - DayMs, c.midnight), ByHour)
    else if period == "week" then PeriodRange(Window(c.midnight - 7 * DayMs, c.now), ByDay)
    else if period == "month" then PeriodRange(Window(c.midnight - 30 * DayMs, c.now), ByDay)
    else if period == "year" then PeriodRange(Window(c.midnight - 365 * DayMs, c.now), ByMonth)
    else TodayRange(c)
  }

  predicate KnownPeriod(period: string) {
    period in {"today", "yesterday", "week", "month", "year"}
  }

  /** Any period the switch does not name is served as `today`. */
  lemma UnknownPeriodIsToday(period: string, c: Clock)
    requires !KnownPeriod(period)
    ensures GetDateRange(period, c) == GetDateRange("today", c)
  {
  }

  /**
   * The bucket size: hours for today, yesterday and anything unknown, days for
   * the week and the month, months for the year.
   */
  lemma GroupByOfPeriod(period: string, c: Clock)
    ensures GetDateRange(period, c).groupBy == ByDay <==> period == "week" || period == "month"
    ensures GetDateRange(period, c).groupBy == ByMonth <==> period == "year"
    ensures GetDateRange(period, c).groupBy == ByHour <==> period !in {"week", "month", "year"}
  {
  }

  /**
   * The rolling windows (week, month, year) end at `now` and begin a fixed
   * multiple of 24 hours before today's local midnight, so their start does not
   * move during the day: two clocks on the same day give the same start.
   */
  lemma RollingStartIgnoresTimeOfDay(period: string, c1: Clock, c2: Clock)
    requires c1.midnight == c2.midnight
    ensures GetDateRange(period, c1).window.start == GetDateRange(period, c2).window.start
    ensures period in {"week", "month", "year"} ==>
      GetDateRange(period, c1).window.end == c1.now && GetDateRange(period, c2).window.end == c2.now
  {
  }

  /**
   * On a day of 24 hours, every period's window contains the current instant,
   * except `yesterday`, which only touches today's midnight.
   */
  lemma WindowsContainNow(period: string, c: Clock)
    requires ValidClock(c)
    ensures period != "yesterday" ==> InWindow(c.now, GetDateRange(period, c).window)
    ensures period == "yesterday" ==> (InWindow(c.now, GetDateRange(period, c).window) <==> c.now == c.midnight)
  {
  }

  /**
   * On a day of 25 hours (clocks going back), the last hour lies more than
   * 24 hours after `today`: there `now` is outside the `today` window, and
   * outside the window of every period served as today.
   */
  lemma LongDayLeavesToday(period: string, c: Clock)
    requires c.now > c.midnight + DayMs
    requires period !in {"yesterday", "week", "month", "year"}
    ensures !InWindow(c.now, GetDateRange(period, c).window)
    ensures InWindow(c.now, GetDateRange("week", c).window)
  {
  }

  /**
   * `yesterday` ends where `today` starts; both ends being inclusive, an instant
   * exactly at midnight is counted in both windows, and in no other case.
   */
  lemma YesterdayMeetsToday(c: Clock, t: int)
    ensures GetDateRange("yesterday", c).window.end == GetDateRange("today", c).window.start
    ensures InWindow(t, GetDateRange("yesterday", c).window) && InWindow(t, GetDateRange("today", c).window)
      <==> t == c.midnight
  {
  }

  /** The rolling windows are nested: week within month within year, and the part of today up to now lies in the week. */
  lemma RollingWindowsNested(c: Clock, t: int)
    requires ValidClock(c)
    ensures c.midnight <= t <= c.now ==> InWindow(t, GetDateRange("week", c).window)
    ensures InWindow(t, GetDateRange("week", c).window) ==> InWindow(t, GetDateRange("month", c).window)
    ensures InWindow(t, GetDateRange("month", c).window) ==> InWindow(t, GetDateRange("year", c).window)
  {
  }
}
