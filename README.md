# Visit statistics of visitor-website, in Dafny

visitor-website is a Next.js visitor-analytics dashboard. Websites embed a
tracking script. The script posts one beacon per page view to `POST /api/track`,
which stores a row in the `visitors` table. Four statistics routes then
aggregate a slice of those rows:

- `GET /api/stats` reports on one website over a named period;
- `GET /api/stats/all` reports on every website together;
- `GET /api/stats/monthly` gives a line per month of one year;
- `GET /api/stats/yearly` gives a line per year of a range, with year-over-year growth.

Each report holds:

- a summary: page views, distinct sessions, rounded average duration and bounce rate;
- a time series or a month/year list;
- the ten most viewed pages;
- device, browser, OS and referrer tallies.

`POST /api/test-tracking` checks a website's installation from its most recent rows.

This project models those six route files. The code paths it keeps are:

- request validation and the error answers;
- the period windows;
- the grouping and counting loops;
- JavaScript rounding and `x || fallback` defaults;
- the stable sorts;
- the user-agent classifier;
- the installation verdict.

The handlers of the four statistics routes and of the installation check are `Get`/`Post` methods, each proved equal to a response function. The properties of a route are stated on that function and in lemmas about it. The beacon route's `POST` is itself such a function: its one effect, the insert, is not modelled, and its answer is the row it would store.

Modules, one concern each:

| module | models |
|---|---|
| `Wrappers`, `Http`, `Visits` | nullable values, the responses (200/400/404/500), the `visitors` row and its time stamp |
| `Text` | `includes`, `String(n)`, `padStart(2, '0')`, `parseInt(s, 10)`, code-unit string order |
| `Sequences` | projections, filters, counts and their lemmas |
| `Metrics` | the summary: session counting, average duration, both bounce-rate variants |
| `Tallies` | the device/browser/OS and referrer tallies |
| `Ranking` | the top-pages `reduce`, the stable sort by count and the cut to ten |
| `TimeSeries` | `groupTimeSeriesData`: bucket keys, grouping loop, sort by key |
| `DateRange` | `getDateRange` |
| `PeriodReport`, `StatsRoute`, `AllStatsRoute` | the two period routes |
| `CalendarTotals`, `MonthlyRoute`, `YearlyRoute` | the monthly and yearly routes |
| `TrackRoute`, `TestTrackingRoute` | the beacon and the installation check |

The model makes these modelling choices:

- A row carries its instant (`time`, in milliseconds) and its local calendar reading (`local`).
  - Period windows compare instants.
  - Buckets, months and years use the local reading.
- A JavaScript `NaN` bounce rate is `None`; JSON sends it as `null`.
- `Math.round(a / b)` is `(2a + b) / (2b)`, and a rounded percentage is `(200a + b) / (2b)`.
- Stable JavaScript sorts are insertion sorts.

The code differs from the project's written description in these places. The model follows the code:

- The week, month and year windows start at today's local midnight minus N × 24 hours, not at the current instant minus N days (src/app/api/stats/route.ts:174-188).
- There is no `custom:` period. An unknown period is served as today.
- Both ends of every window are included (src/app/api/stats/route.ts:32-33).
- The single-site and all-sites routes do not guard the bounce rate.
  - An empty slice gives `NaN`, not 0 (src/app/api/stats/route.ts:257).
  - The all-sites route sends a literal 0 only when there is no website at all.
- `parseUserAgent` tests `Linux` before `Android` and `Mac OS` before `iPhone`/`iPad`. Android phones are therefore reported as Linux, and Apple phones and tablets as macOS (src/app/api/track/route.ts:85-95).
- `new Date(year, 0, 1)` reads the years 0 to 99 as 1900 to 1999. The window of a one- or two-digit year therefore covers the 1900s. The yearly grouping still compares the raw years, so the entries of such a range stay at zero while the summary counts the rows (src/app/api/stats/yearly/route.ts:21-22, 158).
- A year parameter that is not a number makes `toISOString` throw. The answer is 500, not 400.

## Model

| member | source | states |
|---|---|---|
| Visits.OrElse | src/app/api/stats/route.ts:100 | `x \|\| fallback` is never empty when the fallback is not |
| Visits.YearsWindowIsYearRange | src/app/api/stats/monthly/route.ts:21-22 | a reading lies in the January 1st to December 31st 23:59:59.999 window iff its year is in the range |
| Text.ParseIntRoundTrip | src/app/api/stats/monthly/route.ts:11-20 | `parseInt(String(i), 10)` gives back `i` for every integer |
| Text.ParseIntOfDigits | src/app/api/stats/monthly/route.ts:20 | a run of digits, with or without a minus sign, parses to its value |
| Text.ParseInt | src/app/api/stats/monthly/route.ts:20 | `NaN` (None) exactly when, after leading white space, neither the first character nor the one after a sign is a digit; a negative result comes from a leading minus sign |
| Text.Pad2RoundTrip | src/app/api/stats/route.ts:207-213 | `padStart(2, '0')` of a month, day or hour is two digits reading back as the number |
| Text.LexLessTotal | src/app/api/stats/route.ts:234 | the key order used by the sort is total on distinct keys |
| Text.LexLessTransitive | src/app/api/stats/route.ts:234 | the key order used by the sort is transitive |
| Metrics.RoundDiv | src/app/api/stats/monthly/route.ts:182 | the result is the nearest integer to `a / b`, halves rounded up |
| Metrics.RoundPercent | src/app/api/stats/route.ts:257 | the result is the nearest integer to `100 · part / whole`; it lies in [0, 100] when `0 <= part <= whole` |
| Metrics.SessionsBounded | src/app/api/stats/route.ts:39-41 | there are no more distinct sessions than rows, and at least one iff there is a row |
| Metrics.AverageDurationBounded | src/app/api/stats/route.ts:42 | the rounded average never exceeds a bound on every row's duration |
| Metrics.BouncedSessions | src/app/api/stats/route.ts:250-255 | bounced sessions are among the slice's sessions |
| Metrics.BounceRate | src/app/api/stats/route.ts:237-258 | unguarded rate: `NaN` (None) exactly for an empty slice, otherwise at most 100 |
| Metrics.GuardedBounceRate | src/app/api/stats/yearly/route.ts:274-295 | guarded rate: 0 for an empty slice, never above 100 |
| Metrics.GuardedAgrees | src/app/api/stats/yearly/route.ts:294 | the guarded rate equals the unguarded one when that is a number, and is 0 when it is `NaN` |
| Metrics.GroupBySession | src/app/api/stats/route.ts:238-248 | the map's keys are the session ids; each maps to that session's rows in order |
| Metrics.CountSingleRowSessions | src/app/api/stats/route.ts:250-255 | the count is the number of sessions holding exactly one row |
| Metrics.CountSessions | src/app/api/stats/route.ts:238-255 | the two loops yield the number of sessions and of bounced sessions |
| Metrics.CalculateBounceRate | src/app/api/stats/route.ts:237-258 | the loops compute the unguarded rate |
| Metrics.CalculateGuardedBounceRate | src/app/api/stats/yearly/route.ts:274-295 | the loops compute the guarded rate |
| Metrics.SummaryInvariants | src/app/api/stats/route.ts:38-42 | page views are the row count; unique visitors equal sessions and never exceed page views; the bounce rate is a percentage or `NaN` for no rows |
| Metrics.EmptySummaries | src/app/api/stats/monthly/route.ts:36-42 | without rows the guarded summary is the literal zero summary; the unguarded one differs only by a `NaN` bounce rate |
| Tallies.TallyCounts | src/app/api/stats/route.ts:98-110 | a tally has one key per distinct label, mapped to that label's number of rows |
| Tallies.TallyConserves | src/app/api/stats/route.ts:98-110 | the counts of a tally add up to the number of rows |
| Tallies.GetDeviceStats | src/app/api/stats/route.ts:92-111 | the loop builds the three tallies of device, browser and OS labels |
| Tallies.GetReferrerStats | src/app/api/stats/route.ts:121-127 | the loop builds the referrer tally |
| Tallies.TalliesConserve | src/app/api/stats/route.ts:92-127 | every tally counts every row exactly once |
| Tallies.TalliesHaveNoEmptyLabel | src/app/api/stats/route.ts:100-108 | no tally has an empty label |
| Tallies.FallbackLabels | src/app/api/stats/route.ts:124 | a row without a device type is counted as `unknown`; one without a referrer as `direct`, otherwise under its referrer |
| Ranking.IndexOfUrl | src/app/api/stats/route.ts:73-74 | the lookup finds the entry of the URL, or -1 iff there is none |
| Ranking.AddPageViewEffect | src/app/api/stats/route.ts:72-77 | one step bumps the URL's entry and leaves the others, or appends a new entry with count 1 and the row's title |
| Ranking.PageCountsUrls | src/app/api/stats/route.ts:72-79 | the entries' URLs are the rows' distinct URLs in first-seen order |
| Ranking.PageCountsCounts | src/app/api/stats/route.ts:72-77 | each entry's count is the number of rows with its URL |
| Ranking.PageCountsTitles | src/app/api/stats/route.ts:74 | each entry's title is that of the first row with its URL |
| Ranking.PageCountsLength | src/app/api/stats/route.ts:72-79 | there are as many entries as distinct URLs |
| Ranking.SortByCountPermutes | src/app/api/stats/route.ts:79-80 | the sort is a permutation |
| Ranking.SortByCountSorted | src/app/api/stats/route.ts:80 | the sorted entries are in non-increasing count order |
| Ranking.SortByCountStable | src/app/api/stats/route.ts:80 | entries of equal count keep their first-seen order |
| Ranking.TakeRanked | src/app/api/stats/route.ts:81 | the cut list stays ranked and nothing cut outranks anything kept |
| Ranking.TopPagesSpec | src/app/api/stats/route.ts:79-81 | at most `limit` entries (all if fewer URLs), highest count first, none cut with a higher count than one kept |
| Ranking.TopPages | src/app/api/stats/route.ts:79-81 | at most `limit` entries, in non-increasing count order |
| TimeSeries.MonthKeyParts | src/app/api/stats/route.ts:213 | `YYYY-MM` is the four year digits, a dash and the padded month |
| TimeSeries.DayKeyParts | src/app/api/stats/route.ts:210 | `YYYY-MM-DD` is the month key, a dash and the padded day |
| TimeSeries.HourKeyParts | src/app/api/stats/route.ts:207 | `YYYY-MM-DD HH:00` is the day key, a space and the padded hour |
| TimeSeries.KeyIdentifiesBucket | src/app/api/stats/route.ts:205-214 | for four-digit years, two stamps share a key iff they fall in the same hour, day or month |
| TimeSeries.InsertByDateKeeps | src/app/api/stats/route.ts:234 | inserting keeps every bucket and adds one |
| TimeSeries.SortByDateKeeps | src/app/api/stats/route.ts:234 | the sort keeps exactly its buckets and their page-view total |
| TimeSeries.SortByDateSorted | src/app/api/stats/route.ts:234 | buckets with distinct keys come out in strictly ascending key order |
| TimeSeries.TimeSeriesOf | src/app/api/stats/route.ts:228-234 | the series is strictly ascending by key |
| TimeSeries.TimeSeriesBuckets | src/app/api/stats/route.ts:219-233 | one bucket per key present in the rows, each describing exactly its own rows |
| TimeSeries.TimeSeriesLength | src/app/api/stats/route.ts:219-228 | as many buckets as distinct keys |
| TimeSeries.BucketBounds | src/app/api/stats/route.ts:219-232 | every bucket has 1 <= unique visitors <= page views |
| TimeSeries.TimeSeriesConserves | src/app/api/stats/route.ts:223 | bucket page views add up to the number of rows |
| TimeSeries.GroupOfSnoc | src/app/api/stats/route.ts:219-224 | a row adds itself and its session to its key's group and to no other |
| TimeSeries.AddRow | src/app/api/stats/route.ts:219-224 | one turn opens the key if new, then counts the row and its session |
| TimeSeries.GroupRowsByKey | src/app/api/stats/route.ts:201-225 | the loop leaves one group per key, in first-seen order, each the count and sessions of its rows |
| TimeSeries.GroupTimeSeries | src/app/api/stats/route.ts:198-235 | the method computes the sorted series of buckets |
| DateRange.GetDateRange | src/app/api/stats/route.ts:158-196 | every window starts at today's local midnight minus 0, 1, 7, 30 or 365 times 24 hours, never earlier, and ends now, at today's midnight or at today's midnight plus 24 hours |
| DateRange.UnknownPeriodIsToday | src/app/api/stats/route.ts:189-192 | any unnamed period gets today's window and bucket size |
| DateRange.GroupByOfPeriod | src/app/api/stats/route.ts:163-193 | days for week and month, months for year, hours otherwise |
| DateRange.RollingStartIgnoresTimeOfDay | src/app/api/stats/route.ts:174-188 | week, month and year start a fixed multiple of 24 hours before today's midnight and end now |
| DateRange.WindowsContainNow | src/app/api/stats/route.ts:158-196 | on a 24-hour day, every window contains now, except yesterday's, which does so only at midnight |
| DateRange.LongDayLeavesToday | src/app/api/stats/route.ts:158-196 | in the last hour of a 25-hour day, now lies outside the window of `today` and of every period served as today, though still inside the week |
| DateRange.YesterdayMeetsToday | src/app/api/stats/route.ts:164-173 | yesterday ends where today starts; only the midnight instant lies in both |
| DateRange.RollingWindowsNested | src/app/api/stats/route.ts:174-188 | today so far lies in the week, the week in the month, the month in the year |
| PeriodReport.ProcessStats | src/app/api/stats/all/route.ts:72-198 | the aggregation computes the report of its slice |
| PeriodReport.ReportInvariants | src/app/api/stats/route.ts:129-141 | series page views add up to the row count; visitors equal sessions and stay within it; bounce rate in [0, 100] or `NaN` without rows; at most ten pages, ranked; tallies count every row once |
| PeriodReport.ZeroReportIsEmptyAggregate | src/app/api/stats/all/route.ts:18-32 | the literal zero report is the empty aggregate except for its bounce rate 0 |
| StatsRoute.SiteRowsMembers | src/app/api/stats/route.ts:29-34 | the slice is exactly the website's rows inside the window |
| StatsRoute.Get | src/app/api/stats/route.ts:7-156 | the handler answers what the response function says |
| StatsRoute.StatsResponse | src/app/api/stats/route.ts:7-156 | 400 iff the website id is missing or empty, otherwise a report |
| StatsRoute.PeriodDefaultsToToday | src/app/api/stats/route.ts:11 | a missing or empty period is served as `today` |
| StatsRoute.ForeignRowsIgnored | src/app/api/stats/route.ts:29-34 | a row of another website or outside the window does not change the answer |
| StatsRoute.PageViewsCountSiteRows | src/app/api/stats/route.ts:39 | the page views count the website's rows inside the window |
| AllStatsRoute.Get | src/app/api/stats/all/route.ts:7-70 | the handler answers what the response function says |
| AllStatsRoute.AllStatsResponse | src/app/api/stats/all/route.ts:7-70 | the bounce rate is `NaN` exactly when there are websites but none of their rows lies in the window, and otherwise at most 100 |
| AllStatsRoute.PeriodDefaultsToWeek | src/app/api/stats/all/route.ts:10 | a missing or empty period is served as `week` |
| AllStatsRoute.EmptyAnswers | src/app/api/stats/all/route.ts:18-32 | no website gives the zero report; websites without rows give it with a `NaN` bounce rate |
| AllStatsRoute.OneSiteAgreesWithStatsRoute | src/app/api/stats/all/route.ts:37-42 | for a single website the all-sites report equals the single-site report |
| CalendarTotals.DateYearNormalises | src/app/api/stats/monthly/route.ts:21-22 | the year a Date lands in is never 0..99, keeps the last two digits, differs from the year asked for exactly for 0..99, and is stable under a second construction |
| CalendarTotals.YearsRowsMembers | src/app/api/stats/yearly/route.ts:21-32 | the slice is exactly the website's rows whose year lies between the two window years |
| CalendarTotals.TotalsMatchStart | src/app/api/stats/yearly/route.ts:142-151 | the zeroed accumulators match the empty prefix of the rows |
| CalendarTotals.TotalsOfSnoc | src/app/api/stats/yearly/route.ts:159-162 | a row adds one view, its session and its duration to its own key's accumulator only |
| CalendarTotals.TotalsStep | src/app/api/stats/yearly/route.ts:153-164 | a row in range is counted by its year, a row out of range is skipped |
| CalendarTotals.MeanDurationOfTotals | src/app/api/stats/yearly/route.ts:176 | the accumulator's mean is the rounded average duration of its rows, 0 without rows |
| CalendarTotals.PeriodBounceRate | src/app/api/stats/yearly/route.ts:195-223 | the rate is the guarded bounce rate of that year's or month's rows, at most 100 |
| CalendarTotals.PeriodBounds | src/app/api/stats/monthly/route.ts:179-183 | sessions never exceed page views; rate at most 100; a period without rows has no sessions, mean 0 and rate 0 |
| MonthlyRoute.GenerateEmptyMonths | src/app/api/stats/monthly/route.ts:105-122 | twelve zero entries numbered 1 to 12 and named Jan to Dec |
| MonthlyRoute.GroupByMonth | src/app/api/stats/monthly/route.ts:124-186 | the method computes the twelve month entries |
| MonthlyRoute.MonthEntries | src/app/api/stats/monthly/route.ts:172-185 | from matching accumulators the mapping builds the twelve month entries |
| MonthlyRoute.MonthlyShape | src/app/api/stats/monthly/route.ts:174-178 | exactly twelve entries, month `i + 1` named after it, in order |
| MonthlyRoute.MonthBounds | src/app/api/stats/monthly/route.ts:179-183 | per month: visitors equal sessions and stay within page views; rate at most 100; a month is the zero entry iff it has no views |
| MonthlyRoute.MonthEntryPageViews | src/app/api/stats/monthly/route.ts:154-163 | each month's page views count the rows of that month |
| MonthlyRoute.MonthlyConserves | src/app/api/stats/monthly/route.ts:154-163 | the monthly page views add up to the number of rows |
| MonthlyRoute.EmptyMonthly | src/app/api/stats/monthly/route.ts:43 | grouping no row gives the empty-months skeleton |
| MonthlyRoute.EmptyReportAgrees | src/app/api/stats/monthly/route.ts:34-48 | the empty-year shortcut equals the aggregate of no rows |
| MonthlyRoute.Get | src/app/api/stats/monthly/route.ts:7-103 | the handler answers what the response function says |
| MonthlyRoute.Aggregate | src/app/api/stats/monthly/route.ts:34-95 | the empty-year shortcut or the aggregation computes the monthly report of its slice |
| MonthlyRoute.MonthlyResponse | src/app/api/stats/monthly/route.ts:7-103 | 400 iff the website id is missing or empty; otherwise 500 iff the year does not parse; otherwise a report |
| MonthlyRoute.YearParameter | src/app/api/stats/monthly/route.ts:11-20 | no year means the current year; 500 iff the year does not parse |
| MonthlyRoute.MonthlyReportBounds | src/app/api/stats/monthly/route.ts:50-95 | months add up to the summary's page views; visitors equal sessions within views; rate at most 100 |
| MonthlyRoute.MonthlyReportCoversYear | src/app/api/stats/monthly/route.ts:20-32 | a report covers exactly the website's rows of the requested calendar year |
| YearlyRoute.GenerateEmptyYears | src/app/api/stats/yearly/route.ts:105-121 | the loop lists a zero entry per year from `toYear` down to `fromYear`, none when reversed |
| YearlyRoute.GrowthRate | src/app/api/stats/yearly/route.ts:188 | the result is the nearest integer to the percentage change from the older year's views, halves rounded up |
| YearlyRoute.WithGrowthRates | src/app/api/stats/yearly/route.ts:182-190 | one entry per entry, the oldest left as it was |
| YearlyRoute.GrowthKeepsCounts | src/app/api/stats/yearly/route.ts:182-190 | the growth loop changes no field but `growthRate` |
| YearlyRoute.YearEntriesAt | src/app/api/stats/yearly/route.ts:166-180 | entry `i` is year `toYear - i` with its counts and growth 0 |
| YearlyRoute.ApplyGrowthRates | src/app/api/stats/yearly/route.ts:182-190 | the in-place loop sets each entry's growth from the next older entry |
| YearlyRoute.GroupByYear | src/app/api/stats/yearly/route.ts:123-193 | the method computes the yearly list |
| YearlyRoute.YearEntriesOf | src/app/api/stats/yearly/route.ts:166-180 | from matching accumulators the mapping builds the entries newest first |
| YearlyRoute.YearlyShape | src/app/api/stats/yearly/route.ts:166-169 | one entry per year of the range, strictly descending by year |
| YearlyRoute.GrowthRates | src/app/api/stats/yearly/route.ts:182-190 | growth is over the next older year when that has views, else 0; the oldest entry is 0 |
| YearlyRoute.GrowthRateSign | src/app/api/stats/yearly/route.ts:188 | growth is at least -100, 0 when unchanged, signed like the change, 100 on doubling |
| YearlyRoute.YearBounds | src/app/api/stats/yearly/route.ts:173-177 | per year: visitors equal sessions within views; rate at most 100; a year is the zero entry iff it has no views |
| YearlyRoute.YearStatsSkip | src/app/api/stats/yearly/route.ts:153-164 | a row of another year leaves a year's entry unchanged |
| YearlyRoute.OutOfRangeIgnored | src/app/api/stats/yearly/route.ts:158 | a row dated outside the range changes no entry |
| YearlyRoute.EntryPageViewsAt | src/app/api/stats/yearly/route.ts:159 | the views of year `toYear - i` count the rows of that year |
| YearlyRoute.EntryPageViews | src/app/api/stats/yearly/route.ts:153-180 | each year's page views count the rows of that year |
| YearlyRoute.YearlyConserves | src/app/api/stats/yearly/route.ts:153-164 | when every row is in range, the yearly views add up to the row count |
| YearlyRoute.EmptyYearly | src/app/api/stats/yearly/route.ts:43 | grouping no row gives the empty-years skeleton, growth all 0 |
| YearlyRoute.EmptyReportAgrees | src/app/api/stats/yearly/route.ts:34-48 | the empty-range shortcut equals the aggregate of no rows |
| YearlyRoute.Get | src/app/api/stats/yearly/route.ts:7-103 | the handler answers what the response function says |
| YearlyRoute.Aggregate | src/app/api/stats/yearly/route.ts:50-95 | the aggregation computes the yearly report of its slice |
| YearlyRoute.YearlyResponse | src/app/api/stats/yearly/route.ts:7-103 | 400 iff the website id is missing or empty; otherwise 500 iff either year does not parse; otherwise a report |
| YearlyRoute.DefaultRange | src/app/api/stats/yearly/route.ts:11-12 | without parameters the range is the current year and the four before it |
| YearlyRoute.YearlyReportCoversRange | src/app/api/stats/yearly/route.ts:21-55 | for years of three or more digits: exactly the website's rows in the range, with yearly views adding up to the summary's |
| TrackRoute.BrowserOf | src/app/api/track/route.ts:67-82 | the browser is one of Chrome, Firefox, Safari, Edge, Opera and Unknown |
| TrackRoute.OsOf | src/app/api/track/route.ts:68-95 | the system is one of Windows, macOS, Linux, Android, iOS and Unknown |
| TrackRoute.DeviceTypeOf | src/app/api/track/route.ts:69-104 | the device type is one of mobile, tablet and desktop |
| TrackRoute.ParseUserAgent | src/app/api/track/route.ts:65-107 | each label is one of the fixed values of its kind; an empty agent is an unknown browser and system on a desktop |
| TrackRoute.BrowserPrecedence | src/app/api/track/route.ts:67-82 | the first browser named wins in the order Chrome, Firefox, Safari, Edge, Opera: each label exactly when its name occurs and no earlier one does; Unknown iff no name occurs |
| TrackRoute.OsPrecedence | src/app/api/track/route.ts:85-95 | the first system named wins in the order Windows, Mac OS, Linux, Android, the Apple mobile names: Windows always wins, Linux beats Android, Mac OS beats the Apple mobile names; Android and iOS exactly when the earlier tests fail; Unknown iff none of the seven names occurs |
| TrackRoute.DeviceTypeCases | src/app/api/track/route.ts:98-104 | mobile, tablet or desktop exactly by the names the agent contains |
| TrackRoute.OsImpliesDevice | src/app/api/track/route.ts:85-104 | Android is a phone; iOS with iPhone or iPad is a phone or tablet; a bare `iOS` agent is a desktop |
| TrackRoute.NullIfEmptyReadBack | src/app/api/track/route.ts:36-43 | storing `NULL` for an empty value changes nothing a `\|\|` fallback reads, and storing twice is storing once |
| TrackRoute.Post | src/app/api/track/route.ts:7-63 | 400 iff website, session or page is missing or empty; otherwise the row stamped now, whose browser, system and device are those of its stored user agent |
| TrackRoute.StoredRow | src/app/api/track/route.ts:22-47 | the row copies the ids and page, stamps now, takes the first address header, prefers the header user agent, defaults the title to `Unknown Page`, the fake flag to false and the duration to 0, and stores an empty referrer, country or city as `NULL` |
| TrackRoute.StoredRowLabels | src/app/api/track/route.ts:31-47 | the stored labels are never tallied as `unknown`; `direct` iff no referrer was given |
| TestTrackingRoute.FindWebsite | src/app/api/test-tracking/route.ts:19-22 | a website with the tracking id is found iff one exists |
| TestTrackingRoute.GenerateRecommendations | src/app/api/test-tracking/route.ts:101-139 | the pushes build the recommendation list |
| TestTrackingRoute.Recommendations | src/app/api/test-tracking/route.ts:101-139 | warning first iff inactive, then exactly one of error, info and success by the two flags |
| TestTrackingRoute.Post | src/app/api/test-tracking/route.ts:7-99 | the handler answers what the response function says |
| TestTrackingRoute.TrackingOf | src/app/api/test-tracking/route.ts:43-80 | tests never outnumber recent rows, and test activity implies recent activity |
| TestTrackingRoute.TestTrackingResponse | src/app/api/test-tracking/route.ts:7-99 | 400 iff no tracking id; 404 iff no website has it; otherwise the report names that website; never 500 |
| TestTrackingRoute.TrackingConsistent | src/app/api/test-tracking/route.ts:43-80 | tests never outnumber recent rows; the listed visitors match the rows one for one; the flags agree with the counts |
| TestTrackingRoute.LastTestVisitIsFirstTest | src/app/api/test-tracking/route.ts:64 | the last test visit is the time of the first test row, no earlier row being a test |
| TestTrackingRoute.NoRecentRows | src/app/api/test-tracking/route.ts:118-123 | without recent rows there is no activity and the last recommendation is the no-data error |
| TestTrackingRoute.DefaultTestUrlIsTest | src/app/api/test-tracking/route.ts:82 | the default test URL is the domain with `?test=true`, and a visit to it counts as a test |

## Left out

- Database access is not modelled: the SQL queries, `ORDER BY` and `LIMIT`, and the `insertAndReturn` round trip. Each handler takes the `visitors` table (or the slice a query returns) as a parameter, and the filter is written out as the query's `WHERE` clause.
- The recent-visitors query of the installation check (five minutes, newest first, ten rows) is a parameter, `recent`.
- The clock (`new Date()`, `Date.now()`) and the local time zone are parameters: `DateRange.Clock`, `currentYear` and each row's `local` reading.
- DateRange.WindowsContainNow: days are taken as 24 hours (`ValidClock`). On a day with a clock change, the code's `today ± N·24h` is not a local midnight, and in the last hour of a 25-hour day `now` lies outside `today`'s window (`DateRange.LongDayLeavesToday` states that case).
- Floating point is not modelled. Durations are whole seconds (`nat`). Divisions that `Math.round` follows are exact rationals, rounded by the integer formulas above.
- `localeCompare` is modelled as code-unit order. Keys of one bucket size share their layout and differ only in digits, where the two orders agree for four-digit years.
- `Object.values` order is first-seen order. JavaScript would list integer-like page URLs first; such URLs are not modelled.
- Tallies.TallyOf: a tally is a map from every label to its count. The code builds it on a plain object (`{}`), where a label naming an `Object.prototype` member (`__proto__`, `constructor`, `toString`, …) is lost (`__proto__`) or starts from an inherited function instead of 0. Such device, browser, OS or referrer labels are not modelled, and `TallyCounts`, `TallyConserves` and `TalliesConserve` are stated for a map.
- Ranking.PageCounts: the page reduce is modelled as a list keyed by URL. On the code's plain object a page URL naming an `Object.prototype` member writes to the prototype or starts from an inherited function, and never reaches `Object.values` as a page. Such URLs are not modelled, and `PageCountsUrls`, `PageCountsCounts` and `TopPagesSpec` are stated for ordinary keys.
- The loop at src/app/api/stats/monthly/route.ts:165-170 computes nothing and is not modelled.
- The `avgDuration` accumulator field is never written and is left out.
- Server errors are modelled only where the code is evidently meant to produce them: a year parameter that is not a number (`Invalid Date` in `toISOString`). Database failures and years beyond the range of JavaScript dates are not modelled.
- Text.ParseInt: skips only ASCII white space before the number, and the `0x` prefix is not relevant under radix 10.
- TestTrackingRoute.Summarise: `is_test` is a boolean; the code sends an empty string for an empty URL, which JSON readers treat like `false`.
- TestTrackingRoute.FindWebsite: takes the first website with the tracking id, as `queryOne` does; the database's own row order is not modelled.
- The `OPTIONS` handlers of the two `POST` routes only set CORS headers and are left out.
- JSON bodies are typed: request fields are `Option<string>`, `Option<nat>` or `Option<bool>`, and values of other JSON types are not modelled.
- TrackRoute.Post: is a function on values. The insert is not modelled; the answer is the row that would be stored.
