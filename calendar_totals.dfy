/**
 * What the monthly and yearly routes share: the window of whole calendar years
 * they read, and the per-month / per-year accumulator `{ pageViews, sessions,
 * totalDuration, count }` that their grouping loops fill.
 */
module CalendarTotals {
  import opened Sequences
  import opened Visits
  import opened Metrics

  /**
   * The year `new Date(year, month, day)` lands in: the Date constructor reads
   * the years 0 to 99 as 1900 to 1999.
   */
  function DateYear(year: int): (r: int)
    ensures year < 0 || year >= 100 ==> r == year
    ensures 0 <= year < 100 ==> r == 1900 + year
  {
    if 0 <= year <= 99 then 1900 + year else year
  }

  /**
   * The year a Date lands in is never one of the two-digit years, keeps the
   * last two digits of the year asked for, differs from it exactly for the
   * years 0 to 99, and is where a second construction lands again.
   */
  lemma DateYearNormalises(year: int)
    ensures !(0 <= DateYear(year) <= 99)
    ensures DateYear(year) % 100 == year % 100
    ensures DateYear(year) != year <==> 0 <= year <= 99
    ensures DateYear(DateYear(year)) == DateYear(year)
  {
  }

  /** The SQL filter `website_id = $1 AND visit_time >= startDate AND visit_time <= endDate`. */
  function OfSiteInYears(site: string, fromYear: int, toYear: int): Visit -> bool {
    (v: Visit) => v.websiteId == site && InLocalWindow(v.local, YearsWindow(DateYear(fromYear), DateYear(toYear)))
  }

  /** The rows of a website dated from January 1st of `fromYear` to December 31st of `toYear`. */
  function YearsRows(table: seq<Visit>, site: string, fromYear: int, toYear: int): seq<Visit> {
    Filter(table, OfSiteInYears(site, fromYear, toYear), true)
  }

  /** The slice is exactly the website's rows whose local year lies between the two window years. */
  lemma YearsRowsMembers(table: seq<Visit>, site: string, fromYear: int, toYear: int)
    ensures forall v :: (v in YearsRows(table, site, fromYear, toYear)
      <==> v in table && v.websiteId == site && DateYear(fromYear) <= v.local.year <= DateYear(toYear))
  {
    FilterMembers(table, OfSiteInYears(site, fromYear, toYear), true);
    FilterKeeps(table, OfSiteInYears(site, fromYear, toYear), true);
    forall v: Visit ensures InLocalWindow(v.local, YearsWindow(DateYear(fromYear), DateYear(toYear)))
      <==> DateYear(fromYear) <= v.local.year <= DateYear(toYear)
    {
      YearsWindowIsYearRange(v.local, DateYear(fromYear), DateYear(toYear));
    }
  }

  /** The accumulator of one month or year (its `avgDuration` field is never written and is left out). */
  datatype Totals = Totals(pageViews: nat, sessions: set<string>, totalDuration: nat, count: nat)

  const NoTotals := Totals(0, {}, 0, 0)

  /** One turn of the accumulating `forEach`. */
  function AddVisit(t: Totals, v: Visit): Totals {
    Totals(t.pageViews + 1, t.sessions + {v.sessionId}, t.totalDuration + DurationOf(v), t.count + 1)
  }

  /** The accumulator of `key` once every row whose column `f` is `key` has been added. */
  function TotalsOf(rows: seq<Visit>, f: Visit -> int, key: int): Totals {
    var sub := Filter(rows, f, key);
    Totals(|sub|, SessionIds(sub), DurationTotal(sub), |sub|)
  }

  lemma TotalsOfSnoc(rows: seq<Visit>, v: Visit, f: Visit -> int, key: int)
    ensures TotalsOf(rows + [v], f, key)
      == if f(v) == key then AddVisit(TotalsOf(rows, f, key), v) else TotalsOf(rows, f, key)
  {
    var sub := Filter(rows, f, key);
    FilterSnoc(rows, v, f, key);
    if f(v) == key {
      SessionIdsSnoc(sub, v);
      assert (sub + [v])[..|sub|] == sub;
    } else {
      assert sub + [] == sub;
    }
  }

  lemma TotalsOfEmpty(f: Visit -> int, key: int)
    ensures TotalsOf([], f, key) == NoTotals
  {
  }

  /** Counting row `v` in the accumulator of `key`. */
  function AddToTotals(m: map<int, Totals>, key: int, v: Visit): map<int, Totals>
    requires key in m
  {
    m[key := AddVisit(m[key], v)]
  }

  /** `m` holds one accumulator per key from `lo` to `hi`, each filled with the rows of its key. */
  ghost predicate TotalsMatch(m: map<int, Totals>, rows: seq<Visit>, f: Visit -> int, lo: int, hi: int) {
    && (forall k :: k in m <==> lo <= k <= hi)
    && (forall k :: lo <= k <= hi ==> m[k] == TotalsOf(rows, f, k))
  }

  /** The freshly opened accumulators match the empty prefix of the rows. */
  lemma TotalsMatchStart(m: map<int, Totals>, rows: seq<Visit>, f: Visit -> int, lo: int, hi: int)
    requires forall k :: k in m <==> lo <= k <= hi
    requires forall k :: k in m ==> m[k] == NoTotals
    ensures TotalsMatch(m, rows[..0], f, lo, hi)
  {
    assert rows[..0] == [];
  }

  /** One turn of the accumulating loop: a row whose key is in range is added to its accumulator, any other is skipped. */
  lemma TotalsStep(m: map<int, Totals>, rows: seq<Visit>, i: nat, f: Visit -> int, lo: int, hi: int)
    requires i < |rows|
    requires TotalsMatch(m, rows[..i], f, lo, hi)
    ensures lo <= f(rows[i]) <= hi ==> TotalsMatch(AddToTotals(m, f(rows[i]), rows[i]), rows[..i + 1], f, lo, hi)
    ensures !(lo <= f(rows[i]) <= hi) ==> TotalsMatch(m, rows[..i + 1], f, lo, hi)
  {
    assert rows[..i + 1] == rows[..i] + [rows[i]];
    forall k | lo <= k <= hi
      ensures TotalsOf(rows[..i + 1], f, k)
        == if f(rows[i]) == k then AddVisit(TotalsOf(rows[..i], f, k), rows[i]) else TotalsOf(rows[..i], f, k)
    {
      TotalsOfSnoc(rows[..i], rows[i], f, k);
    }
  }

  /** `count > 0 ? Math.round(totalDuration / count) : 0`. */
  function MeanDuration(t: Totals): nat {
    if t.count > 0 then RoundDiv(t.totalDuration, t.count) else 0
  }

  /** The accumulator's mean is the rounded average duration of the rows it has taken in. */
  lemma MeanDurationOfTotals(rows: seq<Visit>, f: Visit -> int, key: int)
    ensures MeanDuration(TotalsOf(rows, f, key)) == AverageDuration(Filter(rows, f, key))
  {
  }

  /**
   * `calculateMonthBounceRate(data, month)` and `calculateYearBounceRate(data, year)`
   * of the yearly route: the guarded bounce rate of the rows of one month or year,
   * 0 straight away when there is none.
   */
  method PeriodBounceRate(rows: seq<Visit>, f: Visit -> int, key: int) returns (rate: nat)
    ensures rate == GuardedBounceRate(Filter(rows, f, key))
    ensures rate <= 100
  {
    var sub := Filter(rows, f, key);
    if |sub| == 0 {
      return 0;
    }
    rate := CalculateGuardedBounceRate(sub);
  }

  /**
   * For one month or year: as many sessions as the accumulator holds, never more
   * than its page views; a bounce rate that is a percentage; and nothing at all
   * for a period without rows.
   */
  lemma PeriodBounds(rows: seq<Visit>, f: Visit -> int, key: int)
    ensures var t := TotalsOf(rows, f, key);
      && |t.sessions| <= t.pageViews == t.count
      && GuardedBounceRate(Filter(rows, f, key)) <= 100
      && (t.pageViews == 0 ==> |t.sessions| == 0 && MeanDuration(t) == 0 && GuardedBounceRate(Filter(rows, f, key)) == 0)
  {
    SessionsBounded(Filter(rows, f, key));
  }
}
