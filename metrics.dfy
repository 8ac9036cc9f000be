/**
 * The summary metrics every stats route computes from its slice of rows:
 * page views, distinct sessions, the rounded average duration and the bounce
 * rate (a session bounces when it has exactly one row in the slice).
 */
module Metrics {
  import opened Wrappers
  import opened Sequences
  import opened Visits

  /** `summary` of a report; `bounceRate` is `None` where JavaScript computes `NaN` (sent as `null`). */
  datatype Summary = Summary(
    totalPageViews: nat,
    uniqueVisitors: nat,
    totalSessions: nat,
    averageDuration: nat,
    bounceRate: Option<nat>)

  /** The literal all-zero summary the routes return for missing data. */
  const ZeroSummary := Summary(0, 0, 0, 0, Some(0))

  /** `new Set(rows.map(v => v.session_id))`. */
  function SessionIds(rows: seq<Visit>): set<string> {
    Elems(Project(rows, SessionOf))
  }

  /** There are never more sessions than rows, and some session as soon as there is a row. */
  lemma SessionsBounded(rows: seq<Visit>)
    ensures |SessionIds(rows)| <= |rows|
    ensures rows != [] <==> |SessionIds(rows)| >= 1
  {
    ElemsBound(Project(rows, SessionOf));
  }

  lemma SessionIdsSnoc(rows: seq<Visit>, v: Visit)
    ensures SessionIds(rows + [v]) == SessionIds(rows) + {v.sessionId}
  {
    ProjectSnoc(rows, v, SessionOf);
    ElemsSnoc(Project(rows, SessionOf), v.sessionId);
  }

  /** `rows.reduce((sum, v) => sum + (v.duration_seconds || 0), 0)`. */
  function DurationTotal(rows: seq<Visit>): nat {
    if rows == [] then 0 else DurationTotal(rows[..|rows| - 1]) + DurationOf(rows[|rows| - 1])
  }

  /** `Math.round(a / b)` for non-negative `a` and positive `b`: the nearest integer, halves up. */
  function RoundDiv(a: nat, b: nat): (r: nat)
    requires b > 0
    ensures 2 * b * r <= 2 * a + b < 2 * b * (r + 1)
  {
    (2 * a + b) / (2 * b)
  }

  /** `Math.round(part / whole * 100)` for positive `whole`: the nearest integer to the percentage, halves up. */
  function RoundPercent(part: int, whole: int): (r: int)
    requires whole > 0
    ensures 2 * whole * r <= 200 * part + whole < 2 * whole * (r + 1)
    ensures 0 <= part <= whole ==> 0 <= r <= 100
  {
    var r := (200 * part + whole) / (2 * whole);
    PercentBounds(part, whole, r);
    r
  }

  lemma PercentBounds(part: int, whole: int, r: int)
    requires whole > 0
    requires 2 * whole * r <= 200 * part + whole < 2 * whole * (r + 1)
    ensures 0 <= part <= whole ==> 0 <= r <= 100
  {
    if 0 <= part <= whole {
      MulCancel(2 * whole, 0, r + 1);
      MulCancel(2 * whole, r, 101);
    }
  }

  lemma MulCancel(k: int, x: int, y: int)
    requires k > 0 && k * x < k * y
    ensures x < y
  {
  }

  /** `Math.round(total / count || 0)`: the rounded mean duration, 0 for an empty slice. */
  function AverageDuration(rows: seq<Visit>): nat {
    if |rows| == 0 then 0 else RoundDiv(DurationTotal(rows), |rows|)
  }

  lemma {:induction false} DurationTotalBounded(rows: seq<Visit>, cap: nat)
    requires forall v :: v in rows ==> DurationOf(v) <= cap
    ensures DurationTotal(rows) <= |rows| * cap
  {
    if rows != [] {
      var n := |rows| - 1;
      DurationTotalBounded(rows[..n], cap);
      assert rows[n] in rows;
      assert DurationTotal(rows) == DurationTotal(rows[..n]) + DurationOf(rows[n]);
      assert n * cap + cap == |rows| * cap;
    }
  }

  /** The average never exceeds the longest duration in the slice. */
  lemma AverageDurationBounded(rows: seq<Visit>, cap: nat)
    requires forall v :: v in rows ==> DurationOf(v) <= cap
    ensures AverageDuration(rows) <= cap
  {
    if rows != [] {
      DurationTotalBounded(rows, cap);
      RoundDivBounded(DurationTotal(rows), |rows|, cap);
    }
  }

  lemma RoundDivBounded(a: nat, n: nat, cap: nat)
    requires n > 0 && a <= n * cap
    ensures RoundDiv(a, n) <= cap
  {
    var r := RoundDiv(a, n);
    assert 2 * n * r <= 2 * a + n;
    assert 2 * a <= 2 * (n * cap);
    assert 2 * n * r < 2 * n * (cap + 1);
    MulCancel(2 * n, r, cap + 1);
  }

  /** The sessions that have exactly one row in the slice. */
  function BouncedSessions(rows: seq<Visit>): (r: set<string>)
    ensures r <= SessionIds(rows)
  {
    set s | s in SessionIds(rows) && Count(Project(rows, SessionOf), s) == 1
  }

  /**
   * `calculateBounceRate` as written in the single-site and all-sites routes:
   * `Math.round(bounced / sessions.size * 100)` with no guard, so `NaN` (here `None`)
   * when there is no session.
   */
  function BounceRate(rows: seq<Visit>): (r: Option<nat>)
    ensures r.None? <==> rows == []
    ensures r.Some? ==> r.value <= 100
  {
    SessionsBounded(rows);
    SubsetCardinality(BouncedSessions(rows), SessionIds(rows));
    if |SessionIds(rows)| == 0 then None
    else Some(RoundPercent(|BouncedSessions(rows)|, |SessionIds(rows)|))
  }

  /** The guarded bounce rate of the monthly and yearly routes: 0 when there is no session. */
  function GuardedBounceRate(rows: seq<Visit>): (r: nat)
    ensures rows == [] ==> r == 0
    ensures r <= 100
  {
    SessionsBounded(rows);
    SubsetCardinality(BouncedSessions(rows), SessionIds(rows));
    if |SessionIds(rows)| == 0 then 0
    else RoundPercent(|BouncedSessions(rows)|, |SessionIds(rows)|)
  }

  /** The guarded and unguarded rates agree whenever the unguarded one is a number. */
  lemma GuardedAgrees(rows: seq<Visit>)
    ensures BounceRate(rows).Some? ==> GuardedBounceRate(rows) == BounceRate(rows).value
    ensures BounceRate(rows).None? ==> GuardedBounceRate(rows) == 0
  {
  }

  /** `sessions` maps each session id of `rows` to that session's rows, in order. */
  ghost predicate GroupedBySession(sessions: map<string, seq<Visit>>, rows: seq<Visit>) {
    && sessions.Keys == SessionIds(rows)
    && forall s :: s in sessions ==> sessions[s] == Filter(rows, SessionOf, s)
  }

  lemma GroupedBySessionSnoc(sessions: map<string, seq<Visit>>, rows: seq<Visit>, v: Visit)
    requires GroupedBySession(sessions, rows)
    ensures GroupedBySession(
      sessions[v.sessionId := (if v.sessionId in sessions then sessions[v.sessionId] else []) + [v]],
      rows + [v])
  {
    var after := sessions[v.sessionId := (if v.sessionId in sessions then sessions[v.sessionId] else []) + [v]];
    SessionIdsSnoc(rows, v);
    forall s | s in after ensures after[s] == Filter(rows + [v], SessionOf, s) {
      FilterSnoc(rows, v, SessionOf, s);
      if s == v.sessionId && s !in sessions {
        FilterAbsent(rows, SessionOf, s);
      }
    }
  }

  /** First loop of `calculateBounceRate`: the rows of each session, in a `Map` keyed by session id. */
  method GroupBySession(rows: seq<Visit>) returns (sessions: map<string, seq<Visit>>)
    ensures sessions.Keys == SessionIds(rows)
    ensures forall s :: s in sessions ==> sessions[s] == Filter(rows, SessionOf, s)
  {
    sessions := map[];
    for i := 0 to |rows|
      invariant GroupedBySession(sessions, rows[..i])
    {
      var v := rows[i];
      SnocPrefix(rows, i);
      GroupedBySessionSnoc(sessions, rows[..i], v);
      if v.sessionId !in sessions {
        sessions := sessions[v.sessionId := []];
      }
      sessions := sessions[v.sessionId := sessions[v.sessionId] + [v]];
    }
    assert rows[..|rows|] == rows;
  }

  /** Second loop of `calculateBounceRate`: how many sessions hold exactly one row. */
  method CountSingleRowSessions(sessions: map<string, seq<Visit>>) returns (bounced: nat)
    ensures bounced == |set s | s in sessions.Keys && |sessions[s]| == 1|
  {
    bounced := 0;
    var remaining := sessions.Keys;
    while remaining != {}
      invariant remaining <= sessions.Keys
      invariant bounced == |set s | s in sessions.Keys - remaining && |sessions[s]| == 1|
      decreases remaining
    {
      var s :| s in remaining;
      ghost var before := set t | t in sessions.Keys - remaining && |sessions[t]| == 1;
      ghost var after := set t | t in sessions.Keys - (remaining - {s}) && |sessions[t]| == 1;
      if |sessions[s]| == 1 {
        assert after == before + {s};
        bounced := bounced + 1;
      } else {
        assert after == before;
      }
      remaining := remaining - {s};
    }
    assert sessions.Keys - remaining == sessions.Keys;
  }

  /** The two loops of `calculateBounceRate`: the number of sessions and of bounced sessions. */
  method CountSessions(rows: seq<Visit>) returns (sessionCount: nat, bounced: nat)
    ensures sessionCount == |SessionIds(rows)|
    ensures bounced == |BouncedSessions(rows)|
  {
    var sessions := GroupBySession(rows);
    bounced := CountSingleRowSessions(sessions);
    forall s | s in sessions ensures |sessions[s]| == Count(Project(rows, SessionOf), s) {
      FilterLength(rows, SessionOf, s);
    }
    assert (set s | s in sessions.Keys && |sessions[s]| == 1) == BouncedSessions(rows);
    sessionCount := |sessions|;
  }

  /** `calculateBounceRate` of the single-site and all-sites routes (unguarded). */
  method CalculateBounceRate(rows: seq<Visit>) returns (rate: Option<nat>)
    ensures rate == BounceRate(rows)
  {
    var sessionCount, bounced := CountSessions(rows);
    if sessionCount == 0 {
      rate := None;
    } else {
      rate := Some(RoundPercent(bounced, sessionCount));
    }
  }

  /** `calculateYearBounceRate` / `calculateBounceRate` of the monthly and yearly routes (guarded). */
  method CalculateGuardedBounceRate(rows: seq<Visit>) returns (rate: nat)
    ensures rate == GuardedBounceRate(rows)
  {
    var sessionCount, bounced := CountSessions(rows);
    rate := if sessionCount > 0 then RoundPercent(bounced, sessionCount) else 0;
  }

  /** The summary of the single-site and all-sites routes. */
  function SummaryOf(rows: seq<Visit>): Summary {
    Summary(|rows|, |SessionIds(rows)|, |SessionIds(rows)|, AverageDuration(rows), BounceRate(rows))
  }

  /** The summary of the monthly and yearly routes. */
  function GuardedSummaryOf(rows: seq<Visit>): Summary {
    Summary(|rows|, |SessionIds(rows)|, |SessionIds(rows)|, AverageDuration(rows), Some(GuardedBounceRate(rows)))
  }

  /** Unique visitors and sessions are the same count, bounded by the page views. */
  lemma SummaryInvariants(rows: seq<Visit>)
    ensures var s := SummaryOf(rows);
      s.totalPageViews == |rows| && s.uniqueVisitors == s.totalSessions <= s.totalPageViews
      && (rows != [] ==> s.uniqueVisitors >= 1)
      && (s.bounceRate.None? <==> rows == [])
      && (s.bounceRate.Some? ==> s.bounceRate.value <= 100)
    ensures var g := GuardedSummaryOf(rows);
      g.uniqueVisitors == g.totalSessions <= g.totalPageViews == |rows|
      && g.bounceRate.Some? && g.bounceRate.value <= 100
  {
    SessionsBounded(rows);
  }

  /**
   * On an empty slice the guarded summary is the literal zero summary the
   * monthly and yearly routes return, while the unguarded one has a `NaN` bounce rate.
   */
  lemma EmptySummaries()
    ensures GuardedSummaryOf([]) == ZeroSummary
    ensures SummaryOf([]) == ZeroSummary.(bounceRate := None)
  {
    SessionsBounded([]);
  }
}
