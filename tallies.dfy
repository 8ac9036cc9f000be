/**
 * Label tallies: `stats[key] = (stats[key] || 0) + 1` over the rows, for the
 * device type, browser and OS (missing labels read `unknown`) and for the
 * referrer (missing referrers read `direct`).
 */
module Tallies {
  import opened Sequences
  import opened Visits

  /** One tally step: start a key at 1 or add 1 to it. */
  function Bump(m: map<string, nat>, key: string): map<string, nat> {
    m[key := (if key in m then m[key] else 0) + 1]
  }

  /** The tally a `forEach` over `labels` leaves behind. */
  function TallyOf(labels: seq<string>): map<string, nat> {
    if labels == [] then map[] else Bump(TallyOf(labels[..|labels| - 1]), labels[|labels| - 1])
  }

  /** Sum of the counts of a tally. */
  ghost function MapSum(m: map<string, nat>): nat
    decreases |m|
  {
    if m == map[] then 0
    else
      var k :| k in m;
      m[k] + MapSum(m - {k})
  }

  /** The sum does not depend on which key is taken out first. */
  lemma {:induction false} MapSumPick(m: map<string, nat>, k: string)
    requires k in m
    ensures MapSum(m) == m[k] + MapSum(m - {k})
    decreases |m|
  {
    var j :| j in m && MapSum(m) == m[j] + MapSum(m - {j});
    if j != k {
      assert |m - {j}| < |m|;
      MapSumPick(m - {j}, k);
      MapSumPick(m - {k}, j);
      assert m - {j} - {k} == m - {k} - {j};
    }
  }

  /** One tally step adds exactly 1 to the sum of the counts. */
  lemma BumpSum(m: map<string, nat>, key: string)
    ensures MapSum(Bump(m, key)) == MapSum(m) + 1
  {
    var b := Bump(m, key);
    MapSumPick(b, key);
    assert b - {key} == m - {key};
    if key in m {
      MapSumPick(m, key);
    } else {
      assert m - {key} == m;
    }
  }

  /** The tally has one key per distinct key, mapped to the number of times it occurs. */
  lemma {:induction false} TallyCounts(labels: seq<string>)
    ensures TallyOf(labels).Keys == Elems(labels)
    ensures forall k :: k in TallyOf(labels) ==> TallyOf(labels)[k] == Count(labels, k)
  {
    if labels != [] {
      var init := labels[..|labels| - 1];
      TallyCounts(init);
      assert labels == init + [labels[|labels| - 1]];
      ElemsSnoc(init, labels[|labels| - 1]);
      forall k | k in TallyOf(labels) ensures TallyOf(labels)[k] == Count(labels, k) {
        CountSnoc(init, labels[|labels| - 1], k);
        if k !in TallyOf(init) {
          CountPositive(init, k);
        }
      }
    }
  }

  /** Conservation: the counts of a tally add up to the number of rows tallied. */
  lemma {:induction false} TallyConserves(labels: seq<string>)
    ensures MapSum(TallyOf(labels)) == |labels|
  {
    if labels != [] {
      TallyConserves(labels[..|labels| - 1]);
      BumpSum(TallyOf(labels[..|labels| - 1]), labels[|labels| - 1]);
    }
  }

  /** `deviceStats`: one tally per column. */
  datatype DeviceStats = DeviceStats(
    devices: map<string, nat>,
    browsers: map<string, nat>,
    os: map<string, nat>)

  const EmptyDeviceStats := DeviceStats(map[], map[], map[])

  function DeviceStatsOf(rows: seq<Visit>): DeviceStats {
    DeviceStats(
      TallyOf(Project(rows, DeviceLabel)),
      TallyOf(Project(rows, BrowserLabel)),
      TallyOf(Project(rows, OsLabel)))
  }

  function ReferrerStatsOf(rows: seq<Visit>): map<string, nat> {
    TallyOf(Project(rows, ReferrerLabel))
  }

  /** Tallying one more row bumps that row's label. */
  lemma TallySnoc(rows: seq<Visit>, v: Visit, f: Visit -> string)
    ensures TallyOf(Project(rows + [v], f)) == Bump(TallyOf(Project(rows, f)), f(v))
  {
    ProjectSnoc(rows, v, f);
    assert Project(rows + [v], f)[..|rows|] == Project(rows, f);
  }

  lemma DeviceStatsSnoc(rows: seq<Visit>, v: Visit)
    ensures var d := DeviceStatsOf(rows);
      DeviceStatsOf(rows + [v])
        == DeviceStats(Bump(d.devices, DeviceLabel(v)), Bump(d.browsers, BrowserLabel(v)), Bump(d.os, OsLabel(v)))
  {
    TallySnoc(rows, v, DeviceLabel);
    TallySnoc(rows, v, BrowserLabel);
    TallySnoc(rows, v, OsLabel);
  }

  /** The device/browser/OS `forEach`, all three tallies in one pass. */
  method GetDeviceStats(rows: seq<Visit>) returns (stats: DeviceStats)
    ensures stats == DeviceStatsOf(rows)
  {
    stats := EmptyDeviceStats;
    for i := 0 to |rows|
      invariant stats == DeviceStatsOf(rows[..i])
    {
      var v := rows[i];
      SnocPrefix(rows, i);
      DeviceStatsSnoc(rows[..i], v);
      var device := OrElse(v.deviceType, "unknown");
      var browser := OrElse(v.browser, "unknown");
      var os := OrElse(v.os, "unknown");
      stats := DeviceStats(Bump(stats.devices, device), Bump(stats.browsers, browser), Bump(stats.os, os));
    }
    assert rows[..|rows|] == rows;
  }

  /** The referrer `forEach`. */
  method GetReferrerStats(rows: seq<Visit>) returns (stats: map<string, nat>)
    ensures stats == ReferrerStatsOf(rows)
  {
    stats := map[];
    for i := 0 to |rows|
      invariant stats == ReferrerStatsOf(rows[..i])
    {
      var v := rows[i];
      SnocPrefix(rows, i);
      TallySnoc(rows[..i], v, ReferrerLabel);
      var referrer := OrElse(v.referrer, "direct");
      stats := Bump(stats, referrer);
    }
    assert rows[..|rows|] == rows;
  }

  /** A tally of non-empty labels has no empty key. */
  lemma TallyNoEmptyKey(labels: seq<string>)
    requires forall i :: 0 <= i < |labels| ==> labels[i] != ""
    ensures "" !in TallyOf(labels)
  {
    TallyCounts(labels);
  }

  /** Each tally counts every row exactly once: the counts add up to the number of rows. */
  lemma TalliesConserve(rows: seq<Visit>)
    ensures var d := DeviceStatsOf(rows);
      MapSum(d.devices) == |rows| && MapSum(d.browsers) == |rows| && MapSum(d.os) == |rows|
      && MapSum(ReferrerStatsOf(rows)) == |rows|
  {
    TallyConserves(Project(rows, DeviceLabel));
    TallyConserves(Project(rows, BrowserLabel));
    TallyConserves(Project(rows, OsLabel));
    TallyConserves(Project(rows, ReferrerLabel));
  }

  /** Missing and empty labels never appear as such: they are counted under their fallback. */
  lemma TalliesHaveNoEmptyLabel(rows: seq<Visit>)
    ensures var d := DeviceStatsOf(rows);
      "" !in d.devices && "" !in d.browsers && "" !in d.os && "" !in ReferrerStatsOf(rows)
  {
    TallyNoEmptyKey(Project(rows, DeviceLabel));
    TallyNoEmptyKey(Project(rows, BrowserLabel));
    TallyNoEmptyKey(Project(rows, OsLabel));
    TallyNoEmptyKey(Project(rows, ReferrerLabel));
  }

  /** A row without a device type is counted under `unknown`; one without a referrer under `direct`. */
  lemma FallbackLabels(rows: seq<Visit>, v: Visit)
    requires v in rows
    ensures !Present(v.deviceType) ==> "unknown" in DeviceStatsOf(rows).devices
    ensures !Present(v.referrer) ==> "direct" in ReferrerStatsOf(rows)
    ensures Present(v.referrer) ==> v.referrer.value in ReferrerStatsOf(rows)
  {
    var i :| 0 <= i < |rows| && rows[i] == v;
    TallyCounts(Project(rows, DeviceLabel));
    TallyCounts(Project(rows, ReferrerLabel));
    assert Project(rows, DeviceLabel)[i] == DeviceLabel(v);
    assert Project(rows, ReferrerLabel)[i] == ReferrerLabel(v);
  }
}
