/**
 * `groupTimeSeriesData`: the rows of a period grouped into calendar buckets
 * (hour, day or month of the server's local time), each with its page views and
 * distinct sessions, sorted by bucket key.
 */
module TimeSeries {
  import opened Text
  import opened Sequences
  import opened Visits
  import opened Metrics

  /** The `groupBy` of a period. */
  datatype Granularity = ByHour | ByDay | ByMonth

  /** `${year}-${MM}`. */
  function MonthKey(t: LocalTime): string {
    IntToString(t.year) + "-" + Pad2(t.month)
  }

  /** `${year}-${MM}-${DD}`. */
  function DayKey(t: LocalTime): string {
    MonthKey(t) + "-" + Pad2(t.day)
  }

  /** `${year}-${MM}-${DD} ${HH}:00`. */
  function HourKey(t: LocalTime): string {
    DayKey(t) + " " + Pad2(t.hour) + ":00"
  }

  /** The bucket key of a time stamp (the `switch (groupBy)` of the grouping loop). */
  function FormatKey(g: Granularity, t: LocalTime): string {
    match g
    case ByHour => HourKey(t)
    case ByDay => DayKey(t)
    case ByMonth => MonthKey(t)
  }

  function HourKeyOf(v: Visit): string { HourKey(v.local) }
  function DayKeyOf(v: Visit): string { DayKey(v.local) }
  function MonthKeyOf(v: Visit): string { MonthKey(v.local) }

  /** The bucket key as a column of the rows. */
  function KeyOf(g: Granularity): Visit -> string {
    match g
    case ByHour => HourKeyOf
    case ByDay => DayKeyOf
    case ByMonth => MonthKeyOf
  }

  lemma KeyOfApplies(g: Granularity, v: Visit)
    ensures KeyOf(g)(v) == FormatKey(g, v.local)
  {
  }

  function Keys(rows: seq<Visit>, g: Granularity): seq<string> {
    Project(rows, KeyOf(g))
  }

  /** Two time stamps fall in the same calendar hour, day or month. */
  predicate SameBucket(g: Granularity, a: LocalTime, b: LocalTime) {
    && a.year == b.year && a.month == b.month
    && (g != ByMonth ==> a.day == b.day)
    && (g == ByHour ==> a.hour == b.hour)
  }

  predicate FourDigits(t: LocalTime) {
    1000 <= t.year <= 9999
  }

  lemma MonthKeyParts(t: LocalTime)
    requires FourDigits(t)
    ensures var k := MonthKey(t);
      |k| == 7 && k[..4] == NatToString(t.year) && k[5..7] == Pad2(t.month)
  {
    FourDigitYear(t.year);
    Pad2RoundTrip(t.month);
  }

  lemma DayKeyParts(t: LocalTime)
    requires FourDigits(t)
    ensures var k := DayKey(t);
      |k| == 10 && k[..7] == MonthKey(t) && k[8..10] == Pad2(t.day)
  {
    MonthKeyParts(t);
    Pad2RoundTrip(t.day);
  }

  lemma HourKeyParts(t: LocalTime)
    requires FourDigits(t)
    ensures var k := HourKey(t);
      |k| == 16 && k[..10] == DayKey(t) && k[11..13] == Pad2(t.hour)
  {
    DayKeyParts(t);
    Pad2RoundTrip(t.hour);
  }

  lemma Pad2Injective(a: nat, b: nat)
    requires a < 100 && b < 100 && Pad2(a) == Pad2(b)
    ensures a == b
  {
    Pad2RoundTrip(a);
    Pad2RoundTrip(b);
  }

  lemma MonthKeyInjective(a: LocalTime, b: LocalTime)
    requires FourDigits(a) && FourDigits(b) && MonthKey(a) == MonthKey(b)
    ensures a.year == b.year && a.month == b.month
  {
    MonthKeyParts(a);
    MonthKeyParts(b);
    NatToStringRoundTrip(a.year);
    NatToStringRoundTrip(b.year);
    Pad2Injective(a.month, b.month);
  }

  lemma DayKeyInjective(a: LocalTime, b: LocalTime)
    requires FourDigits(a) && FourDigits(b) && DayKey(a) == DayKey(b)
    ensures a.year == b.year && a.month == b.month && a.day == b.day
  {
    DayKeyParts(a);
    DayKeyParts(b);
    MonthKeyInjective(a, b);
    Pad2Injective(a.day, b.day);
  }

  /**
   * For four-digit years a bucket key names exactly one calendar hour, day or
   * month: two time stamps share a key if and only if they fall in the same bucket.
   */
  lemma KeyIdentifiesBucket(g: Granularity, a: LocalTime, b: LocalTime)
    requires FourDigits(a) && FourDigits(b)
    ensures FormatKey(g, a) == FormatKey(g, b) <==> SameBucket(g, a, b)
  {
    if FormatKey(g, a) == FormatKey(g, b) {
      match g
      case ByMonth => MonthKeyInjective(a, b);
      case ByDay => DayKeyInjective(a, b);
      case ByHour =>
        HourKeyParts(a);
        HourKeyParts(b);
        DayKeyInjective(a, b);
        Pad2Injective(a.hour, b.hour);
    }
  }

  /** One entry of the series. */
  datatype Bucket = Bucket(date: string, pageViews: nat, uniqueVisitors: nat)

  /** The bucket for `key`: its rows and their distinct sessions. */
  function BucketOf(rows: seq<Visit>, g: Granularity, key: string): Bucket {
    Bucket(key, Count(Keys(rows, g), key), |SessionIds(Filter(rows, KeyOf(g), key))|)
  }

  /** The buckets of `keys`, in that order. */
  function BucketsFor(rows: seq<Visit>, g: Granularity, keys: seq<string>): (r: seq<Bucket>)
    ensures |r| == |keys|
    ensures forall i :: 0 <= i < |keys| ==> r[i] == BucketOf(rows, g, keys[i])
  {
    Project(keys, (k: string) => BucketOf(rows, g, k))
  }

  /** Insert `b` after every bucket whose date does not come after its own (a stable insertion). */
  function InsertByDate(sorted: seq<Bucket>, b: Bucket): seq<Bucket> {
    if sorted == [] then [b]
    else if !LexLess(b.date, sorted[0].date) then [sorted[0]] + InsertByDate(sorted[1..], b)
    else [b] + sorted
  }

  /** `.sort((a, b) => a.date.localeCompare(b.date))`. */
  function SortByDate(bs: seq<Bucket>): seq<Bucket> {
    if bs == [] then [] else InsertByDate(SortByDate(bs[..|bs| - 1]), bs[|bs| - 1])
  }

  /** `Object.values(grouped).map(...).sort(...)`: the keys being distinct, the series is strictly ascending by key. */
  function TimeSeriesOf(rows: seq<Visit>, g: Granularity): (r: seq<Bucket>)
    ensures Ascending(r)
  {
    var bs := BucketsFor(rows, g, Dedup(Keys(rows, g)));
    SortByDateSorted(bs);
    SortByDate(bs)
  }

  predicate Ascending(bs: seq<Bucket>) {
    forall i, j :: 0 <= i < j < |bs| ==> LexLess(bs[i].date, bs[j].date)
  }

  predicate DistinctDates(bs: seq<Bucket>) {
    forall i, j :: 0 <= i < j < |bs| ==> bs[i].date != bs[j].date
  }

  function SumPageViews(bs: seq<Bucket>): nat {
    if bs == [] then 0 else SumPageViews(bs[..|bs| - 1]) + bs[|bs| - 1].pageViews
  }

  lemma {:induction false} SumPageViewsCons(b: Bucket, bs: seq<Bucket>)
    ensures SumPageViews([b] + bs) == b.pageViews + SumPageViews(bs)
  {
    if bs != [] {
      var init := bs[..|bs| - 1];
      SumPageViewsCons(b, init);
      assert ([b] + bs)[..|bs|] == [b] + init;
    }
  }

  lemma InsertHead(sorted: seq<Bucket>, b: Bucket)
    ensures InsertByDate(sorted, b) != []
    ensures InsertByDate(sorted, b)[0] == if sorted != [] && !LexLess(b.date, sorted[0].date) then sorted[0] else b
  {
  }

  /** Insertion neither drops nor duplicates a bucket, and adds its page views once. */
  lemma {:induction false} InsertByDateKeeps(sorted: seq<Bucket>, b: Bucket)
    ensures forall x :: x in InsertByDate(sorted, b) <==> x in sorted || x == b
    ensures |InsertByDate(sorted, b)| == |sorted| + 1
    ensures SumPageViews(InsertByDate(sorted, b)) == SumPageViews(sorted) + b.pageViews
  {
    if sorted == [] {
      assert InsertByDate(sorted, b) == [b];
      assert SumPageViews([b]) == SumPageViews([]) + b.pageViews;
    } else if !LexLess(b.date, sorted[0].date) {
      var s0, rest := sorted[0], sorted[1..];
      InsertByDateKeeps(rest, b);
      assert sorted == [s0] + rest;
      SumPageViewsCons(s0, InsertByDate(rest, b));
      SumPageViewsCons(s0, rest);
    } else {
      SumPageViewsCons(b, sorted);
    }
  }

  lemma ConsAscending(x: Bucket, rest: seq<Bucket>)
    requires Ascending(rest)
    requires rest != [] ==> LexLess(x.date, rest[0].date)
    ensures Ascending([x] + rest)
  {
    forall j | 0 < j < |rest| ensures LexLess(x.date, rest[j].date) {
      LexLessTransitive(x.date, rest[0].date, rest[j].date);
    }
  }

  lemma AscendingTail(sorted: seq<Bucket>)
    requires sorted != [] && Ascending(sorted)
    ensures Ascending(sorted[1..])
  {
  }

  lemma {:induction false} InsertByDateSorted(sorted: seq<Bucket>, b: Bucket)
    requires Ascending(sorted)
    requires forall x :: x in sorted ==> x.date != b.date
    ensures Ascending(InsertByDate(sorted, b))
  {
    if sorted == [] {
      assert InsertByDate(sorted, b) == [b];
    } else if !LexLess(b.date, sorted[0].date) {
      var s0, rest := sorted[0], sorted[1..];
      AscendingTail(sorted);
      InsertByDateSorted(rest, b);
      InsertHead(rest, b);
      LexLessTotal(s0.date, b.date);
      ConsAscending(s0, InsertByDate(rest, b));
    } else {
      ConsAscending(b, sorted);
    }
  }

  /** The sort keeps exactly the buckets it is given, with their page views. */
  lemma {:induction false} SortByDateKeeps(bs: seq<Bucket>)
    ensures forall x :: x in SortByDate(bs) <==> x in bs
    ensures |SortByDate(bs)| == |bs|
    ensures SumPageViews(SortByDate(bs)) == SumPageViews(bs)
  {
    if bs != [] {
      var init, last := bs[..|bs| - 1], bs[|bs| - 1];
      SortByDateKeeps(init);
      InsertByDateKeeps(SortByDate(init), last);
      assert bs == init + [last];
    }
  }

  /** Buckets with distinct dates come out in strictly ascending date order. */
  lemma {:induction false} SortByDateSorted(bs: seq<Bucket>)
    requires DistinctDates(bs)
    ensures Ascending(SortByDate(bs))
  {
    if bs != [] {
      var init, last := bs[..|bs| - 1], bs[|bs| - 1];
      SortByDateSorted(init);
      SortByDateKeeps(init);
      forall x | x in SortByDate(init) ensures x.date != last.date {
        var k :| 0 <= k < |init| && init[k] == x;
      }
      InsertByDateSorted(SortByDate(init), last);
    }
  }

  lemma {:induction false} SumBucketsFor(rows: seq<Visit>, g: Granularity, keys: seq<string>)
    ensures SumPageViews(BucketsFor(rows, g, keys)) == Total(keys, Keys(rows, g))
  {
    if keys != [] {
      SumBucketsFor(rows, g, keys[..|keys| - 1]);
    }
  }

  /** One bucket per key that occurs in the rows, and each bucket describes exactly its own rows. */
  lemma TimeSeriesBuckets(rows: seq<Visit>, g: Granularity)
    ensures forall b :: b in TimeSeriesOf(rows, g) ==> b.date in Keys(rows, g) && b == BucketOf(rows, g, b.date)
    ensures forall k :: k in Keys(rows, g) ==> BucketOf(rows, g, k) in TimeSeriesOf(rows, g)
  {
    var keys := Dedup(Keys(rows, g));
    var bs := BucketsFor(rows, g, keys);
    SortByDateKeeps(bs);
    DedupMembers(Keys(rows, g));
    forall b | b in TimeSeriesOf(rows, g) ensures b.date in Keys(rows, g) && b == BucketOf(rows, g, b.date) {
      var i :| 0 <= i < |bs| && bs[i] == b;
      assert keys[i] in keys;
    }
    forall k | k in Keys(rows, g) ensures BucketOf(rows, g, k) in TimeSeriesOf(rows, g) {
      assert k in keys;
      var i :| 0 <= i < |keys| && keys[i] == k;
      assert bs[i] == BucketOf(rows, g, k);
    }
  }

  /** As many buckets as distinct keys. */
  lemma TimeSeriesLength(rows: seq<Visit>, g: Granularity)
    ensures |TimeSeriesOf(rows, g)| == |Elems(Keys(rows, g))|
  {
    var keys := Dedup(Keys(rows, g));
    SortByDateKeeps(BucketsFor(rows, g, keys));
    DistinctCardinality(keys);
  }

  /** Every bucket has at least one visitor and no more visitors than page views. */
  lemma BucketBounds(rows: seq<Visit>, g: Granularity, k: string)
    requires k in Keys(rows, g)
    ensures 1 <= BucketOf(rows, g, k).uniqueVisitors <= BucketOf(rows, g, k).pageViews
  {
    FilterLength(rows, KeyOf(g), k);
    CountPositive(Keys(rows, g), k);
    SessionsBounded(Filter(rows, KeyOf(g), k));
  }

  /** Every row is counted in exactly one bucket: the page views add up to the number of rows. */
  lemma TimeSeriesConserves(rows: seq<Visit>, g: Granularity)
    ensures SumPageViews(TimeSeriesOf(rows, g)) == |rows|
  {
    var keys := Dedup(Keys(rows, g));
    SortByDateKeeps(BucketsFor(rows, g, keys));
    SumBucketsFor(rows, g, keys);
    DedupMembers(Keys(rows, g));
    CountsSumToLength(keys, Keys(rows, g));
  }

  /** The grouping state: one group per key seen, in first-seen order, with its rows' count and sessions. */
  datatype Group = Group(pageViews: nat, visitors: set<string>)

  /** The group that the rows give to `key` under the key column `f`. */
  function GroupOf(f: Visit -> string, rows: seq<Visit>, key: string): Group {
    Group(Count(Project(rows, f), key), SessionIds(Filter(rows, f, key)))
  }

  ghost predicate GroupedByKey(f: Visit -> string, rows: seq<Visit>, order: seq<string>, grouped: map<string, Group>) {
    && order == Dedup(Project(rows, f))
    && grouped.Keys == Elems(Project(rows, f))
    && GroupsMatch(f, rows, grouped)
  }

  ghost predicate GroupsMatch(f: Visit -> string, rows: seq<Visit>, grouped: map<string, Group>) {
    forall k :: k in grouped ==> grouped[k] == GroupOf(f, rows, k)
  }

  /** The group of the row's own key gains the row and its session; the others are unchanged. */
  lemma GroupOfSnoc(f: Visit -> string, rows: seq<Visit>, v: Visit, k: string)
    ensures GroupOf(f, rows + [v], k) == if k == f(v)
      then Group(GroupOf(f, rows, k).pageViews + 1, GroupOf(f, rows, k).visitors + {v.sessionId})
      else GroupOf(f, rows, k)
  {
    ProjectSnoc(rows, v, f);
    CountSnoc(Project(rows, f), f(v), k);
    FilterSnoc(rows, v, f, k);
    if k == f(v) {
      SessionIdsSnoc(Filter(rows, f, k), v);
      calc {
        GroupOf(f, rows + [v], k);
        Group(Count(Project(rows, f), k) + 1, SessionIds(Filter(rows, f, k) + [v]));
        Group(GroupOf(f, rows, k).pageViews + 1, GroupOf(f, rows, k).visitors + {v.sessionId});
      }
    } else {
      assert Filter(rows, f, k) + [] == Filter(rows, f, k);
    }
  }

  /** A key not yet seen has an empty group. */
  lemma GroupOfNewKey(f: Visit -> string, rows: seq<Visit>, key: string)
    requires key !in Project(rows, f)
    ensures GroupOf(f, rows, key) == Group(0, {})
  {
    FilterAbsent(rows, f, key);
    CountPositive(Project(rows, f), key);
  }

  lemma GroupsMatchSnoc(f: Visit -> string, rows: seq<Visit>, grouped: map<string, Group>, v: Visit)
    requires GroupsMatch(f, rows, grouped)
    requires (if f(v) in grouped then grouped[f(v)] else Group(0, {})) == GroupOf(f, rows, f(v))
    ensures GroupsMatch(f, rows + [v], AddToGroups(grouped, f(v), v.sessionId))
  {
    var key := f(v);
    var base := if key in grouped then grouped[key] else Group(0, {});
    var grouped' := AddToGroups(grouped, key, v.sessionId);
    assert grouped' == grouped[key := Group(base.pageViews + 1, base.visitors + {v.sessionId})];
    forall k | k in grouped' ensures grouped'[k] == GroupOf(f, rows + [v], k) {
      GroupOfSnoc(f, rows, v, k);
      if k != key {
        assert grouped'[k] == grouped[k];
      }
    }
  }

  lemma OrderSnoc(f: Visit -> string, rows: seq<Visit>, v: Visit)
    ensures Dedup(Project(rows + [v], f))
         == if f(v) in Elems(Project(rows, f)) then Dedup(Project(rows, f)) else Dedup(Project(rows, f)) + [f(v)]
    ensures Elems(Project(rows + [v], f)) == Elems(Project(rows, f)) + {f(v)}
  {
    ProjectSnoc(rows, v, f);
    DedupSnoc(Project(rows, f), f(v));
    ElemsSnoc(Project(rows, f), f(v));
  }

  /** The groups after counting a row with key `key` and session `sessionId`. */
  function AddToGroups(grouped: map<string, Group>, key: string, sessionId: string): map<string, Group> {
    var base := if key in grouped then grouped[key] else Group(0, {});
    grouped[key := Group(base.pageViews + 1, base.visitors + {sessionId})]
  }

  /** The key order after seeing `key`: appended when it is new. */
  function ExtendOrder(order: seq<string>, grouped: map<string, Group>, key: string): seq<string> {
    if key in grouped then order else order + [key]
  }

  lemma GroupedByKeySnoc(f: Visit -> string, rows: seq<Visit>, order: seq<string>, grouped: map<string, Group>, v: Visit)
    requires GroupedByKey(f, rows, order, grouped)
    ensures GroupedByKey(f, rows + [v], ExtendOrder(order, grouped, f(v)), AddToGroups(grouped, f(v), v.sessionId))
  {
    OrderStep(f, rows, order, grouped, v);
    GroupsStep(f, rows, order, grouped, v);
  }

  /** One turn of the grouping loop, stated on the prefix of the rows it has scanned. */
  lemma GroupedByKeyStep(f: Visit -> string, rows: seq<Visit>, i: nat, order: seq<string>, grouped: map<string, Group>)
    requires i < |rows| && GroupedByKey(f, rows[..i], order, grouped)
    ensures GroupedByKey(f, rows[..i + 1], ExtendOrder(order, grouped, f(rows[i])), AddToGroups(grouped, f(rows[i]), rows[i].sessionId))
  {
    assert GroupedByKey(f, rows[..i] + [rows[i]], ExtendOrder(order, grouped, f(rows[i])), AddToGroups(grouped, f(rows[i]), rows[i].sessionId)) by {
      GroupedByKeySnoc(f, rows[..i], order, grouped, rows[i]);
    }
    SnocPrefix(rows, i);
  }

  lemma OrderStep(f: Visit -> string, rows: seq<Visit>, order: seq<string>, grouped: map<string, Group>, v: Visit)
    requires GroupedByKey(f, rows, order, grouped)
    ensures ExtendOrder(order, grouped, f(v)) == Dedup(Project(rows + [v], f))
    ensures AddToGroups(grouped, f(v), v.sessionId).Keys == Elems(Project(rows + [v], f))
  {
    OrderSnoc(f, rows, v);
  }

  lemma GroupsStep(f: Visit -> string, rows: seq<Visit>, order: seq<string>, grouped: map<string, Group>, v: Visit)
    requires GroupedByKey(f, rows, order, grouped)
    ensures GroupsMatch(f, rows + [v], AddToGroups(grouped, f(v), v.sessionId))
  {
    if f(v) !in grouped {
      assert f(v) !in Project(rows, f) by {
        assert f(v) !in Elems(Project(rows, f));
      }
      GroupOfNewKey(f, rows, f(v));
    }
    GroupsMatchSnoc(f, rows, grouped, v);
  }

  /** One turn of the `forEach`: open the row's group if it is new, then count the row and its session. */
  method AddRow(g: Granularity, order: seq<string>, grouped: map<string, Group>, v: Visit)
    returns (order': seq<string>, grouped': map<string, Group>)
    ensures order' == ExtendOrder(order, grouped, KeyOf(g)(v))
    ensures grouped' == AddToGroups(grouped, KeyOf(g)(v), v.sessionId)
  {
    var key := FormatKey(g, v.local);
    KeyOfApplies(g, v);
    order', grouped' := order, grouped;
    if key !in grouped' {
      grouped' := grouped'[key := Group(0, {})];
      order' := order' + [key];
    }
    grouped' := grouped'[key := Group(grouped'[key].pageViews + 1, grouped'[key].visitors + {v.sessionId})];
  }

  /** The `forEach` of `groupTimeSeriesData`: one group per key, keys in first-seen order. */
  method GroupRowsByKey(rows: seq<Visit>, g: Granularity) returns (order: seq<string>, grouped: map<string, Group>)
    ensures order == Dedup(Keys(rows, g))
    ensures grouped.Keys == Elems(Keys(rows, g))
    ensures forall k :: k in grouped ==> grouped[k] == GroupOf(KeyOf(g), rows, k)
  {
    grouped := map[];
    order := [];
    assert rows[..0] == [];
    for i := 0 to |rows|
      invariant GroupedByKey(KeyOf(g), rows[..i], order, grouped)
    {
      GroupedByKeyStep(KeyOf(g), rows, i, order, grouped);
      order, grouped := AddRow(g, order, grouped, rows[i]);
    }
    assert rows[..|rows|] == rows;
  }

  /** Turning one more key into a bucket extends the buckets of the keys before it. */
  lemma BucketsForStep(rows: seq<Visit>, g: Granularity, keys: seq<string>, j: nat, b: Bucket)
    requires j < |keys| && b == BucketOf(rows, g, keys[j])
    ensures BucketsFor(rows, g, keys[..j]) + [b] == BucketsFor(rows, g, keys[..j + 1])
  {
    assert keys[..j + 1][..j] == keys[..j];
  }

  /** `groupTimeSeriesData`: group the rows by key, turn each group into a bucket, sort by key. */
  method GroupTimeSeries(rows: seq<Visit>, g: Granularity) returns (series: seq<Bucket>)
    ensures series == TimeSeriesOf(rows, g)
  {
    var order, grouped := GroupRowsByKey(rows, g);
    var values: seq<Bucket> := [];
    for j := 0 to |order|
      invariant values == BucketsFor(rows, g, order[..j])
    {
      var k := order[j];
      assert k in Elems(order);
      var b := Bucket(k, grouped[k].pageViews, |grouped[k].visitors|);
      BucketsForStep(rows, g, order, j, b);
      values := values + [b];
    }
    assert order[..|order|] == order;
    series := SortByDate(values);
  }
}
