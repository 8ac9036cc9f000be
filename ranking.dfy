/**
 * The top-pages ranking: count the rows per page URL, keeping the title of the
 * first row seen for each URL (a `reduce` into an object keyed by URL), sort the
 * entries by count, highest first, with a stable sort, and keep the first ten.
 */
module Ranking {
  import opened Sequences
  import opened Visits

  datatype PageEntry = PageEntry(url: string, title: string, count: nat)

  function EntryUrl(e: PageEntry): string { e.url }
  function EntryCount(e: PageEntry): nat { e.count }

  /** The position of the entry for `url`, or -1 when there is none. */
  function IndexOfUrl(es: seq<PageEntry>, url: string): (r: int)
    ensures -1 <= r < |es|
    ensures r >= 0 ==> es[r].url == url
    ensures r == -1 <==> url !in Project(es, EntryUrl)
  {
    if es == [] then -1
    else
      var j := IndexOfUrl(es[..|es| - 1], url);
      ProjectSnoc(es[..|es| - 1], es[|es| - 1], EntryUrl);
      assert es == es[..|es| - 1] + [es[|es| - 1]];
      if j >= 0 then j else if es[|es| - 1].url == url then |es| - 1 else -1
  }

  /** One step of the `reduce`: `acc[url] = acc[url] || {url, title, count: 0}; acc[url].count++`. */
  function AddPageView(es: seq<PageEntry>, v: Visit): seq<PageEntry> {
    var j := IndexOfUrl(es, v.pageUrl);
    if j >= 0 then es[j := es[j].(count := es[j].count + 1)]
    else es + [PageEntry(v.pageUrl, v.pageTitle, 1)]
  }

  /** `Object.values(pageCounts)` after the `reduce` over the rows. */
  function PageCounts(rows: seq<Visit>): seq<PageEntry> {
    if rows == [] then [] else AddPageView(PageCounts(rows[..|rows| - 1]), rows[|rows| - 1])
  }

  predicate DistinctUrls(es: seq<PageEntry>) {
    forall i, j :: 0 <= i < j < |es| ==> es[i].url != es[j].url
  }

  /** What one reduce step does to the entries: bump the entry for the URL, or append a new one. */
  lemma AddPageViewEffect(es: seq<PageEntry>, v: Visit)
    requires DistinctUrls(es)
    ensures var r := AddPageView(es, v);
      && |r| == |es| + (if v.pageUrl in Project(es, EntryUrl) then 0 else 1)
      && (forall i :: 0 <= i < |es| ==>
            r[i] == es[i].(count := es[i].count + (if es[i].url == v.pageUrl then 1 else 0)))
      && (v.pageUrl !in Project(es, EntryUrl) ==> r[|es|] == PageEntry(v.pageUrl, v.pageTitle, 1))
  {
  }

  lemma AddPageViewUrls(es: seq<PageEntry>, v: Visit)
    requires DistinctUrls(es)
    ensures Project(AddPageView(es, v), EntryUrl)
         == if v.pageUrl in Project(es, EntryUrl) then Project(es, EntryUrl) else Project(es, EntryUrl) + [v.pageUrl]
  {
    AddPageViewEffect(es, v);
  }

  lemma DistinctProjectUrls(es: seq<PageEntry>)
    requires Distinct(Project(es, EntryUrl))
    ensures DistinctUrls(es)
  {
    forall i, j | 0 <= i < j < |es| ensures es[i].url != es[j].url {
      assert Project(es, EntryUrl)[i] == es[i].url && Project(es, EntryUrl)[j] == es[j].url;
    }
  }

  /** The entries list the distinct URLs in the order in which they are first seen. */
  lemma {:induction false} PageCountsUrls(rows: seq<Visit>)
    ensures Project(PageCounts(rows), EntryUrl) == Dedup(Project(rows, UrlOf))
    ensures DistinctUrls(PageCounts(rows))
  {
    if rows != [] {
      var init, v := rows[..|rows| - 1], rows[|rows| - 1];
      PageCountsUrls(init);
      assert rows == init + [v];
      ProjectSnoc(init, v, UrlOf);
      DedupSnoc(Project(init, UrlOf), v.pageUrl);
      DedupMembers(Project(init, UrlOf));
      AddPageViewUrls(PageCounts(init), v);
    }
    DistinctProjectUrls(PageCounts(rows));
  }

  /** The entries name exactly the URLs of the rows. */
  lemma PageCountsMembers(rows: seq<Visit>)
    ensures DistinctUrls(PageCounts(rows))
    ensures forall u :: u in Project(PageCounts(rows), EntryUrl) <==> u in Project(rows, UrlOf)
  {
    PageCountsUrls(rows);
    DedupMembers(Project(rows, UrlOf));
  }

  predicate CountsFromRows(rows: seq<Visit>, es: seq<PageEntry>) {
    forall i :: 0 <= i < |es| ==> es[i].count == Count(Project(rows, UrlOf), es[i].url)
  }

  predicate TitlesFromRows(rows: seq<Visit>, es: seq<PageEntry>) {
    forall i :: 0 <= i < |es| ==>
      |Filter(rows, UrlOf, es[i].url)| >= 1 && es[i].title == Filter(rows, UrlOf, es[i].url)[0].pageTitle
  }

  lemma AddPageViewCounts(rows: seq<Visit>, es: seq<PageEntry>, v: Visit)
    requires DistinctUrls(es) && CountsFromRows(rows, es)
    requires forall u :: u in Project(es, EntryUrl) <==> u in Project(rows, UrlOf)
    ensures CountsFromRows(rows + [v], AddPageView(es, v))
  {
    AddPageViewEffect(es, v);
    ProjectSnoc(rows, v, UrlOf);
    var r := AddPageView(es, v);
    forall i | 0 <= i < |r| ensures r[i].count == Count(Project(rows + [v], UrlOf), r[i].url) {
      CountSnoc(Project(rows, UrlOf), v.pageUrl, r[i].url);
      if i >= |es| {
        CountPositive(Project(rows, UrlOf), v.pageUrl);
      }
    }
  }

  lemma FirstRowKept(rows: seq<Visit>, v: Visit, url: string)
    requires |Filter(rows, UrlOf, url)| >= 1
    ensures |Filter(rows + [v], UrlOf, url)| >= 1
    ensures Filter(rows + [v], UrlOf, url)[0] == Filter(rows, UrlOf, url)[0]
  {
    FilterSnoc(rows, v, UrlOf, url);
  }

  lemma FirstRowNew(rows: seq<Visit>, v: Visit)
    requires v.pageUrl !in Project(rows, UrlOf)
    ensures Filter(rows + [v], UrlOf, v.pageUrl) == [v]
  {
    FilterSnoc(rows, v, UrlOf, v.pageUrl);
    FilterAbsent(rows, UrlOf, v.pageUrl);
  }

  lemma AddPageViewTitles(rows: seq<Visit>, es: seq<PageEntry>, v: Visit)
    requires DistinctUrls(es) && TitlesFromRows(rows, es)
    requires forall u :: u in Project(es, EntryUrl) <==> u in Project(rows, UrlOf)
    ensures TitlesFromRows(rows + [v], AddPageView(es, v))
  {
    AddPageViewEffect(es, v);
    var r := AddPageView(es, v);
    forall i | 0 <= i < |r|
      ensures |Filter(rows + [v], UrlOf, r[i].url)| >= 1
      ensures r[i].title == Filter(rows + [v], UrlOf, r[i].url)[0].pageTitle
    {
      if i < |es| {
        FirstRowKept(rows, v, r[i].url);
      } else {
        FirstRowNew(rows, v);
      }
    }
  }

  /** Each entry counts the rows for its URL. */
  lemma {:induction false} PageCountsCounts(rows: seq<Visit>)
    ensures CountsFromRows(rows, PageCounts(rows))
  {
    if rows != [] {
      var init, v := rows[..|rows| - 1], rows[|rows| - 1];
      assert CountsFromRows(init + [v], AddPageView(PageCounts(init), v)) by {
        PageCountsCounts(init);
        PageCountsMembers(init);
        AddPageViewCounts(init, PageCounts(init), v);
      }
      assert rows == init + [v];
    }
  }

  /** Each entry keeps the title of the first row for its URL. */
  lemma {:induction false} PageCountsTitles(rows: seq<Visit>)
    ensures TitlesFromRows(rows, PageCounts(rows))
  {
    if rows != [] {
      var init, v := rows[..|rows| - 1], rows[|rows| - 1];
      assert TitlesFromRows(init + [v], AddPageView(PageCounts(init), v)) by {
        PageCountsTitles(init);
        PageCountsMembers(init);
        AddPageViewTitles(init, PageCounts(init), v);
      }
      assert rows == init + [v];
    }
  }

  /** Insert `e` after every entry whose count is at least `e.count` (what a stable sort does with it). */
  function InsertByCount(sorted: seq<PageEntry>, e: PageEntry): seq<PageEntry> {
    if sorted == [] then [e]
    else if sorted[0].count >= e.count then [sorted[0]] + InsertByCount(sorted[1..], e)
    else [e] + sorted
  }

  /** `.sort((a, b) => b.count - a.count)`: a stable sort, highest count first. */
  function SortByCount(es: seq<PageEntry>): seq<PageEntry> {
    if es == [] then [] else InsertByCount(SortByCount(es[..|es| - 1]), es[|es| - 1])
  }

  lemma {:induction false} InsertByCountPermutes(sorted: seq<PageEntry>, e: PageEntry)
    ensures multiset(InsertByCount(sorted, e)) == multiset(sorted) + multiset{e}
  {
    if sorted != [] && sorted[0].count >= e.count {
      var s0, rest := sorted[0], sorted[1..];
      InsertByCountPermutes(rest, e);
      assert sorted == [s0] + rest;
      calc {
        multiset(InsertByCount(sorted, e));
        multiset([s0] + InsertByCount(rest, e));
        multiset([s0]) + multiset(InsertByCount(rest, e));
        multiset([s0]) + multiset(rest) + multiset{e};
        multiset(sorted) + multiset{e};
      }
    }
  }

  /** The sort is a permutation: it neither drops nor duplicates an entry. */
  lemma {:induction false} SortByCountPermutes(es: seq<PageEntry>)
    ensures multiset(SortByCount(es)) == multiset(es)
  {
    if es != [] {
      var init, last := es[..|es| - 1], es[|es| - 1];
      SortByCountPermutes(init);
      InsertByCountPermutes(SortByCount(init), last);
      assert es == init + [last];
    }
  }

  predicate NonIncreasing(es: seq<PageEntry>) {
    forall i, j :: 0 <= i < j < |es| ==> es[i].count >= es[j].count
  }

  lemma {:induction false} InsertByCountSorted(sorted: seq<PageEntry>, e: PageEntry)
    requires NonIncreasing(sorted)
    ensures NonIncreasing(InsertByCount(sorted, e))
  {
    if sorted == [] {
      assert InsertByCount(sorted, e) == [e];
    } else if sorted[0].count >= e.count {
      NonIncreasingTail(sorted);
      InsertByCountSorted(sorted[1..], e);
      var rest := InsertByCount(sorted[1..], e);
      InsertHead(sorted[1..], e);
      ConsNonIncreasing(sorted[0], rest);
    } else {
      ConsNonIncreasing(e, sorted);
    }
  }

  /** The sort puts the entries in non-increasing order of count. */
  lemma {:induction false} SortByCountSorted(es: seq<PageEntry>)
    ensures NonIncreasing(SortByCount(es))
  {
    if es != [] {
      SortByCountSorted(es[..|es| - 1]);
      InsertByCountSorted(SortByCount(es[..|es| - 1]), es[|es| - 1]);
    }
  }

  lemma InsertHead(sorted: seq<PageEntry>, e: PageEntry)
    ensures InsertByCount(sorted, e) != []
    ensures InsertByCount(sorted, e)[0] == if sorted != [] && sorted[0].count >= e.count then sorted[0] else e
  {
  }

  lemma ConsNonIncreasing(x: PageEntry, rest: seq<PageEntry>)
    requires NonIncreasing(rest)
    requires rest != [] ==> x.count >= rest[0].count
    ensures NonIncreasing([x] + rest)
  {
  }

  lemma NonIncreasingTail(sorted: seq<PageEntry>)
    requires sorted != [] && NonIncreasing(sorted)
    ensures NonIncreasing(sorted[1..])
    ensures forall x :: x in sorted[1..] ==> x.count <= sorted[0].count
  {
  }

  lemma {:induction false} InsertByCountStable(sorted: seq<PageEntry>, e: PageEntry, c: nat)
    requires NonIncreasing(sorted)
    ensures Filter(InsertByCount(sorted, e), EntryCount, c)
         == Filter(sorted, EntryCount, c) + Filter([e], EntryCount, c)
  {
    if sorted == [] {
      assert InsertByCount(sorted, e) == [e];
    } else if sorted[0].count >= e.count {
      NonIncreasingTail(sorted);
      InsertByCountStable(sorted[1..], e, c);
      InsertAfterHead(sorted, e, c);
    } else {
      InsertAtHead(sorted, e, c);
    }
  }

  lemma InsertAfterHead(sorted: seq<PageEntry>, e: PageEntry, c: nat)
    requires sorted != [] && sorted[0].count >= e.count
    requires Filter(InsertByCount(sorted[1..], e), EntryCount, c)
          == Filter(sorted[1..], EntryCount, c) + Filter([e], EntryCount, c)
    ensures Filter(InsertByCount(sorted, e), EntryCount, c)
         == Filter(sorted, EntryCount, c) + Filter([e], EntryCount, c)
  {
    var s0, rest := sorted[0], sorted[1..];
    assert sorted == [s0] + rest;
    assert InsertByCount(sorted, e) == [s0] + InsertByCount(rest, e);
    FilterConcat([s0], InsertByCount(rest, e), EntryCount, c);
    FilterConcat([s0], rest, EntryCount, c);
  }

  lemma InsertAtHead(sorted: seq<PageEntry>, e: PageEntry, c: nat)
    requires sorted != [] && NonIncreasing(sorted) && sorted[0].count < e.count
    ensures Filter(InsertByCount(sorted, e), EntryCount, c)
         == Filter(sorted, EntryCount, c) + Filter([e], EntryCount, c)
  {
    assert InsertByCount(sorted, e) == [e] + sorted;
    FilterConcat([e], sorted, EntryCount, c);
    if e.count == c {
      NoneSelected(sorted, c);
    } else {
      NoneSelected([e], c);
    }
  }

  lemma {:induction false} NoneSelected(es: seq<PageEntry>, c: nat)
    requires forall x :: x in es ==> x.count != c
    ensures Filter(es, EntryCount, c) == []
  {
    if es != [] {
      NoneSelected(es[..|es| - 1], c);
      assert es[|es| - 1] in es;
    }
  }

  /**
   * The sort is stable: for every count, the entries with that count appear in
   * the same relative order as before sorting (ties keep first-seen order).
   */
  lemma {:induction false} SortByCountStable(es: seq<PageEntry>, c: nat)
    ensures Filter(SortByCount(es), EntryCount, c) == Filter(es, EntryCount, c)
  {
    if es != [] {
      var init, last := es[..|es| - 1], es[|es| - 1];
      SortByCountStable(init, c);
      SortByCountSorted(init);
      InsertByCountStable(SortByCount(init), last, c);
      FilterConcat(init, [last], EntryCount, c);
      assert es == init + [last];
    }
  }

  /** `Object.values(pageCounts).sort(...).slice(0, limit)`: at most `limit` entries, highest count first. */
  function TopPages(rows: seq<Visit>, limit: nat): (r: seq<PageEntry>)
    ensures |r| <= limit
    ensures NonIncreasing(r)
  {
    SortByCountSorted(PageCounts(rows));
    TakeRanked(SortByCount(PageCounts(rows)), limit);
    Take(SortByCount(PageCounts(rows)), limit)
  }

  /** As many entries as distinct URLs. */
  lemma PageCountsLength(rows: seq<Visit>)
    ensures |PageCounts(rows)| == |Elems(Project(rows, UrlOf))|
  {
    PageCountsUrls(rows);
    DistinctCardinality(Dedup(Project(rows, UrlOf)));
    assert |PageCounts(rows)| == |Project(PageCounts(rows), EntryUrl)|;
  }

  /** A prefix of a ranked list is ranked, and nothing after the cut outranks anything before it. */
  lemma TakeRanked(sorted: seq<PageEntry>, n: nat)
    requires NonIncreasing(sorted)
    ensures NonIncreasing(Take(sorted, n))
    ensures forall e, f :: e in sorted && e !in Take(sorted, n) && f in Take(sorted, n) ==> f.count >= e.count
  {
    var r := Take(sorted, n);
    var rest := sorted[|r|..];
    assert sorted == r + rest;
    forall e, f | e in sorted && e !in r && f in r ensures f.count >= e.count {
      assert e in rest;
      var k :| 0 <= k < |rest| && rest[k] == e;
      var m :| 0 <= m < |r| && r[m] == f;
      assert sorted[|r| + k] == e;
    }
  }

  /**
   * The ranking holds at most `limit` entries, one per distinct URL, highest
   * count first; an entry that did not make the cut has a count no higher than
   * any entry that did; and below the limit no URL is dropped.
   */
  lemma TopPagesSpec(rows: seq<Visit>, limit: nat)
    ensures var r := TopPages(rows, limit);
      && |r| == (if limit < |Elems(Project(rows, UrlOf))| then limit else |Elems(Project(rows, UrlOf))|)
      && NonIncreasing(r)
      && (forall e :: e in r ==> e in PageCounts(rows))
      && (forall e, f :: e in PageCounts(rows) && e !in r && f in r ==> f.count >= e.count)
      && (|r| < limit ==> multiset(r) == multiset(PageCounts(rows)))
  {
    var all := PageCounts(rows);
    var sorted := SortByCount(all);
    PageCountsLength(rows);
    SortByCountSorted(all);
    SortByCountPermutes(all);
    assert |sorted| == |all| by {
      assert |multiset(sorted)| == |multiset(all)|;
    }
    TakeRanked(sorted, limit);
    forall e ensures e in sorted <==> e in all {
      assert e in sorted <==> e in multiset(sorted);
    }
  }
}
