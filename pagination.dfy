/**
 * Probe-based pagination of `DatabaseService.find` and `applyPagination`.
 *
 * The collection the backend would scan is an ordered sequence of records
 * (already in the requested sort order).  `find` counts the matching records,
 * then fetches one window of them with `skip`/`limit`; the window reaches one
 * "probe" record past the page, and, from page 2 on, one probe record before
 * it.  From the number of records that came back it derives `hasPrevious` and
 * `hasNext` and slices the probes away.
 */
module Pagination {
  import opened Wrappers

  /** The two round trips `find` makes to the backend, in order. */
  datatype Query = CountDocuments | FetchPage(skip: int, limit: int)

  datatype PageInfo = PageInfo(
    hasNext: bool,
    hasPrevious: bool,
    perPage: int,
    page: int,
    next: string,
    previous: string,
    totalCount: int)

  datatype PageResult<T> = PageResult(data: seq<T>, pagination: PageInfo)

  /** Slice bounds and flags computed from the number of fetched documents. */
  datatype Window = Window(hasPrevious: bool, hasNext: bool, lower: int, upper: int)

  function Min(a: int, b: int): int { if a <= b then a else b }

  /** The records of the collection that satisfy the filter, in collection order. */
  function Filter<T>(records: seq<T>, cond: T -> bool): (m: seq<T>)
    ensures |m| <= |records|
    ensures forall x :: x in m ==> x in records && cond(x)
    ensures forall x :: x in records && cond(x) ==> x in m
    ensures |records| == 1 ==> m == if cond(records[0]) then records else []
  {
    if records == [] then []
    else
      (if cond(records[0]) then [records[0]] else []) + Filter(records[1..], cond)
  }

  /**
   * Filtering keeps every matching record as often as the collection holds
   * it, and no other record.
   */
  lemma {:induction false} FilterCounts<T>(records: seq<T>, cond: T -> bool)
    ensures forall x :: x in records ==>
              multiset(Filter(records, cond))[x] == if cond(x) then multiset(records)[x] else 0
  {
    if records != [] {
      FilterCounts(records[1..], cond);
      assert records == [records[0]] + records[1..];
      forall x | x in records
        ensures multiset(Filter(records, cond))[x] == if cond(x) then multiset(records)[x] else 0
      {
        if x !in records[1..] {
          assert multiset(records[1..])[x] == 0;
          assert x !in Filter(records[1..], cond);
        }
      }
    }
  }

  /**
   * Filtering keeps collection order: the matches of a concatenation are the
   * matches of the first part followed by those of the second.
   */
  lemma {:induction false} FilterAppend<T>(a: seq<T>, b: seq<T>, cond: T -> bool)
    ensures Filter(a + b, cond) == Filter(a, cond) + Filter(b, cond)
  {
    if a != [] {
      assert (a + b)[0] == a[0];
      assert (a + b)[1..] == a[1..] + b;
      FilterAppend(a[1..], b, cond);
    } else {
      assert a + b == b;
    }
  }

  /**
   * `skip` as computed by applyPagination: the page's first position, moved
   * back by one from page 2 on so that the record before the page is fetched.
   */
  function SkipFor(page: int, perPage: int): (skip: int)
    ensures page >= 1 && perPage >= 1 ==> skip >= 0
    ensures page >= 1 && perPage >= 1 ==> skip + (if page > 1 then 1 else 0) == (page - 1) * perPage
    ensures page == 1 ==> skip == 0
  {
    var skip := (page - 1) * perPage;
    if page > 1 then skip - 1 else skip
  }

  /**
   * `limit` as computed by applyPagination: the fetch starting at `skip` covers
   * the page and ends one record past it.
   */
  function LimitFor(page: int, perPage: int): (limit: int)
    ensures page >= 1 && perPage >= 1 ==> SkipFor(page, perPage) + limit == page * perPage + 1
    ensures perPage >= 1 ==> limit > perPage
  {
    if page > 1 then perPage + 2 else perPage + 1
  }

  /**
   * What the backend returns for `query.skip(skip).limit(limit)`: at most
   * `limit` records starting at position `skip` (a limit of 0 means no limit).
   */
  function Fetch<T>(records: seq<T>, skip: nat, limit: nat): (docs: seq<T>)
    ensures skip <= |records| && 0 < limit ==> docs == records[skip..Min(skip + limit, |records|)]
    ensures |records| <= skip ==> docs == []
    ensures 0 < limit ==> |docs| <= limit
  {
    var from := Min(skip, |records|);
    if limit == 0 then records[from..] else records[from..Min(skip + limit, |records|)]
  }

  /** JavaScript's `Array.prototype.slice(lower, upper)` for non-negative bounds (clamped to the length). */
  function Slice<T>(s: seq<T>, lower: nat, upper: nat): (r: seq<T>)
    ensures lower <= upper <= |s| ==> r == s[lower..upper]
    ensures |r| <= |s|
  {
    var hi := Min(upper, |s|);
    if lower >= hi then [] else s[lower..hi]
  }

  /**
   * The flags and slice bounds applyPagination derives from `docsCount`.
   * The bounds always fit the fetched documents and never exceed one page.
   */
  function Bounds(docsCount: nat, page: int, perPage: int): (w: Window)
    requires perPage >= 1
    ensures 0 <= w.lower <= w.upper <= docsCount
    ensures w.upper - w.lower <= perPage
    ensures w.lower == (if w.hasPrevious then 1 else 0)
    ensures w.hasPrevious <==> page > 1 && docsCount > 0
  {
    var hasPrevious := page > 1 && docsCount > 0;
    var lower := if hasPrevious then 1 else 0;
    var hasNext := docsCount > perPage + lower;
    var upper := if hasNext then perPage + lower else docsCount;
    Window(hasPrevious, hasNext, lower, upper)
  }

  /** First position of page `page` within a collection of `count` records (clamped). */
  function PageStart(count: nat, page: int, perPage: int): nat
    requires page >= 1 && perPage >= 1
  {
    Min((page - 1) * perPage, count)
  }

  /** One past the last position of page `page` within a collection of `count` records (clamped). */
  function PageEnd(count: nat, page: int, perPage: int): nat
    requires page >= 1 && perPage >= 1
  {
    Min(page * perPage, count)
  }

  /**
   * What a page of `matching` is: exactly the records at positions
   * [(page-1)*perPage, min(page*perPage, |matching|)), `hasNext` iff records
   * exist past the page, `hasPrevious` iff page > 1 and the record just before
   * the page exists, and the caller's page and perPage echoed.
   */
  ghost predicate IsPageOf<T>(r: PageResult<T>, matching: seq<T>, page: int, perPage: int)
    requires page >= 1 && perPage >= 1
  {
    var start := PageStart(|matching|, page, perPage);
    var end := PageEnd(|matching|, page, perPage);
    && start <= end
    && r.data == matching[start..end]
    && |r.data| <= perPage
    && (r.pagination.hasNext <==> |matching| > page * perPage)
    && (r.pagination.hasPrevious <==> page > 1 && (page - 1) * perPage <= |matching|)
    && r.pagination.page == page
    && r.pagination.perPage == perPage
  }

  /**
   * applyPagination over the matching records `matching` (the query) and the
   * separately counted `totalCount`: fetch with skip/limit, derive the flags,
   * slice the probes away.
   */
  function ApplyPagination<T>(matching: seq<T>, totalCount: int, page: int, perPage: int): (r: PageResult<T>)
    requires page >= 1 && perPage >= 1
    ensures IsPageOf(r, matching, page, perPage)
    ensures r.pagination.totalCount == totalCount
    ensures r.pagination.next == "" && r.pagination.previous == ""
  {
    var skip := SkipFor(page, perPage);
    var limit := LimitFor(page, perPage);
    var docs := Fetch(matching, skip, limit);
    var w := Bounds(|docs|, page, perPage);
    var data := Slice(docs, w.lower, w.upper);
    var r := PageResult(data, PageInfo(w.hasNext, w.hasPrevious, perPage, page, "", "", totalCount));
    SliceIsPage(matching, page, perPage);
    r
  }

  /** The core off-by-one argument: the slice of the fetched window is exactly the page. */
  lemma SliceIsPage<T>(matching: seq<T>, page: int, perPage: int)
    requires page >= 1 && perPage >= 1
    ensures var docs := Fetch(matching, SkipFor(page, perPage), LimitFor(page, perPage));
            var w := Bounds(|docs|, page, perPage);
            var start := PageStart(|matching|, page, perPage);
            var end := PageEnd(|matching|, page, perPage);
            && start <= end
            && Slice(docs, w.lower, w.upper) == matching[start..end]
            && (w.hasNext <==> |matching| > page * perPage)
            && (w.hasPrevious <==> page > 1 && (page - 1) * perPage <= |matching|)
  {
    var n := |matching|;
    var skip := SkipFor(page, perPage);
    var limit := LimitFor(page, perPage);
    var docs := Fetch(matching, skip, limit);
    var w := Bounds(|docs|, page, perPage);
    var start := PageStart(n, page, perPage);
    var end := PageEnd(n, page, perPage);
    assert page * perPage == (page - 1) * perPage + perPage;
    if n <= skip {
      // the window starts at or past the end: nothing comes back
      assert docs == [];
      assert start == end == n;
    } else {
      assert docs == matching[skip..Min(skip + limit, n)];
      if page == 1 {
        assert w.lower == 0;
      } else {
        assert w.lower == 1;
        assert start == skip + 1;
      }
      var hi := Min(skip + limit, n);
      assert |docs| == hi - skip;
      if w.hasNext {
        assert w.upper == perPage + w.lower && skip + w.upper == page * perPage;
      } else {
        assert w.upper == |docs| && hi == n;
      }
      assert start == skip + w.lower && end == skip + w.upper;
      SliceOfSlice(matching, skip, hi, w.lower, w.upper);
    }
  }

  lemma SliceOfSlice<T>(s: seq<T>, a: int, b: int, c: int, d: int)
    requires 0 <= a <= b <= |s| && 0 <= c <= d <= b - a
    ensures s[a..b][c..d] == s[a + c..a + d]
  {
    assert |s[a..b][c..d]| == |s[a + c..a + d]|;
    forall i | 0 <= i < d - c ensures s[a..b][c..d][i] == s[a + c..a + d][i] {}
  }

  /**
   * find: reject a bad page or perPage before any backend call, otherwise count
   * the matching records and paginate them.  The second component lists the
   * backend queries issued.
   */
  function Find<T>(records: seq<T>, cond: T -> bool, page: int, perPage: int): (out: (Result<PageResult<T>, Error>, seq<Query>))
    ensures page < 1 ==> out == (Failure(PageTooSmall), [])
    ensures page >= 1 && perPage < 1 ==> out == (Failure(PerPageTooSmall), [])
    ensures page >= 1 && perPage >= 1 ==>
              && out.0.Success?
              && IsPageOf(out.0.value, Filter(records, cond), page, perPage)
              && out.0.value.pagination.totalCount == |Filter(records, cond)|
              && out.1 == [CountDocuments, FetchPage(SkipFor(page, perPage), LimitFor(page, perPage))]
              && out.1[1].skip >= 0
  {
    if page < 1 then (Failure(PageTooSmall), [])
    else if perPage < 1 then (Failure(PerPageTooSmall), [])
    else
      var matching := Filter(records, cond);
      var totalCount := |matching|;
      var queries := [CountDocuments, FetchPage(SkipFor(page, perPage), LimitFor(page, perPage))];
      (Success(ApplyPagination(matching, totalCount, page, perPage)), queries)
  }

  /** The data of pages 1..n, concatenated in page order. */
  function Pages<T>(matching: seq<T>, n: nat, perPage: int): seq<T>
    requires perPage >= 1
  {
    if n == 0 then [] else Pages(matching, n - 1, perPage) + ApplyPagination(matching, |matching|, n, perPage).data
  }

  /**
   * Walking pages 1..n neither skips nor repeats a record: together they are
   * the first min(n*perPage, |matching|) records, in order.
   */
  lemma {:induction false} PagesTile<T>(matching: seq<T>, n: nat, perPage: int)
    requires perPage >= 1
    ensures Pages(matching, n, perPage) == matching[..Min(n * perPage, |matching|)]
  {
    if n > 0 {
      PagesTile(matching, n - 1, perPage);
      PageData(matching, n, perPage);
      PageStep(n, perPage);
      Concat(matching, (n - 1) * perPage, n * perPage);
    }
  }

  lemma PageData<T>(matching: seq<T>, n: int, perPage: int)
    requires n >= 1 && perPage >= 1
    ensures 0 <= (n - 1) * perPage
    ensures Min((n - 1) * perPage, |matching|) <= Min(n * perPage, |matching|)
    ensures ApplyPagination(matching, |matching|, n, perPage).data
            == matching[Min((n - 1) * perPage, |matching|)..Min(n * perPage, |matching|)]
  {
  }

  lemma PageStep(n: int, perPage: int)
    requires n >= 1 && perPage >= 1
    ensures 0 <= (n - 1) * perPage <= n * perPage
  {
  }

  lemma Concat<T>(s: seq<T>, a: int, b: int)
    requires 0 <= a <= b
    ensures Min(a, |s|) <= Min(b, |s|)
    ensures s[..Min(a, |s|)] + s[Min(a, |s|)..Min(b, |s|)] == s[..Min(b, |s|)]
  {
  }

  /** Following `hasNext` from page 1 reaches the whole collection. */
  lemma LastPageCoversAll<T>(matching: seq<T>, n: nat, perPage: int)
    requires perPage >= 1 && n >= 1
    requires !ApplyPagination(matching, |matching|, n, perPage).pagination.hasNext
    ensures Pages(matching, n, perPage) == matching
  {
    PagesTile(matching, n, perPage);
  }

  /** 25 records, 10 per page: pages of 10, 10 and 5 records with the flags of each. */
  lemma WorkedExample(matching: seq<int>)
    requires |matching| == 25
    ensures var p1 := ApplyPagination(matching, 25, 1, 10);
            |p1.data| == 10 && !p1.pagination.hasPrevious && p1.pagination.hasNext
    ensures var p2 := ApplyPagination(matching, 25, 2, 10);
            p2.data == matching[10..20] && p2.pagination.hasPrevious && p2.pagination.hasNext
    ensures var p3 := ApplyPagination(matching, 25, 3, 10);
            p3.data == matching[20..] && p3.pagination.hasPrevious && !p3.pagination.hasNext
    ensures SkipFor(2, 10) == 9 && LimitFor(2, 10) == 12 && SkipFor(3, 10) == 19
  {
  }

  /**
   * `hasPrevious` reports whether the record just before the page exists, not
   * whether any record precedes it: a page that starts more than one record
   * past the end has no previous page even though earlier pages hold records.
   */
  lemma HasPreviousPastEnd(matching: seq<int>)
    requires |matching| == 5
    ensures var p3 := ApplyPagination(matching, 5, 3, 2);
            p3.data == matching[4..] && p3.pagination.hasPrevious && !p3.pagination.hasNext
    ensures var p4 := ApplyPagination(matching, 5, 4, 2);
            p4.data == [] && !p4.pagination.hasPrevious && !p4.pagination.hasNext
    ensures var p2 := ApplyPagination(matching, 5, 2, 10);
            p2.data == [] && !p2.pagination.hasPrevious
  {
  }
}
