/**
 * Laravel's length-aware paginator as `paginate($perPage)` builds it: one
 * page of an ordered result plus the counts `paginatedResponse` reports.
 */
module Pagination {
  import opened Wrappers

  type Positive = n: int | n >= 1 witness 1

  /** A page of `total` rows, `perPage` to a page, the `currentPage`-th of them. */
  datatype Page<T> = Page(items: seq<T>, total: nat, perPage: Positive, currentPage: Positive)

  /** Position of the first row of page `page` in the whole result (0-based). */
  function Offset(perPage: Positive, page: Positive): (o: nat)
    ensures o == (page - 1) * perPage
  {
    (page - 1) * perPage
  }

  /** `lastPage()`: `max(ceil(total / perPage), 1)`. */
  function LastPage<T>(p: Page<T>): (n: Positive)
    ensures (n - 1) * p.perPage < p.total || n == 1
    ensures p.total <= n * p.perPage
  {
    var pages := (p.total + p.perPage - 1) / p.perPage;
    DivBounds(p.total + p.perPage - 1, p.perPage);
    if pages < 1 then 1 else pages
  }

  lemma DivBounds(a: nat, b: Positive)
    ensures (a / b) * b <= a < (a / b) * b + b
  {
  }

  /** `firstItem()`: the 1-based position of the page's first row, or null on an empty page. */
  function FirstItem<T>(p: Page<T>): (r: Option<nat>)
    ensures r.Some? <==> |p.items| > 0
    ensures r.Some? ==> r.value == Offset(p.perPage, p.currentPage) + 1
  {
    if |p.items| > 0 then Some(Offset(p.perPage, p.currentPage) + 1) else None
  }

  /** `lastItem()`: the 1-based position of the page's last row, or null on an empty page. */
  function LastItem<T>(p: Page<T>): (r: Option<nat>)
    ensures r.Some? <==> |p.items| > 0
    ensures r.Some? ==> r.value == Offset(p.perPage, p.currentPage) + |p.items|
  {
    if |p.items| > 0 then Some(Offset(p.perPage, p.currentPage) + |p.items|) else None
  }

  /** `hasMorePages()`: the current page comes before the last one. */
  function HasMorePages<T>(p: Page<T>): (more: bool)
    ensures more <==> p.currentPage * p.perPage < p.total
  {
    var n := LastPage(p);
    if p.currentPage < n then
      MulMonotone(p.currentPage, n - 1, p.perPage);
      true
    else
      MulMonotone(n, p.currentPage, p.perPage);
      false
  }

  /**
   * `Paginator::resolveCurrentPage()`: the `page` query value when it is an
   * integer of at least 1, else page 1.
   */
  function ResolvePage(page: Option<int>): (r: Positive)
    ensures page.Some? && page.value >= 1 ==> r == page.value
    ensures page.None? || page.value < 1 ==> r == 1
  {
    match page
    case Some(n) => if n >= 1 then n else 1
    case None => 1
  }

  /**
   * `paginate($perPage)` over an ordered result `s`: the rows from offset
   * `(page - 1) * perPage`, at most `perPage` of them, and the total count.
   */
  function Paginate<T>(s: seq<T>, perPage: Positive, page: Positive): (p: Page<T>)
    ensures p.total == |s| && p.perPage == perPage && p.currentPage == page
    ensures |p.items| <= perPage
    ensures Offset(perPage, page) >= |s| ==> p.items == []
    ensures Offset(perPage, page) < |s| ==>
              |p.items| == (if Offset(perPage, page) + perPage <= |s| then perPage else |s| - Offset(perPage, page))
    ensures forall k :: 0 <= k < |p.items| ==>
              Offset(perPage, page) + k < |s| && p.items[k] == s[Offset(perPage, page) + k]
    ensures forall t :: t in p.items ==> t in s
  {
    var lo := Offset(perPage, page);
    var items := if lo >= |s| then [] else s[lo..if lo + perPage <= |s| then lo + perPage else |s|];
    Page(items, |s|, perPage, page)
  }

  /** The first and last positions reported for a non-empty page point at its first and last rows. */
  lemma FirstLastItemsLocate<T>(s: seq<T>, perPage: Positive, page: Positive)
    requires |Paginate(s, perPage, page).items| > 0
    ensures var p := Paginate(s, perPage, page);
            1 <= FirstItem(p).value <= LastItem(p).value <= p.total
            && s[FirstItem(p).value - 1] == p.items[0]
            && s[LastItem(p).value - 1] == p.items[|p.items| - 1]
  {
  }

  /** More pages follow exactly when rows lie beyond the current page. */
  lemma HasMorePagesIffRowsRemain<T>(s: seq<T>, perPage: Positive, page: Positive)
    ensures HasMorePages(Paginate(s, perPage, page)) <==> page * perPage < |s|
  {
  }

  lemma MulMonotone(a: int, b: int, c: Positive)
    requires a <= b
    ensures a * c <= b * c
  {
  }

  /** The page a row falls on, and its place there: row `i` is item `i % perPage` of page `i / perPage + 1`. */
  lemma RowOnItsPage<T>(s: seq<T>, perPage: Positive, i: int)
    requires 0 <= i < |s|
    ensures var p := Paginate(s, perPage, i / perPage + 1);
            i % perPage < |p.items| && p.items[i % perPage] == s[i]
  {
    var page := i / perPage + 1;
    assert Offset(perPage, page) == (i / perPage) * perPage;
    DivBounds(i, perPage);
  }

  /** A page past the last one is empty. */
  lemma PastLastPageEmpty<T>(s: seq<T>, perPage: Positive, page: Positive)
    requires page > LastPage(Paginate(s, perPage, page))
    ensures Paginate(s, perPage, page).items == []
  {
    var n := LastPage(Paginate(s, perPage, page));
    MulMonotone(n, page - 1, perPage);
  }
}
