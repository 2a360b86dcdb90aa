/** Pages of a listing: the page object, the two ways a page is cut out, and the walk along `next_page`. */
module Pages {
  import opened Wrappers

  /** The number of items in front of a page. */
  function ItemsBefore(page: nat, pageSize: nat): nat
    requires page >= 1
  {
    (page - 1) * pageSize
  }

  /** `math.ceil(total / float(page_size)) or 1`, with exact division. */
  function PageCount(total: nat, pageSize: nat): nat
    requires pageSize >= 1
  {
    var pages := (total + pageSize - 1) / pageSize;
    if pages == 0 then 1 else pages
  }

  /** `LIMIT page_size OFFSET (page - 1) * page_size`, and `items[start:end]`: both stop at the end of the rows. */
  function PageItems<T>(rows: seq<T>, page: nat, pageSize: nat): seq<T>
    requires page >= 1
  {
    var start := ItemsBefore(page, pageSize);
    if start >= |rows| then []
    else if start + pageSize >= |rows| then rows[start..]
    else rows[start..start + pageSize]
  }

  class Pagination<T> {
    var items: seq<T>
    var total: nat
    var pageSize: nat
    var page: nat
    var previousPage: Option<nat>
    var nextPage: Option<nat>
    var hasPrevious: bool
    var hasNext: bool
    var pages: nat

    constructor (items: seq<T>, page: nat, pageSize: nat, total: nat)
      requires page >= 1 && pageSize >= 1
      ensures this.items == items && this.total == total && this.pageSize == pageSize && this.page == page
      ensures hasPrevious <==> previousPage.Some?
      ensures previousPage == if page > 1 then Some(page - 1) else None
      ensures hasNext <==> nextPage.Some?
      ensures nextPage == if ItemsBefore(page, pageSize) + |items| < total then Some(page + 1) else None
      ensures pages == PageCount(total, pageSize)
    {
      this.items := items;
      this.total := total;
      this.pageSize := pageSize;
      this.page := page;
      previousPage := None;
      nextPage := None;
      hasPrevious := page > 1;
      if page > 1 {
        previousPage := Some(page - 1);
      }
      var previousItems := ItemsBefore(page, pageSize);
      hasNext := previousItems + |items| < total;
      if previousItems + |items| < total {
        nextPage := Some(page + 1);
      }
      pages := PageCount(total, pageSize);
    }
  }

  /** One request for a page, past the end or not. */
  method Paginate<T>(rows: seq<T>, page: nat, pageSize: nat) returns (result: Pagination<T>)
    requires page >= 1 && pageSize >= 1
    ensures fresh(result) && result.items == PageItems(rows, page, pageSize) && result.total == |rows| &&
            result.page == page
    ensures result.nextPage == NextPage(rows, page, pageSize)
    ensures result.pages == PageCount(|rows|, pageSize)
    ensures result.hasNext <==> page < result.pages
    ensures result.hasPrevious <==> page > 1
  {
    HasNextIff(rows, page, pageSize);
    result := new Pagination(PageItems(rows, page, pageSize), page, pageSize, |rows|);
  }

  /** The page that a response points to. */
  function NextPage<T>(rows: seq<T>, page: nat, pageSize: nat): Option<nat>
    requires page >= 1
  {
    if ItemsBefore(page, pageSize) + |PageItems(rows, page, pageSize)| < |rows| then Some(page + 1) else None
  }

  /** The page count is the one number of pages that holds all items and has none empty but the first. */
  lemma PageCountIs(total: nat, pageSize: nat, pages: nat)
    requires pageSize >= 1
    ensures pages == PageCount(total, pageSize) <==>
            pages >= 1 && total <= pages * pageSize && (pages > 1 ==> (pages - 1) * pageSize < total)
  {
    var n := PageCount(total, pageSize);
    RoundedUp(total, pageSize);
    if pages >= 1 && pages < n {
      MoreIsMore(pages, n - 1, pageSize);
    } else if pages > n {
      MoreIsMore(n, pages - 1, pageSize);
    }
  }

  lemma RoundedUp(total: nat, pageSize: nat)
    requires pageSize >= 1
    ensures var n := PageCount(total, pageSize);
            n >= 1 && total <= n * pageSize && (n > 1 ==> (n - 1) * pageSize < total)
  {
    var sum := total + pageSize - 1;
    var n := sum / pageSize;
    assert sum == n * pageSize + sum % pageSize;
    assert (n - 1) * pageSize == n * pageSize - pageSize;
  }

  lemma MoreIsMore(a: nat, b: nat, size: nat)
    requires a <= b
    ensures a * size <= b * size
  {
  }

  /** There is a next page exactly in front of the last one; on and past the last page there is none. */
  lemma HasNextIff<T>(rows: seq<T>, page: nat, pageSize: nat)
    requires page >= 1 && pageSize >= 1
    ensures NextPage(rows, page, pageSize).Some? <==> page < PageCount(|rows|, pageSize)
  {
    var n := PageCount(|rows|, pageSize);
    RoundedUp(|rows|, pageSize);
    assert page * pageSize == ItemsBefore(page, pageSize) + pageSize;
    if page < n {
      MoreIsMore(page, n - 1, pageSize);
    } else {
      MoreIsMore(n, page, pageSize);
    }
  }

  /** All items met on the way from a page along `next_page`, and the number of pages visited. */
  function Walk<T>(rows: seq<T>, page: nat, pageSize: nat): (seq<T>, nat)
    requires page >= 1 && pageSize >= 1
    decreases PageCount(|rows|, pageSize) - page
  {
    HasNextIff(rows, page, pageSize);
    var items := PageItems(rows, page, pageSize);
    match NextPage(rows, page, pageSize)
    case None => (items, 1)
    case Some(next) => var (others, visited) := Walk(rows, next, pageSize); (items + others, visited + 1)
  }

  lemma {:induction false} WalkFromPage<T>(rows: seq<T>, page: nat, pageSize: nat)
    requires pageSize >= 1 && 1 <= page <= PageCount(|rows|, pageSize)
    ensures ItemsBefore(page, pageSize) <= |rows|
    ensures Walk(rows, page, pageSize) == (rows[ItemsBefore(page, pageSize)..], PageCount(|rows|, pageSize) - page + 1)
    decreases PageCount(|rows|, pageSize) - page
  {
    var n := PageCount(|rows|, pageSize);
    RoundedUp(|rows|, pageSize);
    MoreIsMore(page - 1, n - 1, pageSize);
    HasNextIff(rows, page, pageSize);
    var start := ItemsBefore(page, pageSize);
    assert page * pageSize == start + pageSize;
    if page < n {
      WalkFromPage(rows, page + 1, pageSize);
      assert rows[start..start + pageSize] + rows[start + pageSize..] == rows[start..];
    }
  }

  /**
   From page 1 the walk visits every page once and meets every row once, in order; a page past
   the end is empty and leads nowhere.
   */
  lemma WalkMeetsEveryRowOnce<T>(rows: seq<T>, pageSize: nat)
    requires pageSize >= 1
    ensures Walk(rows, 1, pageSize) == (rows, PageCount(|rows|, pageSize))
    ensures forall page: nat | page > PageCount(|rows|, pageSize) :: Walk(rows, page, pageSize) == ([], 1)
  {
    RoundedUp(|rows|, pageSize);
    WalkFromPage(rows, 1, pageSize);
    assert rows[0..] == rows;
    forall page: nat | page > PageCount(|rows|, pageSize)
      ensures Walk(rows, page, pageSize) == ([], 1)
    {
      HasNextIff(rows, page, pageSize);
      MoreIsMore(PageCount(|rows|, pageSize), page - 1, pageSize);
    }
  }
}
