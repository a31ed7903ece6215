/** `PageResponse.create` (routers/pagination.py) and the page slicing the
    paginated listings of users and comments rely on. */
module Pagination {
  import opened Wrappers
  import opened Errors

  /** fastapi_pagination's `Params`: the 1-based page number and the page size. */
  datatype Params = Params(page: int, size: int)

  /** The `params` argument: an instance of `Params`, or some other
      `AbstractParams`. */
  datatype ParamsArg = ParamsInstance(params: Params) | OtherParams

  /** A navigation link: `str(base_url.include_query_params(page=.., size=..))`,
      kept as the base URL and the query it carries. */
  datatype Link = Link(base: string, page: int, size: int)

  datatype PageResponse<T> = PageResponse(
    total: int,
    page: int,
    pageSize: int,
    numPages: int,
    pageRange: seq<int>,
    items: seq<T>,
    firstPage: Link,
    previousPage: Option<Link>,
    nextPage: Option<Link>,
    lastPage: Link)

  /** The `base_url` keyword argument of `create`: not passed (the `""`
      default), passed as a plain `str`, or passed as a URL object (such as
      starlette's `URL`) whose text is `text`. Only a URL object has
      `include_query_params`. */
  datatype BaseUrl = NotPassed | PlainStr(text: string) | UrlObject(text: string)

  /** What `create` raises: its two `ValueError`s, and the `AttributeError`
      of calling `include_query_params` on a `str` base URL. */
  datatype CreateError = ValueError(message: string) | AttributeError(message: string)

  const NoIncludeQueryParams := "'str' object has no attribute 'include_query_params'"

  /** `(total // page_size) + (1 if total % page_size > 0 else 0)`. With a
      positive divisor Python's floor division and modulo agree with Dafny's
      Euclidean ones, so this is exact for every int `total`. */
  function NumPages(total: int, pageSize: int): (n: int)
    requires pageSize > 0
    ensures (n - 1) * pageSize < total <= n * pageSize
  {
    var q, m := total / pageSize, total % pageSize;
    assert total == q * pageSize + m && 0 <= m < pageSize;
    if m > 0 then
      assert (q + 1) * pageSize == q * pageSize + pageSize;
      q + 1
    else
      assert (q - 1) * pageSize == q * pageSize - pageSize;
      q
  }

  /** The two bounds of NumPages pin it down: it is the ceiling of
      total / pageSize. */
  lemma NumPagesIsCeiling(total: int, pageSize: int, m: int)
    requires pageSize > 0
    requires (m - 1) * pageSize < total <= m * pageSize
    ensures m == NumPages(total, pageSize)
  {
    var n := NumPages(total, pageSize);
    if m < n {
      MulMonotonic(m, n - 1, pageSize);
    } else if m > n {
      MulMonotonic(n, m - 1, pageSize);
    }
  }

  lemma MulMonotonic(a: int, b: int, c: int)
    requires a <= b && c > 0
    ensures a * c <= b * c
  {
    var d := b - a;
    assert d * c >= 0;
    assert b * c == a * c + d * c;
  }

  /** `list(range(1, n + 1))`. */
  function PageRange(n: int): (r: seq<int>)
    ensures |r| == if n > 0 then n else 0
    ensures forall i :: 0 <= i < |r| ==> r[i] == i + 1
    decreases n
  {
    if n <= 0 then [] else PageRange(n - 1) + [n]
  }

  /** `PageResponse.create(items, params, total=total, base_url=...)`.
      A `str` (the default or one passed in) has no `include_query_params`,
      so unless `base_url` is a URL object the first link already raises. */
  function Create<T>(items: seq<T>, params: ParamsArg, total: Option<int>, baseUrl: BaseUrl)
    : (r: Result<PageResponse<T>, CreateError>)
    requires params.ParamsInstance? ==> params.params.size > 0
    ensures params.OtherParams? ==> r == Failure(ValueError("params must be an instance of Params"))
    ensures params.ParamsInstance? && total.None? ==> r == Failure(ValueError("total must be provided"))
    ensures params.ParamsInstance? && total.Some? && !baseUrl.UrlObject? ==>
      r == Failure(AttributeError(NoIncludeQueryParams))
    ensures r.Success? <==> params.ParamsInstance? && total.Some? && baseUrl.UrlObject?
    ensures r.Success? ==>
      && r.value.total == total.value
      && r.value.page == params.params.page
      && r.value.pageSize == params.params.size
      && r.value.items == items
      && r.value.numPages == NumPages(total.value, params.params.size)
      && r.value.pageRange == PageRange(r.value.numPages)
  {
    if params.OtherParams? then Failure(ValueError("params must be an instance of Params"))
    else if total.None? then Failure(ValueError("total must be provided"))
    else
      var page, pageSize := params.params.page, params.params.size;
      var numPages := NumPages(total.value, pageSize);
      if !baseUrl.UrlObject? then Failure(AttributeError(NoIncludeQueryParams))
      else
        var base := baseUrl.text;
        Success(PageResponse(
          total := total.value,
          page := page,
          pageSize := pageSize,
          numPages := numPages,
          pageRange := PageRange(numPages),
          items := items,
          firstPage := Link(base, 1, pageSize),
          previousPage := if page > 1 then Some(Link(base, page - 1, pageSize)) else None,
          nextPage := if page < numPages then Some(Link(base, page + 1, pageSize)) else None,
          lastPage := Link(base, numPages, pageSize)))
  }

  /** The navigation links of a page created with a URL-object `base_url`: first and
      last always, previous exactly when there is an earlier page, next
      exactly when there is a later one, all on that URL with the page size. */
  lemma CreateLinks<T>(items: seq<T>, params: Params, total: int, base: string)
    requires params.size > 0
    ensures var r := Create(items, ParamsInstance(params), Some(total), UrlObject(base));
      && r.Success?
      && r.value.firstPage == Link(base, 1, params.size)
      && r.value.lastPage == Link(base, r.value.numPages, params.size)
      && (r.value.previousPage.Some? <==> params.page > 1)
      && (r.value.previousPage.Some? ==> r.value.previousPage.value == Link(base, params.page - 1, params.size))
      && (r.value.nextPage.Some? <==> params.page < r.value.numPages)
      && (r.value.nextPage.Some? ==> r.value.nextPage.value == Link(base, params.page + 1, params.size))
  {
  }

  /** No rows: no pages, an empty page range, and no next link. */
  lemma CreateEmpty<T>(items: seq<T>, params: Params, base: string)
    requires params.page >= 1 && params.size > 0
    ensures var r := Create(items, ParamsInstance(params), Some(0), UrlObject(base));
      r.Success? && r.value.numPages == 0 && r.value.pageRange == [] && r.value.nextPage.None?
  {
  }

  /** fastapi_pagination's `Page` as the listings return it: the items, the
      total, the page and size asked for, and the page count `pages`
      (`ceil(total / size)`). Its `links` are not modelled. */
  datatype Page<T> = Page(items: seq<T>, total: nat, page: int, size: int, pages: int)

  /** The query-parameter checks of `Params`: `page >= 1`, `1 <= size <= 100`. */
  function ValidateParams(p: Params): (es: seq<FieldError>)
    ensures es == [] <==> p.page >= 1 && 1 <= p.size <= 100
  {
    AtLeast(["query", "page"], p.page, 1) + AtLeast(["query", "size"], p.size, 1) + AtMost(["query", "size"], p.size, 100)
  }

  /** The number of rows before page `page`: `(page - 1) * size`. */
  function Offset(page: int, size: int): (o: nat)
    requires page >= 1 && size >= 1
  {
    MulMonotonic(0, page - 1, size);
    (page - 1) * size
  }

  /** A page that starts before the end is one of the counted pages. */
  lemma PageWithinCount(total: int, page: int, size: int)
    requires page >= 1 && size >= 1 && Offset(page, size) < total
    ensures page <= NumPages(total, size)
  {
    var n := NumPages(total, size);
    if page > n {
      MulMonotonic(n, page - 1, size);
    }
  }

  /** `OFFSET (page - 1) * size LIMIT size` over the rows in table order. */
  function PageSlice<T>(s: seq<T>, page: int, size: int): (r: seq<T>)
    requires page >= 1 && size >= 1
    ensures |r| <= size
    ensures forall i :: 0 <= i < |r| ==> Offset(page, size) + i < |s| && r[i] == s[Offset(page, size) + i]
    ensures r == [] <==> Offset(page, size) >= |s|
    ensures |r| == size || Offset(page, size) + |r| >= |s|
  {
    var offset := Offset(page, size);
    if offset >= |s| then [] else s[offset..if offset + size <= |s| then offset + size else |s|]
  }

  /** Every row is on exactly the page its position says: row k is entry
      k % size of page k / size + 1. */
  lemma PageSliceCovers<T>(s: seq<T>, size: int, k: nat)
    requires size >= 1 && k < |s|
    ensures var r := PageSlice(s, k / size + 1, size); k % size < |r| && r[k % size] == s[k]
  {
    var page := k / size + 1;
    assert Offset(page, size) + k % size == k;
    var r := PageSlice(s, page, size);
    assert Offset(page, size) < |s|;
    assert r != [];
  }
}
