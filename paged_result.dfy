/** PagedResult<T>: one page of items with the paging arithmetic derived from its counts. */
module PagedResults {
  import opened Common

  /** The page: its items, in the order supplied, and the counts it was built with. */
  datatype PagedResult<T> = PagedResult(items: seq<T>, totalCount: Int32, pageNumber: Int32, pageSize: Int32)

  /** new PagedResult(items, totalCount, pageNumber, pageSize): only a null item sequence is
      refused; the counts are stored as given, without checking them against each other. */
  function NewPagedResult<T>(items: Option<seq<T>>, totalCount: Int32, pageNumber: Int32, pageSize: Int32)
    : (r: Result<PagedResult<T>>)
    ensures items.None? <==> r == Err(ArgumentNull("items"))
    ensures r.Ok? ==> && r.value.items == items.value
                      && r.value.totalCount == totalCount
                      && r.value.pageNumber == pageNumber
                      && r.value.pageSize == pageSize
  {
    if items.None? then Err(ArgumentNull("items"))
    else Ok(PagedResult(items.value, totalCount, pageNumber, pageSize))
  }

  /** The least q with a <= q * b: the integer ceiling of a / b. */
  function CeilDiv(a: int, b: int): (q: int)
    requires b > 0
    ensures (q - 1) * b < a <= q * b
  {
    var d := (-a) / b;
    var m := (-a) % b;
    assert -a == d * b + m && 0 <= m < b;
    assert (-d) * b == a + m;
    -d
  }

  /** TotalPages: Math.Ceiling(TotalCount / (double)PageSize), which for int operands is the
      integer ceiling. */
  function TotalPages<T>(r: PagedResult<T>): (n: int)
    requires r.pageSize > 0
    ensures (n - 1) * r.pageSize < r.totalCount <= n * r.pageSize
  {
    CeilDiv(r.totalCount, r.pageSize)
  }

  /** HasPreviousPage. */
  predicate HasPreviousPage<T>(r: PagedResult<T>)
  {
    r.pageNumber > 1
  }

  /** HasNextPage. */
  predicate HasNextPage<T>(r: PagedResult<T>)
    requires r.pageSize > 0
  {
    r.pageNumber < TotalPages(r)
  }

  /** The ceiling is the only number bracketing the count that way, and it lies between 0 and
      the count when the count is not negative; so 25 items in pages of 10 make 3 pages. */
  lemma TotalPagesIsCeiling<T>(r: PagedResult<T>, n: int)
    requires r.pageSize > 0
    requires (n - 1) * r.pageSize < r.totalCount <= n * r.pageSize
    ensures n == TotalPages(r)
    ensures r.totalCount >= 0 ==> 0 <= TotalPages(r) <= r.totalCount
  {
    var t, s, q := r.totalCount, r.pageSize, TotalPages(r);
    MulOrder(n - 1, q, s);
    MulOrder(q - 1, n, s);
    MulOrder(q, 0, s);
    if t >= 0 {
      MulOrder(q - 1, t, s);
      MulMonotoneRight(t, 1, s);
    }
  }

  /** Multiplying by a positive number keeps the strict order. */
  lemma MulOrder(a: int, b: int, s: int)
    requires s > 0
    ensures a < b <==> a * s < b * s
  {
    if a < b {
      MulMonotone(a + 1, b, s);
    } else {
      MulMonotone(b, a, s);
    }
  }

  lemma MulMonotone(a: int, b: int, s: int)
    requires a <= b && s > 0
    ensures a * s <= b * s
  {
  }

  lemma MulMonotoneRight(a: int, s1: int, s2: int)
    requires a >= 0 && 0 < s1 <= s2
    ensures a * s1 <= a * s2
  {
  }

  lemma TotalPagesExample()
    ensures TotalPages(PagedResult<int>.PagedResult([], 25, 1, 10)) == 3
  {
    TotalPagesIsCeiling(PagedResult<int>.PagedResult([], 25, 1, 10), 3);
  }

  /** There is a next page exactly when the pages up to this one hold fewer items than the
      total; on the last page there is none. */
  lemma HasNextPageIff<T>(r: PagedResult<T>)
    requires r.pageSize > 0
    ensures HasNextPage(r) <==> r.pageNumber * r.pageSize < r.totalCount
    ensures r.pageNumber == TotalPages(r) ==> !HasNextPage(r)
  {
    var p, s, n := r.pageNumber, r.pageSize, TotalPages(r);
    MulOrder(p, n, s);
    MulOrder(n - 1, p, s);
  }

  /** PagedResult.Empty(pageNumber, pageSize). */
  function Empty<T>(pageNumber: Int32, pageSize: Int32): (r: PagedResult<T>)
    ensures NewPagedResult(Some([]), 0, pageNumber, pageSize) == Ok(r)
  {
    PagedResult([], 0, pageNumber, pageSize)
  }

  /** An empty page has no items and no pages, so no next page unless its page number is
      negative; Empty(2, 25) still reports a previous page. */
  lemma EmptyPages<T>(pageNumber: Int32, pageSize: Int32)
    requires pageSize > 0
    ensures Empty<T>(pageNumber, pageSize).items == []
    ensures TotalPages(Empty<T>(pageNumber, pageSize)) == 0
    ensures HasNextPage(Empty<T>(pageNumber, pageSize)) <==> pageNumber < 0
    ensures HasPreviousPage(Empty<T>(2, 25)) && !HasNextPage(Empty<T>(2, 25))
  {
    TotalPagesIsCeiling(Empty<T>(pageNumber, pageSize), 0);
    TotalPagesIsCeiling(Empty<T>(2, 25), 0);
  }
}
