/** PagedRequest: page number and size with clamping setters, a search term and a sort order. */
module PagedRequests {
  import opened Common
  import opened Text

  const MaxPageSize: Int32 := 100
  const DefaultPageSize: Int32 := 10

  datatype SortDirection = Ascending | Descending

  /** The PageNumber setter's rule: anything below 1 becomes 1. */
  function ClampPageNumber(value: Int32): (r: Int32)
    ensures r >= 1
    ensures value >= 1 ==> r == value
  {
    if value < 1 then 1 else value
  }

  /** The PageSize setter's rule: below 1 becomes the default 10, above 100 becomes 100. */
  function ClampPageSize(value: Int32): (r: Int32)
    ensures 1 <= r <= MaxPageSize
    ensures 1 <= value <= MaxPageSize ==> r == value
  {
    if value < 1 then DefaultPageSize
    else if value > MaxPageSize then MaxPageSize
    else value
  }

  /** Both rules are idempotent, and a value is left as given exactly when it is already in range. */
  lemma ClampIdempotent(value: Int32)
    ensures ClampPageNumber(ClampPageNumber(value)) == ClampPageNumber(value)
    ensures ClampPageSize(ClampPageSize(value)) == ClampPageSize(value)
    ensures ClampPageNumber(value) == value <==> value >= 1
    ensures ClampPageSize(value) == value <==> 1 <= value <= MaxPageSize
  {
  }

  /** Skip as written: (PageNumber - 1) * PageSize in unchecked 32-bit arithmetic. */
  function SkipAsWritten(pageNumber: Int32, pageSize: Int32): Int32
  {
    Wrap32((pageNumber - 1) * pageSize)
  }

  /** For page numbers above 21,474,837 with pages of 100 the product leaves the int range
      and the offset comes out negative. */
  lemma SkipAsWrittenOverflows()
    ensures ClampPageNumber(21_474_838) == 21_474_838 && ClampPageSize(100) == 100
    ensures SkipAsWritten(21_474_838, 100) == -2_147_483_596
  {
  }

  /** Skip computed without overflow: the number of items on the pages before this one. */
  function Skip(pageNumber: Int32, pageSize: Int32): (r: int)
    requires pageNumber >= 1 && 1 <= pageSize <= MaxPageSize
    ensures 0 <= r <= (MaxInt32 - 1) * MaxPageSize
  {
    MulBounds(pageNumber - 1, pageSize);
    (pageNumber - 1) * pageSize
  }

  lemma MulBounds(a: nat, b: nat)
    requires a <= MaxInt32 - 1 && 1 <= b <= MaxPageSize
    ensures 0 <= a * b <= (MaxInt32 - 1) * MaxPageSize
  {
    MulLeq(a, MaxInt32 - 1, b);
    MulLeq(b, MaxPageSize, MaxInt32 - 1);
  }

  lemma MulLeq(a: nat, b: nat, c: nat)
    requires a <= b
    ensures a * c <= b * c
  {
  }

  /** Consecutive pages are contiguous: the next page starts one page size further on. */
  lemma SkipNextPage(pageNumber: Int32, pageSize: Int32)
    requires 1 <= pageNumber < MaxInt32 && 1 <= pageSize <= MaxPageSize
    ensures Skip(pageNumber + 1, pageSize) == Skip(pageNumber, pageSize) + pageSize
    ensures Skip(1, pageSize) == 0
  {
  }

  /** The corrected Skip agrees with the written one whenever the product fits in an int, and
      page 3 with pages of 10 skips 20 items. */
  lemma SkipAgreesWhenInRange(pageNumber: Int32, pageSize: Int32)
    requires pageNumber >= 1 && 1 <= pageSize <= MaxPageSize
    requires (pageNumber - 1) * pageSize <= MaxInt32
    ensures SkipAsWritten(pageNumber, pageSize) == Skip(pageNumber, pageSize)
    ensures Skip(3, 10) == 20
  {
  }

  class PagedRequest {
    var pageNumber: Int32
    var pageSize: Int32
    var searchTerm: Option<string>
    var sortBy: Option<string>
    var sortDirection: SortDirection

    /** What the setters keep: a page number of at least 1 and a size from 1 to 100. */
    ghost predicate Valid()
      reads this
    {
      pageNumber >= 1 && 1 <= pageSize <= MaxPageSize
    }

    /** The defaults: page 1 of 10 items, ascending, no search and no sort key. */
    constructor()
      ensures pageNumber == 1 && pageSize == DefaultPageSize && sortDirection == Ascending
      ensures searchTerm == None && sortBy == None
      ensures Valid()
    {
      pageNumber := 1;
      pageSize := DefaultPageSize;
      searchTerm := None;
      sortBy := None;
      sortDirection := Ascending;
    }

    /** The PageNumber setter; setting the value just read back changes nothing. */
    method SetPageNumber(value: Int32)
      modifies this`pageNumber
      ensures pageNumber == ClampPageNumber(value)
      ensures old(Valid()) ==> Valid()
      ensures old(Valid()) && value == old(pageNumber) ==> pageNumber == old(pageNumber)
    {
      pageNumber := if value < 1 then 1 else value;
    }

    /** The PageSize setter; setting the value just read back changes nothing. */
    method SetPageSize(value: Int32)
      modifies this`pageSize
      ensures pageSize == ClampPageSize(value)
      ensures old(Valid()) ==> Valid()
      ensures old(Valid()) && value == old(pageSize) ==> pageSize == old(pageSize)
    {
      if value < 1 {
        pageSize := DefaultPageSize;
      } else if value > MaxPageSize {
        pageSize := MaxPageSize;
      } else {
        pageSize := value;
      }
    }

    /** The number of items to skip for this page. */
    function SkipItems(): (r: int)
      requires Valid()
      reads this
      ensures r >= 0 && r == Skip(pageNumber, pageSize)
    {
      Skip(pageNumber, pageSize)
    }

    /** HasSearch. */
    predicate HasSearch()
      reads this
    {
      !IsNullOrWhiteSpace(searchTerm)
    }

    /** HasSorting. */
    predicate HasSorting()
      reads this
    {
      !IsNullOrWhiteSpace(sortBy)
    }

    /** GetNormalizedSearchTerm: the trimmed search term, null staying null. */
    function GetNormalizedSearchTerm(): (r: Option<string>)
      reads this
      ensures r.None? <==> searchTerm.None?
      ensures r.Some? ==> IsTrimmed(r.value) && r.value == Trim(searchTerm.value)
    {
      if searchTerm.None? then None else Some(Trim(searchTerm.value))
    }
  }

  /** There is a search exactly when the normalized term is present and not empty, and
      normalizing again changes nothing. */
  lemma HasSearchIffNormalizedNonEmpty(req: PagedRequest)
    ensures req.HasSearch() <==> req.GetNormalizedSearchTerm().Some? && req.GetNormalizedSearchTerm().value != []
    ensures req.GetNormalizedSearchTerm().Some? ==>
      Trim(req.GetNormalizedSearchTerm().value) == req.GetNormalizedSearchTerm().value
  {
    if req.searchTerm.Some? {
      TrimEmptyIffWhiteSpace(req.searchTerm.value);
      TrimIdempotent(req.searchTerm.value);
    }
  }

  /** There is a sort key exactly when SortBy is present and not empty once trimmed. */
  lemma HasSortingIffTrimmedNonEmpty(req: PagedRequest)
    ensures req.HasSorting() <==> req.sortBy.Some? && Trim(req.sortBy.value) != []
  {
    if req.sortBy.Some? {
      TrimEmptyIffWhiteSpace(req.sortBy.value);
    }
  }

  /** Starting from the defaults, setting each page number in turn and then each page size in
      turn keeps both in range; the last value of each list decides its field, and an empty list
      leaves the default. */
  method SetterSequence(numbers: seq<Int32>, sizes: seq<Int32>) returns (req: PagedRequest)
    ensures req.Valid()
    ensures |numbers| == 0 ==> req.pageNumber == 1
    ensures |sizes| == 0 ==> req.pageSize == DefaultPageSize
    ensures |numbers| > 0 ==> req.pageNumber == ClampPageNumber(numbers[|numbers| - 1])
    ensures |sizes| > 0 ==> req.pageSize == ClampPageSize(sizes[|sizes| - 1])
  {
    req := new PagedRequest();
    var i := 0;
    while i < |numbers|
      invariant 0 <= i <= |numbers|
      invariant req.Valid()
      invariant i > 0 ==> req.pageNumber == ClampPageNumber(numbers[i - 1])
      invariant i == 0 ==> req.pageNumber == 1
      invariant req.pageSize == DefaultPageSize
    {
      req.SetPageNumber(numbers[i]);
      i := i + 1;
    }
    var j := 0;
    while j < |sizes|
      invariant 0 <= j <= |sizes|
      invariant req.Valid()
      invariant |numbers| > 0 ==> req.pageNumber == ClampPageNumber(numbers[|numbers| - 1])
      invariant |numbers| == 0 ==> req.pageNumber == 1
      invariant j > 0 ==> req.pageSize == ClampPageSize(sizes[j - 1])
      invariant j == 0 ==> req.pageSize == DefaultPageSize
    {
      req.SetPageSize(sizes[j]);
      j := j + 1;
    }
  }
}
