/** Page arithmetic of src/dto/pagination_dto.py: the request's skip count and
    the metadata of a paginated response. */
module Pagination {
  import opened Results
  import opened Errors

  const DefaultPage: int := 1
  const DefaultPageSize: int := 10
  const MaxPageSize: int := 100

  datatype PageRequest = PageRequest(page: int, pageSize: int)

  datatype PageMeta = PageMeta(
    page: int,
    pageSize: int,
    total: int,
    totalPages: int,
    hasNext: bool,
    hasPrev: bool)

  datatype Paginated<T> = Paginated(data: seq<T>, meta: PageMeta)

  predicate ValidPageRequest(p: PageRequest)
  {
    p.page >= 1 && 1 <= p.pageSize <= MaxPageSize
  }

  /** `PaginationRequestDTO` field validation: `page` defaults to 1 and must be
      at least 1; `page_size` defaults to 10 and must lie in 1..100. */
  function ParsePageRequest(page: Option<int>, pageSize: Option<int>): (r: Result<PageRequest, Error>)
    ensures r.Ok? <==> (page.Some? ==> page.value >= 1) && (pageSize.Some? ==> 1 <= pageSize.value <= 100)
    ensures r.Err? ==> r.error == InvalidRequest
    ensures r.Ok? ==> r.value.page == (if page.Some? then page.value else 1)
    ensures r.Ok? ==> r.value.pageSize == (if pageSize.Some? then pageSize.value else 10)
  {
    var p := PageRequest(if page.Some? then page.value else DefaultPage,
                         if pageSize.Some? then pageSize.value else DefaultPageSize);
    if ValidPageRequest(p) then Ok(p) else Err(InvalidRequest)
  }

  /** `calc_skip`: the number of items before the requested page. It checks the
      page number first and the page size second, and the skip it returns is a
      non-negative multiple of the page size. */
  function CalcSkip(p: PageRequest): (r: Result<int, Error>)
    ensures p.page < 1 ==> r == Err(PageTooSmall)
    ensures p.page >= 1 && !(1 <= p.pageSize <= 100) ==> r == Err(PageSizeOutOfRange)
    ensures r.Ok? <==> p.page >= 1 && 1 <= p.pageSize <= 100
    ensures r.Ok? ==> r.value >= 0 && r.value % p.pageSize == 0
    ensures r.Ok? ==> r.value + p.pageSize == p.page * p.pageSize
  {
    if p.page < 1 then Err(PageTooSmall)
    else if p.pageSize < 1 || p.pageSize > MaxPageSize then Err(PageSizeOutOfRange)
    else
      var skip := (p.page - 1) * p.pageSize;
      DivModUnique(skip, p.pageSize, p.page - 1, 0);
      Ok(skip)
  }

  /** Euclidean division is unique: a quotient and remainder in range are the
      ones `/` and `%` compute. */
  lemma DivModUnique(x: int, n: int, q: int, m: int)
    requires n >= 1 && 0 <= m < n && x == q * n + m
    ensures x / n == q && x % n == m
  {
    var q', m' := x / n, x % n;
    assert x == q' * n + m' && 0 <= m' < n;
    assert (q - q') * n == m' - m;
    if q > q' {
      MulLeftMonotone(1, q - q', n);
    } else if q < q' {
      MulLeftMonotone(1, q' - q, n);
    }
  }

  /** Every request the DTO parser accepts passes `calc_skip`'s own checks. */
  lemma ValidRequestHasSkip(page: Option<int>, pageSize: Option<int>)
    requires ParsePageRequest(page, pageSize).Ok?
    ensures CalcSkip(ParsePageRequest(page, pageSize).value).Ok?
  {
  }

  /** `ceil(total / page_size)` for a positive total, 0 for an empty result:
      the least page count whose pages hold every item. */
  function TotalPages(total: nat, pageSize: int): (r: nat)
    requires pageSize >= 1
    ensures total == 0 ==> r == 0
    ensures total > 0 ==> r >= 1 && (r - 1) * pageSize < total <= r * pageSize
  {
    if total > 0 then
      var n := total + pageSize - 1;
      var q := n / pageSize;
      assert n == q * pageSize + n % pageSize && 0 <= n % pageSize < pageSize;
      assert (q - 1) * pageSize == q * pageSize - pageSize;
      q
    else 0
  }

  /** The metadata `PaginatedResponseDTO.create` computes. */
  function CreateMeta(page: int, pageSize: int, total: nat): (m: PageMeta)
    requires pageSize >= 1
    ensures m.page == page && m.pageSize == pageSize && m.total == total
    ensures m.totalPages == TotalPages(total, pageSize)
    ensures m.hasNext <==> page < m.totalPages
    ensures m.hasPrev <==> page > 1
  {
    var totalPages := TotalPages(total, pageSize);
    PageMeta(page, pageSize, total, totalPages, page < totalPages, page > 1)
  }

  lemma MulLeftMonotone(a: int, b: int, c: int)
    requires c >= 1
    ensures a <= b <==> a * c <= b * c
  {
    if a <= b {
      assert b * c - a * c == (b - a) * c;
    } else {
      assert a * c - b * c == (a - b) * c;
    }
  }

  /** The skip lies inside the result exactly when the page number does not
      pass the page count, so the service's "page exceeds total" error and the
      response's `total_pages` agree. */
  lemma SkipInsideIffPageWithinPages(p: PageRequest, total: nat)
    requires CalcSkip(p).Ok? && total > 0
    ensures CalcSkip(p).value < total <==> p.page <= TotalPages(total, p.pageSize)
  {
    var tp := TotalPages(total, p.pageSize);
    var skip := CalcSkip(p).value;
    assert skip == (p.page - 1) * p.pageSize;
    MulLeftMonotone(p.page, tp, p.pageSize);
    MulLeftMonotone(p.page - 1, tp - 1, p.pageSize);
  }

  /** On a page that is served, `has_next` holds exactly when some item lies
      after the page, and `has_prev` exactly when some item lies before it. */
  lemma HasNextIffItemsRemain(p: PageRequest, total: nat)
    requires CalcSkip(p).Ok? && CalcSkip(p).value < total
    ensures CreateMeta(p.page, p.pageSize, total).hasNext <==> CalcSkip(p).value + p.pageSize < total
    ensures CreateMeta(p.page, p.pageSize, total).hasPrev <==> CalcSkip(p).value > 0
  {
    var tp := TotalPages(total, p.pageSize);
    var skip := CalcSkip(p).value;
    assert skip + p.pageSize == p.page * p.pageSize;
    MulLeftMonotone(p.page, tp, p.pageSize);
    MulLeftMonotone(p.page + 1, tp, p.pageSize);
    assert (p.page + 1) * p.pageSize == p.page * p.pageSize + p.pageSize;
    MulLeftMonotone(p.page, 1, p.pageSize);
  }
}
