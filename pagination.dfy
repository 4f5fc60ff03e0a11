/** Page arithmetic for the public list endpoints: clamping the requested page and page
    size, and the page count of a result set. */
module Pagination {
  import opened Common

  const DefaultPage: int := 1
  const DefaultPageSize: int := 12
  const MaxPageSize: int := 50

  datatype Window = Window(offset: int, limit: int, page: int, pageSize: int)

  datatype Meta = Meta(page: int, pageSize: int, total: nat, totalPages: nat)

  function Max(a: int, b: int): int { if a < b then b else a }
  function Min(a: int, b: int): int { if a < b then a else b }

  /** `parsePagination`: an absent argument takes its default; the page is at least 1 and
      the page size is clamped into [1, 50]; the window starts at the first row of the page. */
  function ParsePagination(page: Option<int>, pageSize: Option<int>): (r: Window)
    ensures r.page >= 1
    ensures 1 <= r.pageSize <= MaxPageSize
    ensures r.limit == r.pageSize
    ensures r.offset == (r.page - 1) * r.pageSize && r.offset >= 0
    ensures r.page == if page.None? then DefaultPage else if page.value < 1 then 1 else page.value
    ensures r.pageSize ==
      if pageSize.None? then DefaultPageSize
      else if pageSize.value < 1 then 1
      else if pageSize.value > MaxPageSize then MaxPageSize
      else pageSize.value
  {
    var p := page.GetOr(DefaultPage);
    var ps := pageSize.GetOr(DefaultPageSize);
    var safePage := Max(1, p);
    var safePageSize := Min(MaxPageSize, Max(1, ps));
    var offset := (safePage - 1) * safePageSize;
    assert offset >= 0 by { MulNonNegative(safePage - 1, safePageSize); }
    Window(offset, safePageSize, safePage, safePageSize)
  }

  lemma MulNonNegative(a: int, b: int)
    requires a >= 0 && b >= 0
    ensures a * b >= 0
  {
  }

  /** `Math.ceil(total / pageSize)` on a row count. */
  function TotalPages(total: nat, pageSize: int): (r: nat)
    requires pageSize > 0
    ensures r == 0 <==> total == 0
    ensures r * pageSize >= total
    ensures total > 0 ==> (r - 1) * pageSize < total
  {
    var q := (total + pageSize - 1) / pageSize;
    assert total + pageSize - 1 == q * pageSize + (total + pageSize - 1) % pageSize;
    q
  }

  /** `buildPaginationMeta`. */
  function BuildPaginationMeta(total: nat, page: int, pageSize: int): (m: Meta)
    requires pageSize > 0
    ensures m.page == page && m.pageSize == pageSize && m.total == total
    ensures m.totalPages * pageSize >= total
    ensures total > 0 ==> (m.totalPages - 1) * pageSize < total
  {
    Meta(page, pageSize, total, TotalPages(total, pageSize))
  }

  /** Read together: the window of the last page the metadata announces starts inside the
      result set and reaches its end, and the window of the page after it is empty. */
  lemma LastPageWindow(total: nat, pageSize: int)
    requires total > 0 && 1 <= pageSize <= MaxPageSize
    ensures var n := BuildPaginationMeta(total, 1, pageSize).totalPages;
      var last := ParsePagination(Some(n), Some(pageSize));
      var next := ParsePagination(Some(n + 1), Some(pageSize));
      last.offset < total <= last.offset + last.limit && next.offset >= total
  {
    var n := TotalPages(total, pageSize);
    assert (n + 1 - 1) * pageSize == n * pageSize;
    assert (n - 1) * pageSize + pageSize == n * pageSize;
  }
}
