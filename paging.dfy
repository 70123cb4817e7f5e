/** Pagination arithmetic shared by the three tables: the "Showing X to Y of Z
    results" line, and the page state the two client-side tables keep. */
module Paging {

  /** The three numbers of "Showing `from` to `to` of `of` results". */
  datatype Shown = Shown(from: int, to: int, of: int)

  function Min(a: int, b: int): int {
    if a <= b then a else b
  }

  /** The line for the zero-based page `pageIndex` of `pageSize` rows over `total` rows:
      from `pageIndex * pageSize + 1` to `min((pageIndex + 1) * pageSize, total)`. */
  function Showing(pageIndex: int, pageSize: int, total: int): (s: Shown)
    ensures s.from == pageIndex * pageSize + 1
    ensures s.of == total && s.to <= total
    ensures s.to <= (pageIndex + 1) * pageSize
    ensures s.to == total || s.to == (pageIndex + 1) * pageSize
  {
    Shown(pageIndex * pageSize + 1, Min((pageIndex + 1) * pageSize, total), total)
  }

  /** For a page that holds rows, the line names them: it starts at 1 or later,
      ends at the total or earlier, and counts exactly the rows on that page. */
  lemma ShowingAPageWithRows(pageIndex: nat, pageSize: nat, total: nat)
    requires pageSize > 0 && pageIndex * pageSize < total
    ensures 1 <= Showing(pageIndex, pageSize, total).from
    ensures Showing(pageIndex, pageSize, total).from <= Showing(pageIndex, pageSize, total).to
    ensures Showing(pageIndex, pageSize, total).to - Showing(pageIndex, pageSize, total).from + 1
      == Min(pageSize, total - pageIndex * pageSize)
  {
    assert (pageIndex + 1) * pageSize == pageIndex * pageSize + pageSize;
  }

  /** The line names no row exactly when the page is past the last row; on an
      empty list the first page reads "Showing 1 to 0 of 0 results". */
  lemma ShowingNoRows(pageIndex: nat, pageSize: nat, total: nat)
    requires pageSize > 0
    ensures Showing(pageIndex, pageSize, total).to < Showing(pageIndex, pageSize, total).from
      <==> pageIndex * pageSize >= total
    ensures total == 0 ==> Showing(0, pageSize, total) == Shown(1, 0, 0)
  {
    assert (pageIndex + 1) * pageSize == pageIndex * pageSize + pageSize;
  }

  const InitialPageIndex: int := 0
  const InitialPageSize: int := 5

  /** `Number.MAX_SAFE_INTEGER`. */
  const MaxSafeInteger: int := 0x1F_FFFF_FFFF_FFFF

  /** The `{ pageIndex, pageSize }` state of a client-side paginated table. */
  class PaginationState {
    var pageIndex: int
    var pageSize: int

    /** `useState({ pageIndex: 0, pageSize: 5 })`. */
    constructor ()
      ensures pageIndex == InitialPageIndex && pageSize == InitialPageSize
      ensures CurrentPage() == 1
    {
      pageIndex, pageSize := InitialPageIndex, InitialPageSize;
    }

    /** The one-based page shown to the pager: `pageIndex + 1`. */
    function CurrentPage(): int
      reads this
    {
      pageIndex + 1
    }

    /** The pager's `onPageChange(page)`: `setPageIndex(page - 1)`. The table
        clamps the index to 0 .. `Number.MAX_SAFE_INTEGER`, the upper bound it
        uses when no page count is given, as here. */
    method GoToPage(page: int)
      modifies this
      ensures pageSize == old(pageSize)
      ensures 1 <= page <= MaxSafeInteger + 1 ==> pageIndex == page - 1 && CurrentPage() == page
      ensures page < 1 ==> pageIndex == 0
      ensures page > MaxSafeInteger + 1 ==> pageIndex == MaxSafeInteger
      ensures 0 <= pageIndex <= MaxSafeInteger
    {
      if page - 1 < 0 {
        pageIndex := 0;
      } else if page - 1 > MaxSafeInteger {
        pageIndex := MaxSafeInteger;
      } else {
        pageIndex := page - 1;
      }
    }
  }

  /** The initial state shows the first five rows. */
  lemma InitialLine(total: nat)
    ensures Showing(InitialPageIndex, InitialPageSize, total) == Shown(1, Min(5, total), total)
  {
  }
}
