/** The server-paginated rewards table (src/components/dashboard/rewards/rewards-table.tsx):
    its range line, its First / Previous / Next / Last buttons and its page sizes.
    All of it is computed from the pagination metadata passed in. */
module RewardsTable {
  import opened Paging

  /** `RewardsPaginationMeta`; `page` is one-based. */
  datatype PaginationMeta = PaginationMeta(page: int, limit: int, totalRewards: int, totalPages: int)

  datatype NavButton = First | Previous | Next | Last

  /** The page sizes offered in the rows-per-page select. */
  const PageSizeOptions: seq<int> := [5, 10, 20, 30, 40, 50]

  /** "Showing (page - 1) * limit + 1 to min(page * limit, totalRewards) of totalRewards". */
  function RangeLine(m: PaginationMeta): (s: Shown)
    ensures s.from == (m.page - 1) * m.limit + 1
    ensures s.to <= m.totalRewards && s.of == m.totalRewards
    ensures s.to <= m.page * m.limit
    ensures s.to == m.totalRewards || s.to == m.page * m.limit
  {
    assert (m.page - 1 + 1) * m.limit == m.page * m.limit;
    Showing(m.page - 1, m.limit, m.totalRewards)
  }

  /** Whether a button is disabled: First and Previous on page 1, Next and Last on the last page. */
  function Disabled(m: PaginationMeta, b: NavButton): (off: bool)
    ensures (b == First || b == Previous) ==> (off <==> m.page == 1)
    ensures (b == Next || b == Last) ==> (off <==> m.page == m.totalPages)
  {
    match b
    case First => m.page == 1
    case Previous => m.page == 1
    case Next => m.page == m.totalPages
    case Last => m.page == m.totalPages
  }

  /** The page a button asks for. */
  function Target(m: PaginationMeta, b: NavButton): (page: int)
    ensures 1 <= m.page <= m.totalPages && !Disabled(m, b) ==>
      1 <= page <= m.totalPages && page != m.page
    ensures b == Last ==> page == m.totalPages
    ensures b == First ==> page == 1
  {
    match b
    case First => 1
    case Previous => m.page - 1
    case Next => m.page + 1
    case Last => m.totalPages
  }

  /** From a page within 1..totalPages, every enabled button asks for a different
      page within 1..totalPages; Previous and Next move by exactly one. */
  lemma EnabledButtonsStayInRange(m: PaginationMeta, b: NavButton)
    requires 1 <= m.page <= m.totalPages
    requires !Disabled(m, b)
    ensures 1 <= Target(m, b) <= m.totalPages
    ensures Target(m, b) != m.page
    ensures b == Previous ==> Target(m, b) == m.page - 1
    ensures b == Next ==> Target(m, b) == m.page + 1
  {
  }

  /** With no rewards (`totalPages` 0) Next is enabled on page 1 and asks for page 2. */
  lemma NextEnabledOnEmptyTable(m: PaginationMeta)
    requires m.page == 1 && m.totalPages == 0
    ensures !Disabled(m, Next) && Target(m, Next) == 2 > m.totalPages
  {
  }

  /** Every offered page size is positive, so a page of a non-empty range shows at
      most that many rewards. */
  lemma PageSizesShowBoundedPages(m: PaginationMeta)
    requires m.limit in PageSizeOptions && m.page >= 1
    requires (m.page - 1) * m.limit < m.totalRewards
    ensures 1 <= RangeLine(m).from <= RangeLine(m).to <= m.totalRewards
    ensures RangeLine(m).to - RangeLine(m).from + 1 <= m.limit
  {
    ShowingAPageWithRows(m.page - 1, m.limit, m.totalRewards);
  }
}
