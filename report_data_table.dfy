/** The server-paginated table (src/modules/reports/components/report-data-table.tsx):
    the row range it reports, its page buttons, the sort request it makes
    from the table's sort state, and how a cell shows its value. Numbers are
    integers here. */
module ReportDataTable {
  import opened Wrappers
  import opened ApiTypes

  /** The first row shown: 0 for an empty result. */
  function From(p: Pagination): (from: int)
    ensures p.totalRows == 0 ==> from == 0
    ensures p.totalRows != 0 ==> from == (p.page - 1) * p.pageSize + 1
  {
    if p.totalRows == 0 then 0 else (p.page - 1) * p.pageSize + 1
  }

  /** The last row shown: the end of the page, or the last row. */
  function To(p: Pagination): (to: int)
    ensures to <= p.totalRows && to <= p.page * p.pageSize
    ensures to == p.totalRows || to == p.page * p.pageSize
  {
    if p.page * p.pageSize < p.totalRows then p.page * p.pageSize else p.totalRows
  }

  /** For a page that starts inside the result, the range is a non-empty
      run of at most one page of rows. */
  lemma RangeWithinPage(p: Pagination)
    requires p.page >= 1 && p.pageSize >= 1 && (p.page - 1) * p.pageSize < p.totalRows
    ensures 1 <= From(p) <= To(p) <= p.totalRows
    ensures To(p) - From(p) + 1 <= p.pageSize
  {
    assert p.page * p.pageSize == (p.page - 1) * p.pageSize + p.pageSize;
  }

  /** One entry of the table's sort state: a column id and its direction. */
  datatype SortEntry = SortEntry(id: string, desc: bool)

  /** `onSortingChange`: the first sorted column and its direction, or no
      column, ascending, for an empty sort state. */
  function SortRequest(sorting: seq<SortEntry>): (r: (Option<string>, SortOrder))
    ensures sorting == [] ==> r == (None, Asc)
    ensures sorting != [] ==> r.0 == Some(sorting[0].id)
    ensures sorting != [] ==> (r.1 == Desc <==> sorting[0].desc)
  {
    if |sorting| > 0 then (Some(sorting[0].id), if sorting[0].desc then Desc else Asc)
    else (None, Asc)
  }

  /** Only the first sorted column reaches the server. */
  lemma SortRequestFirstOnly(e: SortEntry, rest: seq<SortEntry>, other: seq<SortEntry>)
    ensures SortRequest([e] + rest) == SortRequest([e] + other)
  {
  }

  /** The four page buttons. */
  datatype PageButton = First | Previous | Next | Last

  /** The back buttons are disabled on page 1 and before it, the forward
      buttons on the last page and after it. */
  function Disabled(b: PageButton, p: Pagination): bool {
    match b
    case First => p.page <= 1
    case Previous => p.page <= 1
    case Next => p.page >= p.totalPages
    case Last => p.page >= p.totalPages
  }

  /** The page a button asks for. */
  function Target(b: PageButton, p: Pagination): int {
    match b
    case First => 1
    case Previous => p.page - 1
    case Next => p.page + 1
    case Last => p.totalPages
  }

  /** From a page within range, an enabled button asks for a page within
      range, and never for the page already shown. */
  lemma TargetsInRange(b: PageButton, p: Pagination)
    requires 1 <= p.page <= p.totalPages
    requires !Disabled(b, p)
    ensures 1 <= Target(b, p) <= p.totalPages
    ensures Target(b, p) != p.page
  {
  }

  /** On a single page every button is disabled. */
  lemma SinglePageDisabled(b: PageButton, p: Pagination)
    requires p.page == 1 && p.totalPages <= 1
    ensures Disabled(b, p)
  {
  }

  /** The table's zero-based page index for the one-based page. */
  function PageIndex(p: Pagination): (i: int)
    ensures i + 1 == p.page
  {
    p.page - 1
  }

  /** A cell's text: `"NULL"` for `null` and `undefined` (`None`), the value's
      `String` form otherwise. */
  function CellText(v: Option<string>): (t: string)
    ensures v.None? ==> t == "NULL"
    ensures v.Some? ==> t == v.value
  {
    match v
    case None => "NULL"
    case Some(s) => s
  }
}
