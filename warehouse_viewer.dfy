/** The warehouse report viewer
    (src/modules/warehouse-reports/components/warehouse-report-viewer.tsx):
    the component's React state as the fields of a class, each handler and
    each effect as a method. A network call is split in two: the method that
    starts it (and returns the request it sends) and the method that takes
    its outcome, a `Result`. */
module WarehouseViewer {
  import opened Wrappers
  import opened ApiTypes
  import opened ApiQuery
  import Lists
  import FilterBuilder

  /** A filter is sent only when both its column and its value are set. */
  predicate Complete(f: ColumnFilter) {
    f.column != "" && f.value != ""
  }

  /** `appliedFilters.filter(f => f.column && f.value)`. */
  function ValidFilters(fs: seq<ColumnFilter>): (r: seq<ColumnFilter>)
    ensures forall f :: f in r <==> f in fs && Complete(f)
    ensures |r| <= |fs|
  {
    Lists.Filter((f: ColumnFilter) => Complete(f), fs)
  }

  /** The argument of `getWarehouseData` for the viewer's state: an empty
      debounced search is sent as absent, and the filters only when some
      applied filter is complete. */
  function DataRequest(table: WarehouseTableInfo, page: int, pageSize: int, debouncedSearch: string,
                       sortBy: Option<string>, sortOrder: SortOrder, applied: seq<ColumnFilter>): (p: WarehouseDataParams)
    ensures p.syncedViewId == table.id && p.page == Some(page) && p.pageSize == Some(pageSize)
    ensures p.sortBy == sortBy && p.sortOrder == Some(sortOrder)
    ensures p.search.None? <==> debouncedSearch == ""
    ensures p.search.Some? ==> p.search.value == debouncedSearch
    ensures p.filters.None? <==> forall f :: f in applied ==> !Complete(f)
    ensures p.filters.Some? ==> p.filters.value == ValidFilters(applied)
  {
    var valid := ValidFilters(applied);
    assert |valid| > 0 ==> valid[0] in valid;
    WarehouseDataParams(table.id, Some(page), Some(pageSize),
      if debouncedSearch != "" then Some(debouncedSearch) else None,
      sortBy, Some(sortOrder),
      if |valid| > 0 then Some(valid) else None)
  }

  /** The query a request sends carries a `filters` key exactly when some
      applied filter is complete, and a `search` key exactly when the
      debounced search is non-empty. */
  lemma RequestQueryKeys(table: WarehouseTableInfo, page: int, pageSize: int, debouncedSearch: string,
                         sortBy: Option<string>, sortOrder: SortOrder, applied: seq<ColumnFilter>,
                         stringify: seq<SerializedFilter> -> string)
    ensures var q := Written(WarehouseDataCandidates(DataRequest(table, page, pageSize, debouncedSearch, sortBy, sortOrder, applied), stringify), 7);
      (Lookup(q, Filters).Some? <==> exists f :: f in applied && Complete(f)) &&
      (Lookup(q, Search).Some? <==> debouncedSearch != "") &&
      Lookup(q, SyncedViewId) == Some(table.id)
  {
    var p := DataRequest(table, page, pageSize, debouncedSearch, sortBy, sortOrder, applied);
    WarehouseDataQueryLookup(p, stringify, Filters);
    WarehouseDataQueryLookup(p, stringify, Search);
    WarehouseDataQueryLookup(p, stringify, SyncedViewId);
    if exists f :: f in applied && Complete(f) {
      var f :| f in applied && Complete(f);
      assert f in ValidFilters(applied);
    }
  }

  /** The second request a table change sends, once the reset has
      landed: first page, no search, no sort column, ascending, no
      filters. */
  lemma FreshRequest(table: WarehouseTableInfo, pageSize: int, stringify: seq<SerializedFilter> -> string)
    ensures var q := Written(WarehouseDataCandidates(DataRequest(table, 1, pageSize, "", None, Asc, []), stringify), 7);
      Lookup(q, Page) == Some("1") && Lookup(q, Search).None? && Lookup(q, SortBy).None? &&
      Lookup(q, SortOrderKey) == Some("asc") && Lookup(q, Filters).None?
  {
    var p := DataRequest(table, 1, pageSize, "", None, Asc, []);
    WarehouseDataQueryLookup(p, stringify, Page);
    WarehouseDataQueryLookup(p, stringify, Search);
    WarehouseDataQueryLookup(p, stringify, SortBy);
    WarehouseDataQueryLookup(p, stringify, SortOrderKey);
    WarehouseDataQueryLookup(p, stringify, Filters);
  }

  /** The text of the empty data card, when it is shown: with no data, not
      loading data and no error. */
  function EmptyState(hasData: bool, loadingData: bool, hasError: bool, hasTable: bool, loadingColumns: bool): (m: Option<string>)
    ensures m.Some? <==> !hasData && !loadingData && !hasError
    ensures m.Some? && !hasTable ==> m.value == "Select a table to get started."
    ensures m.Some? && hasTable && loadingColumns ==> m.value == "Loading columns..."
    ensures m.Some? && hasTable && !loadingColumns ==> m.value == "No data available."
  {
    if hasData || loadingData || hasError then None
    else if !hasTable then Some("Select a table to get started.")
    else if loadingColumns then Some("Loading columns...")
    else Some("No data available.")
  }

  /** The data card is rendered with data, while data loads, or with no
      table selected and no error. */
  predicate DataCardShown(hasData: bool, loadingData: bool, hasError: bool, hasTable: bool) {
    hasData || loadingData || (!hasTable && !hasError)
  }

  /** Of the empty texts, only the table prompt can appear: the condition of
      the card excludes the case where a table is selected and neither data,
      loading nor an error is there, so "Loading columns..." and "No data
      available." are never rendered. */
  lemma OnlyTablePromptRendered(hasData: bool, loadingData: bool, hasError: bool, hasTable: bool, loadingColumns: bool)
    ensures (DataCardShown(hasData, loadingData, hasError, hasTable) &&
             EmptyState(hasData, loadingData, hasError, hasTable, loadingColumns).Some?) ==>
      !hasTable && EmptyState(hasData, loadingData, hasError, hasTable, loadingColumns) == Some("Select a table to get started.")
  {
  }

  class WarehouseReportViewer {
    var tables: seq<WarehouseTableInfo>
    var columns: seq<WarehouseColumn>
    var selectedTable: Option<WarehouseTableInfo>
    var viewData: Option<ViewDataResponse>
    var page: int
    var pageSize: int
    var search: string
    var debouncedSearch: string
    var sortBy: Option<string>
    var sortOrder: SortOrder
    var filters: seq<ColumnFilter>
    var appliedFilters: seq<ColumnFilter>
    var showFilters: bool
    var loadingTables: bool
    var loadingColumns: bool
    var loadingData: bool
    var error: Option<string>

    /** The initial state of every `useState`. */
    constructor ()
      ensures tables == [] && columns == [] && selectedTable.None? && viewData.None?
      ensures page == 1 && pageSize == 50 && search == "" && debouncedSearch == ""
      ensures sortBy.None? && sortOrder == Asc && filters == [] && appliedFilters == [] && !showFilters
      ensures loadingTables && !loadingColumns && !loadingData && error.None?
    {
      tables, columns, selectedTable, viewData := [], [], None, None;
      page, pageSize, search, debouncedSearch := 1, 50, "", "";
      sortBy, sortOrder, filters, appliedFilters, showFilters := None, Asc, [], [], false;
      loadingTables, loadingColumns, loadingData, error := true, false, false, None;
    }

    /** The request the data effect sends, if a table is selected. */
    function Request(): (r: Option<WarehouseDataParams>)
      reads this
      ensures r.None? <==> selectedTable.None?
    {
      match selectedTable
      case None => None
      case Some(t) => Some(DataRequest(t, page, pageSize, debouncedSearch, sortBy, sortOrder, appliedFilters))
    }

    /** `JSON.stringify(filters) !== JSON.stringify(appliedFilters)`. */
    predicate FiltersChanged()
      reads this
    {
      filters != appliedFilters
    }

    /** The filter builder shows with the Filters toggle on, a table
        selected and its columns loaded. */
    predicate ShowsBuilder()
      reads this
    {
      showFilters && selectedTable.Some? && !loadingColumns
    }

    /** The Apply button is shown under the builder when there is a working
        filter; it is enabled only when the working filters differ from the
        applied ones. */
    predicate ShowsApply()
      reads this
    {
      ShowsBuilder() && |filters| > 0
    }

    predicate ApplyEnabled()
      reads this
    {
      ShowsApply() && FiltersChanged()
    }

    /** The mount effect, once the tables have been fetched or have failed. */
    method FinishTables(res: Result<seq<WarehouseTableInfo>>)
      modifies this`tables, this`error, this`loadingTables
      ensures res.Ok? ==> tables == res.value && error == old(error)
      ensures res.Err? ==> tables == old(tables) && error == Some(res.message)
      ensures !loadingTables
    {
      match res {
        case Ok(ts) => tables := ts;
        case Err(m) => error := Some(m);
      }
      loadingTables := false;
    }

    /** `handleTableSelect` and the two commits that follow it. Both
        effects run only when the selection changes, and both read the
        state of that render. The data effect sends the new table with the
        page, search, sort and applied filters selected before. The table
        effect then clears the data, both filter lists, both searches and
        the sort, goes back to page 1 and starts loading the columns. Its
        `setAppliedFilters([])` always sets a new array, so the data effect
        runs once more in the next render and sends the fresh request.
        `sent` holds both requests, in the order they go out. */
    method SelectTable(t: WarehouseTableInfo) returns (sent: seq<WarehouseDataParams>)
      modifies this`selectedTable, this`loadingColumns, this`viewData, this`filters, this`appliedFilters,
               this`search, this`debouncedSearch, this`sortBy, this`sortOrder, this`page, this`error,
               this`loadingData
      ensures selectedTable == Some(t)
      ensures old(selectedTable) == Some(t) ==>
        sent == [] &&
        loadingColumns == old(loadingColumns) && viewData == old(viewData) && filters == old(filters) &&
        appliedFilters == old(appliedFilters) && search == old(search) && debouncedSearch == old(debouncedSearch) &&
        sortBy == old(sortBy) && sortOrder == old(sortOrder) && page == old(page) && error == old(error) &&
        loadingData == old(loadingData)
      ensures old(selectedTable) != Some(t) ==>
        sent == [DataRequest(t, old(page), old(pageSize), old(debouncedSearch), old(sortBy), old(sortOrder), old(appliedFilters)),
                 DataRequest(t, 1, pageSize, "", None, Asc, [])]
      ensures old(selectedTable) != Some(t) ==>
        loadingColumns && viewData.None? && filters == [] && appliedFilters == [] && search == "" &&
        debouncedSearch == "" && sortBy.None? && sortOrder == Asc && page == 1 && error.None? && loadingData
      ensures old(selectedTable) != Some(t) ==> Request() == Some(sent[1]) && !FiltersChanged()
    {
      var changed := selectedTable != Some(t);
      selectedTable := Some(t);
      sent := [];
      if changed {
        var first := BeginDataFetch();
        ResetForTable();
        var second := BeginDataFetch();
        sent := [first.value, second.value];
      }
    }

    /** The state updates of the table effect. */
    method ResetForTable()
      modifies this`loadingColumns, this`viewData, this`filters, this`appliedFilters,
               this`search, this`debouncedSearch, this`sortBy, this`sortOrder, this`page, this`error
      ensures loadingColumns && viewData.None? && filters == [] && appliedFilters == [] && search == "" &&
        debouncedSearch == "" && sortBy.None? && sortOrder == Asc && page == 1 && error.None?
    {
      loadingColumns := true;
      viewData := None;
      filters := [];
      appliedFilters := [];
      search := "";
      debouncedSearch := "";
      sortBy := None;
      sortOrder := Asc;
      page := 1;
      error := None;
    }

    /** The column fetch of the table effect has resolved or failed. */
    method FinishColumns(res: Result<seq<WarehouseColumn>>)
      modifies this`columns, this`error, this`loadingColumns
      ensures res.Ok? ==> columns == res.value && error == old(error)
      ensures res.Err? ==> columns == old(columns) && error == Some(res.message)
      ensures !loadingColumns
    {
      match res {
        case Ok(cs) => columns := cs;
        case Err(m) => error := Some(m);
      }
      loadingColumns := false;
    }

    /** The data effect: nothing without a selected table; otherwise it
        marks the data as loading, clears the error and sends `Request()`. */
    method BeginDataFetch() returns (req: Option<WarehouseDataParams>)
      modifies this`loadingData, this`error
      ensures req == old(Request())
      ensures req.None? ==> loadingData == old(loadingData) && error == old(error)
      ensures req.Some? ==> loadingData && error.None?
    {
      req := Request();
      if selectedTable.Some? {
        loadingData := true;
        error := None;
      }
    }

    /** The data fetch has resolved or failed. */
    method FinishDataFetch(res: Result<ViewDataResponse>)
      modifies this`viewData, this`error, this`loadingData
      ensures res.Ok? ==> viewData == Some(res.value) && error == old(error)
      ensures res.Err? ==> viewData == old(viewData) && error == Some(res.message)
      ensures !loadingData
    {
      match res {
        case Ok(d) => viewData := Some(d);
        case Err(m) => error := Some(m);
      }
      loadingData := false;
    }

    /** `handleSearchChange`: the input shows the text at once. */
    method SearchChange(value: string)
      modifies this`search
      ensures search == value
    {
      search := value;
    }

    /** The debounce timer fires 300 ms after the last keystroke: the text
        `value` its closure captured becomes the debounced search, on page 1.
        Nothing clears the timer when another table is picked, so `value`
        need not be the text the input shows now. */
    method CommitSearch(value: string)
      modifies this`debouncedSearch, this`page
      ensures debouncedSearch == value && page == 1
      ensures Request().Some? ==> (Request().value.search.None? <==> value == "")
    {
      debouncedSearch := value;
      page := 1;
    }

    /** `handleSortChange`. */
    method SortChange(newSortBy: Option<string>, newSortOrder: SortOrder)
      modifies this`sortBy, this`sortOrder, this`page
      ensures sortBy == newSortBy && sortOrder == newSortOrder && page == 1
    {
      sortBy := newSortBy;
      sortOrder := newSortOrder;
      page := 1;
    }

    /** `onFiltersChange={setFilters}`: the builder's edits change only the
        working filters. */
    method EditFilters(fs: seq<ColumnFilter>)
      modifies this`filters
      ensures filters == fs
      ensures Request() == old(Request())
    {
      filters := fs;
    }

    /** `handleApplyFilters`: the working filters become the applied ones,
        on page 1, and the Apply button is then disabled. */
    method ApplyFilters()
      modifies this`appliedFilters, this`page
      ensures appliedFilters == filters && page == 1
      ensures !FiltersChanged() && !ApplyEnabled()
    {
      appliedFilters := filters;
      page := 1;
    }

    /** `handleRemoveAppliedFilter`: both lists become the applied filters
        without that id, so unapplied edits are dropped; back to page 1. */
    method RemoveAppliedFilter(id: string)
      modifies this`appliedFilters, this`filters, this`page
      ensures appliedFilters == FilterBuilder.RemoveFilter(old(appliedFilters), id)
      ensures filters == appliedFilters && page == 1
      ensures forall f :: f in appliedFilters <==> f in old(appliedFilters) && f.id != id
    {
      var updated := FilterBuilder.RemoveFilter(appliedFilters, id);
      appliedFilters := updated;
      filters := updated;
      page := 1;
    }

    /** `handleClearAppliedFilters`. */
    method ClearAppliedFilters()
      modifies this`appliedFilters, this`filters, this`page
      ensures appliedFilters == [] && filters == [] && page == 1
      ensures Request().Some? ==> Request().value.filters.None?
    {
      appliedFilters := [];
      filters := [];
      page := 1;
    }

    /** `onPageChange={setPage}`. */
    method PageChange(p: int)
      modifies this`page
      ensures page == p
    {
      page := p;
    }

    /** `onPageSizeChange`: the new size, on page 1. */
    method PageSizeChange(newSize: int)
      modifies this`pageSize, this`page
      ensures pageSize == newSize && page == 1
    {
      pageSize := newSize;
      page := 1;
    }

    /** The Filters button. */
    method ToggleFilters()
      modifies this`showFilters
      ensures showFilters == !old(showFilters)
    {
      showFilters := !showFilters;
    }
  }
}
