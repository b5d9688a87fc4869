/** The report viewer (src/modules/reports/components/report-viewer.tsx):
    the component's React state as the fields of a class, each handler and
    each effect as a method; a network call is a method that starts it and
    a method that takes its outcome. */
module ReportViewer {
  import opened Wrappers
  import opened ApiTypes
  import opened ApiQuery
  import ViewPicker

  /** The argument of `getViewData` for a database, a view and the paging,
      search and sort state; an empty debounced search is sent as absent. */
  function ViewRequest(db: string, view: ViewInfo, page: int, pageSize: int, debouncedSearch: string,
                       sortBy: Option<string>, sortOrder: SortOrder): (p: ViewDataParams)
    ensures p.db == db && p.view == view.name && p.schema == Some(view.schema)
    ensures p.page == Some(page) && p.pageSize == Some(pageSize)
    ensures p.sortBy == sortBy && p.sortOrder == Some(sortOrder)
    ensures p.search.None? <==> debouncedSearch == ""
    ensures p.search.Some? ==> p.search.value == debouncedSearch
  {
    ViewDataParams(db, view.name, Some(view.schema), Some(page), Some(pageSize),
      if debouncedSearch != "" then Some(debouncedSearch) else None, sortBy, Some(sortOrder))
  }

  /** The query of a request names the database and the view, and carries a
      `search` key exactly when the debounced search is non-empty. */
  lemma ViewRequestQuery(db: string, view: ViewInfo, page: int, pageSize: int, debouncedSearch: string,
                         sortBy: Option<string>, sortOrder: SortOrder)
    ensures var q := Written(ViewDataCandidates(ViewRequest(db, view, page, pageSize, debouncedSearch, sortBy, sortOrder)), 8);
      Lookup(q, Db) == Some(db) && Lookup(q, View) == Some(view.name) &&
      (Lookup(q, Search).Some? <==> debouncedSearch != "")
  {
    var p := ViewRequest(db, view, page, pageSize, debouncedSearch, sortBy, sortOrder);
    ViewDataQueryLookup(p, Db);
    ViewDataQueryLookup(p, View);
    ViewDataQueryLookup(p, Search);
  }

  /** The text of the empty card, when it is shown: with no data, not loading
      data and no error. */
  function EmptyState(hasData: bool, loadingData: bool, hasError: bool, hasDb: bool, hasView: bool): (m: Option<string>)
    ensures m.Some? <==> !hasData && !loadingData && !hasError
    ensures m.Some? && !hasDb ==> m.value == "Select a database to get started."
    ensures m.Some? && hasDb && !hasView ==> m.value == "Select a view to generate a report."
    ensures m.Some? && hasDb && hasView ==> m.value == "No data available."
  {
    if hasData || loadingData || hasError then None
    else if !hasDb then Some("Select a database to get started.")
    else if !hasView then Some("Select a view to generate a report.")
    else Some("No data available.")
  }

  class ReportViewer {
    var databases: seq<string>
    var views: seq<ViewInfo>
    var viewData: Option<ViewDataResponse>
    var selectedDb: Option<string>
    var selectedView: Option<ViewInfo>
    var page: int
    var pageSize: int
    var search: string
    var sortBy: Option<string>
    var sortOrder: SortOrder
    var loadingDb: bool
    var loadingViews: bool
    var loadingData: bool
    var error: Option<string>
    var debouncedSearch: string

    /** The initial state of every `useState`. */
    constructor ()
      ensures databases == [] && views == [] && viewData.None? && selectedDb.None? && selectedView.None?
      ensures page == 1 && pageSize == 50 && search == "" && sortBy.None? && sortOrder == Asc
      ensures loadingDb && !loadingViews && !loadingData && error.None? && debouncedSearch == ""
    {
      databases, views, viewData, selectedDb, selectedView := [], [], None, None, None;
      page, pageSize, search, sortBy, sortOrder := 1, 50, "", None, Asc;
      loadingDb, loadingViews, loadingData, error, debouncedSearch := true, false, false, None, "";
    }

    /** A database is chosen (`!selectedDb` also holds for `""`). */
    predicate HasDb()
      reads this
    {
      TruthyString(selectedDb)
    }

    /** The request the data effect sends, when a database and a view are
        selected. */
    function Request(): (r: Option<ViewDataParams>)
      reads this
      ensures r.Some? <==> HasDb() && selectedView.Some?
    {
      if HasDb() && selectedView.Some? then
        Some(ViewRequest(selectedDb.value, selectedView.value, page, pageSize, debouncedSearch, sortBy, sortOrder))
      else None
    }

    /** The view picker is disabled without a database. */
    predicate ViewPickerDisabled()
      reads this
    {
      ViewPicker.Disabled(!HasDb(), loadingViews, views)
    }

    /** The text of the empty card, if it is shown. */
    function EmptyMessage(): (m: Option<string>)
      reads this
      ensures m.Some? <==> viewData.None? && !loadingData && error.None?
      ensures m.Some? && !HasDb() ==> m.value == "Select a database to get started."
      ensures m.Some? && HasDb() && selectedView.None? ==> m.value == "Select a view to generate a report."
      ensures m.Some? && HasDb() && selectedView.Some? ==> m.value == "No data available."
    {
      EmptyState(viewData.Some?, loadingData, error.Some?, HasDb(), selectedView.Some?)
    }

    /** The mount effect, once the databases have been fetched or have failed. */
    method FinishDatabases(res: Result<seq<string>>)
      modifies this`databases, this`error, this`loadingDb
      ensures res.Ok? ==> databases == res.value && error == old(error)
      ensures res.Err? ==> databases == old(databases) && error == Some(res.message)
      ensures !loadingDb
    {
      match res {
        case Ok(ds) => databases := ds;
        case Err(m) => error := Some(m);
      }
      loadingDb := false;
    }

    /** `onSelect={setSelectedDb}` and the commit that follows it. Both
        effects run only when the database changes, and both read the state
        of that render. The data effect sees the new database next to the
        view, page, search and sort selected before, and when a view was
        selected it sends `stale`, a request for that view in the new
        database. The database effect then empties the view list (no
        database), or clears the view, the data and the error and starts
        loading the views. In the render after that no view is selected, so
        the data effect sends nothing more. */
    method SelectDb(db: string) returns (stale: Option<ViewDataParams>)
      modifies this`selectedDb, this`views, this`loadingViews, this`selectedView, this`viewData, this`error,
               this`loadingData
      ensures selectedDb == Some(db)
      ensures old(selectedDb) == Some(db) ==>
        stale.None? && views == old(views) && loadingViews == old(loadingViews) &&
        selectedView == old(selectedView) && viewData == old(viewData) && error == old(error) &&
        loadingData == old(loadingData)
      ensures old(selectedDb) != Some(db) ==>
        stale == if db != "" && old(selectedView).Some? then
                   Some(ViewRequest(db, old(selectedView).value, old(page), old(pageSize),
                                    old(debouncedSearch), old(sortBy), old(sortOrder)))
                 else None
      ensures stale.Some? ==> loadingData
      ensures stale.None? ==> loadingData == old(loadingData)
      ensures old(selectedDb) != Some(db) && db == "" ==>
        views == [] && loadingViews == old(loadingViews) && selectedView == old(selectedView) &&
        viewData == old(viewData) && error == old(error)
      ensures old(selectedDb) != Some(db) && db != "" ==>
        views == old(views) && loadingViews && selectedView.None? && viewData.None? && error.None?
      ensures old(selectedDb) != Some(db) ==> Request().None? && ViewPickerDisabled()
    {
      var changed := selectedDb != Some(db);
      selectedDb := Some(db);
      stale := None;
      if changed {
        stale := BeginDataFetch();
        if db == "" {
          views := [];
        } else {
          loadingViews := true;
          selectedView := None;
          viewData := None;
          error := None;
        }
      }
    }

    /** The view fetch of the database effect has resolved or failed. */
    method FinishViews(res: Result<seq<ViewInfo>>)
      modifies this`views, this`error, this`loadingViews
      ensures res.Ok? ==> views == res.value && error == old(error)
      ensures res.Err? ==> views == old(views) && error == Some(res.message)
      ensures !loadingViews
    {
      match res {
        case Ok(vs) => views := vs;
        case Err(m) => error := Some(m);
      }
      loadingViews := false;
    }

    /** The data effect: nothing unless a database and a view are selected;
        otherwise it marks the data as loading, clears the error and sends
        `Request()`. */
    method BeginDataFetch() returns (req: Option<ViewDataParams>)
      modifies this`loadingData, this`error
      ensures req == old(Request())
      ensures req.None? ==> loadingData == old(loadingData) && error == old(error)
      ensures req.Some? ==> loadingData && error.None?
    {
      req := Request();
      if req.Some? {
        loadingData := true;
        error := None;
      }
    }

    /** The data fetch has resolved or failed. */
    method FinishDataFetch(res: Result<ViewDataResponse>)
      modifies this`viewData, this`error, this`loadingData
      ensures res.Ok? ==> viewData == Some(res.value) && error == old(error)
      ensures res.Err? ==> viewData == old(viewData) && error == Some(res.message)
      ensures !loadingData
    {
      match res {
        case Ok(d) => viewData := Some(d);
        case Err(m) => error := Some(m);
      }
      loadingData := false;
    }

    /** `handleSearchChange`: the input shows the text at once. */
    method SearchChange(value: string)
      modifies this`search
      ensures search == value
    {
      search := value;
    }

    /** The debounce timer fires 300 ms after the last keystroke: the text
        `value` its closure captured becomes the debounced search, on page 1.
        Nothing clears the timer when a view is picked, so `value` need not
        be the text the input shows now. */
    method CommitSearch(value: string)
      modifies this`debouncedSearch, this`page
      ensures debouncedSearch == value && page == 1
      ensures Request().Some? ==> (Request().value.search.None? <==> value == "")
    {
      debouncedSearch := value;
      page := 1;
    }

    /** `handleViewSelect`: the new view, on page 1, with no search and the
        default sort. */
    method ViewSelect(view: ViewInfo)
      modifies this`selectedView, this`page, this`search, this`debouncedSearch, this`sortBy, this`sortOrder
      ensures selectedView == Some(view) && page == 1 && search == "" && debouncedSearch == ""
      ensures sortBy.None? && sortOrder == Asc
      ensures HasDb() ==> Request() == Some(ViewRequest(selectedDb.value, view, 1, pageSize, "", None, Asc))
    {
      selectedView := Some(view);
      page := 1;
      search := "";
      debouncedSearch := "";
      sortBy := None;
      sortOrder := Asc;
    }

    /** `handlePageChange`. */
    method PageChange(newPage: int)
      modifies this`page
      ensures page == newPage
    {
      page := newPage;
    }

    /** `handlePageSizeChange`: the new size, on page 1. */
    method PageSizeChange(newSize: int)
      modifies this`pageSize, this`page
      ensures pageSize == newSize && page == 1
    {
      pageSize := newSize;
      page := 1;
    }

    /** `handleSortChange`: the new sort, on page 1. */
    method SortChange(newSortBy: Option<string>, newSortOrder: SortOrder)
      modifies this`sortBy, this`sortOrder, this`page
      ensures sortBy == newSortBy && sortOrder == newSortOrder && page == 1
    {
      sortBy := newSortBy;
      sortOrder := newSortOrder;
      page := 1;
    }
  }
}
