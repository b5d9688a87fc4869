/** The ETL dashboard (src/modules/etl/components/etl-dashboard.tsx): the
    database and view pickers, the Sync Now button around `triggerSync`, and
    the status refresh, with the component's React state as the fields of a
    class. */
module EtlDashboard {
  import opened Wrappers
  import opened ApiTypes
  import ViewPicker

  /** The argument of `triggerSync`. */
  datatype SyncRequest = SyncRequest(db: string, schema: string, view: string)

  /** What the status card shows. */
  datatype StatusArea = StatusSkeleton | NoSyncsMessage | StatusTable

  /** The skeleton only while the first status is loading, the message for
      an empty status, the table otherwise (kept on screen while a refresh
      loads). */
  function Status(loadingStatus: bool, syncedViews: seq<SyncedViewInfo>): (a: StatusArea)
    ensures a == StatusTable <==> |syncedViews| > 0
    ensures a == StatusSkeleton <==> loadingStatus && syncedViews == []
  {
    if loadingStatus && |syncedViews| == 0 then StatusSkeleton
    else if |syncedViews| == 0 then NoSyncsMessage
    else StatusTable
  }

  class EtlDashboard {
    var databases: seq<string>
    var views: seq<ViewInfo>
    var syncedViews: seq<SyncedViewInfo>
    var selectedDb: Option<string>
    var selectedView: Option<ViewInfo>
    var loadingDb: bool
    var loadingViews: bool
    var loadingStatus: bool
    var syncing: bool
    var error: Option<string>

    /** The initial state of every `useState`. */
    constructor ()
      ensures databases == [] && views == [] && syncedViews == [] && selectedDb.None? && selectedView.None?
      ensures loadingDb && !loadingViews && loadingStatus && !syncing && error.None?
    {
      databases, views, syncedViews, selectedDb, selectedView := [], [], [], None, None;
      loadingDb, loadingViews, loadingStatus, syncing, error := true, false, true, false, None;
    }

    /** A database is chosen (`!selectedDb` also holds for `""`). */
    predicate HasDb()
      reads this
    {
      TruthyString(selectedDb)
    }

    /** The Sync Now button is disabled without a database or a view, and
        while a sync runs. */
    predicate SyncDisabled()
      reads this
    {
      !HasDb() || selectedView.None? || syncing
    }

    /** The view picker is disabled without a database. */
    predicate ViewPickerDisabled()
      reads this
    {
      ViewPicker.Disabled(!HasDb(), loadingViews, views)
    }

    /** The mount effect, once the databases have been fetched or have failed. */
    method FinishDatabases(res: Result<seq<string>>)
      modifies this`databases, this`error, this`loadingDb
      ensures res.Ok? ==> databases == res.value && error == old(error)
      ensures res.Err? ==> databases == old(databases) && error == Some(res.message)
      ensures !loadingDb
    {
      match res {
        case Ok(ds) => databases := ds;
        case Err(m) => error := Some(m);
      }
      loadingDb := false;
    }

    /** `refreshStatus` (also run on mount and by the Refresh button): the
        status starts loading. */
    method BeginRefresh()
      modifies this`loadingStatus
      ensures loadingStatus
    {
      loadingStatus := true;
    }

    /** The status fetch has resolved or failed. */
    method FinishRefresh(res: Result<seq<SyncedViewInfo>>)
      modifies this`syncedViews, this`error, this`loadingStatus
      ensures res.Ok? ==> syncedViews == res.value && error == old(error)
      ensures res.Err? ==> syncedViews == old(syncedViews) && error == Some(res.message)
      ensures !loadingStatus
    {
      match res {
        case Ok(vs) => syncedViews := vs;
        case Err(m) => error := Some(m);
      }
      loadingStatus := false;
    }

    /** `onSelect={setSelectedDb}` and the effect on `[selectedDb]`: it runs
        only when the database changes. Without a database the view list is
        emptied; with one, the selected view is cleared and the views start
        loading. */
    method SelectDb(db: string)
      modifies this`selectedDb, this`views, this`loadingViews, this`selectedView
      ensures selectedDb == Some(db)
      ensures old(selectedDb) == Some(db) ==>
        views == old(views) && loadingViews == old(loadingViews) && selectedView == old(selectedView)
      ensures old(selectedDb) != Some(db) && db == "" ==>
        views == [] && loadingViews == old(loadingViews) && selectedView == old(selectedView)
      ensures old(selectedDb) != Some(db) && db != "" ==>
        views == old(views) && loadingViews && selectedView.None?
      ensures old(selectedDb) != Some(db) ==> SyncDisabled() && ViewPickerDisabled()
    {
      var changed := selectedDb != Some(db);
      selectedDb := Some(db);
      if changed {
        if db == "" {
          views := [];
        } else {
          loadingViews := true;
          selectedView := None;
        }
      }
    }

    /** The view fetch of the database effect has resolved or failed. */
    method FinishViews(res: Result<seq<ViewInfo>>)
      modifies this`views, this`error, this`loadingViews
      ensures res.Ok? ==> views == res.value && error == old(error)
      ensures res.Err? ==> views == old(views) && error == Some(res.message)
      ensures !loadingViews
    {
      match res {
        case Ok(vs) => views := vs;
        case Err(m) => error := Some(m);
      }
      loadingViews := false;
    }

    /** `onSelect={setSelectedView}`. */
    method SelectView(view: ViewInfo)
      modifies this`selectedView
      ensures selectedView == Some(view)
    {
      selectedView := Some(view);
    }

    /** The start of `handleSync`: nothing without a database and a view;
        otherwise syncing starts, the error is cleared and the request is
        sent. */
    method BeginSync() returns (req: Option<SyncRequest>)
      modifies this`syncing, this`error
      ensures req.None? <==> !old(HasDb()) || old(selectedView).None?
      ensures req.None? ==> syncing == old(syncing) && error == old(error)
      ensures req.Some? ==> req.value == SyncRequest(selectedDb.value, selectedView.value.schema, selectedView.value.name)
      ensures req.Some? ==> syncing && error.None? && SyncDisabled()
    {
      if !HasDb() || selectedView.None? {
        return None;
      }
      syncing := true;
      error := None;
      req := Some(SyncRequest(selectedDb.value, selectedView.value.schema, selectedView.value.name));
    }

    /** The end of `handleSync`: on success the status is refreshed, on
        failure the error is the failure's message; syncing stops either way.
        `refreshed` tells whether a status refresh was started. */
    method FinishSync(res: Result<string>) returns (refreshed: bool)
      modifies this`syncing, this`error, this`loadingStatus
      ensures refreshed <==> res.Ok?
      ensures res.Ok? ==> loadingStatus && error == old(error)
      ensures res.Err? ==> loadingStatus == old(loadingStatus) && error == Some(res.message)
      ensures !syncing
    {
      match res {
        case Ok(_) =>
          BeginRefresh();
          refreshed := true;
        case Err(m) =>
          error := Some(m);
          refreshed := false;
      }
      syncing := false;
    }
  }
}
