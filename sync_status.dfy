/** The sync status table (src/modules/etl/components/sync-status-table.tsx):
    the cell texts of a synced view and the re-sync and delete flows, with
    the component's React state as the fields of a class. */
module SyncStatus {
  import opened Wrappers
  import opened Strings
  import opened ApiTypes
  import EtlDashboard
  import Lists

  /** `formatRelativeTime`. `elapsedMs` is `now - date` in milliseconds, or
      `None` when the date does not parse (`NaN`, which fails every test). */
  function FormatRelativeTime(dateStr: Option<string>, elapsedMs: Option<int>): (r: string)
    ensures !TruthyString(dateStr) ==> r == "Never"
    ensures TruthyString(dateStr) && elapsedMs.None? ==> r == "NaNd ago"
    ensures TruthyString(dateStr) && elapsedMs.Some? && elapsedMs.value < 60000 ==> r == "Just now"
    ensures r == "Never" ==> !TruthyString(dateStr)
  {
    if !TruthyString(dateStr) then "Never"
    else match elapsedMs
      case None => "NaNd ago"
      case Some(diff) =>
        var diffMin := diff / 60000;
        if diffMin < 1 then "Just now"
        else if diffMin < 60 then IntToString(diffMin) + "m ago"
        else
          var diffHours := diffMin / 60;
          if diffHours < 24 then IntToString(diffHours) + "h ago"
          else IntToString(diffHours / 24) + "d ago"
  }

  /** The buckets by elapsed time: under a minute (or in the future) is
      "Just now", then whole minutes below an hour, whole hours below a day,
      and whole days. */
  lemma RelativeTimeBuckets(dateStr: string, diff: int)
    requires dateStr != ""
    ensures diff < 60000 ==> FormatRelativeTime(Some(dateStr), Some(diff)) == "Just now"
    ensures 60000 <= diff < 3600000 ==>
      FormatRelativeTime(Some(dateStr), Some(diff)) == NatToString(diff / 60000) + "m ago" &&
      1 <= diff / 60000 <= 59
    ensures 3600000 <= diff < 86400000 ==>
      FormatRelativeTime(Some(dateStr), Some(diff)) == NatToString(diff / 3600000) + "h ago" &&
      1 <= diff / 3600000 <= 23
    ensures 86400000 <= diff ==>
      FormatRelativeTime(Some(dateStr), Some(diff)) == NatToString(diff / 86400000) + "d ago" &&
      1 <= diff / 86400000
  {
    assert diff / 60000 / 60 == diff / 3600000;
    assert diff / 60000 / 60 / 24 == diff / 86400000;
  }

  /** `formatDuration`: a dash for `null`, whole milliseconds below a second.
      `secondsText` stands for `(ms / 1000).toFixed(1)`. */
  function FormatDuration(ms: Option<int>, secondsText: int -> string): (r: string)
    ensures ms.None? ==> r == "—"
    ensures ms.Some? && ms.value < 1000 ==> r == IntToString(ms.value) + "ms"
    ensures ms.Some? && ms.value >= 1000 ==> r == secondsText(ms.value) + "s"
  {
    match ms
    case None => "—"
    case Some(n) => if n < 1000 then IntToString(n) + "ms" else secondsText(n) + "s"
  }

  /** The badge variants. */
  datatype Variant = DefaultVariant | Secondary | Destructive | Outline

  /** A row of `statusConfig`. */
  datatype StatusStyle = StatusStyle(caption: string, variant: Variant)

  /** `statusConfig` as a list of status and style. */
  function StatusTable(): seq<(string, StatusStyle)> {
    [("SYNCED", StatusStyle("Synced", DefaultVariant)),
     ("SYNCING", StatusStyle("Syncing", Secondary)),
     ("FAILED", StatusStyle("Failed", Destructive)),
     ("NEVER_SYNCED", StatusStyle("Never Synced", Outline)),
     ("SCHEMA_CHANGED", StatusStyle("Schema Changed", Secondary))]
  }

  /** The test on a row's status key. */
  function KeyIs(status: string): ((string, StatusStyle)) -> bool {
    (e: (string, StatusStyle)) => e.0 == status
  }

  /** `statusConfig[status] || statusConfig.NEVER_SYNCED`. */
  function StatusConfig(status: string): (r: StatusStyle)
    ensures (exists e :: e in StatusTable() && e.0 == status) ==> (status, r) in StatusTable()
    ensures (forall e :: e in StatusTable() ==> e.0 != status) ==> r == StatusStyle("Never Synced", Outline)
  {
    match Lists.Find(KeyIs(status), StatusTable())
    case Some(e) => e.1
    case None => StatusStyle("Never Synced", Outline)
  }

  /** In a table whose keys are distinct, looking a key up finds its own
      row. */
  lemma FindOwnRow(t: seq<(string, StatusStyle)>, i: nat)
    requires i < |t|
    requires forall a, b :: 0 <= a < b < |t| ==> t[a].0 != t[b].0
    ensures Lists.Find(KeyIs(t[i].0), t) == Some(t[i])
  {
    Lists.FindAt(KeyIs(t[i].0), t, i);
  }

  /** The keys of `statusConfig` are distinct. */
  lemma StatusKeysDistinct()
    ensures forall a, b :: 0 <= a < b < |StatusTable()| ==> StatusTable()[a].0 != StatusTable()[b].0
  {
  }

  /** Each known status gets its own row. */
  lemma KnownStatuses()
    ensures forall i :: 0 <= i < |StatusTable()| ==> StatusConfig(StatusTable()[i].0) == StatusTable()[i].1
  {
    StatusKeysDistinct();
    forall i | 0 <= i < |StatusTable()|
      ensures StatusConfig(StatusTable()[i].0) == StatusTable()[i].1
    {
      FindOwnRow(StatusTable(), i);
    }
  }

  /** Any other status string gets the `NEVER_SYNCED` style. */
  lemma UnknownStatus(status: string)
    requires status !in {"SYNCED", "SYNCING", "FAILED", "NEVER_SYNCED", "SCHEMA_CHANGED"}
    ensures StatusConfig(status) == StatusStyle("Never Synced", Outline)
  {
    var t := StatusTable();
    assert forall e :: e in t ==> !KeyIs(status)(e);
  }

  /** The source database cell: the name, or a dash when there is none. */
  function DbCell(v: SyncedViewInfo): (t: string)
    ensures TruthyString(v.dbName) ==> t == v.dbName.value
    ensures !TruthyString(v.dbName) ==> t == "—"
  {
    OrText(v.dbName, "—")
  }

  /** The rows cell: `toLocaleString` (a parameter) of the count, or a dash
      for `null`. */
  function RowsCell(rows: Option<int>, localeText: int -> string): (t: string)
    ensures rows.None? ==> t == "—"
    ensures rows.Some? ==> t == localeText(rows.value)
  {
    match rows
    case None => "—"
    case Some(n) => localeText(n)
  }

  class SyncStatusTable {
    var resyncingId: Option<string>
    var deletingId: Option<string>
    var logsViewId: Option<string>

    /** Nothing in flight, no log viewer open. */
    constructor ()
      ensures resyncingId.None? && deletingId.None? && logsViewId.None?
    {
      resyncingId, deletingId, logsViewId := None, None, None;
    }

    /** The re-sync button of a row is disabled while that row re-syncs. */
    predicate ResyncDisabled(view: SyncedViewInfo)
      reads this
    {
      resyncingId == Some(view.id)
    }

    /** The delete button of a row is disabled while that row is deleted. */
    predicate DeleteDisabled(view: SyncedViewInfo)
      reads this
    {
      deletingId == Some(view.id)
    }

    /** The start of `handleResync`: nothing for a view without a database;
        otherwise the row is marked and `triggerSync` is called with the
        view's database, schema and name. */
    method BeginResync(view: SyncedViewInfo) returns (req: Option<EtlDashboard.SyncRequest>)
      modifies this`resyncingId
      ensures req.None? <==> !TruthyString(view.dbName)
      ensures req.None? ==> resyncingId == old(resyncingId)
      ensures req.Some? ==> req.value == EtlDashboard.SyncRequest(view.dbName.value, view.sourceSchema, view.sourceView)
      ensures req.Some? ==> resyncingId == Some(view.id) && ResyncDisabled(view)
    {
      if !TruthyString(view.dbName) {
        return None;
      }
      resyncingId := Some(view.id);
      req := Some(EtlDashboard.SyncRequest(view.dbName.value, view.sourceSchema, view.sourceView));
    }

    /** The end of `handleResync`: the parent refreshes only on success;
        the mark is cleared either way. */
    method FinishResync(res: Result<string>) returns (refresh: bool)
      modifies this`resyncingId
      ensures refresh <==> res.Ok?
      ensures resyncingId.None?
    {
      refresh := res.Ok?;
      resyncingId := None;
    }

    /** The start of `handleDelete`: the row is marked and `deleteSync` is
        called with its id. */
    method BeginDelete(view: SyncedViewInfo) returns (id: string)
      modifies this`deletingId
      ensures id == view.id && deletingId == Some(view.id) && DeleteDisabled(view)
    {
      deletingId := Some(view.id);
      id := view.id;
    }

    /** The end of `handleDelete`: the parent refreshes only on success; the
        mark is cleared either way. */
    method FinishDelete(res: Result<string>) returns (refresh: bool)
      modifies this`deletingId
      ensures refresh <==> res.Ok?
      ensures deletingId.None?
    {
      refresh := res.Ok?;
      deletingId := None;
    }

    /** The logs button of a row opens the log viewer for it. */
    method OpenLogs(view: SyncedViewInfo)
      modifies this`logsViewId
      ensures logsViewId == Some(view.id)
    {
      logsViewId := Some(view.id);
    }

    /** The log viewer's close action. */
    method CloseLogs()
      modifies this`logsViewId
      ensures logsViewId.None?
    {
      logsViewId := None;
    }
  }
}
