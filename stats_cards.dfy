/** The summary cards of the dashboard (src/modules/dashboard/components/stats-cards.tsx):
    the "time ago" text of the last sync and the value and description of
    each card, with a dash while there is no data. */
module StatsCards {
  import opened Wrappers
  import opened Strings
  import SyncStatus

  /** The fields of `StatsSummary` the cards read. */
  datatype StatsSummary = StatsSummary(totalWarehouseRows: int, syncedViews: int, lastSyncAt: Option<string>, totalUsers: int)

  /** `timeAgo`. `elapsedMs` is `Date.now()` minus the parsed date, `None`
      when the date does not parse. It is written out on its own, and it
      agrees on every input with the status table's `formatRelativeTime`. */
  function TimeAgo(dateStr: Option<string>, elapsedMs: Option<int>): (r: string)
    ensures r == SyncStatus.FormatRelativeTime(dateStr, elapsedMs)
  {
    if !TruthyString(dateStr) then "Never"
    else match elapsedMs
      case None => "NaNd ago"
      case Some(diff) =>
        var minutes := diff / 60000;
        if minutes < 1 then "Just now"
        else if minutes < 60 then IntToString(minutes) + "m ago"
        else
          var hours := minutes / 60;
          if hours < 24 then IntToString(hours) + "h ago"
          else IntToString(hours / 24) + "d ago"
  }

  /** A card: title, value and description; the icon is not modelled. */
  datatype Card = Card(title: string, value: string, description: string)

  /** `cards`. `rowsText` stands for `toLocaleString` of the row count,
      `dateText` for `new Date(d).toLocaleString()`. */
  function Cards(data: Option<StatsSummary>, elapsedMs: Option<int>, rowsText: int -> string,
                 dateText: string -> string): (cs: seq<Card>)
    ensures |cs| == 4
    ensures cs[0].title == "Warehouse Rows" && cs[1].title == "Synced Views"
    ensures cs[2].title == "Last Sync" && cs[3].title == "Registered Users"
    ensures data.None? ==> forall i :: 0 <= i < 4 ==> cs[i].value == "—"
    ensures data.Some? ==> cs[0].value == rowsText(data.value.totalWarehouseRows)
    ensures data.Some? ==> cs[1].value == IntToString(data.value.syncedViews)
    ensures data.Some? ==> cs[2].value == TimeAgo(data.value.lastSyncAt, elapsedMs)
    ensures data.Some? ==> cs[3].value == IntToString(data.value.totalUsers)
    ensures data.None? || !TruthyString(data.value.lastSyncAt) ==> cs[2].description == "No syncs yet"
    ensures data.Some? && TruthyString(data.value.lastSyncAt) ==> cs[2].description == dateText(data.value.lastSyncAt.value)
  {
    [Card("Warehouse Rows", if data.Some? then rowsText(data.value.totalWarehouseRows) else "—",
          "Total rows synced to PostgreSQL"),
     Card("Synced Views", if data.Some? then IntToString(data.value.syncedViews) else "—",
          "Active synchronized views"),
     Card("Last Sync", if data.Some? then TimeAgo(data.value.lastSyncAt, elapsedMs) else "—",
          if data.Some? && TruthyString(data.value.lastSyncAt) then dateText(data.value.lastSyncAt.value)
          else "No syncs yet"),
     Card("Registered Users", if data.Some? then IntToString(data.value.totalUsers) else "—",
          "Total platform users")]
  }

  /** With data but no sync yet, the last-sync card reads "Never" over
      "No syncs yet". */
  lemma NoSyncYet(data: StatsSummary, elapsedMs: Option<int>, rowsText: int -> string, dateText: string -> string)
    requires !TruthyString(data.lastSyncAt)
    ensures Cards(Some(data), elapsedMs, rowsText, dateText)[2] == Card("Last Sync", "Never", "No syncs yet")
  {
  }
}
