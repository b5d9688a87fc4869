/** The records the front end exchanges with the back end
    (src/modules/shared/lib/api.ts), as the components use them. Fields the
    modelled code never reads are left out of each record. */
module ApiTypes {
  import opened Wrappers

  /** `FilterCategory` of a warehouse column. */
  datatype FilterCategory = TextCategory | NumberCategory | DateCategory | BooleanCategory | Unsupported

  /** `ColumnFilter`: the operator is kept as the string it is at run time,
      so that values outside the `FilterOperator` union can be modelled. */
  datatype ColumnFilter = ColumnFilter(id: string, column: string, operator: string, value: string, value2: Option<string>)

  /** `WarehouseColumn`. */
  datatype WarehouseColumn = WarehouseColumn(column: string, sqlType: string, pgType: string, nullable: bool, filterCategory: FilterCategory)

  /** `ViewInfo`. */
  datatype ViewInfo = ViewInfo(schema: string, name: string, isUpdatable: string)

  /** `'asc' | 'desc'`. */
  datatype SortOrder = Asc | Desc {
    function Text(): (t: string)
      ensures t == "asc" || t == "desc"
      ensures (t == "asc") <==> this == Asc
    {
      match this
      case Asc => "asc"
      case Desc => "desc"
    }
  }

  /** The `pagination` block of `ViewDataResponse`. */
  datatype Pagination = Pagination(page: int, pageSize: int, totalRows: int, totalPages: int)

  /** `ViewDataResponse`, with the rows left abstract: only their number is kept. */
  datatype ViewDataResponse = ViewDataResponse(rowCount: nat, pagination: Pagination)

  /** `WarehouseTableInfo`. */
  datatype WarehouseTableInfo = WarehouseTableInfo(id: string, dbName: string, sourceSchema: string, sourceView: string, pgTableName: string, lastSyncAt: Option<string>, lastSyncRows: Option<int>)

  /** `SyncedViewInfo`; `status` is the string the server sends. */
  datatype SyncedViewInfo = SyncedViewInfo(id: string, dbName: Option<string>, sourceSchema: string, sourceView: string,
                                           status: string, lastSyncAt: Option<string>, lastSyncRows: Option<int>,
                                           lastSyncDurationMs: Option<int>, lastError: Option<string>)
}
