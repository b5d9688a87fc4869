# Zetta back office, front end — a Dafny model

Zetta's back office is a Next.js/React application. Its users:

- browse SQL views of source databases, page by page;
- sync those views into a PostgreSQL warehouse and watch the syncs;
- query the synced tables with typed column filters;
- manage who may do what, with two roles (`ADMIN` and `BASIC`).

The project models the logic of that front end on values and state. The models, file by file:

- **API client** (`api_stream.dfy`, `api_query.dfy`, `api_types.dfy`):
  - the bulk-sync progress stream, which reads text chunks, cuts them into `"\n\n"`-separated frames and emits the JSON of every `data: ` frame;
  - the query strings of the view-data and warehouse-data requests, including how the filter list is serialised.
- **Filters** (`filter_utils.dfy`, `filter_builder.dfy`, `filter_row.dfy`, `active_filters.dfy`):
  - the operator table per column category, the default operator and the operator label;
  - the add, update, remove and clear edits of the builder;
  - the column, operator and value edits of one filter row;
  - the badge labels of the applied filters.
- **Viewers** (`warehouse_viewer.dfy`, `report_viewer.dfy`, `report_data_table.dfy`, `view_picker.dfy`, `etl_dashboard.dfy`, `sync_status.dfy`):
  - the React state of each screen is the fields of a class;
  - each handler and effect is a method;
  - a network call is a method that starts it plus a method that takes its outcome, a `Result`;
  - the server-paginated table's row range, page buttons and sort request;
  - the `schema.name` keys of the view picker.
- **Access control** (`auth.dfy`, `require_role.dfy`, `middleware.dfy`, `sidebar.dfy`, `user_management.dfy`):
  - the signed-in user and token, and the role test (`ADMIN` has every role);
  - the role gate of a page, and the cookie check of the edge middleware;
  - the sidebar menu filtered by role;
  - the user administration table.
- **Dashboard** (`stats_cards.dfy`, `rotation_chart.dfy`, `theme_menu.dfy`, `names.dfy`):
  - the summary cards, with the relative-time text;
  - the chart labels;
  - the theme cycle;
  - avatar initials.

`wrappers.dfy`, `lists.dfy` and `strings.dfy` hold the JavaScript library behaviour the models use:

- `filter`, `find` and `findIndex` on arrays;
- `split`, `join`, `trim`, `toUpperCase`, `slice` and `String(n)` on strings;
- truthiness of strings and numbers.

Parsing JSON, formatting numbers and dates with the locale, the clock and fresh UUIDs are parameters of the functions that use them.

## Model

| member | source | states |
|---|---|---|
| ApiStream.Payload | src/modules/shared/lib/api.ts:210-213 | a part carries a payload exactly when its trimmed text starts with `data: `; the trimmed text is then that prefix followed by the payload |
| ApiStream.PartEvent | src/modules/shared/lib/api.ts:210-217 | a part yields at most one event, and one exactly when it is a data line whose payload parses; the event is the parsed payload, and a payload that fails to parse is dropped silently |
| ApiStream.PartEventsAppend | src/modules/shared/lib/api.ts:209-219 | the events of two runs of parts are those of the first run followed by those of the second, which is the in-order processing of the inner loop |
| ApiStream.PartEventsFrom | src/modules/shared/lib/api.ts:209-219 | there are never more events than parts, and a run of parts none of which yields an event yields none |
| ApiStream.PartEvents | src/modules/shared/lib/api.ts:209-219 | the events of a list of complete parts, part by part in order; its properties are `PartEventsAppend` and `PartEventsFrom` |
| ApiStream.Run | src/modules/shared/lib/api.ts:199-207 | the read loop as a fold over the chunks, returning the parts completed and the final buffer; `RunIsOneShot` proves it equals one split of the whole text |
| ApiStream.StreamEvents | src/modules/shared/lib/api.ts:199-219 | the events of a fully read stream: those of the parts the read loop completes; `SameTextSameEvents`, `UnterminatedSilent` and `ReadStream` are stated over it |
| ApiStream.SplitFacts | src/modules/shared/lib/api.ts:205-207 | the kept rest of a text holds no `"\n\n"`; the complete parts and the rest, joined with `"\n\n"`, give back exactly the text, so nothing is lost or duplicated |
| ApiStream.RunIsOneShot | src/modules/shared/lib/api.ts:199-209 | reading chunk by chunk completes exactly the parts, and keeps exactly the rest, of splitting the whole concatenated text at once |
| ApiStream.SameTextSameEvents | src/modules/shared/lib/api.ts:199-219 | two chunkings of the same text deliver the same events, so an event split across chunks is delivered once |
| ApiStream.UnterminatedSilent | src/modules/shared/lib/api.ts:201-207 | text without a blank line delivers no event: an unterminated final frame is never emitted |
| ApiStream.OneFrameDelivered | src/modules/shared/lib/api.ts:199-219 | a `data: ` line whose payload parses, holds no blank line and ends in no white space, followed by a blank line, delivers that parsed payload as the one event, wherever the text is cut into two chunks |
| ApiStream.OneChunk | src/modules/shared/lib/api.ts:205-219 | a single chunk delivers the events of its complete parts |
| ApiStream.DataLineEvent | src/modules/shared/lib/api.ts:210-214 | a data line whose payload parses yields exactly that parsed payload |
| ApiStream.OneLine | src/modules/shared/lib/api.ts:210-217 | the loop body's three outcomes: not a data line gives nothing, an unparsable payload (text after 6 characters) gives nothing, a parsable one gives its value |
| ApiStream.ReadStream | src/modules/shared/lib/api.ts:199-220 | the read loop ends with a buffer that is the unterminated rest of the whole text and holds no separator, having emitted the events of all complete parts of the whole text, in order |
| ApiStream.EmitParts | src/modules/shared/lib/api.ts:209-219 | the inner loop emits, in order, the event of every part that is a parsable data line |
| ApiStream.NotOkMessage | src/modules/shared/lib/api.ts:191-193 | a non-OK response reports the body's `error` when it is non-empty, and `API error: <status>` otherwise |
| ApiStream.FailureEvents | src/modules/shared/lib/api.ts:222-226 | a rejected request or stream reports one error event with its message, except an `AbortError`, which reports nothing |
| ApiStream.Messages | src/modules/shared/lib/api.ts:213-214 | every parsed payload of the stream is passed on as it is, in order |
| ApiStream.SyncAllViews | src/modules/shared/lib/api.ts:182-229 | the events handed to the callback for each kind of response (rejected, non-OK, streamed with an optional failure at the end); an error event the client builds itself (`ErrorEvent`) can only be the last event, while a server payload of type `error` arrives as an ordinary message anywhere |
| ApiTypes.SortOrder.Text | src/modules/shared/lib/api.ts:77 | the two sort orders are written as `asc` and `desc` |
| ApiQuery.NamesDistinct | src/modules/shared/lib/api.ts:82-89 | distinct query parameters have distinct names |
| ApiQuery.Named | src/modules/shared/lib/api.ts:90 | the query as name/value pairs, entry for entry |
| ApiQuery.Keys | src/modules/shared/lib/api.ts:81-90 | the keys of a query, entry for entry: the key at each place is the name of the entry there |
| ApiQuery.Lookup | src/modules/shared/lib/api.ts:81-90 | a key looks up a value exactly when some entry holds it, and the value found is that of the first entry with the key |
| ApiQuery.RemoveKey | src/modules/shared/lib/api.ts:82 | after removal the key is absent and the query is no longer |
| ApiQuery.RemoveKeyOther | src/modules/shared/lib/api.ts:82 | removing one key keeps every other key and its value |
| ApiQuery.RemoveKeyDistinct | src/modules/shared/lib/api.ts:82 | removing a key keeps the keys distinct |
| ApiQuery.SetParam | src/modules/shared/lib/api.ts:82 | `URLSearchParams.set`: afterwards the key looks up the new value |
| ApiQuery.SetParamKeys | src/modules/shared/lib/api.ts:82 | after `set` the keys are the old keys plus the set key |
| ApiQuery.SetParamOther | src/modules/shared/lib/api.ts:82 | `set` changes no other key's value |
| ApiQuery.SetParamDistinct | src/modules/shared/lib/api.ts:82 | `set` never creates a duplicate key |
| ApiQuery.SetFresh | src/modules/shared/lib/api.ts:82-89 | setting a key the query does not hold appends it at the end |
| ApiQuery.SetTwice | src/modules/shared/lib/api.ts:82 | setting a key twice keeps only the second value |
| ApiQuery.Written | src/modules/shared/lib/api.ts:81-89 | the chain of conditional `set` calls writes at most one entry per call |
| ApiQuery.WrittenAt | src/modules/shared/lib/api.ts:81-89 | after the calls, each parameter key looks up the value its call meant to write (or nothing), and no key occurs twice |
| ApiQuery.WrittenStep | src/modules/shared/lib/api.ts:84-89 | one `if (value) set(key, value)` step: a present value is one `set`, an absent one changes nothing |
| ApiQuery.SetWhenPresent | src/modules/shared/lib/api.ts:84 | one guarded `set` call takes the query written so far to the query with that call's entry |
| ApiQuery.StringParam | src/modules/shared/lib/api.ts:84 | an optional string is sent exactly when it is non-empty, and unchanged |
| ApiQuery.IntParam | src/modules/shared/lib/api.ts:85-86 | an optional number is sent exactly when it is present and non-zero, as its decimal text |
| ApiQuery.OrderParam | src/modules/shared/lib/api.ts:89 | a sort order is sent whenever it is given, as `asc` or `desc` |
| ApiQuery.ViewDataCandidatesDistinct | src/modules/shared/lib/api.ts:82-89 | the eight `set` calls of `getViewData` each name a different key |
| ApiQuery.ViewDataQuery | src/modules/shared/lib/api.ts:80-90 | the method's query is the one the eight calls write in order |
| ApiQuery.ViewDataQueryLookup | src/modules/shared/lib/api.ts:80-90 | in the query sent, `db` and `view` are always there; every other parameter is there exactly when it is truthy, with its text; no other key is there |
| ApiQuery.ViewDataQueryDistinct | src/modules/shared/lib/api.ts:80-90 | the query sent holds no key twice |
| ApiQuery.SerializeFilters | src/modules/shared/lib/api.ts:305-307 | each filter keeps its column, operator and value, at its place; its `id` is dropped; `value2` is kept exactly when it is non-empty |
| ApiQuery.FiltersParam | src/modules/shared/lib/api.ts:304-309 | `filters` is sent exactly for a present, non-empty list, as the serialised list |
| ApiQuery.WarehouseDataCandidatesDistinct | src/modules/shared/lib/api.ts:298-309 | the seven `set` calls of `getWarehouseData` each name a different key |
| ApiQuery.WarehouseDataQuery | src/modules/shared/lib/api.ts:296-310 | the method's query is the one the seven calls write in order |
| ApiQuery.WarehouseDataQueryLookup | src/modules/shared/lib/api.ts:296-310 | in the query sent, `syncedViewId` is always there; every other parameter is there exactly when it is truthy (filters when non-empty); no other key is there |
| ApiQuery.WarehouseDataQueryDistinct | src/modules/shared/lib/api.ts:296-310 | the query sent holds no key twice |
| FilterUtils.Operators | src/modules/shared/lib/filter-utils.ts:3-30 | each category's operator list, which is empty exactly for `unsupported` |
| FilterUtils.Values | src/modules/shared/lib/filter-utils.ts:3-30 | the operator values of a list, at their places |
| FilterUtils.TextMatchesType | src/modules/shared/lib/filter-utils.ts:4-10 | the text list offers exactly the members of `TextOperator`, in that order |
| FilterUtils.NumberMatchesType | src/modules/shared/lib/filter-utils.ts:11-19 | the number list offers exactly the members of `NumberOperator`, in that order |
| FilterUtils.DateMatchesType | src/modules/shared/lib/filter-utils.ts:20-25 | the date list offers exactly the members of `DateOperator`, in that order |
| FilterUtils.BooleanMatchesType | src/modules/shared/lib/filter-utils.ts:26-28 | the boolean list offers exactly `eq` |
| FilterUtils.OperatorsDistinct | src/modules/shared/lib/filter-utils.ts:3-30 | no category lists an operator twice |
| FilterUtils.DefaultOperator | src/modules/shared/lib/filter-utils.ts:32-40 | the default operator of every category that has operators is one that category offers; `unsupported` falls back to `contains` |
| FilterUtils.OperatorLabel | src/modules/shared/lib/filter-utils.ts:42-48 | an operator some option of the table has gets the caption of an option with that value; one no option has is shown as itself |
| FilterUtils.OperatorLabelFirst | src/modules/shared/lib/filter-utils.ts:42-48 | the label of an operator is that of the first option in the table, in key order, with that value; an operator no list holds is its own label |
| FilterUtils.AllOptionsShape | src/modules/shared/lib/filter-utils.ts:43 | the lists are visited in the order text, number, date, boolean (the empty `unsupported` list adds nothing) |
| FilterUtils.TableMatchesUnion | src/modules/shared/lib/filter-utils.ts:3-30 | the values of the whole table, in visiting order, are the four operator unions one after another |
| FilterUtils.CaptionsDiffer | src/modules/shared/lib/filter-utils.ts:3-30 | no option's label equals its own value |
| FilterUtils.EqLabel | src/modules/shared/lib/filter-utils.ts:12 | `eq`, offered by three categories, is labelled `=` (the number list comes first), also for a date or boolean column |
| FilterUtils.UnlistedLabel | src/modules/shared/lib/filter-utils.ts:47 | an operator outside the table is shown as it is |
| FilterUtils.ListedLabel | src/modules/shared/lib/filter-utils.ts:43-46 | an operator in the table gets the label of some option with that value, which differs from the operator |
| FilterUtils.LabelFallsThrough | src/modules/shared/lib/filter-utils.ts:42-48 | the label equals the operator exactly when the operator is not a member of `FilterOperator` |
| FilterUtils.IsBetween | src/modules/shared/lib/filter-utils.ts:50-52 | the operator is `between`; `BetweenCategories` proves that only the number and date categories offer it |
| FilterUtils.BetweenCategories | src/modules/shared/lib/filter-utils.ts:50-52 | `between` is offered exactly by the number and date categories |
| FilterBuilder.Ids | src/modules/shared/components/filters/filter-builder.tsx:40-46 | the ids of a filter list, at their places (the row keys) |
| FilterBuilder.AddFilter | src/modules/shared/components/filters/filter-builder.tsx:16-24 | adding appends one blank filter (fresh id, no column, `contains`, no value, no second value) and leaves the others as they were |
| FilterBuilder.UpdateFilter | src/modules/shared/components/filters/filter-builder.tsx:26-28 | an update keeps the length, replaces every filter with that id and leaves every other filter where it was |
| FilterBuilder.RemoveFilter | src/modules/shared/components/filters/filter-builder.tsx:30-32 | removing keeps exactly the filters with another id; an absent id changes nothing |
| FilterBuilder.RemoveFilterAppend | src/modules/shared/components/filters/filter-builder.tsx:30-32 | removal keeps the relative order of the remaining filters |
| FilterBuilder.ClearAll | src/modules/shared/components/filters/filter-builder.tsx:34-36 | clearing leaves no filter |
| FilterBuilder.ShowsClearAll | src/modules/shared/components/filters/filter-builder.tsx:54 | the Clear All button is shown exactly when there is a filter |
| FilterBuilder.ClearAllButton | src/modules/shared/components/filters/filter-builder.tsx:16-57 | Clear All disappears once pressed and appears with the first added filter |
| FilterBuilder.RemoveUndoesAdd | src/modules/shared/components/filters/filter-builder.tsx:16-32 | removing the filter just added gives back the list, when its id was fresh |
| FilterBuilder.UpdateIdempotent | src/modules/shared/components/filters/filter-builder.tsx:26-28 | repeating an update changes nothing more |
| FilterBuilder.AddKeepsUnique | src/modules/shared/components/filters/filter-builder.tsx:16-24 | a fresh id keeps the filter ids unique |
| FilterBuilder.UpdateKeepsUnique | src/modules/shared/components/filters/filter-builder.tsx:26-28 | an update that keeps the id keeps the ids, so they stay unique |
| FilterBuilder.RemoveKeepsUnique | src/modules/shared/components/filters/filter-builder.tsx:30-32 | removal keeps the ids unique |
| FilterRow.Category | src/modules/warehouse-reports/components/filter-row.tsx:46-47 | the category is that of the first column with the filter's column name; it falls back to `text` only when no column has that name |
| FilterRow.PickableColumns | src/modules/warehouse-reports/components/filter-row.tsx:88 | the column picker lists exactly the columns whose category is not `unsupported`, never more than there are, and all of them when none is unsupported |
| FilterRow.PickableColumnsAppend | src/modules/warehouse-reports/components/filter-row.tsx:88 | the picker keeps the columns' order: the pickable columns of two runs are those of the first run followed by those of the second |
| FilterRow.OperatorChoices | src/modules/warehouse-reports/components/filter-row.tsx:48 | the operator picker lists the operators of the row's category (the fallback to an empty list never applies); `PickedColumnOffersOperator` is stated over it |
| FilterRow.ShowsValue2 | src/modules/warehouse-reports/components/filter-row.tsx:49 | the second value input shows exactly under `between`; `EditsKeepTidy` relies on it |
| FilterRow.OperatorPickerDisabled | src/modules/warehouse-reports/components/filter-row.tsx:108 | the operator picker is disabled while no column is chosen |
| FilterRow.ShowsValueInputs | src/modules/warehouse-reports/components/filter-row.tsx:123 | the value inputs show once a column is chosen |
| FilterRow.ValueInputKind | src/modules/warehouse-reports/components/filter-row.tsx:125-164 | the first value input is a date picker for `date`, a true/false select for `boolean`, a number input for `number`, a text input otherwise |
| FilterRow.Value2InputKind | src/modules/warehouse-reports/components/filter-row.tsx:170-196 | the second value input is a date picker for `date`, a number input for `number`, a text input otherwise |
| FilterRow.InputsFollowColumn | src/modules/warehouse-reports/components/filter-row.tsx:104-196 | the operator picker is enabled exactly when the value inputs show; the second input has the first one's kind, except that a boolean column gets a text input and never a select |
| FilterRow.ValueChange | src/modules/warehouse-reports/components/filter-row.tsx:137-161 | a first-value edit replaces the value and keeps every other field |
| FilterRow.Value2Change | src/modules/warehouse-reports/components/filter-row.tsx:182-193 | a second-value edit sets the second value and keeps every other field; `EditsKeepTidy` proves both edits keep a row tidy |
| FilterRow.ColumnChange | src/modules/warehouse-reports/components/filter-row.tsx:51-57 | picking an unknown column changes nothing; a known one gives the filter with that column, its category's default operator, an empty value and no second value |
| FilterRow.OperatorChange | src/modules/warehouse-reports/components/filter-row.tsx:59-65 | an operator change sets the operator and keeps id, column and value; the second value survives only under `between` |
| FilterRow.EditsKeepTidy | src/modules/warehouse-reports/components/filter-row.tsx:51-65 | every edit keeps a second value only under `between`, given that the second input is shown only then |
| FilterRow.PickedColumnOffersOperator | src/modules/warehouse-reports/components/filter-row.tsx:51-57 | with distinct column names, every column the picker lists can be picked, and the row then holds an operator its operator picker offers |
| ActiveFilters.LabelShape | src/modules/shared/components/filters/active-filters.tsx:17-23 | every label starts with column, operator label and value; a `between` label continues with ` - ` and the second value, any other stops there |
| ActiveFilters.FilterLabelShape | src/modules/shared/components/filters/active-filters.tsx:17-23 | the same shape with the operator label the table gives |
| ActiveFilters.SecondValueIgnored | src/modules/shared/components/filters/active-filters.tsx:19-22 | outside `between` the second value does not affect the label |
| ActiveFilters.MissingSecondValue | src/modules/shared/components/filters/active-filters.tsx:20 | under `between`, a missing or empty second value shows as ` - ?` |
| ActiveFilters.Badges | src/modules/shared/components/filters/active-filters.tsx:30-40 | one badge per filter, in list order, with its label and the filter's own id on the remove button |
| ActiveFilters.Render | src/modules/shared/components/filters/active-filters.tsx:25-46 | nothing is rendered exactly when there is no filter, otherwise the badges |
| ActiveFilters.FormatLabel | src/modules/shared/components/filters/active-filters.tsx:17-23 | the label template for a given operator label; `LabelShape` proves its shape |
| ActiveFilters.FilterLabel | src/modules/shared/components/filters/active-filters.tsx:17-18 | the template filled with the label `getOperatorLabel` gives; `FilterLabelShape` proves its shape |
| WarehouseViewer.ValidFilters | src/modules/warehouse-reports/components/warehouse-report-viewer.tsx:97 | exactly the applied filters with both a column and a value are sent |
| WarehouseViewer.DataRequest | src/modules/warehouse-reports/components/warehouse-report-viewer.tsx:99-107 | the request names the table, page, size and sort; it has a search exactly when the debounced search is non-empty, and filters exactly when some applied filter is complete |
| WarehouseViewer.RequestQueryKeys | src/modules/warehouse-reports/components/warehouse-report-viewer.tsx:96-107 | the query sent carries `filters` exactly when some applied filter is complete, `search` exactly when the debounced search is non-empty, and always the table id |
| WarehouseViewer.FreshRequest | src/modules/warehouse-reports/components/warehouse-report-viewer.tsx:72-81 | the second request a table change sends, once the reset has landed: page 1, ascending, with no search, no sort column and no filters |
| WarehouseViewer.EmptyState | src/modules/warehouse-reports/components/warehouse-report-viewer.tsx:280-288 | the empty text shows exactly without data, loading or error; which text shows depends on the table and the column loading |
| WarehouseViewer.OnlyTablePromptRendered | src/modules/warehouse-reports/components/warehouse-report-viewer.tsx:253-288 | inside the data card as rendered, the only empty text that can appear is the table prompt |
| WarehouseViewer.DataCardShown | src/modules/warehouse-reports/components/warehouse-report-viewer.tsx:253 | the data card renders with data, while data loads, or with no table selected and no error; `OnlyTablePromptRendered` is stated over it |
| WarehouseViewer.WarehouseReportViewer.constructor | src/modules/warehouse-reports/components/warehouse-report-viewer.tsx:31-56 | the initial state of every `useState` |
| WarehouseViewer.WarehouseReportViewer.Request | src/modules/warehouse-reports/components/warehouse-report-viewer.tsx:90-111 | a request is sent exactly when a table is selected |
| WarehouseViewer.WarehouseReportViewer.FinishTables | src/modules/warehouse-reports/components/warehouse-report-viewer.tsx:59-64 | the tables or the error are stored, and the tables stop loading |
| WarehouseViewer.WarehouseReportViewer.SelectTable | src/modules/warehouse-reports/components/warehouse-report-viewer.tsx:66-111 | picking the selected table again sends nothing and changes nothing; a new table first sends, from the same commit, a request for the new table with the old page, size, search, sort and applied filters; the table effect then clears data, both filter lists, both searches, the sort and the error, goes to page 1 and loads columns; because the emptied applied list is a new array a second, fresh request follows, and it is the current one |
| WarehouseViewer.WarehouseReportViewer.FinishColumns | src/modules/warehouse-reports/components/warehouse-report-viewer.tsx:83-86 | the columns or the error are stored, and the columns stop loading |
| WarehouseViewer.WarehouseReportViewer.BeginDataFetch | src/modules/warehouse-reports/components/warehouse-report-viewer.tsx:90-107 | no fetch without a table; otherwise data loads, the error clears and the current request is sent |
| WarehouseViewer.WarehouseReportViewer.FinishDataFetch | src/modules/warehouse-reports/components/warehouse-report-viewer.tsx:108-110 | the data or the error are stored, and the data stops loading |
| WarehouseViewer.WarehouseReportViewer.SearchChange | src/modules/warehouse-reports/components/warehouse-report-viewer.tsx:114-115 | the input shows the typed text at once |
| WarehouseViewer.WarehouseReportViewer.CommitSearch | src/modules/warehouse-reports/components/warehouse-report-viewer.tsx:114-121 | when the timer fires, the text captured at the last keystroke becomes the debounced search, on page 1; the request then has a search exactly when that text is non-empty |
| WarehouseViewer.WarehouseReportViewer.SortChange | src/modules/warehouse-reports/components/warehouse-report-viewer.tsx:127-131 | the new sort, on page 1 |
| WarehouseViewer.WarehouseReportViewer.EditFilters | src/modules/warehouse-reports/components/warehouse-report-viewer.tsx:218-222 | builder edits change only the working filters, never the request |
| WarehouseViewer.WarehouseReportViewer.ApplyFilters | src/modules/warehouse-reports/components/warehouse-report-viewer.tsx:133-136 | the working filters become the applied ones, on page 1, and Apply is then disabled |
| WarehouseViewer.WarehouseReportViewer.RemoveAppliedFilter | src/modules/warehouse-reports/components/warehouse-report-viewer.tsx:138-143 | both lists become the applied filters without that id, dropping unapplied edits, on page 1 |
| WarehouseViewer.WarehouseReportViewer.ClearAppliedFilters | src/modules/warehouse-reports/components/warehouse-report-viewer.tsx:145-149 | both lists empty, on page 1, so no filters are sent |
| WarehouseViewer.WarehouseReportViewer.PageChange | src/modules/warehouse-reports/components/warehouse-report-viewer.tsx:272 | the requested page is set |
| WarehouseViewer.WarehouseReportViewer.PageSizeChange | src/modules/warehouse-reports/components/warehouse-report-viewer.tsx:273 | the new page size, on page 1 |
| WarehouseViewer.WarehouseReportViewer.ToggleFilters | src/modules/warehouse-reports/components/warehouse-report-viewer.tsx:183 | the Filters button flips the builder's visibility |
| WarehouseViewer.WarehouseReportViewer.FiltersChanged | src/modules/warehouse-reports/components/warehouse-report-viewer.tsx:151 | the working filters differ from the applied ones; `ApplyFilters` and `SelectTable` prove it false afterwards |
| WarehouseViewer.WarehouseReportViewer.ShowsBuilder | src/modules/warehouse-reports/components/warehouse-report-viewer.tsx:213 | the builder shows with the Filters toggle on, a table selected and its columns loaded |
| WarehouseViewer.WarehouseReportViewer.ShowsApply | src/modules/warehouse-reports/components/warehouse-report-viewer.tsx:223 | the Apply button shows under the builder when there is a working filter |
| WarehouseViewer.WarehouseReportViewer.ApplyEnabled | src/modules/warehouse-reports/components/warehouse-report-viewer.tsx:223-228 | Apply is enabled only when shown and the working filters differ from the applied ones; `ApplyFilters` proves it disabled afterwards |
| ReportViewer.ViewRequest | src/modules/reports/components/report-viewer.tsx:80-89 | the request names database, view, schema, page, size and sort, and has a search exactly when the debounced search is non-empty |
| ReportViewer.ViewRequestQuery | src/modules/reports/components/report-viewer.tsx:80-89 | the query sent names the database and view, and carries `search` exactly when the debounced search is non-empty |
| ReportViewer.EmptyState | src/modules/reports/components/report-viewer.tsx:201-209 | the empty text shows exactly without data, loading or error, and asks for a database, then a view, then says there is no data |
| ReportViewer.ReportViewer.constructor | src/modules/reports/components/report-viewer.tsx:26-45 | the initial state of every `useState` |
| ReportViewer.ReportViewer.HasDb | src/modules/reports/components/report-viewer.tsx:56-57 | a database counts as chosen only when the selection is present and non-empty, as `!selectedDb` tests |
| ReportViewer.ReportViewer.ViewPickerDisabled | src/modules/reports/components/report-viewer.tsx:146-151 | the view picker is disabled without a database, while views load, or with no view; `SelectDb` proves it disabled after a new database |
| ReportViewer.ReportViewer.EmptyMessage | src/modules/reports/components/report-viewer.tsx:201-208 | the empty card shows exactly without data, loading or error, and then asks for a database, then a view, then says there is no data |
| ReportViewer.ReportViewer.Request | src/modules/reports/components/report-viewer.tsx:74-93 | a request is sent exactly when a database and a view are selected |
| ReportViewer.ReportViewer.FinishDatabases | src/modules/reports/components/report-viewer.tsx:48-53 | the databases or the error are stored, and the databases stop loading |
| ReportViewer.ReportViewer.SelectDb | src/modules/reports/components/report-viewer.tsx:56-93 | re-selecting the database sends nothing and changes nothing; a new one first lets the data effect of the same commit send, when a view was selected and the database is non-empty, the request for the new database with the old view, page, size, search and sort; then no database empties the view list, and a new one clears view, data and error and loads views; afterwards no request is possible and the view picker is disabled |
| ReportViewer.ReportViewer.FinishViews | src/modules/reports/components/report-viewer.tsx:67-70 | the views or the error are stored, and the views stop loading |
| ReportViewer.ReportViewer.BeginDataFetch | src/modules/reports/components/report-viewer.tsx:74-89 | nothing without database and view; otherwise data loads, the error clears and the current request is sent |
| ReportViewer.ReportViewer.FinishDataFetch | src/modules/reports/components/report-viewer.tsx:90-92 | the data or the error are stored, and the data stops loading |
| ReportViewer.ReportViewer.SearchChange | src/modules/reports/components/report-viewer.tsx:96-97 | the input shows the typed text at once |
| ReportViewer.ReportViewer.CommitSearch | src/modules/reports/components/report-viewer.tsx:96-103 | when the timer fires, the text captured at the last keystroke becomes the debounced search, on page 1; the request then has a search exactly when that text is non-empty |
| ReportViewer.ReportViewer.ViewSelect | src/modules/reports/components/report-viewer.tsx:105-112 | a new view resets page, search and sort, so the next request is the view's first page, unsorted, without search |
| ReportViewer.ReportViewer.PageChange | src/modules/reports/components/report-viewer.tsx:114-116 | the requested page is set |
| ReportViewer.ReportViewer.PageSizeChange | src/modules/reports/components/report-viewer.tsx:118-121 | the new page size, on page 1 |
| ReportViewer.ReportViewer.SortChange | src/modules/reports/components/report-viewer.tsx:123-127 | the new sort, on page 1 |
| ReportDataTable.From | src/modules/reports/components/report-data-table.tsx:103 | the first row shown: 0 for an empty result, else the first row of the page |
| ReportDataTable.To | src/modules/reports/components/report-data-table.tsx:104 | the last row shown is the smaller of the page end and the total |
| ReportDataTable.RangeWithinPage | src/modules/reports/components/report-data-table.tsx:102-104 | for a page that starts inside the result, the range is non-empty, within the total and at most one page long |
| ReportDataTable.SortRequest | src/modules/reports/components/report-data-table.tsx:87-95 | an empty sort state asks for no column, ascending; otherwise the first sorted column, descending exactly when it is |
| ReportDataTable.SortRequestFirstOnly | src/modules/reports/components/report-data-table.tsx:90-91 | only the first sorted column reaches the server |
| ReportDataTable.Disabled | src/modules/reports/components/report-data-table.tsx:177-212 | the back buttons are disabled on page 1 and before it, the forward buttons on the last page and after it |
| ReportDataTable.Target | src/modules/reports/components/report-data-table.tsx:177-212 | where each button goes: page 1, the page before, the page after, the last page; `TargetsInRange` and `SinglePageDisabled` are stated over both |
| ReportDataTable.TargetsInRange | src/modules/reports/components/report-data-table.tsx:177-212 | from a page in range, an enabled page button asks for a page in range, never the page shown |
| ReportDataTable.SinglePageDisabled | src/modules/reports/components/report-data-table.tsx:181-208 | on a single page every page button is disabled |
| ReportDataTable.PageIndex | src/modules/reports/components/report-data-table.tsx:83 | the table's page index is the one-based page minus one |
| ReportDataTable.CellText | src/modules/reports/components/report-data-table.tsx:52-57 | a null or missing cell reads `NULL`, any other its text |
| ViewPicker.SelectedValue | src/modules/reports/components/view-picker.tsx:21 | the select shows a value exactly when a view is selected, and it is that view's key |
| ViewPicker.Key | src/modules/reports/components/view-picker.tsx:40-43 | an item's key and value: schema, a dot, and name |
| ViewPicker.Decode | src/modules/reports/components/view-picker.tsx:29-30 | the first piece of the value split at dots, and the other pieces joined with dots; `DecodeAtFirstDot`, `DecodeNoDot` and `KeyRoundTrip` are stated over it |
| ViewPicker.Disabled | src/modules/reports/components/view-picker.tsx:34 | the select is disabled when told so, while loading, and with no view |
| ViewPicker.DecodeAtFirstDot | src/modules/reports/components/view-picker.tsx:29-30 | decoding cuts at the first dot: the text before it is the schema, all the text after it (dots included) is the name |
| ViewPicker.DecodeNoDot | src/modules/reports/components/view-picker.tsx:29-30 | a value without a dot decodes to that schema and an empty name |
| ViewPicker.KeyRoundTrip | src/modules/reports/components/view-picker.tsx:29-41 | a key whose schema has no dot decodes back to its schema and name, whatever dots the name holds |
| ViewPicker.Pick | src/modules/reports/components/view-picker.tsx:28-33 | nothing is selected exactly when no view has the decoded schema and name; otherwise the first such view |
| ViewPicker.PickOwnItem | src/modules/reports/components/view-picker.tsx:28-47 | picking the item of a view whose schema has no dot selects a view with that schema and name |
| ViewPicker.DottedSchemaUnpickable | src/modules/reports/components/view-picker.tsx:29-31 | with the schema `sales.eu`, the item of the only view selects nothing |
| ViewPicker.PickByKey | src/modules/reports/components/view-picker.tsx:41-43 | the lookup by the item key: nothing exactly when no view has that key, otherwise a view with it |
| ViewPicker.PickByKeyOwnItem | src/modules/reports/components/view-picker.tsx:40-47 | with distinct keys, every item selects its own view, dotted schemas included |
| EtlDashboard.Status | src/modules/etl/components/etl-dashboard.tsx:169-184 | the table shows exactly when there is a synced view; the skeleton exactly while the first status loads |
| EtlDashboard.EtlDashboard.constructor | src/modules/etl/components/etl-dashboard.tsx:29-40 | the initial state of every `useState` |
| EtlDashboard.EtlDashboard.HasDb | src/modules/etl/components/etl-dashboard.tsx:64-65 | a database counts as chosen only when the selection is present and non-empty, as `!selectedDb` tests |
| EtlDashboard.EtlDashboard.ViewPickerDisabled | src/modules/etl/components/etl-dashboard.tsx:124-129 | the view picker is disabled without a database, while views load, or with no view; `SelectDb` proves it disabled after a new database |
| EtlDashboard.EtlDashboard.FinishDatabases | src/modules/etl/components/etl-dashboard.tsx:43-48 | the databases or the error are stored, and the databases stop loading |
| EtlDashboard.EtlDashboard.BeginRefresh | src/modules/etl/components/etl-dashboard.tsx:51-53 | a refresh marks the status as loading |
| EtlDashboard.EtlDashboard.FinishRefresh | src/modules/etl/components/etl-dashboard.tsx:53-56 | the synced views or the error are stored, and the status stops loading |
| EtlDashboard.EtlDashboard.SelectDb | src/modules/etl/components/etl-dashboard.tsx:64-75 | the effect runs only on a change: no database empties the view list; a new one clears the view and loads views; either way Sync Now is disabled |
| EtlDashboard.EtlDashboard.FinishViews | src/modules/etl/components/etl-dashboard.tsx:71-74 | the views or the error are stored, and the views stop loading |
| EtlDashboard.EtlDashboard.SelectView | src/modules/etl/components/etl-dashboard.tsx:126 | the picked view is selected |
| EtlDashboard.EtlDashboard.SyncDisabled | src/modules/etl/components/etl-dashboard.tsx:132 | Sync Now is disabled without a database or a view, and while a sync runs; `SelectDb` and `BeginSync` prove it set afterwards |
| EtlDashboard.EtlDashboard.BeginSync | src/modules/etl/components/etl-dashboard.tsx:77-88 | nothing without database and view; otherwise syncing starts, the error clears, the button is disabled and the request names database, schema and view |
| EtlDashboard.EtlDashboard.FinishSync | src/modules/etl/components/etl-dashboard.tsx:89-96 | success refreshes the status, failure stores its message; syncing stops either way |
| SyncStatus.RelativeTimeBuckets | src/modules/etl/components/sync-status-table.tsx:44-57 | under a minute (or in the future) reads `Just now`, then whole minutes (1-59), whole hours (1-23), whole days |
| SyncStatus.FormatRelativeTime | src/modules/etl/components/sync-status-table.tsx:44-57 | exactly a missing or empty date reads `Never`; an unparsable date reads `NaNd ago`; less than a minute, or the future, reads `Just now` |
| SyncStatus.FormatDuration | src/modules/etl/components/sync-status-table.tsx:38-42 | no duration is a dash, below a second whole milliseconds, otherwise seconds with their text |
| SyncStatus.StatusKeysDistinct | src/modules/etl/components/sync-status-table.tsx:30-36 | the five statuses of the badge table are distinct |
| SyncStatus.KnownStatuses | src/modules/etl/components/sync-status-table.tsx:30-111 | each of the five known statuses gets its own label and variant |
| SyncStatus.UnknownStatus | src/modules/etl/components/sync-status-table.tsx:111 | any other status falls back to `Never Synced` with the outline variant |
| SyncStatus.StatusConfig | src/modules/etl/components/sync-status-table.tsx:30-111 | a status with a row in the badge table gets that row's style; any other gets `Never Synced` with the outline variant |
| SyncStatus.DbCell | src/modules/etl/components/sync-status-table.tsx:115 | the source database cell shows the database name when it is non-empty, a dash otherwise |
| SyncStatus.RowsCell | src/modules/etl/components/sync-status-table.tsx:130 | the row count in locale text, or a dash when there is none |
| SyncStatus.SyncStatusTable.constructor | src/modules/etl/components/sync-status-table.tsx:60-62 | nothing re-syncs, nothing is deleted, no log is open |
| SyncStatus.SyncStatusTable.ResyncDisabled | src/modules/etl/components/sync-status-table.tsx:149 | a row's re-sync button is disabled exactly while that row re-syncs; `BeginResync` proves it disabled once the request starts |
| SyncStatus.SyncStatusTable.DeleteDisabled | src/modules/etl/components/sync-status-table.tsx:158 | a row's delete button is disabled exactly while that row is deleted; `BeginDelete` proves it disabled once the request starts |
| SyncStatus.SyncStatusTable.BeginResync | src/modules/etl/components/sync-status-table.tsx:64-72 | a view without a database does nothing; otherwise that row re-syncs, its button is disabled, and the request names its database, schema and view |
| SyncStatus.SyncStatusTable.FinishResync | src/modules/etl/components/sync-status-table.tsx:73-79 | success asks for a refresh, failure does not; no row re-syncs afterwards |
| SyncStatus.SyncStatusTable.BeginDelete | src/modules/etl/components/sync-status-table.tsx:82-85 | that row is being deleted and its button is disabled |
| SyncStatus.SyncStatusTable.FinishDelete | src/modules/etl/components/sync-status-table.tsx:86-92 | success asks for a refresh, failure does not; no row is deleted afterwards |
| SyncStatus.SyncStatusTable.OpenLogs | src/modules/etl/components/sync-status-table.tsx:141 | the log viewer opens for that view |
| SyncStatus.SyncStatusTable.CloseLogs | src/modules/etl/components/sync-status-table.tsx:175 | the log viewer closes |
| Auth.RolesNested | src/modules/shared/contexts/auth-context.tsx:78-85 | every signed-in user has `BASIC`, only an admin has `ADMIN`, and nobody has a role without a user |
| Auth.HasRole | src/modules/shared/contexts/auth-context.tsx:78-85 | a role test passes exactly for a signed-in user whose role is that role or `ADMIN` |
| Auth.IsAuthenticated | src/modules/shared/contexts/auth-context.tsx:93 | authenticated exactly with a user and a non-empty token |
| Auth.AuthProvider.constructor | src/modules/shared/contexts/auth-context.tsx:29-31 | nobody signed in, still loading |
| Auth.AuthProvider.Mount | src/modules/shared/contexts/auth-context.tsx:34-50 | a stored non-empty token is sent to be checked and loading goes on; otherwise loading ends at once |
| Auth.AuthProvider.FinishMount | src/modules/shared/contexts/auth-context.tsx:37-46 | an accepted token signs its user in, a rejected one changes nothing; loading ends either way |
| Auth.AuthProvider.Login | src/modules/shared/contexts/auth-context.tsx:52-69 | an accepted sign-in sets token and user (authenticated exactly with a non-empty token); a rejected one throws its message and changes nothing |
| Auth.AuthProvider.Logout | src/modules/shared/contexts/auth-context.tsx:71-76 | afterwards nobody is signed in and no role test passes |
| RequireRole.Render | src/modules/shared/components/require-role.tsx:28-36 | loading shows the placeholder; then the children exactly when the role test passes, nothing otherwise |
| RequireRole.RedirectTarget | src/modules/shared/components/require-role.tsx:17-24 | the redirect goes to the given path, `/dashboard` by default |
| RequireRole.Redirects | src/modules/shared/components/require-role.tsx:22-26 | the effect redirects once loading is over, for an authenticated user lacking the role; `GateDecisions` and `BasicAtAdminGate` are stated over it |
| RequireRole.GateDecisions | src/modules/shared/components/require-role.tsx:22-36 | a redirect always comes with an empty render, the children never with a redirect, and an admin is never redirected |
| RequireRole.BasicAtAdminGate | src/modules/shared/components/require-role.tsx:22-36 | a basic user at an admin gate sees nothing and is redirected; a signed-out visitor sees nothing and is not redirected |
| Middleware.Decide | middleware.ts:4-26 | public paths pass; any other passes exactly with the cookie `1`, and otherwise redirects to `/sign-in` |
| Middleware.PrefixMatching | middleware.ts:8-12 | the public tests are prefix tests except the exact `/favicon.ico`: `/sign-inX` and `/apiX` pass, `/favicon.icoX` is redirected |
| Middleware.CookieMustBeOne | middleware.ts:18-23 | on a protected path, a missing cookie or any value but `1` redirects |
| Middleware.IsPublic | middleware.ts:8-12 | the public paths: three prefixes and the exact `/favicon.ico`; `Decide` and `PrefixMatching` are stated over it |
| Middleware.Matched | middleware.ts:28-32 | the matcher skips paths under `/_next/static` and `/_next/image`, and paths matching `/favicon.ico` with its `.` as a wildcard |
| Middleware.FaviconLiteral | middleware.ts:30 | every path starting with the literal `/favicon.ico` matches the favicon pattern |
| Middleware.Gate | middleware.ts:28-32 | paths the matcher excludes pass untouched; the others are decided by the middleware |
| Middleware.MatcherPassesFaviconPrefix | middleware.ts:12-30 | the matcher excludes every path starting with `/favicon.ico`, so `/favicon.icoX` passes although the middleware alone would redirect it |
| Middleware.MatcherDotIsWildcard | middleware.ts:8-30 | `/faviconXico` passes the deployed gate without the cookie, although it is no public path and the middleware alone redirects it |
| Middleware.GateProtects | middleware.ts:4-32 | on a path neither public nor matching the favicon pattern, the request passes exactly with the cookie `1` |
| Names.Firsts | src/modules/shared/components/app-sidebar.tsx:106-107 | at most one character per word; with no empty word, exactly the first character of each word, in order |
| Names.Initials | src/modules/shared/components/app-sidebar.tsx:104-109 | initials have at most two characters and no lower-case ASCII letter; with no empty word they are the upper-cased first characters of the first two words (one for a single word) |
| Names.OneWord | src/modules/shared/components/app-sidebar.tsx:104-109 | one word gives its first character, upper-cased |
| Names.TwoWords | src/modules/shared/components/app-sidebar.tsx:104-109 | two words give their first characters, upper-cased |
| Names.FirstTwoWordsOnly | src/modules/shared/components/app-sidebar.tsx:104-109 | only the first two words count |
| Names.SpacesAddNothing | src/modules/shared/components/app-sidebar.tsx:105-107 | a leading space (an empty word) adds no character |
| Sidebar.VisibleItems | src/modules/shared/components/app-sidebar.tsx:93-95 | exactly the items that need no role or whose role the user has |
| Sidebar.AdminSeesAll | src/modules/shared/components/app-sidebar.tsx:51-95 | an admin sees the whole menu, in order |
| Sidebar.BasicSeesReports | src/modules/shared/components/app-sidebar.tsx:51-95 | a basic user sees Reports and Warehouse Reports only |
| Sidebar.NobodySeesReports | src/modules/shared/components/app-sidebar.tsx:51-95 | without a user the menu holds Reports and Warehouse Reports only |
| Sidebar.AtMostOneActive | src/modules/shared/components/app-sidebar.tsx:135-139 | the links are distinct, so at most one visible item is active for any path |
| Sidebar.IsActive | src/modules/shared/components/app-sidebar.tsx:139 | an item is active exactly when the path is its link |
| Sidebar.UserName | src/modules/shared/components/app-sidebar.tsx:102 | the name, else the e-mail, else `User`; never empty |
| Sidebar.UserEmail | src/modules/shared/components/app-sidebar.tsx:103 | the user's e-mail, or empty without a user |
| Sidebar.UserInitials | src/modules/shared/components/app-sidebar.tsx:104-109 | at most two characters, none a lower-case ASCII letter |
| Sidebar.NobodyInitials | src/modules/shared/components/app-sidebar.tsx:102-109 | without a user the initials are `U` |
| UserManagement.ReplaceUser | src/modules/admin/components/user-management.tsx:64 | the list keeps its length; the users with that id become the updated user; the others stay in place |
| UserManagement.RemoveUser | src/modules/admin/components/user-management.tsx:76 | exactly the users with another id remain; an absent id changes nothing |
| UserManagement.RemoveKeepsOrder | src/modules/admin/components/user-management.tsx:76 | the remaining users keep their order |
| UserManagement.EditsAndIds | src/modules/admin/components/user-management.tsx:64-76 | a role change that keeps the id keeps every id; a removed id is gone |
| UserManagement.OwnRowProtected | src/modules/admin/components/user-management.tsx:120-171 | the signed-in user's own row never offers delete; every other row does, and all rows do without a user |
| UserManagement.CanDelete | src/modules/admin/components/user-management.tsx:120-171 | the delete button shows on every row except the signed-in user's own |
| UserManagement.NameOrEmail | src/modules/admin/components/user-management.tsx:121 | the initials come from the name when non-empty, else the e-mail |
| UserManagement.RowInitials | src/modules/admin/components/user-management.tsx:121-126 | a row's initials have at most two characters, none a lower-case ASCII letter |
| UserManagement.UserManagement.constructor | src/modules/admin/components/user-management.tsx:48-52 | no users, loading, no error, no delete target, not deleting |
| UserManagement.UserManagement.DialogOpen | src/modules/admin/components/user-management.tsx:189 | the delete dialog is open exactly while a target is chosen; `ChooseDelete` opens it, `CancelDelete` and a successful `FinishDelete` close it, a failed one leaves it as it was |
| UserManagement.UserManagement.FinishLoad | src/modules/admin/components/user-management.tsx:54-59 | the users or the error are stored, and loading ends |
| UserManagement.UserManagement.RoleChange | src/modules/admin/components/user-management.tsx:61-69 | on success the users with that id become the returned user; a failure changes nothing |
| UserManagement.UserManagement.ChooseDelete | src/modules/admin/components/user-management.tsx:176 | the row's user becomes the delete target |
| UserManagement.UserManagement.CancelDelete | src/modules/admin/components/user-management.tsx:189-198 | the target is cleared and the dialog closes |
| UserManagement.UserManagement.BeginDelete | src/modules/admin/components/user-management.tsx:71-75 | nothing without a target; otherwise deleting starts for the target |
| UserManagement.UserManagement.FinishDelete | src/modules/admin/components/user-management.tsx:75-83 | success removes the target's id and closes the dialog; failure keeps both; deleting stops either way |
| ThemeMenu.ThemeIndex | src/modules/shared/components/theme-menu.tsx:30 | `findIndex`: the place of the current theme, or -1 when it is not listed |
| ThemeMenu.Next | src/modules/shared/components/theme-menu.tsx:30 | the theme after the current one, wrapping from the last to the first; an unlisted theme gives the first |
| ThemeMenu.NextTheme | src/modules/shared/components/theme-menu.tsx:30 | the menu offers a listed theme, and never the current one |
| ThemeMenu.Cycle | src/modules/shared/components/theme-menu.tsx:23-30 | light goes to dark, dark to system, system to light, anything else to light |
| ThemeMenu.ThreeClicksReturn | src/modules/shared/components/theme-menu.tsx:23-34 | three clicks bring a listed theme back |
| ThemeMenu.Render | src/modules/shared/components/theme-menu.tsx:13-36 | nothing before mounting; afterwards the item offers the next theme, never the current one |
| StatsCards.TimeAgo | src/modules/dashboard/components/stats-cards.tsx:13-23 | the card's time-ago text, written out on its own, equals the sync table's relative time on every input |
| StatsCards.Cards | src/modules/dashboard/components/stats-cards.tsx:31-58 | four cards with their titles; dashes without data; otherwise rows, views, the time ago and users; the Last Sync description is the date or `No syncs yet` |
| StatsCards.NoSyncYet | src/modules/dashboard/components/stats-cards.tsx:44-51 | with no sync date the Last Sync card reads `Never` and `No syncs yet` |
| RotationChart.ShortDesc | src/modules/dashboard/components/top-rotation-chart.tsx:35 | at most 30 characters; the description when it fits, else its first 28 characters and an ellipsis (29 in all) |
| RotationChart.ShortDescIdempotent | src/modules/dashboard/components/top-rotation-chart.tsx:35 | shortening a label twice gives the label shortened once |
| RotationChart.ChartData | src/modules/dashboard/components/top-rotation-chart.tsx:33-36 | one entry per product, in order, keeping the product and adding its short label |
| Lists.Filter | src/modules/shared/components/filters/filter-builder.tsx:31 | `filter`: no longer than the input, holding exactly the elements that pass, and the input itself when all pass |
| Lists.FilterAppend | src/modules/shared/components/filters/filter-builder.tsx:31 | `filter` keeps relative order: it distributes over concatenation |
| Lists.ReplaceIf | src/modules/shared/components/filters/filter-builder.tsx:27 | the conditional `map`: same length, hits replaced, the rest in place |
| Lists.Find | src/modules/warehouse-reports/components/filter-row.tsx:46 | `find`: the first element that passes, and none exactly when nothing passes |
| Lists.FilterKeepsDistinct | src/modules/shared/components/filters/filter-builder.tsx:31 | filtering keeps distinct keys distinct |
| Wrappers.OrText | src/modules/shared/components/filters/active-filters.tsx:20 | JavaScript's `or` of an optional text and a fallback: the text when non-empty, else the fallback; it gives the `?` of a badge's missing second value, the `Authentication failed` of a rejected sign-in without an error (auth-context.tsx:59-62) and the dash of the database cell (`SyncStatus.DbCell`) |
| Strings.Split | src/modules/shared/lib/api.ts:206 | `split` with a non-empty separator yields at least one piece |
| Strings.JoinSplit | src/modules/shared/lib/api.ts:206-207 | joining the pieces with the separator gives back the text |
| Strings.SplitPiecesFree | src/modules/shared/lib/api.ts:206 | no piece contains the separator |
| Strings.SplitAppend | src/modules/shared/lib/api.ts:205-206 | splitting a text plus a chunk re-splits only the last piece of the text |
| Strings.Trim | src/modules/shared/lib/api.ts:210 | the trimmed text is the piece of the original left between a run of leading and a run of trailing JavaScript white space, and it neither starts nor ends with white space |
| Strings.Upper | src/modules/shared/components/app-sidebar.tsx:108 | upper-casing maps each character, keeping the length |
| Strings.Take | src/modules/shared/components/app-sidebar.tsx:109 | `slice(0, n)` is the prefix of length n, or the whole text when shorter |
| Strings.IntToString | src/modules/shared/lib/api.ts:85 | `String(n)`: a minus sign and the digits of `-n` for a negative number, the digits otherwise |
| Strings.ParseNatToString | src/modules/shared/lib/api.ts:85 | the decimal text reads back as the number |
| Strings.IntToStringInjective | src/modules/shared/lib/api.ts:85 | distinct numbers give distinct texts |

## Left out

- The network, `fetch`, `localStorage`, cookies being written, `router` navigation and toasts are not modelled. Each request's outcome is a `Result` or `Response` value handed to the method that finishes it.
- Concurrency is not modelled. The model does not cover requests that overlap or finish out of order, such as two re-syncs or two data fetches in flight, or a stale response landing after a new selection.
- The debounce timer (`setTimeout`/`clearTimeout`) is left out. `CommitSearch` stands for the timer firing: it commits the text captured at the last keystroke. Choosing a view or a table does not clear a pending timer in the source, so the model lets `CommitSearch` run after either.
- ApiStream.NotOkMessage: the body's `error` is an optional text. A JSON body of `null` makes `body.error` throw a `TypeError`, which reaches the stream's `.catch` as an ordinary failure; that path is not modelled. Nor is a truthy `error` that is not a string, which the source passes on unchanged.
- `JSON.parse` and `JSON.stringify` are function parameters. An exception thrown by the event callback itself is not modelled.
- `TextDecoder` is left out: chunks are decoded text. The abort controller is left out; an abort appears only as an `AbortError` failure.
- `URLSearchParams.toString` percent-encoding and `encodeURIComponent` are left out. A query is a list of key/value pairs.
- ApiQuery.IntParam: numbers are integers, so `NaN` and fractional page numbers are not modelled.
- Strings.IntToString: always writes every digit; `String(n)` switches to exponent form (`1e+21`) once the magnitude reaches 10^21, which is not modelled.
- SyncStatus.FormatDuration: `(ms / 1000).toFixed(1)` is the parameter `secondsText`; floating point is not modelled.
- `toLocaleString` and `toLocaleDateString` of numbers and dates are parameters or left out (the Joined column).
- The clock and `new Date(...)` are not modelled. The relative-time functions take the elapsed milliseconds, with `None` for an unparsable date.
- `crypto.randomUUID` is the parameter `freshId`. Its freshness is a precondition of the lemmas that need it.
- Strings.Upper: only ASCII letters are upper-cased, not the full Unicode mapping of `toUpperCase`.
- RotationChart.ShortDesc: lengths count Dafny characters, not UTF-16 code units.
- Names.Firsts: `n[0]` takes the first character, not the first UTF-16 unit.
- SyncStatus.StatusConfig: the lookup covers the five statuses and the fallback; keys inherited from `Object.prototype` are not modelled.
- WarehouseViewer.WarehouseReportViewer.SelectTable: the table effect compares the new table with the previous one by value, where React compares object identity; re-picking an equal but distinct object is not modelled.
- `filter-row.tsx` imports its operator table from `src/modules/warehouse-reports/lib/filter-utils`, which is not part of this model. The row is modelled on `src/modules/shared/lib/filter-utils.ts`.
- `AdminUser` and `StatsSummary` are not in the visible part of `api.ts`. Their fields are taken from how the components use them.
- Rendering is left out: markup, icons, skeleton rows, the stats cards' `loading` skeleton, the table's column visibility, popovers and the date pickers' `format`.
- The text "Showing from-to of N rows" is left out; its numbers are `From` and `To`.
- The database picker, the warehouse table picker and the sync log viewer are not part of this model.
- The other dashboard charts and pages are not part of this model.

## Findings

| source | as written | input that shows it | evidently intended | confidence | as-written member | corrected member |
|---|---|---|---|---|---|---|
| src/modules/reports/components/view-picker.tsx:29-31 | the picked value is split at every `.` and the schema is the first piece, so a schema that contains a dot decodes wrongly | `ViewInfo("sales.eu", "orders", …)` has the key `sales.eu.orders`, which decodes to schema `sales` and name `eu.orders`, so no view is found and selecting the item does nothing | every item selects its own view | low, not executed | ViewPicker.DottedSchemaUnpickable | ViewPicker.PickByKeyOwnItem |
