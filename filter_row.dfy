/** One row of the filter builder
    (src/modules/warehouse-reports/components/filter-row.tsx): the category
    of the chosen column, the operators and inputs it offers, and the edits
    that hand a changed copy of the filter to `onChange`. */
module FilterRow {
  import opened Wrappers
  import opened ApiTypes
  import opened FilterUtils
  import Lists

  /** The test of `c.column === name`. */
  function Named(name: string): WarehouseColumn -> bool {
    (c: WarehouseColumn) => c.column == name
  }

  /** `selectedCol?.filterCategory || 'text'`: every category name is a
      non-empty string, so the fallback is taken only when no column has the
      filter's column name. */
  function Category(columns: seq<WarehouseColumn>, f: ColumnFilter): (c: FilterCategory)
    ensures (forall col :: col in columns ==> col.column != f.column) ==> c == TextCategory
    ensures (exists col :: col in columns && col.column == f.column) ==>
      exists i :: 0 <= i < |columns| && columns[i].column == f.column && c == columns[i].filterCategory &&
        forall j :: 0 <= j < i ==> columns[j].column != f.column
  {
    match Lists.Find(Named(f.column), columns)
    case Some(col) => col.filterCategory
    case None => TextCategory
  }

  /** The operators the operator picker lists (`|| []` never applies: every
      category has a list). */
  function OperatorChoices(columns: seq<WarehouseColumn>, f: ColumnFilter): seq<OperatorOption> {
    Operators(Category(columns, f))
  }

  /** `showValue2`. */
  predicate ShowsValue2(f: ColumnFilter) {
    IsBetween(f.operator)
  }

  /** The operator picker is disabled while no column is chosen. */
  predicate OperatorPickerDisabled(f: ColumnFilter) {
    f.column == ""
  }

  /** The value inputs are shown once a column is chosen. */
  predicate ShowsValueInputs(f: ColumnFilter) {
    f.column != ""
  }

  /** The kind of value input the row shows. */
  datatype ValueInput = DatePicker | BooleanSelect | NumberInput | TextInput

  /** The first value input: a date picker for `date`, a true/false select
      for `boolean`, a number input for `number`, a text input otherwise. */
  function ValueInputKind(c: FilterCategory): ValueInput {
    match c
    case DateCategory => DatePicker
    case BooleanCategory => BooleanSelect
    case NumberCategory => NumberInput
    case _ => TextInput
  }

  /** The second value input: a date picker for `date`, otherwise a number
      or text input (the boolean select has no second form). */
  function Value2InputKind(c: FilterCategory): ValueInput {
    match c
    case DateCategory => DatePicker
    case NumberCategory => NumberInput
    case _ => TextInput
  }

  /** The column picker: the columns whose category is not `unsupported`,
      in their order. */
  function PickableColumns(columns: seq<WarehouseColumn>): (r: seq<WarehouseColumn>)
    ensures forall col :: col in r <==> col in columns && col.filterCategory != Unsupported
    ensures |r| <= |columns|
    ensures (forall col :: col in columns ==> col.filterCategory != Unsupported) ==> r == columns
  {
    Lists.Filter((c: WarehouseColumn) => c.filterCategory != Unsupported, columns)
  }

  /** The picker keeps the columns' order: picking from two runs of columns
      lists the first run's pickable columns before the second's. */
  lemma PickableColumnsAppend(a: seq<WarehouseColumn>, b: seq<WarehouseColumn>)
    ensures PickableColumns(a + b) == PickableColumns(a) + PickableColumns(b)
  {
    Lists.FilterAppend((c: WarehouseColumn) => c.filterCategory != Unsupported, a, b);
  }

  /** `handleColumnChange(colName)`: `None` when no column has that name (no
      call to `onChange`); otherwise the filter with the chosen column, that
      column's default operator, an empty value and no second value. */
  function ColumnChange(columns: seq<WarehouseColumn>, f: ColumnFilter, colName: string): (r: Option<ColumnFilter>)
    ensures r.None? <==> forall col :: col in columns ==> col.column != colName
    ensures r.Some? ==> r.value == ColumnFilter(f.id, colName, DefaultOperator(Category(columns, r.value)), "", None)
  {
    match Lists.Find(Named(colName), columns)
    case None => None
    case Some(col) => Some(f.(column := colName, operator := DefaultOperator(col.filterCategory), value := "", value2 := None))
  }

  /** `handleOperatorChange(op)`: the operator is set, the second value kept
      only for `'between'`, everything else left as it was. */
  function OperatorChange(f: ColumnFilter, op: string): (r: ColumnFilter)
    ensures r.id == f.id && r.column == f.column && r.value == f.value && r.operator == op
    ensures IsBetween(op) ==> r.value2 == f.value2
    ensures !IsBetween(op) ==> r.value2.None?
  {
    var updated := f.(operator := op);
    if !IsBetween(op) then updated.(value2 := None) else updated
  }

  /** The operator picker is enabled exactly when the value inputs show,
      and the second value's input is of the first one's kind, except that a
      boolean column falls back to a text input. */
  lemma InputsFollowColumn(f: ColumnFilter, c: FilterCategory)
    ensures OperatorPickerDisabled(f) <==> !ShowsValueInputs(f)
    ensures Value2InputKind(c) != BooleanSelect
    ensures c != BooleanCategory ==> Value2InputKind(c) == ValueInputKind(c)
    ensures c == BooleanCategory ==> Value2InputKind(c) == TextInput
  {
  }

  /** The value inputs: `{ ...filter, value }` and `{ ...filter, value2 }`. */
  function ValueChange(f: ColumnFilter, v: string): ColumnFilter {
    f.(value := v)
  }

  function Value2Change(f: ColumnFilter, v: string): ColumnFilter {
    f.(value2 := Some(v))
  }

  /** A row is tidy when it holds a second value only under `'between'`. */
  predicate Tidy(f: ColumnFilter) {
    f.value2.Some? ==> IsBetween(f.operator)
  }

  /** Every edit leaves a tidy row tidy; the second value can only be typed
      while its input is shown. */
  lemma EditsKeepTidy(columns: seq<WarehouseColumn>, f: ColumnFilter, s: string)
    requires Tidy(f)
    ensures ColumnChange(columns, f, s).Some? ==> Tidy(ColumnChange(columns, f, s).value)
    ensures Tidy(OperatorChange(f, s))
    ensures Tidy(ValueChange(f, s))
    ensures ShowsValue2(f) ==> Tidy(Value2Change(f, s))
  {
  }

  /** No two columns share a name (the columns of one warehouse table). */
  predicate DistinctNames(columns: seq<WarehouseColumn>) {
    forall i, j :: 0 <= i < j < |columns| ==> columns[i].column != columns[j].column
  }

  /** With distinct column names, picking a column from the picker always
      succeeds, and leaves the row with an operator its operator picker
      offers. */
  lemma PickedColumnOffersOperator(columns: seq<WarehouseColumn>, f: ColumnFilter, col: WarehouseColumn)
    requires DistinctNames(columns)
    requires col in PickableColumns(columns)
    ensures ColumnChange(columns, f, col.column).Some?
    ensures Offers(Category(columns, ColumnChange(columns, f, col.column).value), ColumnChange(columns, f, col.column).value.operator)
  {
    var r := ColumnChange(columns, f, col.column).value;
    var m :| 0 <= m < |columns| && columns[m] == col;
    var k :| 0 <= k < |columns| && columns[k].column == col.column && Category(columns, r) == columns[k].filterCategory &&
      forall j :: 0 <= j < k ==> columns[j].column != col.column;
    assert k == m;
  }
}
