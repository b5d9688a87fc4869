/** The badge row of applied filters
    (src/modules/shared/components/filters/active-filters.tsx). */
module ActiveFilters {
  import opened Wrappers
  import opened ApiTypes
  import opened Strings
  import opened FilterUtils

  /** The part every badge label starts with: column, operator label, value. */
  function LabelHead(f: ColumnFilter, opLabel: string): string {
    f.column + " " + opLabel + " " + f.value
  }

  /** The template of `formatFilterLabel`, for a given operator label. */
  function FormatLabel(f: ColumnFilter, opLabel: string): string {
    if IsBetween(f.operator) then LabelHead(f, opLabel) + " - " + OrText(f.value2, "?")
    else LabelHead(f, opLabel)
  }

  /** `formatFilterLabel`: the template filled with `getOperatorLabel`. */
  function FilterLabel(f: ColumnFilter): string {
    FormatLabel(f, OperatorLabel(f.operator))
  }

  /** Every label starts with the column, the operator label and the value;
      a `'between'` label goes on with `" - "` and the second value or
      `'?'`, any other label stops there. */
  lemma LabelShape(f: ColumnFilter, opLabel: string)
    ensures StartsWith(FormatLabel(f, opLabel), LabelHead(f, opLabel))
    ensures IsBetween(f.operator) ==>
      FormatLabel(f, opLabel)[|LabelHead(f, opLabel)|..] == " - " + OrText(f.value2, "?")
    ensures !IsBetween(f.operator) ==> FormatLabel(f, opLabel) == LabelHead(f, opLabel)
  {
    var h := LabelHead(f, opLabel);
    if IsBetween(f.operator) {
      var tail := " - " + OrText(f.value2, "?");
      assert FormatLabel(f, opLabel) == h + tail;
      ConcatParts(h, tail);
    } else {
      ConcatParts(h, "");
      assert h + "" == h;
    }
  }

  /** The shape of every badge label, whose operator label is the one
      `getOperatorLabel` gives. */
  lemma FilterLabelShape(f: ColumnFilter)
    ensures var h := LabelHead(f, OperatorLabel(f.operator));
      StartsWith(FilterLabel(f), h) &&
      (IsBetween(f.operator) ==> FilterLabel(f)[|h|..] == " - " + OrText(f.value2, "?")) &&
      (!IsBetween(f.operator) ==> FilterLabel(f) == h)
  {
    LabelShape(f, OperatorLabel(f.operator));
  }

  /** Outside `'between'`, the second value does not show. */
  lemma SecondValueIgnored(f: ColumnFilter, v2: Option<string>)
    requires !IsBetween(f.operator)
    ensures FilterLabel(f.(value2 := v2)) == FilterLabel(f)
  {
  }

  /** Under `'between'`, the label tells a missing second value from a given
      one: an empty or absent second value shows as `'?'`. */
  lemma MissingSecondValue(f: ColumnFilter, opLabel: string)
    requires IsBetween(f.operator) && !TruthyString(f.value2)
    ensures FormatLabel(f, opLabel) == LabelHead(f, opLabel) + " - ?"
  {
    assert LabelHead(f, opLabel) + " - " + "?" == LabelHead(f, opLabel) + " - ?";
  }

  /** One badge: its text and the id its remove button passes. */
  datatype Badge = Badge(text: string, removeId: string)

  /** The badges, one per filter in list order. */
  function Badges(fs: seq<ColumnFilter>): (bs: seq<Badge>)
    ensures |bs| == |fs|
    ensures forall i :: 0 <= i < |fs| ==> bs[i] == Badge(FilterLabel(fs[i]), fs[i].id)
  {
    if fs == [] then [] else [Badge(FilterLabel(fs[0]), fs[0].id)] + Badges(fs[1..])
  }

  /** `ActiveFilters`: nothing for an empty list, the badges otherwise. */
  function Render(fs: seq<ColumnFilter>): (r: Option<seq<Badge>>)
    ensures r.None? <==> fs == []
    ensures r.Some? ==> r.value == Badges(fs)
  {
    if |fs| == 0 then None else Some(Badges(fs))
  }
}
