/** The column-filter operator table (src/modules/shared/lib/filter-utils.ts):
    the operators each filter category offers, the default operator of a
    category, and the label shown for an operator. */
module FilterUtils {
  import opened Wrappers
  import opened ApiTypes
  import Lists

  /** One `{ value, label }` entry of `OPERATORS_BY_CATEGORY`. */
  datatype OperatorOption = OperatorOption(value: string, caption: string)

  /** `OPERATORS_BY_CATEGORY[c]`: only `unsupported` offers nothing. */
  function Operators(c: FilterCategory): (ops: seq<OperatorOption>)
    ensures ops == [] <==> c == Unsupported
  {
    match c
    case TextCategory => [
      OperatorOption("contains", "Contains"),
      OperatorOption("equals", "Equals"),
      OperatorOption("starts_with", "Starts with"),
      OperatorOption("ends_with", "Ends with"),
      OperatorOption("not_equals", "Not equals")]
    case NumberCategory => [
      OperatorOption("eq", "="),
      OperatorOption("neq", "!="),
      OperatorOption("gt", ">"),
      OperatorOption("gte", ">="),
      OperatorOption("lt", "<"),
      OperatorOption("lte", "<="),
      OperatorOption("between", "Between")]
    case DateCategory => [
      OperatorOption("eq", "Equals"),
      OperatorOption("before", "Before"),
      OperatorOption("after", "After"),
      OperatorOption("between", "Between")]
    case BooleanCategory => [
      OperatorOption("eq", "Equals")]
    case Unsupported => []
  }

  /** The operator values of a list of options, in order. */
  function Values(ops: seq<OperatorOption>): (vs: seq<string>)
    ensures |vs| == |ops|
    ensures forall i :: 0 <= i < |ops| ==> vs[i] == ops[i].value
  {
    if ops == [] then [] else [ops[0].value] + Values(ops[1..])
  }

  /** Category `c` offers operator `op`. */
  predicate Offers(c: FilterCategory, op: string) {
    op in Values(Operators(c))
  }

  /** The operator unions of api.ts (lines 234-237), one per category that
      has operators. */
  const TextOperators: seq<string> := ["contains", "equals", "starts_with", "ends_with", "not_equals"]
  const NumberOperators: seq<string> := ["eq", "neq", "gt", "gte", "lt", "lte", "between"]
  const DateOperators: seq<string> := ["eq", "before", "after", "between"]
  const BooleanOperators: seq<string> := ["eq"]

  /** `FilterOperator` (api.ts, line 238): the union of the four. */
  const OperatorUnion: seq<string> := TextOperators + NumberOperators + DateOperators + BooleanOperators

  /** Each category's list offers exactly the members of its union type, in
      the order the type lists them. */
  lemma TextMatchesType()
    ensures Values(Operators(TextCategory)) == TextOperators
  {
  }

  lemma NumberMatchesType()
    ensures Values(Operators(NumberCategory)) == NumberOperators
  {
  }

  lemma DateMatchesType()
    ensures Values(Operators(DateCategory)) == DateOperators
  {
  }

  lemma BooleanMatchesType()
    ensures Values(Operators(BooleanCategory)) == BooleanOperators
  {
  }

  /** Within each category, no operator value is listed twice. */
  lemma OperatorsDistinct(c: FilterCategory, i: nat, j: nat)
    requires i < j < |Operators(c)|
    ensures Operators(c)[i].value != Operators(c)[j].value
  {
  }

  /** `getDefaultOperator`. */
  function DefaultOperator(c: FilterCategory): (op: string)
    ensures c != Unsupported ==> Offers(c, op)
    ensures c == Unsupported ==> op == "contains"
  {
    match c
    case TextCategory => "contains"
    case NumberCategory => "eq"
    case DateCategory => "after"
    case BooleanCategory => "eq"
    case Unsupported => "contains"
  }

  /** `Object.values(OPERATORS_BY_CATEGORY)`: the option lists in the order
      the keys are written in. */
  function Table(): seq<seq<OperatorOption>> {
    [Operators(TextCategory), Operators(NumberCategory), Operators(DateCategory),
     Operators(BooleanCategory), Operators(Unsupported)]
  }

  /** The option test of `ops.find(o => o.value === operator)`. */
  function HasValue(op: string): OperatorOption -> bool {
    (o: OperatorOption) => o.value == op
  }

  /** The loop of `getOperatorLabel` over the option lists `t`: the label of
      the first matching option of the first list that has one. */
  function LabelIn(t: seq<seq<OperatorOption>>, op: string): Option<string> {
    if t == [] then None
    else match Lists.Find(HasValue(op), t[0])
      case Some(o) => Some(o.caption)
      case None => LabelIn(t[1..], op)
  }

  /** The option lists of `t`, one after the other. */
  function Flatten(t: seq<seq<OperatorOption>>): seq<OperatorOption> {
    if t == [] then [] else t[0] + Flatten(t[1..])
  }

  /** The whole table as one list, in visiting order. */
  function AllOptions(): seq<OperatorOption> {
    Flatten(Table())
  }

  /** Searching list by list finds what one search of the flattened table
      finds. */
  lemma {:induction false} LabelInFlatten(t: seq<seq<OperatorOption>>, op: string)
    ensures LabelIn(t, op) ==
      match Lists.FindIndex(HasValue(op), Flatten(t))
      case Some(i) => Some(Flatten(t)[i].caption)
      case None => None
  {
    if t != [] {
      var f := Flatten(t);
      Lists.FindIndexAppend(HasValue(op), t[0], Flatten(t[1..]));
      LabelInFlatten(t[1..], op);
      match Lists.FindIndex(HasValue(op), t[0])
      case Some(i) =>
        assert f[i] == t[0][i];
      case None =>
        match Lists.FindIndex(HasValue(op), Flatten(t[1..]))
        case Some(j) =>
          assert f[|t[0]| + j] == Flatten(t[1..])[j];
        case None =>
    }
  }

  /** `getOperatorLabel`. */
  function OperatorLabel(op: string): (r: string)
    ensures (exists o :: o in AllOptions() && o.value == op) ==>
      exists o :: o in AllOptions() && o.value == op && o.caption == r
    ensures (forall o :: o in AllOptions() ==> o.value != op) ==> r == op
  {
    LabelInFlatten(Table(), op);
    match LabelIn(Table(), op)
    case Some(c) => c
    case None => op
  }

  /** `getOperatorLabel` gives the label of the first option anywhere in the
      table, in visiting order, whose value is `op`, and `op` itself when
      there is none. */
  lemma OperatorLabelFirst(op: string)
    ensures match Lists.FindIndex(HasValue(op), AllOptions())
      case Some(i) => OperatorLabel(op) == AllOptions()[i].caption
      case None => OperatorLabel(op) == op
  {
    LabelInFlatten(Table(), op);
  }

  /** A category offers `op` exactly when `find` succeeds on its list. */
  lemma ValuesFind(ops: seq<OperatorOption>, op: string)
    ensures op in Values(ops) <==> Lists.Find(HasValue(op), ops).Some?
  {
    if op in Values(ops) {
      var i :| 0 <= i < |ops| && Values(ops)[i] == op;
      assert ops[i] in ops && HasValue(op)(ops[i]);
    }
  }

  /** Listing the values of two option lists one after the other. */
  lemma ValuesAppend(a: seq<OperatorOption>, b: seq<OperatorOption>)
    ensures Values(a + b) == Values(a) + Values(b)
  {
  }

  /** When no list of `t` lists `op`, the loop finds no label. */
  lemma {:induction false} LabelInNone(t: seq<seq<OperatorOption>>, op: string)
    requires op !in Values(Flatten(t))
    ensures LabelIn(t, op).None?
  {
    if t != [] {
      ValuesAppend(t[0], Flatten(t[1..]));
      ValuesFind(t[0], op);
      LabelInNone(t[1..], op);
    }
  }

  /** The flattened table is the four non-empty lists in visiting order. */
  lemma AllOptionsShape()
    ensures AllOptions() == Operators(TextCategory) + Operators(NumberCategory) + Operators(DateCategory) + Operators(BooleanCategory)
  {
    var t := Table();
    assert t[4..] == [Operators(Unsupported)];
    assert t[3..] == [Operators(BooleanCategory)] + t[4..];
  }

  /** The values the table lists, in visiting order, are the `FilterOperator`
      union as api.ts spells it out. */
  lemma TableMatchesUnion()
    ensures Values(AllOptions()) == OperatorUnion
  {
    AllOptionsShape();
    var a, b, c, d := Operators(TextCategory), Operators(NumberCategory), Operators(DateCategory), Operators(BooleanCategory);
    ValuesAppend(a + b + c, d);
    ValuesAppend(a + b, c);
    ValuesAppend(a, b);
    TextMatchesType();
    NumberMatchesType();
    DateMatchesType();
    BooleanMatchesType();
  }

  /** No option of the table is captioned with its own value. */
  lemma CaptionsDiffer()
    ensures forall i :: 0 <= i < |AllOptions()| ==> AllOptions()[i].caption != AllOptions()[i].value
  {
  }

  /** In any option list, a listed value is found, and when no caption
      equals its own value, the caption found differs from the value sought. */
  lemma {:induction false} FoundCaption(all: seq<OperatorOption>, op: string)
    requires op in Values(all)
    requires forall i :: 0 <= i < |all| ==> all[i].caption != all[i].value
    ensures Lists.FindIndex(HasValue(op), all).Some?
    ensures all[Lists.FindIndex(HasValue(op), all).value].caption != op
  {
    var k :| 0 <= k < |all| && Values(all)[k] == op;
    assert HasValue(op)(all[k]);
  }

  /** `'eq'` is labelled `'='`, from the number list, and not `'Equals'`. */
  lemma EqLabel()
    ensures OperatorLabel("eq") == "="
  {
    ValuesFind(Operators(TextCategory), "eq");
    ValuesFind(Operators(NumberCategory), "eq");
    var o := Lists.Find(HasValue("eq"), Operators(NumberCategory)).value;
    assert o in Operators(NumberCategory) && o.value == "eq";
  }

  /** An operator outside the `FilterOperator` union is shown as itself. */
  lemma UnlistedLabel(op: string)
    requires op !in OperatorUnion
    ensures OperatorLabel(op) == op
  {
    TableMatchesUnion();
    LabelInNone(Table(), op);
  }

  /** A member of the union is shown with the caption of the first option
      listing it, which is never the operator itself. */
  lemma ListedLabel(op: string)
    requires op in OperatorUnion
    ensures exists i :: 0 <= i < |AllOptions()| && AllOptions()[i].value == op && OperatorLabel(op) == AllOptions()[i].caption
    ensures OperatorLabel(op) != op
  {
    TableMatchesUnion();
    CaptionsDiffer();
    FoundCaption(AllOptions(), op);
    OperatorLabelFirst(op);
  }

  /** `getOperatorLabel` falls through to the operator itself exactly for
      values outside the union. */
  lemma LabelFallsThrough(op: string)
    ensures OperatorLabel(op) == op <==> op !in OperatorUnion
  {
    if op in OperatorUnion {
      ListedLabel(op);
    } else {
      UnlistedLabel(op);
    }
  }

  /** `isBetweenOperator`. */
  predicate IsBetween(op: string) {
    op == "between"
  }

  /** `'between'` is offered by the number and date categories only. */
  lemma BetweenCategories(c: FilterCategory)
    ensures Offers(c, "between") <==> c == NumberCategory || c == DateCategory
  {
    if c == NumberCategory {
      assert Values(Operators(c))[6] == "between";
    } else if c == DateCategory {
      assert Values(Operators(c))[3] == "between";
    }
  }
}
