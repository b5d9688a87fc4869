/** The view picker (src/modules/reports/components/view-picker.tsx): each
    view is an item keyed `schema.name`, and a picked key is split at its
    first dot to find the view again. */
module ViewPicker {
  import opened Wrappers
  import opened ApiTypes
  import opened Strings
  import Lists

  /** The item key (and value) of a view. */
  function Key(v: ViewInfo): string {
    v.schema + "." + v.name
  }

  /** The value the select shows for the selected view. */
  function SelectedValue(selected: Option<ViewInfo>): (r: Option<string>)
    ensures r.Some? <==> selected.Some?
    ensures r.Some? ==> r.value == Key(selected.value)
  {
    match selected
    case None => None
    case Some(v) => Some(Key(v))
  }

  /** `const [schema, ...nameParts] = value.split('.')` and
      `nameParts.join('.')`. */
  function Decode(value: string): (string, string) {
    var parts := Split(value, ".");
    (parts[0], Join(parts[1..], "."))
  }

  /** No character of `s` is a dot. */
  predicate NoDot(s: string) {
    Lacks(s, '.')
  }

  /** Decoding cuts at the first dot: the schema is the text before it, the
      name all the text after it, dots included. */
  lemma DecodeAtFirstDot(a: string, b: string)
    requires NoDot(a)
    ensures Decode(a + "." + b) == (a, b)
  {
    SplitAtChar(a, b, '.');
    JoinSplit(b, ".");
    assert ([a] + Split(b, "."))[1..] == Split(b, ".");
  }

  /** A value without a dot decodes to that schema and an empty name. */
  lemma DecodeNoDot(s: string)
    requires NoDot(s)
    ensures Decode(s) == (s, "")
  {
    LacksFree(s, '.');
    SplitFree(s, ".");
  }

  /** A view whose schema has no dot decodes back from its key, whatever
      dots its name holds. */
  lemma KeyRoundTrip(v: ViewInfo)
    requires NoDot(v.schema)
    ensures Decode(Key(v)) == (v.schema, v.name)
  {
    DecodeAtFirstDot(v.schema, v.name);
  }

  /** The test of `v.schema === schema && v.name === name`. */
  function Matches(schema: string, name: string): ViewInfo -> bool {
    (v: ViewInfo) => v.schema == schema && v.name == name
  }

  /** `onValueChange`: the view `onSelect` receives, if any: the first view
      with the decoded schema and name. */
  function Pick(views: seq<ViewInfo>, value: string): (r: Option<ViewInfo>)
    ensures r.None? <==> forall v :: v in views ==> (v.schema, v.name) != Decode(value)
    ensures r.Some? ==> r.value in views && (r.value.schema, r.value.name) == Decode(value)
    ensures r.Some? ==>
      exists i :: 0 <= i < |views| && views[i] == r.value &&
        forall j :: 0 <= j < i ==> (views[j].schema, views[j].name) != Decode(value)
  {
    var (schema, name) := Decode(value);
    Lists.Find(Matches(schema, name), views)
  }

  /** Picking the item of a view whose schema has no dot selects a view with
      that schema and name. */
  lemma PickOwnItem(views: seq<ViewInfo>, v: ViewInfo)
    requires v in views && NoDot(v.schema)
    ensures Pick(views, Key(v)).Some?
    ensures Pick(views, Key(v)).value.schema == v.schema && Pick(views, Key(v)).value.name == v.name
  {
    KeyRoundTrip(v);
  }

  /** A view whose schema holds a dot cannot be picked: its key decodes to
      another schema and name. */
  lemma DottedSchemaUnpickable()
    ensures var v := ViewInfo("sales.eu", "orders", "NO");
      Pick([v], Key(v)).None?
  {
    var v := ViewInfo("sales.eu", "orders", "NO");
    assert Key(v) == "sales" + "." + "eu.orders";
    DecodeAtFirstDot("sales", "eu.orders");
  }

  /** The lookup the key scheme calls for: the first view whose key is the
      picked value. */
  function PickByKey(views: seq<ViewInfo>, value: string): (r: Option<ViewInfo>)
    ensures r.None? <==> forall v :: v in views ==> Key(v) != value
    ensures r.Some? ==> r.value in views && Key(r.value) == value
  {
    Lists.Find((v: ViewInfo) => Key(v) == value, views)
  }

  /** With it, every item picks its own view, when no two views share a key. */
  lemma PickByKeyOwnItem(views: seq<ViewInfo>, v: ViewInfo)
    requires v in views
    requires forall i, j :: 0 <= i < j < |views| ==> Key(views[i]) != Key(views[j])
    ensures PickByKey(views, Key(v)) == Some(v)
  {
    var w := PickByKey(views, Key(v)).value;
    var i :| 0 <= i < |views| && views[i] == v;
    var k :| 0 <= k < |views| && views[k] == w;
    assert i == k;
  }

  /** The select is disabled when told so, while loading, and when there is
      no view. */
  predicate Disabled(disabled: bool, loading: bool, views: seq<ViewInfo>) {
    disabled || loading || |views| == 0
  }
}
