/** The query strings of `getViewData` and `getWarehouseData`
    (src/modules/shared/lib/api.ts): a `URLSearchParams` built by successive
    `set` calls, each optional parameter written only when it is truthy.
    The query is the sequence of key/value pairs in insertion order; its
    percent-encoding by `toString` is not modelled. */
module ApiQuery {
  import opened Wrappers
  import opened Strings
  import opened ApiTypes
  import Lists

  /** The parameter names the two functions write. */
  datatype Key = Db | View | Schema | SyncedViewId | Page | PageSize | Search | SortBy | SortOrderKey | Filters {
    /** The name as it appears in the query string. */
    function Name(): string {
      match this
      case Db => "db"
      case View => "view"
      case Schema => "schema"
      case SyncedViewId => "syncedViewId"
      case Page => "page"
      case PageSize => "pageSize"
      case Search => "search"
      case SortBy => "sortBy"
      case SortOrderKey => "sortOrder"
      case Filters => "filters"
    }
  }

  /** Distinct keys have distinct names, so a query over `Key` is a query
      over names. */
  lemma NamesDistinct(a: Key, b: Key)
    requires a.Name() == b.Name()
    ensures a == b
  {
    assert a.Name()[0] == b.Name()[0];
    if a.Name()[0] == 's' {
      assert a.Name()[1] == b.Name()[1];
      if a.Name()[1] == 'o' {
        assert |a.Name()| == |b.Name()|;
      } else {
        assert a.Name()[2] == b.Name()[2];
      }
    } else if a.Name()[0] == 'p' {
      assert |a.Name()| == |b.Name()|;
    }
  }

  type Query = seq<(Key, string)>

  /** The query with its keys written out as strings. */
  function Named(q: Query): (r: seq<(string, string)>)
    ensures |r| == |q|
    ensures forall i :: 0 <= i < |q| ==> r[i] == (q[i].0.Name(), q[i].1)
  {
    if q == [] then [] else [(q[0].0.Name(), q[0].1)] + Named(q[1..])
  }

  /** The keys of a query, in order. */
  function Keys(q: Query): (ks: seq<Key>)
    ensures |ks| == |q|
    ensures forall i :: 0 <= i < |q| ==> ks[i] == q[i].0
  {
    if q == [] then [] else [q[0].0] + Keys(q[1..])
  }

  /** No key occurs twice. */
  predicate DistinctKeys(q: Query) {
    q == [] || (q[0].0 !in Keys(q[1..]) && DistinctKeys(q[1..]))
  }

  /** `searchParams.get(k)`: the value of the first entry named `k`. */
  function Lookup(q: Query, k: Key): (r: Option<string>)
    ensures r.None? <==> k !in Keys(q)
    ensures r.Some? ==> exists i :: 0 <= i < |q| && q[i] == (k, r.value) && forall j :: 0 <= j < i ==> q[j].0 != k
  {
    if q == [] then None
    else if q[0].0 == k then Some(q[0].1)
    else
      var r := Lookup(q[1..], k);
      if r.Some? then
        var i :| 0 <= i < |q[1..]| && q[1..][i] == (k, r.value) && forall j :: 0 <= j < i ==> q[1..][j].0 != k;
        assert q[i + 1] == (k, r.value) && forall j :: 0 <= j < i + 1 ==> q[j].0 != k;
        r
      else r
  }

  /** All entries named `k` dropped. */
  function RemoveKey(q: Query, k: Key): (r: Query)
    ensures k !in Keys(r)
    ensures |r| <= |q|
  {
    if q == [] then []
    else if q[0].0 == k then RemoveKey(q[1..], k)
    else [q[0]] + RemoveKey(q[1..], k)
  }

  /** Removing `k` keeps every other key and what it looks up. */
  lemma {:induction false} RemoveKeyOther(q: Query, k: Key, x: Key)
    requires x != k
    ensures x in Keys(RemoveKey(q, k)) <==> x in Keys(q)
    ensures Lookup(RemoveKey(q, k), x) == Lookup(q, x)
  {
    if q != [] {
      RemoveKeyOther(q[1..], k, x);
    }
  }

  /** Removing a key keeps the keys distinct. */
  lemma {:induction false} RemoveKeyDistinct(q: Query, k: Key)
    requires DistinctKeys(q)
    ensures DistinctKeys(RemoveKey(q, k))
  {
    if q != [] {
      RemoveKeyDistinct(q[1..], k);
      if q[0].0 != k {
        RemoveKeyOther(q[1..], k, q[0].0);
      }
    }
  }

  /** `searchParams.set(k, v)`: the first entry named `k` takes the value `v`
      and later ones are dropped; without such an entry, `(k, v)` is appended. */
  function SetParam(q: Query, k: Key, v: string): (r: Query)
    ensures Lookup(r, k) == Some(v)
  {
    if q == [] then [(k, v)]
    else if q[0].0 == k then [(k, v)] + RemoveKey(q[1..], k)
    else [q[0]] + SetParam(q[1..], k, v)
  }

  /** After `set`, the keys are those of the query plus `k`. */
  lemma {:induction false} SetParamKeys(q: Query, k: Key, v: string, x: Key)
    ensures x in Keys(SetParam(q, k, v)) <==> x in Keys(q) || x == k
  {
    if q != [] {
      if q[0].0 == k {
        ConsUnfold((k, v), RemoveKey(q[1..], k), x);
        if x != k {
          RemoveKeyOther(q[1..], k, x);
        }
      } else {
        ConsUnfold(q[0], SetParam(q[1..], k, v), x);
        SetParamKeys(q[1..], k, v, x);
      }
    }
  }

  /** `set` changes no other key: every other key looks up what it did. */
  lemma {:induction false} SetParamOther(q: Query, k: Key, v: string, x: Key)
    requires x != k
    ensures Lookup(SetParam(q, k, v), x) == Lookup(q, x)
  {
    if q != [] {
      var t := q[1..];
      assert Lookup(q, x) == if q[0].0 == x then Some(q[0].1) else Lookup(t, x);
      if q[0].0 == k {
        assert SetParam(q, k, v) == [(k, v)] + RemoveKey(t, k);
        ConsUnfold((k, v), RemoveKey(t, k), x);
        RemoveKeyOther(t, k, x);
      } else {
        assert SetParam(q, k, v) == [q[0]] + SetParam(t, k, v);
        ConsUnfold(q[0], SetParam(t, k, v), x);
        SetParamOther(t, k, v, x);
      }
    }
  }

  /** `Keys` and `Lookup` on a query with a known first entry. */
  lemma ConsUnfold(e: (Key, string), r: Query, x: Key)
    ensures Keys([e] + r) == [e.0] + Keys(r)
    ensures Lookup([e] + r, x) == if e.0 == x then Some(e.1) else Lookup(r, x)
  {
    assert ([e] + r)[1..] == r;
  }

  /** `set` keeps the keys distinct. */
  lemma {:induction false} SetParamDistinct(q: Query, k: Key, v: string)
    requires DistinctKeys(q)
    ensures DistinctKeys(SetParam(q, k, v))
  {
    if q != [] {
      if q[0].0 == k {
        RemoveKeyDistinct(q[1..], k);
      } else {
        SetParamDistinct(q[1..], k, v);
        SetParamKeys(q[1..], k, v, q[0].0);
      }
    }
  }

  /** Setting a key the query does not hold appends it. */
  lemma {:induction false} SetFresh(q: Query, k: Key, v: string)
    requires k !in Keys(q)
    ensures SetParam(q, k, v) == q + [(k, v)]
  {
    if q != [] {
      SetFresh(q[1..], k, v);
      Lists.Assoc([q[0]], q[1..], [(k, v)]);
    }
  }

  /** Setting the same key twice keeps only the second value. */
  lemma {:induction false} SetTwice(q: Query, k: Key, v: string, w: string, x: Key)
    ensures Lookup(SetParam(SetParam(q, k, v), k, w), x) == if x == k then Some(w) else Lookup(q, x)
  {
    if x != k {
      SetParamOther(SetParam(q, k, v), k, w, x);
      SetParamOther(q, k, v, x);
    }
  }

  /** Appending an entry under a key the query does not hold: that key
      looks up the new value, every other key what it did. */
  lemma {:induction false} AppendFresh(q: Query, e: (Key, string), x: Key)
    requires e.0 !in Keys(q)
    ensures x in Keys(q + [e]) <==> x in Keys(q) || x == e.0
    ensures Lookup(q + [e], x) == if x == e.0 then Some(e.1) else Lookup(q, x)
  {
    if q != [] {
      assert (q + [e])[1..] == q[1..] + [e];
      AppendFresh(q[1..], e, x);
    }
  }

  /** The keys after appending an entry. */
  lemma {:induction false} KeysSnoc(q: Query, e: (Key, string))
    ensures Keys(q + [e]) == Keys(q) + [e.0]
  {
    if q != [] {
      assert (q + [e])[1..] == q[1..] + [e];
      KeysSnoc(q[1..], e);
      Lists.Assoc([q[0].0], Keys(q[1..]), [e.0]);
    }
  }

  /** Appending under a fresh key keeps the keys distinct. */
  lemma {:induction false} AppendFreshDistinct(q: Query, e: (Key, string))
    requires e.0 !in Keys(q) && DistinctKeys(q)
    ensures DistinctKeys(q + [e])
  {
    if q != [] {
      assert (q + [e])[1..] == q[1..] + [e];
      AppendFreshDistinct(q[1..], e);
      AppendFresh(q[1..], e, q[0].0);
    }
  }

  /** No two candidates share a key. */
  predicate DistinctCandidates(c: seq<(Key, Option<string>)>) {
    forall i, j :: 0 <= i < j < |c| ==> c[i].0 != c[j].0
  }

  /** The entries the first `n` candidates of `c` write, in call order: a
      candidate with no value writes nothing. */
  function Written(c: seq<(Key, Option<string>)>, n: nat): (q: Query)
    requires n <= |c|
    ensures |q| <= n
  {
    if n == 0 then []
    else if c[n - 1].1.Some? then Written(c, n - 1) + [(c[n - 1].0, c[n - 1].1.value)]
    else Written(c, n - 1)
  }

  /** A key none of the first `n` candidates names is not written. */
  lemma {:induction false} WrittenAbsent(c: seq<(Key, Option<string>)>, n: nat, x: Key)
    requires n <= |c|
    requires forall i :: 0 <= i < n ==> c[i].0 != x
    ensures x !in Keys(Written(c, n))
  {
    if n > 0 {
      WrittenAbsent(c, n - 1, x);
      if c[n - 1].1.Some? {
        KeysSnoc(Written(c, n - 1), (c[n - 1].0, c[n - 1].1.value));
      }
    }
  }

  /** With distinct keys, each written candidate's key looks up the
      candidate's value, and no key is written twice. */
  lemma {:induction false} WrittenAt(c: seq<(Key, Option<string>)>, n: nat, i: nat)
    requires DistinctCandidates(c) && i < n <= |c|
    ensures Lookup(Written(c, n), c[i].0) == c[i].1
    ensures DistinctKeys(Written(c, n))
  {
    var last := c[n - 1];
    WrittenAbsent(c, n - 1, last.0);
    if i < n - 1 {
      WrittenAt(c, n - 1, i);
    } else if n > 1 {
      WrittenAt(c, n - 1, 0);
    }
    if last.1.Some? {
      AppendFresh(Written(c, n - 1), (last.0, last.1.value), c[i].0);
      AppendFreshDistinct(Written(c, n - 1), (last.0, last.1.value));
    }
  }

  /** Over distinct candidates, writing the next candidate is one `set` call
      when it has a value, and nothing otherwise. */
  lemma WrittenStep(c: seq<(Key, Option<string>)>, n: nat)
    requires DistinctCandidates(c) && n < |c|
    ensures c[n].1.Some? ==> Written(c, n + 1) == SetParam(Written(c, n), c[n].0, c[n].1.value)
    ensures c[n].1.None? ==> Written(c, n + 1) == Written(c, n)
  {
    if c[n].1.Some? {
      WrittenAbsent(c, n, c[n].0);
      SetFresh(Written(c, n), c[n].0, c[n].1.value);
    }
  }

  /** `if (value) qs.set(k, value)`: `v` is the query value of the
      parameter, present exactly when the source's guard holds. When `(k, v)`
      is candidate `i` of `c` and the query holds the candidates before it,
      the query comes to hold candidate `i` as well. */
  method SetWhenPresent(q: Query, k: Key, v: Option<string>, ghost c: seq<(Key, Option<string>)>, ghost i: nat) returns (r: Query)
    requires DistinctCandidates(c) && i < |c| && c[i] == (k, v) && q == Written(c, i)
    ensures r == Written(c, i + 1)
  {
    WrittenStep(c, i);
    if v.Some? {
      r := SetParam(q, k, v.value);
    } else {
      r := q;
    }
  }

  /** The query value of an optional string parameter. */
  function StringParam(s: Option<string>): (r: Option<string>)
    ensures r.Some? <==> TruthyString(s)
    ensures r.Some? ==> r == s
  {
    if TruthyString(s) then s else None
  }

  /** The query value of an optional number parameter (`String(n)`). */
  function IntParam(n: Option<int>): (r: Option<string>)
    ensures r.Some? <==> TruthyInt(n)
    ensures r.Some? ==> r.value == IntToString(n.value)
  {
    if TruthyInt(n) then Some(IntToString(n.value)) else None
  }

  /** The query value of `sortOrder`: both of its values are truthy. */
  function OrderParam(o: Option<SortOrder>): (r: Option<string>)
    ensures r.Some? <==> o.Some?
    ensures r.Some? ==> r.value == o.value.Text()
  {
    match o
    case None => None
    case Some(d) => Some(d.Text())
  }

  /** `ViewDataParams`. */
  datatype ViewDataParams = ViewDataParams(
    db: string, view: string, schema: Option<string>, page: Option<int>, pageSize: Option<int>,
    search: Option<string>, sortBy: Option<string>, sortOrder: Option<SortOrder>)

  /** What `getViewData` means to send under each key: `db` and `view`
      always, every other parameter it writes only when truthy, and no
      other key. */
  function ViewDataValue(p: ViewDataParams, k: Key): Option<string> {
    match k
    case Db => Some(p.db)
    case View => Some(p.view)
    case Schema => StringParam(p.schema)
    case Page => IntParam(p.page)
    case PageSize => IntParam(p.pageSize)
    case Search => StringParam(p.search)
    case SortBy => StringParam(p.sortBy)
    case SortOrderKey => OrderParam(p.sortOrder)
    case SyncedViewId => None
    case Filters => None
  }

  /** The entries `getViewData` may write, in the order of its `set` calls. */
  function ViewDataCandidates(p: ViewDataParams): seq<(Key, Option<string>)> {
    [(Db, Some(p.db)),
     (View, Some(p.view)),
     (Schema, StringParam(p.schema)),
     (Page, IntParam(p.page)),
     (PageSize, IntParam(p.pageSize)),
     (Search, StringParam(p.search)),
     (SortBy, StringParam(p.sortBy)),
     (SortOrderKey, OrderParam(p.sortOrder))]
  }

  /** No two of `getViewData`'s candidates share a key. */
  lemma ViewDataCandidatesDistinct(p: ViewDataParams)
    ensures DistinctCandidates(ViewDataCandidates(p))
  {
  }

  /** `getViewData` (lines 80-90): the query it sends is its candidates with
      a value, in call order. */
  method ViewDataQuery(p: ViewDataParams) returns (q: Query)
    ensures q == Written(ViewDataCandidates(p), 8)
  {
    ghost var c := ViewDataCandidates(p);
    ViewDataCandidatesDistinct(p);
    q := [];
    q := SetWhenPresent(q, Db, Some(p.db), c, 0);
    q := SetWhenPresent(q, View, Some(p.view), c, 1);
    q := SetWhenPresent(q, Schema, StringParam(p.schema), c, 2);
    q := SetWhenPresent(q, Page, IntParam(p.page), c, 3);
    q := SetWhenPresent(q, PageSize, IntParam(p.pageSize), c, 4);
    q := SetWhenPresent(q, Search, StringParam(p.search), c, 5);
    q := SetWhenPresent(q, SortBy, StringParam(p.sortBy), c, 6);
    q := SetWhenPresent(q, SortOrderKey, OrderParam(p.sortOrder), c, 7);
  }

  /** The query `getViewData` sends looks up, under key `k`, the value it
      means to send. */
  lemma ViewDataQueryLookup(p: ViewDataParams, k: Key)
    ensures Lookup(Written(ViewDataCandidates(p), 8), k) == ViewDataValue(p, k)
  {
    var c := ViewDataCandidates(p);
    ViewDataCandidatesDistinct(p);
    match k
    case Db => WrittenAt(c, 8, 0);
    case View => WrittenAt(c, 8, 1);
    case Schema => WrittenAt(c, 8, 2);
    case Page => WrittenAt(c, 8, 3);
    case PageSize => WrittenAt(c, 8, 4);
    case Search => WrittenAt(c, 8, 5);
    case SortBy => WrittenAt(c, 8, 6);
    case SortOrderKey => WrittenAt(c, 8, 7);
    case SyncedViewId => WrittenAbsent(c, 8, k);
    case Filters => WrittenAbsent(c, 8, k);
  }

  /** The query `getViewData` sends holds no key twice. */
  lemma ViewDataQueryDistinct(p: ViewDataParams)
    ensures DistinctKeys(Written(ViewDataCandidates(p), 8))
  {
    ViewDataCandidatesDistinct(p);
    WrittenAt(ViewDataCandidates(p), 8, 0);
  }

  /** A filter as it is sent: no `id`, and `value2` only when non-empty. */
  datatype SerializedFilter = SerializedFilter(column: string, operator: string, value: string, value2: Option<string>)

  /** The projection of lines 305-307, in list order. */
  function SerializeFilters(fs: seq<ColumnFilter>): (r: seq<SerializedFilter>)
    ensures |r| == |fs|
    ensures forall i :: 0 <= i < |fs| ==>
      r[i].column == fs[i].column && r[i].operator == fs[i].operator && r[i].value == fs[i].value
    ensures forall i :: 0 <= i < |fs| ==>
      (r[i].value2.Some? <==> TruthyString(fs[i].value2)) && (r[i].value2.Some? ==> r[i].value2 == fs[i].value2)
  {
    if fs == [] then []
    else
      var f := fs[0];
      [SerializedFilter(f.column, f.operator, f.value, if TruthyString(f.value2) then f.value2 else None)]
        + SerializeFilters(fs[1..])
  }

  /** `WarehouseDataParams`. */
  datatype WarehouseDataParams = WarehouseDataParams(
    syncedViewId: string, page: Option<int>, pageSize: Option<int>, search: Option<string>,
    sortBy: Option<string>, sortOrder: Option<SortOrder>, filters: Option<seq<ColumnFilter>>)

  /** The `filters` value: present only for a non-empty list. */
  function FiltersParam(fs: Option<seq<ColumnFilter>>, stringify: seq<SerializedFilter> -> string): (r: Option<string>)
    ensures r.Some? <==> fs.Some? && |fs.value| > 0
    ensures r.Some? ==> r.value == stringify(SerializeFilters(fs.value))
  {
    if fs.Some? && |fs.value| > 0 then Some(stringify(SerializeFilters(fs.value))) else None
  }

  /** What `getWarehouseData` means to send under each key: `syncedViewId`
      always, every other parameter it writes only when truthy (`filters` only
      for a non-empty list), and no other key. */
  function WarehouseDataValue(p: WarehouseDataParams, stringify: seq<SerializedFilter> -> string, k: Key): Option<string> {
    match k
    case SyncedViewId => Some(p.syncedViewId)
    case Page => IntParam(p.page)
    case PageSize => IntParam(p.pageSize)
    case Search => StringParam(p.search)
    case SortBy => StringParam(p.sortBy)
    case SortOrderKey => OrderParam(p.sortOrder)
    case Filters => FiltersParam(p.filters, stringify)
    case Db => None
    case View => None
    case Schema => None
  }

  /** The entries `getWarehouseData` may write, in the order of its `set` calls. */
  function WarehouseDataCandidates(p: WarehouseDataParams, stringify: seq<SerializedFilter> -> string): seq<(Key, Option<string>)> {
    [(SyncedViewId, Some(p.syncedViewId)),
     (Page, IntParam(p.page)),
     (PageSize, IntParam(p.pageSize)),
     (Search, StringParam(p.search)),
     (SortBy, StringParam(p.sortBy)),
     (SortOrderKey, OrderParam(p.sortOrder)),
     (Filters, FiltersParam(p.filters, stringify))]
  }

  /** No two of `getWarehouseData`'s candidates share a key. */
  lemma WarehouseDataCandidatesDistinct(p: WarehouseDataParams, stringify: seq<SerializedFilter> -> string)
    ensures DistinctCandidates(WarehouseDataCandidates(p, stringify))
  {
  }

  /** `getWarehouseData` (lines 296-310): the query it sends is its candidates
      with a value, in call order; `JSON.stringify` is the parameter
      `stringify`. */
  method WarehouseDataQuery(p: WarehouseDataParams, stringify: seq<SerializedFilter> -> string) returns (q: Query)
    ensures q == Written(WarehouseDataCandidates(p, stringify), 7)
  {
    ghost var c := WarehouseDataCandidates(p, stringify);
    WarehouseDataCandidatesDistinct(p, stringify);
    q := [];
    q := SetWhenPresent(q, SyncedViewId, Some(p.syncedViewId), c, 0);
    q := SetWhenPresent(q, Page, IntParam(p.page), c, 1);
    q := SetWhenPresent(q, PageSize, IntParam(p.pageSize), c, 2);
    q := SetWhenPresent(q, Search, StringParam(p.search), c, 3);
    q := SetWhenPresent(q, SortBy, StringParam(p.sortBy), c, 4);
    q := SetWhenPresent(q, SortOrderKey, OrderParam(p.sortOrder), c, 5);
    q := SetWhenPresent(q, Filters, FiltersParam(p.filters, stringify), c, 6);
  }

  /** The query `getWarehouseData` sends looks up, under key `k`, the value
      it means to send. */
  lemma WarehouseDataQueryLookup(p: WarehouseDataParams, stringify: seq<SerializedFilter> -> string, k: Key)
    ensures Lookup(Written(WarehouseDataCandidates(p, stringify), 7), k) == WarehouseDataValue(p, stringify, k)
  {
    var c := WarehouseDataCandidates(p, stringify);
    WarehouseDataCandidatesDistinct(p, stringify);
    match k
    case SyncedViewId => WrittenAt(c, 7, 0);
    case Page => WrittenAt(c, 7, 1);
    case PageSize => WrittenAt(c, 7, 2);
    case Search => WrittenAt(c, 7, 3);
    case SortBy => WrittenAt(c, 7, 4);
    case SortOrderKey => WrittenAt(c, 7, 5);
    case Filters => WrittenAt(c, 7, 6);
    case Db => WrittenAbsent(c, 7, k);
    case View => WrittenAbsent(c, 7, k);
    case Schema => WrittenAbsent(c, 7, k);
  }

  /** The query `getWarehouseData` sends holds no key twice. */
  lemma WarehouseDataQueryDistinct(p: WarehouseDataParams, stringify: seq<SerializedFilter> -> string)
    ensures DistinctKeys(Written(WarehouseDataCandidates(p, stringify), 7))
  {
    WarehouseDataCandidatesDistinct(p, stringify);
    WrittenAt(WarehouseDataCandidates(p, stringify), 7, 0);
  }
}
