/** The list edits of the filter builder
    (src/modules/shared/components/filters/filter-builder.tsx): each handler
    builds a new filter list and hands it to `onFiltersChange`, so each is a
    function from the old list to the new one. `crypto.randomUUID` is the
    parameter `freshId`. */
module FilterBuilder {
  import opened Wrappers
  import opened ApiTypes
  import Lists

  /** The ids of a filter list, in order. */
  function Ids(fs: seq<ColumnFilter>): (ids: seq<string>)
    ensures |ids| == |fs|
    ensures forall i :: 0 <= i < |fs| ==> ids[i] == fs[i].id
  {
    if fs == [] then [] else [fs[0].id] + Ids(fs[1..])
  }

  /** No two filters share an id (the rows are keyed by id). */
  predicate UniqueIds(fs: seq<ColumnFilter>) {
    forall i, j :: 0 <= i < j < |fs| ==> fs[i].id != fs[j].id
  }

  /** The filter `addFilter` creates: no column, `'contains'`, no value. */
  function BlankFilter(id: string): ColumnFilter {
    ColumnFilter(id, "", "contains", "", None)
  }

  /** `addFilter`: one blank filter is appended; the others keep their
      values and places. */
  function AddFilter(fs: seq<ColumnFilter>, freshId: string): (r: seq<ColumnFilter>)
    ensures |r| == |fs| + 1 && r[..|fs|] == fs
    ensures r[|fs|].id == freshId && r[|fs|].column == "" && r[|fs|].operator == "contains"
    ensures r[|fs|].value == "" && r[|fs|].value2.None?
  {
    fs + [BlankFilter(freshId)]
  }

  /** The test of `f.id === id`. */
  function IdIs(id: string): ColumnFilter -> bool {
    (f: ColumnFilter) => f.id == id
  }

  /** The test of `f.id !== id`. */
  function IdIsNot(id: string): ColumnFilter -> bool {
    (f: ColumnFilter) => f.id != id
  }

  /** `updateFilter(id, updated)`: same length, every filter with that id
      replaced by `updated`, every other filter where it was. */
  function UpdateFilter(fs: seq<ColumnFilter>, id: string, updated: ColumnFilter): (r: seq<ColumnFilter>)
    ensures |r| == |fs|
    ensures forall i :: 0 <= i < |fs| && fs[i].id == id ==> r[i] == updated
    ensures forall i :: 0 <= i < |fs| && fs[i].id != id ==> r[i] == fs[i]
  {
    Lists.ReplaceIf(IdIs(id), fs, updated)
  }

  /** `removeFilter(id)`: the filters with another id, in their order. */
  function RemoveFilter(fs: seq<ColumnFilter>, id: string): (r: seq<ColumnFilter>)
    ensures forall f :: f in r <==> f in fs && f.id != id
    ensures id !in Ids(fs) ==> r == fs
    ensures |r| <= |fs|
  {
    assert forall f :: f in fs && f.id == id ==> id in Ids(fs) by {
      forall f | f in fs && f.id == id ensures id in Ids(fs) {
        var i :| 0 <= i < |fs| && fs[i] == f;
        assert Ids(fs)[i] == id;
      }
    }
    Lists.Filter(IdIsNot(id), fs)
  }

  /** Removal keeps relative order: removing from a concatenation removes
      from each part. */
  lemma RemoveFilterAppend(a: seq<ColumnFilter>, b: seq<ColumnFilter>, id: string)
    ensures RemoveFilter(a + b, id) == RemoveFilter(a, id) + RemoveFilter(b, id)
  {
    Lists.FilterAppend(IdIsNot(id), a, b);
  }

  /** `clearAll`. */
  function ClearAll(fs: seq<ColumnFilter>): (r: seq<ColumnFilter>)
    ensures r == []
  {
    []
  }

  /** The Clear All button is shown iff there is a filter. */
  predicate ShowsClearAll(fs: seq<ColumnFilter>) {
    |fs| > 0
  }

  /** Clear All disappears once pressed and appears with the first added
      filter. */
  lemma ClearAllButton(fs: seq<ColumnFilter>, freshId: string)
    ensures !ShowsClearAll(ClearAll(fs))
    ensures ShowsClearAll(AddFilter(fs, freshId))
  {
  }

  /** Removing the filter just added gives back the list, when the new id
      was fresh. */
  lemma {:induction false} RemoveUndoesAdd(fs: seq<ColumnFilter>, freshId: string)
    requires freshId !in Ids(fs)
    ensures RemoveFilter(AddFilter(fs, freshId), freshId) == fs
  {
    RemoveFilterAppend(fs, [BlankFilter(freshId)], freshId);
    assert RemoveFilter([BlankFilter(freshId)], freshId) == [];
  }

  /** Repeating an update changes nothing more. */
  lemma UpdateIdempotent(fs: seq<ColumnFilter>, id: string, updated: ColumnFilter)
    requires updated.id == id
    ensures UpdateFilter(UpdateFilter(fs, id, updated), id, updated) == UpdateFilter(fs, id, updated)
  {
  }

  /** A fresh id keeps the ids unique across `addFilter`. */
  lemma AddKeepsUnique(fs: seq<ColumnFilter>, freshId: string)
    requires UniqueIds(fs) && freshId !in Ids(fs)
    ensures UniqueIds(AddFilter(fs, freshId))
  {
    var r := AddFilter(fs, freshId);
    forall i, j | 0 <= i < j < |r| ensures r[i].id != r[j].id {
      if j == |fs| {
        assert Ids(fs)[i] == r[i].id;
      }
    }
  }

  /** `updateFilter` with a filter that keeps the id keeps the ids unique. */
  lemma UpdateKeepsUnique(fs: seq<ColumnFilter>, id: string, updated: ColumnFilter)
    requires UniqueIds(fs) && updated.id == id
    ensures UniqueIds(UpdateFilter(fs, id, updated))
    ensures Ids(UpdateFilter(fs, id, updated)) == Ids(fs)
  {
  }

  /** The id of a filter. */
  function IdOf(): ColumnFilter -> string {
    (f: ColumnFilter) => f.id
  }

  /** Removing filters keeps the ids unique. */
  lemma RemoveKeepsUnique(fs: seq<ColumnFilter>, id: string)
    requires UniqueIds(fs)
    ensures UniqueIds(RemoveFilter(fs, id))
  {
    Lists.FilterKeepsDistinct(IdIsNot(id), IdOf(), fs);
  }
}
