/** Array operations the source uses through `Array.prototype.filter`,
    `map` and `find`/`findIndex`, each defined once and proved here. */
module Lists {
  import opened Wrappers

  /** `s.filter(keep)`: the elements that pass, in their original order. */
  function Filter<T(!new)>(keep: T -> bool, s: seq<T>): (r: seq<T>)
    ensures |r| <= |s|
    ensures forall x :: x in r <==> x in s && keep(x)
    ensures (forall x :: x in s ==> keep(x)) ==> r == s
  {
    if s == [] then []
    else (if keep(s[0]) then [s[0]] else []) + Filter(keep, s[1..])
  }

  /** Filtering distributes over concatenation, so the relative order of the
      kept elements is the order they had in the input. */
  lemma {:induction false} FilterAppend<T(!new)>(keep: T -> bool, a: seq<T>, b: seq<T>)
    ensures Filter(keep, a + b) == Filter(keep, a) + Filter(keep, b)
  {
    if a == [] {
      assert a + b == b;
    } else {
      var h := if keep(a[0]) then [a[0]] else [];
      assert (a + b)[0] == a[0];
      assert (a + b)[1..] == a[1..] + b;
      assert Filter(keep, a + b) == h + Filter(keep, a[1..] + b);
      FilterAppend(keep, a[1..], b);
      Assoc(h, Filter(keep, a[1..]), Filter(keep, b));
    }
  }

  /** One step of the filter: the head is kept or dropped, then the rest. */
  lemma FilterCons<T(!new)>(keep: T -> bool, x: T, s: seq<T>)
    ensures Filter(keep, [x] + s) == (if keep(x) then [x] else []) + Filter(keep, s)
  {
    assert ([x] + s)[1..] == s;
  }

  lemma Assoc<T>(a: seq<T>, b: seq<T>, c: seq<T>)
    ensures a + (b + c) == (a + b) + c
  {
  }

  /** `s.map(x => hit(x) ? y : x)`: every element that `hit` selects is
      replaced by `y`; the others stay where they are. */
  function ReplaceIf<T>(hit: T -> bool, s: seq<T>, y: T): (r: seq<T>)
    ensures |r| == |s|
    ensures forall i :: 0 <= i < |s| ==> r[i] == (if hit(s[i]) then y else s[i])
  {
    if s == [] then []
    else [if hit(s[0]) then y else s[0]] + ReplaceIf(hit, s[1..], y)
  }

  /** `s.findIndex(p)`, with `None` for JavaScript's -1. */
  function FindIndex<T>(p: T -> bool, s: seq<T>): (r: Option<nat>)
    ensures r.Some? ==> r.value < |s| && p(s[r.value])
    ensures r.Some? ==> forall j :: 0 <= j < r.value ==> !p(s[j])
    ensures r.None? ==> forall j :: 0 <= j < |s| ==> !p(s[j])
  {
    if s == [] then None
    else if p(s[0]) then Some(0)
    else match FindIndex(p, s[1..])
      case None => None
      case Some(k) => Some(k + 1)
  }

  /** `s.find(p)`: the first element satisfying `p`, if any. */
  function Find<T(!new)>(p: T -> bool, s: seq<T>): (r: Option<T>)
    ensures r.Some? ==> r.value in s && p(r.value)
    ensures r.Some? ==> exists i :: 0 <= i < |s| && s[i] == r.value && forall j :: 0 <= j < i ==> !p(s[j])
    ensures r.None? <==> forall x :: x in s ==> !p(x)
  {
    match FindIndex(p, s)
    case None => None
    case Some(i) => Some(s[i])
  }

  /** `find` stops at the first element that passes. */
  lemma FindAt<T(!new)>(p: T -> bool, s: seq<T>, i: nat)
    requires i < |s| && p(s[i])
    requires forall j :: 0 <= j < i ==> !p(s[j])
    ensures Find(p, s) == Some(s[i])
  {
    var r := FindIndex(p, s);
    assert r.Some? && r.value == i;
  }

  /** `findIndex` over a concatenation: the first hit in `a`, or else the
      first hit in `b` shifted past `a`. */
  lemma {:induction false} FindIndexAppend<T>(p: T -> bool, a: seq<T>, b: seq<T>)
    ensures FindIndex(p, a + b) ==
      match FindIndex(p, a)
      case Some(i) => Some(i)
      case None => match FindIndex(p, b) { case Some(j) => Some(|a| + j) case None => None }
  {
    if a == [] {
      assert a + b == b;
    } else {
      assert (a + b)[0] == a[0];
      assert (a + b)[1..] == a[1..] + b;
      if !p(a[0]) {
        FindIndexAppend(p, a[1..], b);
      }
    }
  }

  /** Filtering keeps distinct keys distinct. */
  lemma {:induction false} FilterKeepsDistinct<T(!new), K>(keep: T -> bool, key: T -> K, s: seq<T>)
    requires forall i, j :: 0 <= i < j < |s| ==> key(s[i]) != key(s[j])
    ensures forall i, j :: 0 <= i < j < |Filter(keep, s)| ==> key(Filter(keep, s)[i]) != key(Filter(keep, s)[j])
  {
    if s != [] {
      FilterKeepsDistinct(keep, key, s[1..]);
      var t := Filter(keep, s[1..]);
      var r := Filter(keep, s);
      if keep(s[0]) {
        assert r == [s[0]] + t;
        forall i, j | 0 <= i < j < |r| ensures key(r[i]) != key(r[j]) {
          assert r[j] == t[j - 1];
          if i == 0 {
            assert t[j - 1] in s[1..];
            var k :| 0 <= k < |s| - 1 && s[1..][k] == t[j - 1];
            assert s[k + 1] == r[j];
          } else {
            assert r[i] == t[i - 1];
          }
        }
      } else {
        assert r == t;
      }
    }
  }
}
