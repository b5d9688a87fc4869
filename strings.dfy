/** The JavaScript string operations the source relies on, written out on
    `seq<char>`: `split` and `join` with a string separator, `startsWith`,
    `trim`, ASCII `toUpperCase`, and the decimal rendering of integers that
    template literals and `String(n)` perform. */
module Strings {

  predicate IsPrefix(p: string, s: string) {
    |p| <= |s| && s[..|p|] == p
  }

  /** `s` contains `t` as a contiguous piece. */
  predicate Contains(s: string, t: string)
    decreases |s|
  {
    IsPrefix(t, s) || (|s| > 0 && Contains(s[1..], t))
  }

  /** `s.split(sep)` for a non-empty separator: a left-to-right scan that cuts
      at each occurrence of `sep` not overlapping an earlier cut. */
  function Split(s: string, sep: string): (parts: seq<string>)
    requires |sep| > 0
    ensures |parts| >= 1
    decreases |s|
  {
    if |s| < |sep| then [s]
    else if IsPrefix(sep, s) then [""] + Split(s[|sep|..], sep)
    else
      var rest := Split(s[1..], sep);
      [[s[0]] + rest[0]] + rest[1..]
  }

  /** `parts.join(sep)`. */
  function Join(parts: seq<string>, sep: string): string
  {
    if |parts| == 0 then ""
    else if |parts| == 1 then parts[0]
    else parts[0] + sep + Join(parts[1..], sep)
  }

  function AllButLast<T>(s: seq<T>): seq<T>
    requires |s| > 0
  {
    s[..|s| - 1]
  }

  function Last<T>(s: seq<T>): T
    requires |s| > 0
  {
    s[|s| - 1]
  }

  /** Joining the pieces of a split with the same separator gives back the
      original string. */
  lemma {:induction false} JoinSplit(s: string, sep: string)
    requires |sep| > 0
    ensures Join(Split(s, sep), sep) == s
    decreases |s|
  {
    if |s| < |sep| {
    } else if IsPrefix(sep, s) {
      JoinSplit(s[|sep|..], sep);
      var rest := Split(s[|sep|..], sep);
      assert Split(s, sep) == [""] + rest;
      assert ([""] + rest)[1..] == rest;
      assert s == sep + s[|sep|..];
    } else {
      JoinSplit(s[1..], sep);
      var rest := Split(s[1..], sep);
      assert s == [s[0]] + s[1..];
      if |rest| > 1 {
        var p := [[s[0]] + rest[0]] + rest[1..];
        assert p[1..] == rest[1..];
        assert Join(rest, sep) == rest[0] + sep + Join(rest[1..], sep);
      }
    }
  }

  /** The first piece of a split is a prefix of the input. */
  lemma {:induction false} SplitHeadIsPrefix(s: string, sep: string)
    requires |sep| > 0
    ensures IsPrefix(Split(s, sep)[0], s)
    decreases |s|
  {
    if |s| < |sep| {
    } else if IsPrefix(sep, s) {
      SplitCut(s, sep);
    } else {
      SplitKeep(s, sep);
      SplitHeadIsPrefix(s[1..], sep);
      PrefixCons(s[0], Split(s[1..], sep)[0], s[1..]);
      assert [s[0]] + s[1..] == s;
    }
  }

  lemma PrefixCons(c: char, p: string, t: string)
    requires IsPrefix(p, t)
    ensures IsPrefix([c] + p, [c] + t)
  {
    assert ([c] + t)[..|p| + 1] == [c] + t[..|p|];
  }

  /** No piece of a split contains the separator. */
  lemma {:induction false} SplitPiecesFree(s: string, sep: string, i: nat)
    requires |sep| > 0 && i < |Split(s, sep)|
    ensures !Contains(Split(s, sep)[i], sep)
    decreases |s|
  {
    if |s| < |sep| {
      ShortNotContains(s, sep);
    } else if IsPrefix(sep, s) {
      if i == 0 {
        assert !IsPrefix(sep, "");
      } else {
        SplitPiecesFree(s[|sep|..], sep, i - 1);
      }
    } else {
      var rest := Split(s[1..], sep);
      if i == 0 {
        SplitPiecesFree(s[1..], sep, 0);
        SplitHeadIsPrefix(s[1..], sep);
        var head := [s[0]] + rest[0];
        assert head[1..] == rest[0];
        if |sep| <= |head| {
          assert s[..|sep|] == head[..|sep|];
        }
      } else {
        SplitPiecesFree(s[1..], sep, i);
      }
    }
  }

  lemma {:induction false} ShortNotContains(s: string, t: string)
    requires |s| < |t|
    ensures !Contains(s, t)
    decreases |s|
  {
    if |s| > 0 {
      ShortNotContains(s[1..], t);
    }
  }

  /** Splitting the concatenation `x + c` re-splits only the last piece of
      `x`: the pieces before it are final. */
  lemma {:induction false} SplitAppend(x: string, c: string, sep: string)
    requires |sep| > 0
    ensures Split(x + c, sep)
         == AllButLast(Split(x, sep)) + Split(Last(Split(x, sep)) + c, sep)
    decreases |x|, 1
  {
    if |x| < |sep| {
      assert AllButLast(Split(x, sep)) == [];
    } else if IsPrefix(sep, x) {
      SplitAppendCut(x, c, sep);
    } else {
      SplitAppendKeep(x, c, sep);
    }
  }

  /** `SplitAppend` when `x` starts with the separator. */
  lemma {:induction false} SplitAppendCut(x: string, c: string, sep: string)
    requires |sep| > 0 && IsPrefix(sep, x)
    ensures Split(x + c, sep)
         == AllButLast(Split(x, sep)) + Split(Last(Split(x, sep)) + c, sep)
    decreases |x|, 0
  {
    var y := x[|sep|..];
    PrefixExtends(x, c, sep);
    SplitCut(x + c, sep);
    SplitCut(x, sep);
    SplitAppend(y, c, sep);
    var py := Split(y, sep);
    ConsShape("", py, Split(Last(py) + c, sep));
  }

  /** Putting an element in front of a non-empty sequence keeps its last
      element and extends all the others. */
  lemma ConsShape<T>(h: T, p: seq<T>, tail: seq<T>)
    requires |p| > 0
    ensures [h] + (AllButLast(p) + tail) == AllButLast([h] + p) + tail
    ensures Last([h] + p) == Last(p)
  {
    assert AllButLast([h] + p) == [h] + AllButLast(p);
  }

  /** `SplitAppend` when `x` is long enough but does not start with the separator. */
  lemma {:induction false} SplitAppendKeep(x: string, c: string, sep: string)
    requires |sep| > 0 && |x| >= |sep| && !IsPrefix(sep, x)
    ensures Split(x + c, sep)
         == AllButLast(Split(x, sep)) + Split(Last(Split(x, sep)) + c, sep)
    decreases |x|, 0
  {
    var y := x[1..];
    PrefixExtends(x, c, sep);
    SplitKeep(x + c, sep);
    SplitKeep(x, sep);
    SplitAppend(y, c, sep);
    var r := Split(y, sep);
    if |r| == 1 {
      JoinSplit(y, sep);
      assert [x[0]] + y == x;
    } else {
      ExtendHead([x[0]], r, Split(Last(r) + c, sep));
    }
  }

  /** Growing the first piece of a sequence of at least two pieces keeps its
      last piece, and commutes with replacing that last piece by a tail. */
  lemma ExtendHead<T>(h: seq<T>, r: seq<seq<T>>, tail: seq<seq<T>>)
    requires |r| > 1
    ensures var q := AllButLast(r) + tail;
            |q| > 0 && [h + q[0]] + q[1..] == AllButLast([h + r[0]] + r[1..]) + tail
    ensures Last([h + r[0]] + r[1..]) == Last(r)
  {
    var q := AllButLast(r) + tail;
    assert q[0] == r[0];
    assert q[1..] == AllButLast(r)[1..] + tail;
    assert AllButLast([h + r[0]] + r[1..]) == [h + r[0]] + AllButLast(r)[1..];
  }

  /** A string that starts with the separator is cut right there. */
  lemma SplitCut(s: string, sep: string)
    requires |sep| > 0 && IsPrefix(sep, s)
    ensures Split(s, sep) == [""] + Split(s[|sep|..], sep)
  {
  }

  /** A string that does not start with the separator keeps its first character
      in the first piece. */
  lemma SplitKeep(s: string, sep: string)
    requires |sep| > 0 && |s| >= |sep| && !IsPrefix(sep, s)
    ensures Split(s, sep) == [[s[0]] + Split(s[1..], sep)[0]] + Split(s[1..], sep)[1..]
  {
  }

  /** Appending to `x` does not change whether it begins with `sep`, nor what
      follows its first characters. */
  lemma PrefixExtends(x: string, c: string, sep: string)
    requires |sep| <= |x|
    ensures IsPrefix(sep, x + c) <==> IsPrefix(sep, x)
    ensures (x + c)[|sep|..] == x[|sep|..] + c
    ensures |x| > 0 ==> (x + c)[0] == x[0] && (x + c)[1..] == x[1..] + c
  {
    assert (x + c)[..|sep|] == x[..|sep|];
  }

  /** When no occurrence of `sep` starts inside `a`, the first cut of
      `a + sep + b` falls right after `a`. */
  lemma {:induction false} SplitAtFirst(a: string, b: string, sep: string)
    requires |sep| > 0
    requires forall i :: 0 <= i < |a| ==> !IsPrefix(sep, (a + sep + b)[i..])
    ensures Split(a + sep + b, sep) == [a] + Split(b, sep)
    decreases |a|
  {
    var s := a + sep + b;
    if a == [] {
      assert s == sep + b;
      assert s[|sep|..] == b;
    } else {
      assert s[0..] == s;
      assert !IsPrefix(sep, s);
      var t := a[1..] + sep + b;
      assert s[1..] == t;
      forall i | 0 <= i < |a[1..]|
        ensures !IsPrefix(sep, t[i..])
      {
        assert t[i..] == s[i + 1..];
      }
      SplitAtFirst(a[1..], b, sep);
      assert [a[0]] + a[1..] == a;
    }
  }

  /** A string with no occurrence of `sep` is a single piece. */
  lemma {:induction false} SplitFree(s: string, sep: string)
    requires |sep| > 0 && !Contains(s, sep)
    ensures Split(s, sep) == [s]
    decreases |s|
  {
    if |s| >= |sep| {
      SplitFree(s[1..], sep);
      assert [s[0]] + s[1..] == s;
    }
  }

  /** No character of `s` is `c`. */
  predicate Lacks(s: string, c: char) {
    forall i :: 0 <= i < |s| ==> s[i] != c
  }

  /** A string without the character `c` contains no `[c]`. */
  lemma {:induction false} LacksFree(s: string, c: char)
    requires Lacks(s, c)
    ensures !Contains(s, [c])
    decreases |s|
  {
    if |s| > 0 {
      assert !IsPrefix([c], s) by { assert s[..1] == [s[0]]; }
      LacksFree(s[1..], c);
    }
  }

  /** When `a` lacks the one-character separator, the first cut of
      `a + [c] + b` falls right after `a`. */
  lemma SplitAtChar(a: string, b: string, c: char)
    requires Lacks(a, c)
    ensures Split(a + [c] + b, [c]) == [a] + Split(b, [c])
  {
    var s := a + [c] + b;
    forall i | 0 <= i < |a|
      ensures !IsPrefix([c], s[i..])
    {
      assert s[i..][..1] == [a[i]];
    }
    SplitAtFirst(a, b, [c]);
  }

  /** `s.startsWith(p)`. */
  predicate StartsWith(s: string, p: string) {
    IsPrefix(p, s)
  }

  /** A concatenation starts with its first part and goes on with the second. */
  lemma ConcatParts(h: string, t: string)
    ensures StartsWith(h + t, h) && (h + t)[|h|..] == t
  {
    assert (h + t)[..|h|] == h;
  }

  /** The characters `String.prototype.trim` removes: the ECMAScript
      WhiteSpace and LineTerminator code points. */
  predicate IsJsWhitespace(c: char) {
    var n := c as int;
    (0x09 <= n <= 0x0D) || n == 0x20 || n == 0xA0 || n == 0x1680 ||
    (0x2000 <= n <= 0x200A) || n == 0x2028 || n == 0x2029 || n == 0x202F ||
    n == 0x205F || n == 0x3000 || n == 0xFEFF
  }

  function TrimStart(s: string): (r: string)
    ensures |r| <= |s| && r == s[|s| - |r|..]
    ensures forall i :: 0 <= i < |s| - |r| ==> IsJsWhitespace(s[i])
    ensures r == [] || !IsJsWhitespace(r[0])
  {
    if |s| > 0 && IsJsWhitespace(s[0]) then TrimStart(s[1..]) else s
  }

  function TrimEnd(s: string): (r: string)
    ensures |r| <= |s| && r == s[..|r|]
    ensures forall i :: |r| <= i < |s| ==> IsJsWhitespace(s[i])
    ensures r == [] || !IsJsWhitespace(r[|r| - 1])
  {
    if |s| > 0 && IsJsWhitespace(s[|s| - 1]) then TrimEnd(s[..|s| - 1]) else s
  }

  /** `s.trim()`: the input without its leading and trailing white space.
      The result is the piece of `s` from some `k` on, with only white
      space before it and after it, and it neither starts nor ends with
      white space; so what lies between two non-white characters of `s` is
      kept as it is. */
  function Trim(s: string): (r: string)
    ensures Contains(s, r)
    ensures exists k :: InsideWhitespace(s, r, k)
    ensures r == [] || (!IsJsWhitespace(r[0]) && !IsJsWhitespace(r[|r| - 1]))
  {
    var t := TrimStart(s);
    var r := TrimEnd(t);
    SuffixContains(s, |s| - |t|, r);
    TrimmedPieces(s, t, r);
    r
  }

  /** `r` is the piece of `s` at `k`, with only white space around it. */
  predicate InsideWhitespace(s: string, r: string, k: nat) {
    k + |r| <= |s| && r == s[k..k + |r|] &&
    (forall i :: 0 <= i < k ==> IsJsWhitespace(s[i])) &&
    (forall i :: k + |r| <= i < |s| ==> IsJsWhitespace(s[i]))
  }

  /** Cutting white space off the front and then off the back leaves a piece
      with only white space around it. */
  lemma TrimmedPieces(s: string, t: string, r: string)
    requires |t| <= |s| && t == s[|s| - |t|..]
    requires forall i :: 0 <= i < |s| - |t| ==> IsJsWhitespace(s[i])
    requires |r| <= |t| && r == t[..|r|]
    requires forall i :: |r| <= i < |t| ==> IsJsWhitespace(t[i])
    ensures InsideWhitespace(s, r, |s| - |t|)
  {
    var k := |s| - |t|;
    forall i | k + |r| <= i < |s|
      ensures IsJsWhitespace(s[i])
    {
      assert s[i] == t[i - k];
    }
  }

  /** What a suffix of `s` starts with, `s` contains. */
  lemma {:induction false} SuffixContains(s: string, k: nat, p: string)
    requires k <= |s| && IsPrefix(p, s[k..])
    ensures Contains(s, p)
    decreases k
  {
    if k > 0 {
      assert s[1..][k - 1..] == s[k..];
      SuffixContains(s[1..], k - 1, p);
    }
  }

  /** A string that starts and ends with something other than white space is
      left alone by `trim`. */
  lemma TrimIdentity(s: string)
    requires s == [] || (!IsJsWhitespace(s[0]) && !IsJsWhitespace(s[|s| - 1]))
    ensures Trim(s) == s
  {
  }

  /** `toUpperCase` on the ASCII letters; every other character is kept. */
  function UpperChar(c: char): (u: char)
    ensures 'a' <= c <= 'z' ==> u as int == c as int - 32
    ensures !('a' <= c <= 'z') ==> u == c
  {
    if 'a' <= c <= 'z' then (c as int - 32) as char else c
  }

  function Upper(s: string): (r: string)
    ensures |r| == |s|
    ensures forall i :: 0 <= i < |s| ==> r[i] == UpperChar(s[i])
  {
    if s == [] then [] else [UpperChar(s[0])] + Upper(s[1..])
  }

  /** `s.slice(0, n)` for `n >= 0`. */
  function Take(s: string, n: nat): (r: string)
    ensures |r| == if |s| < n then |s| else n
    ensures IsPrefix(r, s)
  {
    if |s| <= n then s else s[..n]
  }

  predicate IsDigit(c: char) {
    '0' <= c <= '9'
  }

  function DigitChar(d: nat): (c: char)
    requires d < 10
    ensures IsDigit(c) && c as int - '0' as int == d
  {
    ('0' as int + d) as char
  }

  /** The decimal rendering of a natural number, as `String(n)` gives it. */
  function NatToString(n: nat): (r: string)
    ensures |r| >= 1
    ensures forall i :: 0 <= i < |r| ==> IsDigit(r[i])
    ensures r[0] == '0' ==> n == 0
  {
    if n < 10 then [DigitChar(n)] else NatToString(n / 10) + [DigitChar(n % 10)]
  }

  /** The decimal rendering of an integer, with a leading `-` when negative. */
  function IntToString(i: int): (r: string)
    ensures i < 0 ==> r == "-" + NatToString(-i)
    ensures i >= 0 ==> r == NatToString(i)
  {
    if i < 0 then "-" + NatToString(-i) else NatToString(i)
  }

  function DigitValue(c: char): nat
    requires IsDigit(c)
  {
    c as int - '0' as int
  }

  /** Reads a string of decimal digits back as a number. */
  function ParseDigits(s: string): nat
    requires forall i :: 0 <= i < |s| ==> IsDigit(s[i])
  {
    if s == [] then 0
    else ParseDigits(s[..|s| - 1]) * 10 + DigitValue(s[|s| - 1])
  }

  /** Decimal rendering loses nothing: reading it back gives the number. */
  lemma {:induction false} ParseNatToString(n: nat)
    ensures ParseDigits(NatToString(n)) == n
  {
    if n >= 10 {
      var r := NatToString(n);
      var d := NatToString(n / 10);
      assert r == d + [DigitChar(n % 10)];
      assert r[..|r| - 1] == d;
      ParseNatToString(n / 10);
    }
  }

  /** Distinct integers have distinct renderings. */
  lemma IntToStringInjective(a: int, b: int)
    requires IntToString(a) == IntToString(b)
    ensures a == b
  {
    if a < 0 {
      SignedRendering(-a);
      assert IntToString(b)[0] == '-';
      assert b < 0;
      SignedRendering(-b);
      NatToStringInjective(-a, -b);
    } else {
      assert IsDigit(IntToString(b)[0]);
      assert b >= 0;
      NatToStringInjective(a, b);
    }
  }

  lemma SignedRendering(n: nat)
    ensures ("-" + NatToString(n))[0] == '-'
    ensures ("-" + NatToString(n))[1..] == NatToString(n)
  {
  }

  lemma NatToStringInjective(m: nat, n: nat)
    requires NatToString(m) == NatToString(n)
    ensures m == n
  {
    ParseNatToString(m);
    ParseNatToString(n);
  }
}
