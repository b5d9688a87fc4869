/** The avatar initials computed by the sidebar
    (src/modules/shared/components/app-sidebar.tsx) and by the user table
    (src/modules/admin/components/user-management.tsx), both written as
    `s.split(" ").map(n => n[0]).join("").toUpperCase().slice(0, 2)`. */
module Names {
  import opened Strings

  /** `words.map(n => n[0]).join("")`: the first character of each word. An
      empty word gives `undefined`, which `join` writes as nothing. */
  function Firsts(words: seq<string>): (r: string)
    ensures |r| <= |words|
    ensures (forall i :: 0 <= i < |words| ==> words[i] != "") ==>
      |r| == |words| && forall i :: 0 <= i < |words| ==> r[i] == words[i][0]
  {
    if words == [] then ""
    else (if words[0] == "" then "" else [words[0][0]]) + Firsts(words[1..])
  }

  /** The initials of `s`: at most two characters, none of them a lower-case
      ASCII letter; with no empty word, the upper-cased first characters of
      the first two words (or of the one word). */
  function Initials(s: string): (r: string)
    ensures |r| <= 2
    ensures forall i :: 0 <= i < |r| ==> !('a' <= r[i] <= 'z')
    ensures var words := Split(s, " ");
      (forall i :: 0 <= i < |words| ==> words[i] != "") ==>
        |r| == (if |words| < 2 then |words| else 2) &&
        forall i :: 0 <= i < |r| ==> r[i] == UpperChar(words[i][0])
  {
    Take(Upper(Firsts(Split(s, " "))), 2)
  }

  /** The initials of a single word: its first letter, upper-cased. */
  lemma OneWord(w: string)
    requires w != "" && Lacks(w, ' ')
    ensures Initials(w) == [UpperChar(w[0])]
  {
    LacksFree(w, ' ');
    SplitFree(w, " ");
  }

  /** Two words give the upper-cased first letter of each. */
  lemma TwoWords(a: string, b: string)
    requires a != "" && b != "" && Lacks(a, ' ') && Lacks(b, ' ')
    ensures Initials(a + " " + b) == [UpperChar(a[0]), UpperChar(b[0])]
  {
    SplitAtChar(a, b, ' ');
    LacksFree(b, ' ');
    SplitFree(b, " ");
  }

  /** Only the first two words count: whatever follows them is cut off. */
  lemma FirstTwoWordsOnly(a: string, b: string, rest: string)
    requires a != "" && b != "" && Lacks(a, ' ') && Lacks(b, ' ')
    ensures Initials(a + " " + b + " " + rest) == [UpperChar(a[0]), UpperChar(b[0])]
  {
    var tail := b + " " + rest;
    assert a + " " + b + " " + rest == a + " " + tail;
    SplitAtChar(a, tail, ' ');
    SplitAtChar(b, rest, ' ');
    var words := [a] + ([b] + Split(rest, " "));
    assert Split(a + " " + tail, " ") == words;
    assert Firsts(words) == [a[0]] + Firsts(words[1..]);
    assert words[1..] == [b] + Split(rest, " ");
    assert Firsts(words[1..]) == [b[0]] + Firsts(Split(rest, " "));
  }

  /** Leading, doubled and trailing spaces give empty words, which add
      nothing. */
  lemma SpacesAddNothing(w: string)
    requires w != "" && Lacks(w, ' ')
    ensures Initials(" " + w) == [UpperChar(w[0])]
  {
    SplitAtChar("", w, ' ');
    assert "" + " " + w == " " + w;
    LacksFree(w, ' ');
    SplitFree(w, " ");
  }
}
