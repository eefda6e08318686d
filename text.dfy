/** The string operations the core borrows from the .NET library:
    `String.Split(..., StringSplitOptions.RemoveEmptyEntries)`, prefix and suffix
    tests, and the comparer of Comparer.cs reduced to ordinal comparison with
    optional ASCII case folding. */
module Text {

  /** `s.StartsWith(p)`. */
  predicate StartsWith(s: string, p: string) {
    |p| <= |s| && s[..|p|] == p
  }

  /** `s.EndsWith(p)`. */
  predicate EndsWith(s: string, p: string) {
    |p| <= |s| && s[|s| - |p|..] == p
  }

  /** Concatenation of a list of strings. */
  function Concat(xs: seq<string>): string {
    if xs == [] then [] else xs[0] + Concat(xs[1..])
  }

  lemma {:induction false} ConcatAppend(a: seq<string>, b: seq<string>)
    ensures Concat(a + b) == Concat(a) + Concat(b)
  {
    if a == [] {
      assert a + b == b;
    } else {
      assert (a + b)[1..] == a[1..] + b;
      ConcatAppend(a[1..], b);
    }
  }

  /** The characters of `s` that are not delimiters, in order. */
  function Without(s: string, delims: set<char>): string {
    if s == [] then [] else (if s[0] in delims then [] else [s[0]]) + Without(s[1..], delims)
  }

  /** True when no character of `s` is a delimiter. */
  predicate Undelimited(s: string, delims: set<char>) {
    forall k :: 0 <= k < |s| ==> s[k] !in delims
  }

  /** The piece collected so far, dropped when empty (`RemoveEmptyEntries`). */
  function Piece(p: string): seq<string> {
    if p == [] then [] else [p]
  }

  /** Splitting the rest of a string when `piece` has been collected since the last delimiter.
      Every piece produced is non-empty and free of delimiters. */
  function SplitFrom(s: string, delims: set<char>, piece: string): (r: seq<string>)
    requires Undelimited(piece, delims)
    ensures forall i :: 0 <= i < |r| ==> r[i] != [] && Undelimited(r[i], delims)
    decreases |s|
  {
    if s == [] then Piece(piece)
    else if s[0] in delims then Piece(piece) + SplitFrom(s[1..], delims, [])
    else SplitFrom(s[1..], delims, piece + [s[0]])
  }

  /** `s.Split(delims, StringSplitOptions.RemoveEmptyEntries)`: the maximal runs of
      non-delimiter characters of `s`, in order. */
  function Split(s: string, delims: set<char>): seq<string> {
    SplitFrom(s, delims, [])
  }

  /** The space-separated words of `s`, as `Split(new char[] { ' ' }, RemoveEmptyEntries)` gives them. */
  function Words(s: string): seq<string> {
    Split(s, {' '})
  }

  lemma {:induction false} SplitFromAt(a: string, d: char, b: string, delims: set<char>, piece: string)
    requires d in delims && Undelimited(piece, delims)
    ensures SplitFrom(a + [d] + b, delims, piece) == SplitFrom(a, delims, piece) + Split(b, delims)
    decreases |a|
  {
    if a == [] {
      assert (a + [d] + b)[1..] == b;
    } else {
      assert (a + [d] + b)[1..] == a[1..] + [d] + b;
      if a[0] in delims {
        SplitFromAt(a[1..], d, b, delims, []);
      } else {
        SplitFromAt(a[1..], d, b, delims, piece + [a[0]]);
      }
    }
  }

  /** Splitting at a delimiter: the pieces of `a + [d] + b` are the pieces of `a`
      followed by those of `b`, whatever `a` and `b` hold. */
  lemma SplitAtDelimiter(a: string, d: char, b: string, delims: set<char>)
    requires d in delims
    ensures Split(a + [d] + b, delims) == Split(a, delims) + Split(b, delims)
  {
    SplitFromAt(a, d, b, delims, []);
  }

  lemma {:induction false} SplitFromUndelimited(s: string, delims: set<char>, piece: string)
    requires Undelimited(piece, delims) && Undelimited(s, delims)
    ensures SplitFrom(s, delims, piece) == Piece(piece + s)
    decreases |s|
  {
    if s == [] {
      assert piece + s == piece;
    } else {
      assert piece + s == (piece + [s[0]]) + s[1..];
      SplitFromUndelimited(s[1..], delims, piece + [s[0]]);
    }
  }

  /** A non-empty string without delimiters is a single piece. */
  lemma SplitUndelimited(s: string, delims: set<char>)
    requires s != [] && Undelimited(s, delims)
    ensures Split(s, delims) == [s]
  {
    SplitFromUndelimited(s, delims, []);
    assert [] + s == s;
  }

  lemma {:induction false} SplitFromKeepsText(s: string, delims: set<char>, piece: string)
    requires Undelimited(piece, delims)
    ensures Concat(SplitFrom(s, delims, piece)) == piece + Without(s, delims)
    decreases |s|
  {
    if s == [] {
      assert piece + [] == piece;
    } else if s[0] in delims {
      SplitFromKeepsText(s[1..], delims, []);
      ConcatAppend(Piece(piece), SplitFrom(s[1..], delims, []));
      assert [] + Without(s[1..], delims) == Without(s[1..], delims);
    } else {
      SplitFromKeepsText(s[1..], delims, piece + [s[0]]);
      assert piece + Without(s, delims) == (piece + [s[0]]) + Without(s[1..], delims);
    }
  }

  /** Splitting loses exactly the delimiters: the pieces joined back give the
      input with its delimiter characters removed. */
  lemma SplitKeepsText(s: string, delims: set<char>)
    ensures Concat(Split(s, delims)) == Without(s, delims)
  {
    SplitFromKeepsText(s, delims, []);
  }

  /** Case folding of one character (ASCII upper case to lower case). */
  function FoldChar(c: char): char {
    if 'A' <= c <= 'Z' then (c as int + 32) as char else c
  }

  function Fold(s: string): (r: string)
    ensures |r| == |s| && forall i :: 0 <= i < |s| ==> r[i] == FoldChar(s[i])
  {
    seq(|s|, i requires 0 <= i < |s| => FoldChar(s[i]))
  }

  /** The comparer of Comparer.cs: `Compare(a, b) == 0`, case-insensitive when `ignoreCase`. */
  predicate SameText(ignoreCase: bool, a: string, b: string) {
    if ignoreCase then Fold(a) == Fold(b) else a == b
  }

  /** A character no other character folds to, nor folds to another. */
  predicate Caseless(c: char) {
    !('A' <= c <= 'Z') && !('a' <= c <= 'z')
  }

  /** Against a text made of caseless characters (such as the `--` marker), the
      comparer is plain equality, whatever the case mode. */
  lemma SameTextCaseless(ignoreCase: bool, s: string, t: string)
    requires forall k :: 0 <= k < |t| ==> Caseless(t[k])
    ensures SameText(ignoreCase, s, t) <==> s == t
  {
    if ignoreCase && Fold(s) == Fold(t) {
      assert |s| == |t|;
      forall k | 0 <= k < |s| ensures s[k] == t[k] {
        assert FoldChar(s[k]) == FoldChar(t[k]) == t[k];
      }
    }
  }

  /** The comparer is an equivalence: what `Contains(x, comparer)` relies on. */
  lemma SameTextEquivalence(ignoreCase: bool, a: string, b: string, c: string)
    ensures SameText(ignoreCase, a, a)
    ensures SameText(ignoreCase, a, b) ==> SameText(ignoreCase, b, a)
    ensures SameText(ignoreCase, a, b) && SameText(ignoreCase, b, c) ==> SameText(ignoreCase, a, c)
    ensures a == b ==> SameText(ignoreCase, a, b)
  {
  }
}
