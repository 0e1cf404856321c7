/** The Python `str` built-ins the pipeline relies on, over `seq<char>`:
    `isspace`, `strip`, `split`, `join`, `lower`, and the substring test `in`. */
module Strings {

  /** The characters for which Python's `str.isspace()` holds. `str.strip()`,
      `str.split()` and the regular-expression class `\s` all use this set. */
  const Whitespace: set<char> := {
    '\t', '\n', '\U{0B}', '\U{0C}', '\r', '\U{1C}', '\U{1D}', '\U{1E}', '\U{1F}', ' ',
    '\U{85}', '\U{A0}', '\U{1680}', '\U{2000}', '\U{2001}', '\U{2002}', '\U{2003}',
    '\U{2004}', '\U{2005}', '\U{2006}', '\U{2007}', '\U{2008}', '\U{2009}', '\U{200A}',
    '\U{2028}', '\U{2029}', '\U{202F}', '\U{205F}', '\U{3000}'
  }

  predicate IsSpace(c: char) {
    c in Whitespace
  }

  /** A character class standing for Python's regular-expression class `\w`
      (Unicode letters, digits and underscore). Its exact extent is left open;
      the one fact the pipeline depends on is that `#` is not a word character. */
  type WordClass = f: char -> bool | !f('#') witness AsciiWordChar

  /** The ASCII part of `\w`. */
  predicate AsciiWordChar(c: char) {
    ('a' <= c <= 'z') || ('A' <= c <= 'Z') || ('0' <= c <= '9') || c == '_'
  }

  // ---------------------------------------------------------------------------
  // Case mapping (ASCII letters; every other character maps to itself)

  function LowerChar(c: char): char {
    if 'A' <= c <= 'Z' then (c as int + 32) as char else c
  }

  function UpperChar(c: char): char {
    if 'a' <= c <= 'z' then (c as int - 32) as char else c
  }

  /** Python's `s.lower()`. */
  function Lower(s: string): string {
    seq(|s|, i requires 0 <= i < |s| => LowerChar(s[i]))
  }

  /** Case mapping never turns a non-whitespace character into whitespace or back. */
  lemma CaseKeepsSpace(c: char)
    ensures IsSpace(LowerChar(c)) == IsSpace(c)
    ensures IsSpace(UpperChar(c)) == IsSpace(c)
  {
  }

  /** Lower-casing a lower-cased text changes nothing. */
  lemma LowerIdempotent(s: string)
    ensures Lower(Lower(s)) == Lower(s)
  {
  }

  // ---------------------------------------------------------------------------
  // strip

  /** `s` with its leading characters from `cs` removed (Python's `s.lstrip(cs)`). */
  function TrimStart(s: string, cs: set<char>): (r: string)
    ensures |r| <= |s|
    decreases |s|
  {
    if s != [] && s[0] in cs then TrimStart(s[1..], cs) else s
  }

  /** `TrimStart` removes a prefix made of characters of `cs`, and the rest does not
      start with one. */
  lemma {:induction false} TrimStartSpec(s: string, cs: set<char>)
    ensures var r := TrimStart(s, cs);
      && r == s[|s| - |r|..]
      && (r == [] || r[0] !in cs)
      && (forall k :: 0 <= k < |s| - |r| ==> s[k] in cs)
    decreases |s|
  {
    if s != [] && s[0] in cs {
      TrimStartSpec(s[1..], cs);
    }
  }

  /** `s` with its trailing characters from `cs` removed (Python's `s.rstrip(cs)`). */
  function TrimEnd(s: string, cs: set<char>): (r: string)
    ensures |r| <= |s|
    decreases |s|
  {
    if s != [] && s[|s| - 1] in cs then TrimEnd(s[..|s| - 1], cs) else s
  }

  /** `TrimEnd` removes a suffix made of characters of `cs`, and the rest does not
      end with one. */
  lemma {:induction false} TrimEndSpec(s: string, cs: set<char>)
    ensures var r := TrimEnd(s, cs);
      && r == s[..|r|]
      && (r == [] || r[|r| - 1] !in cs)
      && (forall k :: |r| <= k < |s| ==> s[k] in cs)
    decreases |s|
  {
    if s != [] && s[|s| - 1] in cs {
      TrimEndSpec(s[..|s| - 1], cs);
    }
  }

  /** Python's `s.strip(cs)`; `s.strip()` is `Strip(s, Whitespace)`. */
  function Strip(s: string, cs: set<char>): string {
    TrimEnd(TrimStart(s, cs), cs)
  }

  /** What `Strip` promises: the result is a contiguous piece of `s`, only characters
      of `cs` were cut on either side, and it neither starts nor ends with one of them. */
  lemma StripSpec(s: string, cs: set<char>)
    ensures var r := Strip(s, cs);
      && (r == [] || (r[0] !in cs && r[|r| - 1] !in cs))
      && |TrimStart(s, cs)| >= |r|
      && r == s[|s| - |TrimStart(s, cs)|..|s| - |TrimStart(s, cs)| + |r|]
      && (forall k :: 0 <= k < |s| - |TrimStart(s, cs)| ==> s[k] in cs)
      && (forall k :: |s| - |TrimStart(s, cs)| + |r| <= k < |s| ==> s[k] in cs)
  {
    var t := TrimStart(s, cs);
    var r := TrimEnd(t, cs);
    TrimStartSpec(s, cs);
    TrimEndSpec(t, cs);
    var a := |s| - |t|;
    assert t == s[a..];
    assert r == t[..|r|];
    assert r == s[a..a + |r|];
    if r != [] {
      assert r[0] == t[0];
    }
    forall k | a + |r| <= k < |s|
      ensures s[k] in cs
    {
      assert s[k] == t[k - a];
    }
  }

  /** Where the stripped text starts in `s`. */
  function StripStart(s: string, cs: set<char>): nat {
    |s| - |TrimStart(s, cs)|
  }

  /** The stripped text is the piece of `s` starting at `StripStart`. */
  lemma StripSlice(s: string, cs: set<char>)
    ensures StripStart(s, cs) + |Strip(s, cs)| <= |s|
    ensures Strip(s, cs) == s[StripStart(s, cs)..StripStart(s, cs) + |Strip(s, cs)|]
  {
    StripSpec(s, cs);
  }

  /** The stripped text neither starts nor ends with a character of `cs`. */
  lemma StripEnds(s: string, cs: set<char>)
    ensures Strip(s, cs) == [] || (Strip(s, cs)[0] !in cs && Strip(s, cs)[|Strip(s, cs)| - 1] !in cs)
  {
    StripSpec(s, cs);
  }

  /** Stripping keeps only characters that were in the text. */
  lemma StripChars(s: string, cs: set<char>)
    ensures forall k :: 0 <= k < |Strip(s, cs)| ==> Strip(s, cs)[k] in s
  {
    StripSpec(s, cs);
    var a := |s| - |TrimStart(s, cs)|;
    forall k | 0 <= k < |Strip(s, cs)|
      ensures Strip(s, cs)[k] in s
    {
      assert Strip(s, cs)[k] == s[a + k];
    }
  }

  /** A text that neither starts nor ends with a character of `cs` is unchanged by stripping. */
  lemma StripClean(s: string, cs: set<char>)
    requires s == [] || (s[0] !in cs && s[|s| - 1] !in cs)
    ensures Strip(s, cs) == s
  {
  }

  /** The result is empty exactly when every character of `s` is in `cs`. */
  lemma {:induction false} StripEmpty(s: string, cs: set<char>)
    ensures Strip(s, cs) == [] <==> forall k :: 0 <= k < |s| ==> s[k] in cs
  {
    StripSpec(s, cs);
    var t := TrimStart(s, cs);
    TrimStartSpec(s, cs);
    if t != [] {
      assert t[0] !in cs && t[0] == s[|s| - |t|];
      assert TrimEnd(t, cs) != [];
    }
  }

  // ---------------------------------------------------------------------------
  // join and split

  /** Python's `sep.join(ws)` for a one-character separator. */
  function JoinWith(ws: seq<string>, sep: char): string
    decreases |ws|
  {
    if ws == [] then []
    else if |ws| == 1 then ws[0]
    else ws[0] + [sep] + JoinWith(ws[1..], sep)
  }

  /** Python's `s.split(sep)` for a one-character separator: the pieces between the
      separators, empty ones included; there is always at least one piece. */
  function SplitOn(s: string, sep: char): (ps: seq<string>)
    ensures |ps| >= 1
    ensures forall i :: 0 <= i < |ps| ==> sep !in ps[i]
    ensures JoinWith(ps, sep) == s
    decreases |s|
  {
    if s == [] then [[]]
    else
      var rest := SplitOn(s[1..], sep);
      if s[0] == sep then
        assert JoinWith([[]] + rest, sep) == [] + [sep] + JoinWith(rest, sep);
        [[]] + rest
      else
        var ps := [[s[0]] + rest[0]] + rest[1..];
        assert ps[1..] == rest[1..];
        assert |ps| == 1 ==> JoinWith(ps, sep) == [s[0]] + JoinWith(rest, sep);
        assert |ps| > 1 ==> JoinWith(ps, sep) == [s[0]] + (rest[0] + [sep] + JoinWith(rest[1..], sep));
        ps
  }

  /** Splitting undoes joining: pieces free of the separator come back unchanged. */
  lemma {:induction false} SplitJoin(ps: seq<string>, sep: char)
    requires |ps| >= 1
    requires forall i :: 0 <= i < |ps| ==> sep !in ps[i]
    ensures SplitOn(JoinWith(ps, sep), sep) == ps
    decreases |ps|, |ps[0]|
  {
    var s := JoinWith(ps, sep);
    if ps[0] == [] {
      if |ps| == 1 {
      } else {
        assert s == [sep] + JoinWith(ps[1..], sep);
        assert s[1..] == JoinWith(ps[1..], sep);
        SplitJoin(ps[1..], sep);
        assert ps == [[]] + ps[1..];
      }
    } else {
      var ps' := [ps[0][1..]] + ps[1..];
      assert ps'[1..] == ps[1..];
      assert forall j :: 0 <= j < |ps'[0]| ==> ps'[0][j] == ps[0][j + 1];
      assert sep !in ps'[0];
      SplitJoin(ps', sep);
      JoinFirstChar(ps, sep);
      assert s[0] == ps[0][0] && s[0] != sep;
      assert [s[0]] + ps'[0] == ps[0];
      assert ps == [[s[0]] + ps'[0]] + ps'[1..];
    }
  }

  /** Joining pieces whose first one is non-empty starts with that piece's first
      character, followed by the join with that character removed. */
  lemma JoinFirstChar(ps: seq<string>, sep: char)
    requires |ps| >= 1 && ps[0] != []
    ensures var s := JoinWith(ps, sep);
      s != [] && s[0] == ps[0][0] && s[1..] == JoinWith([ps[0][1..]] + ps[1..], sep)
  {
    var s := JoinWith(ps, sep);
    var ps' := [ps[0][1..]] + ps[1..];
    assert ps'[1..] == ps[1..];
    if |ps| == 1 {
      assert s == ps[0];
    } else {
      assert s == ps[0] + [sep] + JoinWith(ps[1..], sep);
      assert s[1..] == ps[0][1..] + [sep] + JoinWith(ps[1..], sep);
    }
  }

  // ---------------------------------------------------------------------------
  // split() on runs of whitespace

  /** A word in the sense of Python's `str.split()`: non-empty, without whitespace. */
  predicate IsWord(w: string) {
    w != [] && forall i :: 0 <= i < |w| ==> !IsSpace(w[i])
  }

  /** The length of the run of non-whitespace characters at the start of `s`. */
  function RunLength(s: string): (n: nat)
    ensures n <= |s|
    ensures forall i :: 0 <= i < n ==> !IsSpace(s[i])
    ensures n < |s| ==> IsSpace(s[n])
    decreases |s|
  {
    if s == [] || IsSpace(s[0]) then 0 else 1 + RunLength(s[1..])
  }

  /** Python's `s.split()`: the maximal runs of non-whitespace characters, in order. */
  function Words(s: string): (ws: seq<string>)
    ensures forall i :: 0 <= i < |ws| ==> IsWord(ws[i])
    decreases |s|
  {
    if s == [] then []
    else if IsSpace(s[0]) then Words(s[1..])
    else
      var n := RunLength(s);
      [s[..n]] + Words(s[n..])
  }

  /** The run at the start of `w + t` is `w` when `w` has no whitespace and `t` starts with some. */
  lemma {:induction false} RunLengthOfWord(w: string, t: string)
    requires forall i :: 0 <= i < |w| ==> !IsSpace(w[i])
    requires t == [] || IsSpace(t[0])
    ensures RunLength(w + t) == |w|
    decreases |w|
  {
    if w != [] {
      assert (w + t)[1..] == w[1..] + t;
      RunLengthOfWord(w[1..], t);
    }
  }

  /** Splitting on whitespace undoes joining words with single spaces. */
  lemma {:induction false} WordsOfJoin(ws: seq<string>)
    requires forall i :: 0 <= i < |ws| ==> IsWord(ws[i])
    ensures Words(JoinWith(ws, ' ')) == ws
    decreases |ws|
  {
    if ws == [] {
    } else if |ws| == 1 {
      var w := ws[0];
      RunLengthOfWord(w, []);
      assert w + [] == w;
      assert w[..|w|] == w && w[|w|..] == [];
    } else {
      var w := ws[0];
      var rest := JoinWith(ws[1..], ' ');
      var s := w + [' '] + rest;
      assert s == w + ([' '] + rest);
      RunLengthOfWord(w, [' '] + rest);
      assert s[..|w|] == w;
      assert s[|w|..] == [' '] + rest;
      assert Words([' '] + rest) == Words(rest) by {
        assert ([' '] + rest)[1..] == rest;
      }
      WordsOfJoin(ws[1..]);
      assert ws == [w] + ws[1..];
    }
  }

  // ---------------------------------------------------------------------------
  // substring test

  predicate IsPrefix(p: string, s: string) {
    |p| <= |s| && s[..|p|] == p
  }

  /** Python's `needle in hay` for strings. */
  predicate IsInfix(needle: string, hay: string)
    decreases |hay|
  {
    IsPrefix(needle, hay) || (hay != [] && IsInfix(needle, hay[1..]))
  }

  /** A needle that occurs at position `i` of the text is an infix of it. */
  lemma {:induction false} IsInfixAt(needle: string, hay: string, i: nat)
    requires i + |needle| <= |hay| && hay[i..i + |needle|] == needle
    ensures IsInfix(needle, hay)
    decreases i
  {
    if i > 0 {
      assert hay[1..][i - 1..i - 1 + |needle|] == hay[i..i + |needle|];
      IsInfixAt(needle, hay[1..], i - 1);
    }
  }
}
