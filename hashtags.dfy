/** `clean_hashtags_from_text`: the substitution `re.sub(r'#(\w+)', r'\1', text)`,
    which deletes the `#` in front of every run of word characters. */
module Hashtags {
  import opened Strings
  import opened Seqs

  /** The length of the run of word characters at the start of `s` (what `\w+` consumes). */
  function WordRun(s: string, w: WordClass): (n: nat)
    ensures n <= |s|
    ensures forall i :: 0 <= i < n ==> w(s[i])
    ensures n < |s| ==> !w(s[n])
    decreases |s|
  {
    if s == [] || !w(s[0]) then 0 else 1 + WordRun(s[1..], w)
  }

  /** The regular-expression substitution as the matcher runs it: scanning from the
      left, a `#` followed by at least one word character matches together with the
      whole run, the run is copied without the `#`, and scanning resumes after it;
      any other character is copied. */
  function CleanHashtags(text: string, w: WordClass): string
    decreases |text|
  {
    if |text| >= 2 && text[0] == '#' && w(text[1]) then
      var n := 1 + WordRun(text[1..], w);
      text[1..n] + CleanHashtags(text[n..], w)
    else if text == [] then []
    else [text[0]] + CleanHashtags(text[1..], w)
  }

  /** Position `i` holds a hashtag marker: a `#` directly before a word character. */
  predicate IsMarker(s: string, i: nat, w: WordClass)
    requires i < |s|
  {
    s[i] == '#' && i + 1 < |s| && w(s[i + 1])
  }

  /** Reference definition: the text with every marker deleted and every other
      character kept, in order. */
  function Unmarked(s: string, w: WordClass): string
    decreases |s|
  {
    if s == [] then []
    else (if IsMarker(s, 0, w) then [] else [s[0]]) + Unmarked(s[1..], w)
  }

  /** How many of the first `i` positions hold a marker. */
  function MarkersBefore(s: string, i: nat, w: WordClass): nat
    requires i <= |s|
    decreases i
  {
    if i == 0 then 0
    else (if IsMarker(s, 0, w) then 1 else 0) + MarkersBefore(s[1..], i - 1, w)
  }

  /** A stretch without `#` holds no marker, so it is kept as it is. */
  lemma {:induction false} UnmarkedOfPlain(t: string, k: nat, w: WordClass)
    requires k <= |t|
    requires forall i :: 0 <= i < k ==> t[i] != '#'
    ensures Unmarked(t, w) == t[..k] + Unmarked(t[k..], w)
    decreases k
  {
    if k > 0 {
      UnmarkedOfPlain(t[1..], k - 1, w);
      assert t[1..][k - 1..] == t[k..];
      assert t[..k] == [t[0]] + t[1..][..k - 1];
    }
  }

  /** The regular-expression substitution deletes exactly the markers. */
  lemma {:induction false} CleanIsUnmarked(text: string, w: WordClass)
    ensures CleanHashtags(text, w) == Unmarked(text, w)
    decreases |text|
  {
    if |text| >= 2 && text[0] == '#' && w(text[1]) {
      var n := 1 + WordRun(text[1..], w);
      var t := text[1..];
      assert forall i :: 0 <= i < n - 1 ==> t[i] != '#' by {
        assert forall i :: 0 <= i < n - 1 ==> w(t[i]);
      }
      UnmarkedOfPlain(t, n - 1, w);
      assert t[..n - 1] == text[1..n] && t[n - 1..] == text[n..];
      CleanIsUnmarked(text[n..], w);
    } else if text != [] {
      CleanIsUnmarked(text[1..], w);
    }
  }

  /** A text without `#` is returned unchanged. */
  lemma {:induction false} NoHashUnchanged(text: string, w: WordClass)
    requires '#' !in text
    ensures CleanHashtags(text, w) == text
  {
    CleanIsUnmarked(text, w);
    UnmarkedOfPlain(text, |text|, w);
    assert text[..|text|] == text && text[|text|..] == [];
  }

  /** Every character that is not a marker survives, at its position less the number
      of markers before it; in particular a `#` not followed by a word character is kept. */
  lemma {:induction false} NonMarkerSurvives(s: string, i: nat, w: WordClass)
    requires i < |s| && !IsMarker(s, i, w)
    ensures MarkersBefore(s, i, w) <= i
    ensures i - MarkersBefore(s, i, w) < |CleanHashtags(s, w)|
    ensures CleanHashtags(s, w)[i - MarkersBefore(s, i, w)] == s[i]
    decreases i
  {
    CleanIsUnmarked(s, w);
    CleanIsUnmarked(s[1..], w);
    if i > 0 {
      assert IsMarker(s[1..], i - 1, w) == IsMarker(s, i, w);
      NonMarkerSurvives(s[1..], i - 1, w);
    }
  }

  /** Exactly the markers are removed: the length drops by their number. */
  lemma {:induction false} CleanLength(s: string, w: WordClass)
    ensures |CleanHashtags(s, w)| == |s| - MarkersBefore(s, |s|, w)
    decreases |s|
  {
    CleanIsUnmarked(s, w);
    if s != [] {
      CleanIsUnmarked(s[1..], w);
      CleanLength(s[1..], w);
    }
  }

  /** The cleaned text is an in-order subsequence of the input. */
  lemma {:induction false} CleanIsSubsequence(s: string, w: WordClass)
    ensures IsSubsequence(CleanHashtags(s, w), s)
    decreases |s|
  {
    CleanIsUnmarked(s, w);
    if s != [] {
      CleanIsUnmarked(s[1..], w);
      CleanIsSubsequence(s[1..], w);
      var r := Unmarked(s[1..], w);
      assert s == [s[0]] + s[1..];
      SubsequenceCons(r, s[1..], s[0], !IsMarker(s, 0, w));
      assert Unmarked(s, w) == if IsMarker(s, 0, w) then r else [s[0]] + r;
    }
  }

  /** A non-empty text stays non-empty: its last character is never a marker. */
  lemma {:induction false} CleanNonEmpty(s: string, w: WordClass)
    requires s != []
    ensures CleanHashtags(s, w) != []
  {
    NonMarkerSurvives(s, |s| - 1, w);
  }

  /** A text without `#` is its own reference cleaning. */
  lemma PlainUnmarked(t: string, w: WordClass)
    requires forall i :: 0 <= i < |t| ==> t[i] != '#'
    ensures Unmarked(t, w) == t
  {
    UnmarkedOfPlain(t, |t|, w);
    assert t[..|t|] == t && t[|t|..] == [];
  }

  /** A hashtag in front of a text without `#` loses its `#`. */
  lemma TagDropped(s: string, w: WordClass)
    requires |s| >= 2 && s[0] == '#' && w(s[1])
    requires forall i :: 1 <= i < |s| ==> s[i] != '#'
    ensures CleanHashtags(s, w) == s[1..]
  {
    var t := s[1..];
    assert forall i :: 0 <= i < |t| ==> t[i] == s[i + 1];
    PlainUnmarked(t, w);
    assert IsMarker(s, 0, w);
    CleanIsUnmarked(s, w);
  }

  /** Of a doubled `##` in front of a text without `#`, only the second goes. */
  lemma DoubleTagHalved(s: string, w: WordClass)
    requires |s| >= 3 && s[0] == '#' && s[1] == '#' && w(s[2])
    requires forall i :: 2 <= i < |s| ==> s[i] != '#'
    ensures CleanHashtags(s, w) == s[1..]
  {
    var t := s[1..];
    assert forall i :: 1 <= i < |t| ==> t[i] == s[i + 1];
    TagDropped(t, w);
    CleanIsUnmarked(t, w);
    assert !IsMarker(s, 0, w);
    CleanIsUnmarked(s, w);
  }

  /** `"#love wins"` becomes `"love wins"`. */
  lemma LoveWins(w: WordClass)
    requires w('l')
    ensures CleanHashtags("#love wins", w) == "love wins"
  {
    TagDropped("#love wins", w);
    assert "#love wins"[1..] == "love wins";
  }

  /** Cleaning is not idempotent: only the `#` directly before the word goes, so a
      doubled `##love` needs two passes to lose both. */
  lemma NotIdempotent(w: WordClass)
    requires w('l')
    ensures CleanHashtags("##love", w) == "#love"
    ensures CleanHashtags(CleanHashtags("##love", w), w) == "love"
  {
    DoubleTagHalved("##love", w);
    assert "##love"[1..] == "#love";
    TagDropped("#love", w);
    assert "#love"[1..] == "love";
  }
}
