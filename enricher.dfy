/** The four enrichment calls built on the completion service: grammar correction,
    title generation, translation and tagging, each with its treatment of the reply
    and its fallback when the service gives nothing usable. */
module Enricher {
  import opened Wrappers
  import opened Seqs
  import opened Strings
  import opened Completion

  /** The tag vocabulary offered to the tagging call, in its order. */
  const TagOptions: seq<string> := [
    "vss", "shortform", "micropoem", "monoku", "haiku", "longform",
    "sad", "happy", "whimsical", "fun", "rhyme", "dark", "tender",
    "loving", "longing", "melancholy", "passionate"
  ]

  /** How many of the reply's comma-separated pieces are considered. */
  const MaxTags: nat := 5

  /** A reply the source treats as present: `if result` on an optional string. */
  predicate Usable(reply: Option<string>) {
    reply.Some? && reply.value != []
  }

  // ---------------------------------------------------------------------------
  // Grammar correction

  /** The corrected text: the service's text when it is non-empty, else the input. */
  function GrammarOf(reply: Option<string>, text: string): (r: string)
    ensures r == text || (reply == Some(r) && r != [])
    ensures r == [] ==> text == []
  {
    if Usable(reply) then reply.value else text
  }

  /** Without a usable reply the text comes back as it was. */
  lemma GrammarFallback(reply: Option<string>, text: string)
    requires !Usable(reply)
    ensures GrammarOf(reply, text) == text
  {
  }

  // ---------------------------------------------------------------------------
  // Title generation

  /** The characters the title cleanup keeps: `[\w\s]`. */
  predicate TitleChar(c: char, w: WordClass) {
    w(c) || IsSpace(c)
  }

  /** `re.sub(r'[^\w\s]', '', s)`: deletes every character that is neither a word
      character nor whitespace. */
  function KeepTitleChars(s: string, w: WordClass): string
    decreases |s|
  {
    if s == [] then []
    else (if TitleChar(s[0], w) then [s[0]] else []) + KeepTitleChars(s[1..], w)
  }

  /** The cleanup keeps characters in order. */
  lemma {:induction false} KeepTitleCharsOrder(s: string, w: WordClass)
    ensures IsSubsequence(KeepTitleChars(s, w), s)
    decreases |s|
  {
    if s != [] {
      KeepTitleCharsOrder(s[1..], w);
      var r := KeepTitleChars(s[1..], w);
      assert s == [s[0]] + s[1..];
      SubsequenceCons(r, s[1..], s[0], TitleChar(s[0], w));
      assert KeepTitleChars(s, w) == if TitleChar(s[0], w) then [s[0]] + r else r;
    }
  }

  /** The cleanup keeps every title character, each as often as it occurs, and
      nothing else. */
  lemma {:induction false} KeepTitleCharsCounts(s: string, w: WordClass)
    ensures forall c :: multiset(KeepTitleChars(s, w))[c] == if TitleChar(c, w) then multiset(s)[c] else 0
    decreases |s|
  {
    if s != [] {
      KeepTitleCharsCounts(s[1..], w);
      assert s == [s[0]] + s[1..];
      assert multiset(s) == multiset{s[0]} + multiset(s[1..]);
    }
  }

  const UntitledPoem: string := "Untitled Poem"

  /** The generated title: the reply without non-title characters and without
      surrounding whitespace, or the placeholder when there is no usable reply. */
  function TitleOf(reply: Option<string>, w: WordClass): string {
    if Usable(reply) then Strip(KeepTitleChars(reply.value, w), Whitespace) else UntitledPoem
  }

  /** A title made from a reply is a contiguous piece (an infix) of the cleaned reply, holds
      only word characters and whitespace, and neither starts nor ends with whitespace. */
  lemma GeneratedTitleShape(reply: Option<string>, w: WordClass)
    requires Usable(reply)
    ensures var t := TitleOf(reply, w);
      var k := KeepTitleChars(reply.value, w);
      && (forall i :: 0 <= i < |t| ==> TitleChar(t[i], w))
      && (t == [] || (!IsSpace(t[0]) && !IsSpace(t[|t| - 1])))
      && IsInfix(t, k)
  {
    var k := KeepTitleChars(reply.value, w);
    var t := Strip(k, Whitespace);
    KeepTitleCharsOrder(reply.value, w);
    KeepTitleCharsCounts(reply.value, w);
    StripSlice(k, Whitespace);
    StripEnds(k, Whitespace);
    var a := StripStart(k, Whitespace);
    forall i | 0 <= i < |t|
      ensures TitleChar(t[i], w)
    {
      assert t[i] == k[a + i];
      assert k[a + i] in multiset(k);
    }
    IsInfixAt(t, k, a);
  }

  /** Without a usable reply the title is the placeholder. */
  lemma TitleFallback(reply: Option<string>, w: WordClass)
    requires !Usable(reply)
    ensures TitleOf(reply, w) == UntitledPoem
  {
  }

  /** A reply made only of punctuation yields an empty title, not the placeholder. */
  lemma PunctuationTitleIsEmpty(w: WordClass)
    ensures TitleOf(Some("#"), w) == []
  {
    assert KeepTitleChars("#", w) == [] by {
      assert !TitleChar('#', w);
    }
  }

  // ---------------------------------------------------------------------------
  // Translation

  const Tbd: string := "tbd"

  /** The translation: the reply with every leading and trailing `"` removed, then
      every leading and trailing `'`, or `"tbd"` when there is no usable reply. */
  function TranslationOf(reply: Option<string>): string {
    if Usable(reply) then Strip(Strip(reply.value, {'"'}), {'\''}) else Tbd
  }

  /** A translated text never starts or ends with a single quote and is a contiguous
      piece of the reply. */
  lemma TranslationUnquoted(reply: Option<string>)
    requires Usable(reply)
    ensures var t := TranslationOf(reply);
      && (t == [] || (t[0] != '\'' && t[|t| - 1] != '\''))
      && IsInfix(t, reply.value)
  {
    var s := reply.value;
    var d := Strip(s, {'"'});
    var t := Strip(d, {'\''});
    StripSlice(s, {'"'});
    StripSlice(d, {'\''});
    StripEnds(d, {'\''});
    var a1 := StripStart(s, {'"'});
    var a2 := StripStart(d, {'\''});
    forall k | 0 <= k < |t|
      ensures t[k] == s[a1 + a2 + k]
    {
      assert t[k] == d[a2 + k];
    }
    assert t == s[a1 + a2..a1 + a2 + |t|];
    IsInfixAt(t, s, a1 + a2);
  }

  /** Both quoting layers go when the double quotes are outside. */
  lemma TranslationDoubleOutside()
    ensures TranslationOf(Some("\"'Lune'\"")) == "Lune"
  {
    var d := Strip("\"'Lune'\"", {'"'});
    assert TrimStart("\"'Lune'\"", {'"'}) == "'Lune'\"";
    assert d == "'Lune'";
    assert TrimStart(d, {'\''}) == "Lune'";
  }

  /** With single quotes outside, the inner double quotes survive. */
  lemma TranslationSingleOutside()
    ensures TranslationOf(Some("'\"Lune\"'")) == "\"Lune\""
  {
    assert Strip("'\"Lune\"'", {'"'}) == "'\"Lune\"'";
    assert TrimStart("'\"Lune\"'", {'\''}) == "\"Lune\"'";
  }

  /** Without a usable reply the translation is `"tbd"`. */
  lemma TranslationFallback(reply: Option<string>)
    requires !Usable(reply)
    ensures TranslationOf(reply) == Tbd
  {
  }

  // ---------------------------------------------------------------------------
  // Tagging

  /** `[tag.strip().lower() for tag in pieces]`. */
  function Normalized(pieces: seq<string>): seq<string> {
    seq(|pieces|, i requires 0 <= i < |pieces| => Lower(Strip(pieces[i], Whitespace)))
  }

  /** The candidate tags: the first five normalised comma-separated pieces of the reply. */
  function RawTags(reply: string): seq<string> {
    PySliceTo(Normalized(SplitOn(reply, ',')), MaxTags)
  }

  /** `[t for t in raw if t in options]`. */
  function Validated(raw: seq<string>, options: seq<string>): seq<string>
    decreases |raw|
  {
    if raw == [] then []
    else (if raw[0] in options then [raw[0]] else []) + Validated(raw[1..], options)
  }

  /** Validation keeps the candidates in order. */
  lemma {:induction false} ValidatedOrder(raw: seq<string>, options: seq<string>)
    ensures IsSubsequence(Validated(raw, options), raw)
    decreases |raw|
  {
    if raw != [] {
      ValidatedOrder(raw[1..], options);
      var r := Validated(raw[1..], options);
      assert raw == [raw[0]] + raw[1..];
      SubsequenceCons(r, raw[1..], raw[0], raw[0] in options);
      assert Validated(raw, options) == if raw[0] in options then [raw[0]] + r else r;
    }
  }

  /** Validation keeps exactly the candidates in the vocabulary, each as often as it
      occurs. */
  lemma {:induction false} ValidatedCounts(raw: seq<string>, options: seq<string>)
    ensures forall t :: multiset(Validated(raw, options))[t] == if t in options then multiset(raw)[t] else 0
    decreases |raw|
  {
    if raw != [] {
      ValidatedCounts(raw[1..], options);
      assert raw == [raw[0]] + raw[1..];
      assert multiset(raw) == multiset{raw[0]} + multiset(raw[1..]);
    }
  }

  /** The tags: the validated candidates of a usable reply, else none. */
  function TagsOf(reply: Option<string>, options: seq<string>): seq<string> {
    if Usable(reply) then Validated(RawTags(reply.value), options) else []
  }

  /** At most five tags come back, all from the vocabulary, in the reply's order, and
      a vocabulary word occurs as often as among the first five pieces. */
  lemma TagsShape(reply: Option<string>, options: seq<string>)
    requires Usable(reply)
    ensures var tags := TagsOf(reply, options);
      var raw := RawTags(reply.value);
      && |tags| <= MaxTags
      && (forall i :: 0 <= i < |tags| ==> tags[i] in options)
      && IsSubsequence(tags, raw)
      && (forall t :: t in options ==> multiset(tags)[t] == multiset(raw)[t])
  {
    var raw := RawTags(reply.value);
    var tags := TagsOf(reply, options);
    ValidatedOrder(raw, options);
    ValidatedCounts(raw, options);
    SubsequenceLength(tags, raw);
    forall i | 0 <= i < |tags|
      ensures tags[i] in options
    {
      assert tags[i] in multiset(tags);
    }
  }

  /** Without a usable reply there are no tags. */
  lemma TagsFallback(reply: Option<string>, options: seq<string>)
    requires !Usable(reply)
    ensures TagsOf(reply, options) == []
  {
  }

  /** Tags are lower-cased and carry no surrounding whitespace. */
  lemma TagsNormalized(reply: Option<string>, options: seq<string>)
    requires Usable(reply)
    ensures forall i :: 0 <= i < |TagsOf(reply, options)| ==>
      Lower(TagsOf(reply, options)[i]) == TagsOf(reply, options)[i]
  {
    var raw := RawTags(reply.value);
    var tags := TagsOf(reply, options);
    ValidatedOrder(raw, options);
    ValidatedCounts(raw, options);
    forall i | 0 <= i < |tags|
      ensures Lower(tags[i]) == tags[i]
    {
      assert tags[i] in multiset(raw);
      var j :| 0 <= j < |raw| && raw[j] == tags[i];
      LowerIdempotent(Strip(SplitOn(reply.value, ',')[j], Whitespace));
    }
  }

  /** A reply listing two known tags and one unknown keeps the two. */
  lemma TagsExample()
    ensures TagsOf(Some("Haiku, moon ,dark"), TagOptions) == ["haiku", "dark"]
  {
    var s := "Haiku, moon ,dark";
    var raw := ["haiku", "moon", "dark"];
    ExamplePieces();
    ExampleNormalized();
    assert RawTags(s) == raw;
    ExampleValidated();
  }

  lemma ExamplePieces()
    ensures SplitOn("Haiku, moon ,dark", ',') == ["Haiku", " moon ", "dark"]
  {
    var ps := ["Haiku", " moon ", "dark"];
    assert JoinWith(ps, ',') == "Haiku, moon ,dark";
    SplitJoin(ps, ',');
  }

  lemma ExampleNormalized()
    ensures Normalized(["Haiku", " moon ", "dark"]) == ["haiku", "moon", "dark"]
  {
    var ps := ["Haiku", " moon ", "dark"];
    ExampleStripHaiku();
    ExampleStripDark();
    ExampleStripMoon();
    assert Normalized(ps)[0] == Lower("Haiku") == "haiku";
    assert Normalized(ps)[1] == Lower("moon") == "moon";
    assert Normalized(ps)[2] == Lower("dark") == "dark";
  }

  lemma ExampleStripHaiku()
    ensures Strip("Haiku", Whitespace) == "Haiku"
  {
    assert 'H' !in Whitespace && 'u' !in Whitespace;
    StripClean("Haiku", Whitespace);
  }

  lemma ExampleStripDark()
    ensures Strip("dark", Whitespace) == "dark"
  {
    assert 'd' !in Whitespace && 'k' !in Whitespace;
    StripClean("dark", Whitespace);
  }

  lemma ExampleStripMoon()
    ensures Strip(" moon ", Whitespace) == "moon"
  {
    assert " moon "[1..] == "moon ";
    assert 'm' !in Whitespace;
    assert TrimStart(" moon ", Whitespace) == "moon ";
    assert "moon "[..4] == "moon";
    assert 'n' !in Whitespace;
  }

  lemma ExampleValidated()
    ensures Validated(["haiku", "moon", "dark"], TagOptions) == ["haiku", "dark"]
  {
    assert TagOptions[4] == "haiku" && TagOptions[11] == "dark";
    assert "moon" !in TagOptions;
    var raw := ["haiku", "moon", "dark"];
    assert raw[1..] == ["moon", "dark"] && raw[1..][1..] == ["dark"];
    assert Validated(["dark"], TagOptions) == ["dark"];
    assert Validated(["moon", "dark"], TagOptions) == ["dark"];
  }

  // ---------------------------------------------------------------------------
  // The calls

  /** `call_openai_fix_grammar`. */
  method FixGrammar(svc: Service, text: string) returns (r: string)
    modifies svc
    ensures var a := Ask(old(svc.State()), GrammarFix(text));
      r == GrammarOf(a.reply, text) && svc.State() == a.state
  {
    var reply := svc.Call(GrammarFix(text));
    r := GrammarOf(reply, text);
  }

  /** `call_openai_generate_title`. */
  method GenerateTitle(svc: Service, poem: string, w: WordClass) returns (r: string)
    modifies svc
    ensures var a := Ask(old(svc.State()), TitleGeneration(poem));
      r == TitleOf(a.reply, w) && svc.State() == a.state
  {
    var reply := svc.Call(TitleGeneration(poem));
    r := TitleOf(reply, w);
  }

  /** The request a translation sends: the short title prompt or the poem prompt. */
  function TranslationRequest(text: string, language: string, isTitle: bool): Request {
    if isTitle then TitleTranslation(language, text) else PoemTranslation(language, text)
  }

  /** `call_openai_translation`. */
  method Translate(svc: Service, text: string, language: string, isTitle: bool) returns (r: string)
    modifies svc
    ensures var a := Ask(old(svc.State()), TranslationRequest(text, language, isTitle));
      r == TranslationOf(a.reply) && svc.State() == a.state
  {
    var reply := svc.Call(TranslationRequest(text, language, isTitle));
    r := TranslationOf(reply);
  }

  /** `call_openai_tagging`. */
  method ClassifyTags(svc: Service, poem: string, options: seq<string>) returns (r: seq<string>)
    modifies svc
    ensures var a := Ask(old(svc.State()), Tagging(poem, options));
      r == TagsOf(a.reply, options) && svc.State() == a.state
  {
    var reply := svc.Call(Tagging(poem, options));
    r := TagsOf(reply, options);
  }
}
