/** `process_post_through_ai`: the fixed sequence of enrichment steps applied in place
    to one post record, with the completion service threaded through every call. */
module Pipeline {
  import opened Wrappers
  import opened Strings
  import opened TitleCase
  import opened Hashtags
  import opened Completion
  import opened Enricher
  import opened Records

  /** The three feature switches. */
  datatype Flags = Flags(title: bool, translation: bool, tagging: bool)

  const Uncategorized: string := "Uncategorized"

  /** `post_data.get('title_en') or post_data.get('title')`, when that is truthy. */
  function Existing(f: Record): Option<Value> {
    if "title_en" in f && Truthy(f["title_en"]) then Some(f["title_en"])
    else if "title" in f && Truthy(f["title"]) then Some(f["title"])
    else None
  }

  /** What the source assumes of a record without checking: `content`, when present,
      and the existing title, when there is one, are strings (anything else raises). */
  predicate WellTyped(f: Record) {
    && ("content" in f ==> f["content"].Str?)
    && (Existing(f).Some? ==> Existing(f).value.Str?)
  }

  /** The post has content that is not all whitespace. */
  predicate HasContent(f: Record) {
    "content" in f && f["content"].Str? && Strip(f["content"].s, Whitespace) != []
  }

  /** The keys a translation into `language` writes. */
  function TitleKey(language: string): string { "title_" + Lower(language) }
  function PoemKey(language: string): string { "poem_" + Lower(language) }

  /** A text produced by a step and the service state after it. */
  datatype TextOut = TextOut(text: string, service: ServiceState)

  /** A record produced by a step and the service state after it. */
  datatype Step = Step(fields: Record, service: ServiceState)

  /** The outcome: whether the post was kept (returned) and the record and service after. */
  datatype EnrichResult = EnrichResult(kept: bool, fields: Record, service: ServiceState)

  /** `call_openai_fix_grammar` on the service state. */
  function Grammar(st: ServiceState, text: string): TextOut {
    var a := Ask(st, GrammarFix(text));
    TextOut(GrammarOf(a.reply, text), a.state)
  }

  /** Step 2, the English title: the grammar-fixed existing title, a generated one,
      the cleaned existing title, or the placeholder; always title-cased except the
      placeholder. */
  function Title(f: Record, st: ServiceState, poem: string, enabled: bool, w: WordClass): TextOut
    requires WellTyped(f)
  {
    var e := Existing(f);
    if enabled then
      if e.Some? then
        var g := Grammar(st, CleanHashtags(e.value.s, w));
        TextOut(ApplyTitleCase(g.text), g.service)
      else
        var a := Ask(st, TitleGeneration(poem));
        TextOut(ApplyTitleCase(TitleOf(a.reply, w)), a.state)
    else if e.Some? then TextOut(ApplyTitleCase(CleanHashtags(e.value.s, w)), st)
    else TextOut(UntitledPoem, st)
  }

  /** Step 3: the title and then the poem translated, written under the lower-cased
      language name; an empty translation is stored as `"tbd"`. */
  function Translation(f: Record, st: ServiceState, language: string): Step
    requires "title_en" in f && f["title_en"].Str? && "poem_en" in f && f["poem_en"].Str?
  {
    var a := Ask(st, TitleTranslation(language, f["title_en"].s));
    var tt := TranslationOf(a.reply);
    var f1 := f[TitleKey(language) := Str(if tt != [] then ApplyTitleCase(tt) else Tbd)];
    var b := Ask(a.state, PoemTranslation(language, f1["poem_en"].s));
    var pt := TranslationOf(b.reply);
    Step(f1[PoemKey(language) := Str(if pt != [] then pt else Tbd)], b.state)
  }

  /** Step 4: the tags chosen for the current `poem_en`, or none when tagging is off. */
  function Tags(f: Record, st: ServiceState, enabled: bool): Step
    requires "poem_en" in f && f["poem_en"].Str?
  {
    if enabled then
      var a := Ask(st, Tagging(f["poem_en"].s, TagOptions));
      Step(f["tags" := StrList(TagsOf(a.reply, TagOptions))], a.state)
    else Step(f["tags" := StrList([])], st)
  }

  /** Step 5: a missing category becomes `"Uncategorized"`. */
  function Category(f: Record): Record {
    if "category" in f then f else f["category" := Str(Uncategorized)]
  }

  /** The whole of `process_post_through_ai` on the record and the service state. */
  function Enrich(f: Record, st: ServiceState, flags: Flags, language: string, w: WordClass): EnrichResult
    requires WellTyped(f)
  {
    if !HasContent(f) then EnrichResult(false, f, st)
    else
      var g := Grammar(st, CleanHashtags(f["content"].s, w));
      var f1 := f["poem_en" := Str(g.text)];
      assert Existing(f1) == Existing(f);
      var t := Title(f1, g.service, g.text, flags.title, w);
      var f2 := f1["title_en" := Str(t.text)];
      var s3 := if flags.translation then Translation(f2, t.service, language) else Step(f2, t.service);
      var s4 := Tags(s3.fields, s3.service, flags.tagging);
      EnrichResult(true, Category(s4.fields), s4.service)
  }

  /** The keys the enrichment writes. */
  function Written(f: Record, flags: Flags, language: string): set<string> {
    {"poem_en", "title_en", "tags"}
    + (if flags.translation then {TitleKey(language), PoemKey(language)} else {})
    + (if "category" in f then {} else {"category"})
  }

  // ---------------------------------------------------------------------------
  // One step at a time

  /** The grammar step makes one call and keeps a non-empty text non-empty. */
  lemma GrammarStep(st: ServiceState, text: string)
    ensures Grammar(st, text).service.calls == st.calls + [GrammarFix(text)]
    ensures text != [] ==> Grammar(st, text).text != []
  {
    AskConsumes(st, GrammarFix(text));
  }

  /** The title step makes one call when titling is on and none otherwise. */
  lemma TitleStep(f: Record, st: ServiceState, poem: string, enabled: bool, w: WordClass)
    requires WellTyped(f)
    ensures var t := Title(f, st, poem, enabled, w);
      && |t.service.calls| == |st.calls| + (if enabled then 1 else 0)
      && st.calls <= t.service.calls
  {
    var e := Existing(f);
    if enabled {
      if e.Some? {
        GrammarStep(st, CleanHashtags(e.value.s, w));
      } else {
        AskConsumes(st, TitleGeneration(poem));
      }
    }
  }

  /** The translation step writes its two keys and leaves every other key alone. */
  lemma TranslationKeys(f: Record, st: ServiceState, language: string)
    requires "title_en" in f && f["title_en"].Str? && "poem_en" in f && f["poem_en"].Str?
    ensures var s := Translation(f, st, language);
      && (forall k :: k in s.fields <==> k in f || k == TitleKey(language) || k == PoemKey(language))
      && (forall k :: k in f && k != TitleKey(language) && k != PoemKey(language) ==> s.fields[k] == f[k])
  {
  }

  /** The translations written are strings, and the poem's is never empty. */
  lemma TranslationValues(f: Record, st: ServiceState, language: string)
    requires "title_en" in f && f["title_en"].Str? && "poem_en" in f && f["poem_en"].Str?
    ensures var s := Translation(f, st, language);
      && TitleKey(language) in s.fields && s.fields[TitleKey(language)].Str?
      && PoemKey(language) in s.fields && s.fields[PoemKey(language)].Str? && s.fields[PoemKey(language)].s != []
  {
    KeysDistinct(language);
  }

  /** The translation step makes two calls. */
  lemma TranslationCalls(f: Record, st: ServiceState, language: string)
    requires "title_en" in f && f["title_en"].Str? && "poem_en" in f && f["poem_en"].Str?
    ensures var s := Translation(f, st, language);
      |s.service.calls| == |st.calls| + 2 && st.calls <= s.service.calls
  {
    var a := Ask(st, TitleTranslation(language, f["title_en"].s));
    AskConsumes(st, TitleTranslation(language, f["title_en"].s));
    var tt := TranslationOf(a.reply);
    var f1 := f[TitleKey(language) := Str(if tt != [] then ApplyTitleCase(tt) else Tbd)];
    AskConsumes(a.state, PoemTranslation(language, f1["poem_en"].s));
  }

  /** The tagging step writes only `tags`: at most five known tags, none when tagging
      is off, with one call when it is on. */
  lemma TagsStep(f: Record, st: ServiceState, enabled: bool)
    requires "poem_en" in f && f["poem_en"].Str?
    ensures var s := Tags(f, st, enabled);
      && "tags" in s.fields && s.fields == f["tags" := s.fields["tags"]]
      && s.fields["tags"].StrList?
      && |s.fields["tags"].items| <= MaxTags
      && (forall i :: 0 <= i < |s.fields["tags"].items| ==> s.fields["tags"].items[i] in TagOptions)
      && (!enabled ==> s.fields["tags"].items == [])
      && |s.service.calls| == |st.calls| + (if enabled then 1 else 0)
      && st.calls <= s.service.calls
  {
    if enabled {
      var a := Ask(st, Tagging(f["poem_en"].s, TagOptions));
      AskConsumes(st, Tagging(f["poem_en"].s, TagOptions));
      if Usable(a.reply) {
        TagsShape(a.reply, TagOptions);
      }
    }
  }

  /** After the title, the translation and tag steps add their keys and no others. */
  lemma LaterKeys(f: Record, st: ServiceState, flags: Flags, language: string)
    requires "title_en" in f && f["title_en"].Str? && "poem_en" in f && f["poem_en"].Str?
    ensures var s3 := if flags.translation then Translation(f, st, language) else Step(f, st);
      && "poem_en" in s3.fields && s3.fields["poem_en"].Str?
      && forall k :: k in Tags(s3.fields, s3.service, flags.tagging).fields <==>
           k in f || k == "tags" || (flags.translation && (k == TitleKey(language) || k == PoemKey(language)))
  {
    KeysDistinct(language);
    var s3 := if flags.translation then Translation(f, st, language) else Step(f, st);
    if flags.translation {
      TranslationKeys(f, st, language);
    }
    TagsStep(s3.fields, s3.service, flags.tagging);
  }

  /** Being a prefix is transitive. */
  lemma PrefixTrans(a: seq<Request>, b: seq<Request>, c: seq<Request>)
    requires a <= b && b <= c
    ensures a <= c
  {
    assert c[..|b|][..|a|] == c[..|a|];
  }

  /** `Enrich` on a post with content, as its four steps. */
  lemma EnrichSteps(f: Record, st: ServiceState, flags: Flags, language: string, w: WordClass)
    returns (g: TextOut, t: TextOut, s3: Step, s4: Step)
    requires WellTyped(f) && HasContent(f)
    ensures g == Grammar(st, CleanHashtags(f["content"].s, w))
    ensures WellTyped(f["poem_en" := Str(g.text)])
    ensures Existing(f["poem_en" := Str(g.text)]) == Existing(f)
    ensures t == Title(f["poem_en" := Str(g.text)], g.service, g.text, flags.title, w)
    ensures s3 == if flags.translation then Translation(f["poem_en" := Str(g.text)]["title_en" := Str(t.text)], t.service, language)
                  else Step(f["poem_en" := Str(g.text)]["title_en" := Str(t.text)], t.service)
    ensures "poem_en" in s3.fields && s3.fields["poem_en"].Str?
    ensures s4 == Tags(s3.fields, s3.service, flags.tagging)
    ensures Enrich(f, st, flags, language, w) == EnrichResult(true, Category(s4.fields), s4.service)
  {
    g := Grammar(st, CleanHashtags(f["content"].s, w));
    var f1 := f["poem_en" := Str(g.text)];
    assert Existing(f1) == Existing(f);
    t := Title(f1, g.service, g.text, flags.title, w);
    var f2 := f1["title_en" := Str(t.text)];
    s3 := if flags.translation then Translation(f2, t.service, language) else Step(f2, t.service);
    if flags.translation {
      TranslationKeys(f2, t.service, language);
    }
    s4 := Tags(s3.fields, s3.service, flags.tagging);
  }

  // ---------------------------------------------------------------------------
  // Properties

  /** A post without usable content is skipped: nothing is written and no call is made. */
  lemma SkipsWithoutContent(f: Record, st: ServiceState, flags: Flags, language: string, w: WordClass)
    requires WellTyped(f) && !HasContent(f)
    ensures Enrich(f, st, flags, language, w) == EnrichResult(false, f, st)
  {
  }

  /** A kept post's key set grows by exactly the written keys. */
  lemma KeysWritten(f: Record, st: ServiceState, flags: Flags, language: string, w: WordClass)
    requires WellTyped(f) && HasContent(f)
    ensures var r := Enrich(f, st, flags, language, w);
      r.kept && forall k :: k in r.fields <==> k in f || k in Written(f, flags, language)
  {
    var g, t, s3, s4 := EnrichSteps(f, st, flags, language, w);
    var f2 := f["poem_en" := Str(g.text)]["title_en" := Str(t.text)];
    LaterKeys(f2, t.service, flags, language);
    assert forall k :: k in f2 <==> k in f || k == "poem_en" || k == "title_en";
    CategoryKeys(f, s4.fields, flags, language);
    assert Enrich(f, st, flags, language, w).fields == Category(s4.fields);
  }

  /** The category step adds `category` exactly when neither the post nor an
      earlier step has one. */
  lemma CategoryKeys(f: Record, fields: Record, flags: Flags, language: string)
    requires forall k :: k in fields <==>
      k in f || k == "poem_en" || k == "title_en" || k == "tags" ||
      (flags.translation && (k == TitleKey(language) || k == PoemKey(language)))
    ensures forall k :: k in Category(fields) <==> k in f || k in Written(f, flags, language)
  {
    KeysDistinct(language);
    assert "category" in fields <==> "category" in f;
  }

  /** Every key that is not written keeps its value. */
  lemma OtherKeysUntouched(f: Record, st: ServiceState, flags: Flags, language: string, w: WordClass)
    requires WellTyped(f) && HasContent(f)
    ensures var r := Enrich(f, st, flags, language, w);
      forall k :: k in f && k !in Written(f, flags, language) ==> k in r.fields && r.fields[k] == f[k]
  {
    KeysDistinct(language);
    var g, t, s3, s4 := EnrichSteps(f, st, flags, language, w);
    if flags.translation {
      TranslationKeys(f["poem_en" := Str(g.text)]["title_en" := Str(t.text)], t.service, language);
    }
    TagsStep(s3.fields, s3.service, flags.tagging);
  }

  /** A post with content always gets a non-empty `poem_en` string and a `title_en`
      string. */
  lemma CoreFieldsSet(f: Record, st: ServiceState, flags: Flags, language: string, w: WordClass)
    requires WellTyped(f) && HasContent(f)
    ensures var r := Enrich(f, st, flags, language, w);
      && "poem_en" in r.fields && r.fields["poem_en"].Str? && r.fields["poem_en"].s != []
      && "title_en" in r.fields && r.fields["title_en"].Str?
  {
    KeysDistinct(language);
    var c := f["content"].s;
    assert c != [] by {
      if c == [] {
        StripEmpty(c, Whitespace);
      }
    }
    CleanNonEmpty(c, w);
    var g, t, s3, s4 := EnrichSteps(f, st, flags, language, w);
    GrammarStep(st, CleanHashtags(c, w));
    var f2 := f["poem_en" := Str(g.text)]["title_en" := Str(t.text)];
    if flags.translation {
      TranslationValues(f2, t.service, language);
    }
    assert s3.fields["poem_en"].s != [];
    assert s3.fields["title_en"].Str?;
    TagsStep(s3.fields, s3.service, flags.tagging);
  }

  /** A post with content always gets a `tags` list holding at most five known tags;
      without tagging the list is empty. */
  lemma TagsSet(f: Record, st: ServiceState, flags: Flags, language: string, w: WordClass)
    requires WellTyped(f) && HasContent(f)
    ensures var r := Enrich(f, st, flags, language, w);
      && "tags" in r.fields && r.fields["tags"].StrList?
      && |r.fields["tags"].items| <= MaxTags
      && (forall i :: 0 <= i < |r.fields["tags"].items| ==> r.fields["tags"].items[i] in TagOptions)
      && (!flags.tagging ==> r.fields["tags"].items == [])
  {
    var g, t, s3, s4 := EnrichSteps(f, st, flags, language, w);
    TagsStep(s3.fields, s3.service, flags.tagging);
  }

  /** Unless a translation is written under the key `poem_en` itself, `poem_en` is the
      grammar fix of the hashtag-cleaned content. */
  lemma PoemIsFixedContent(f: Record, st: ServiceState, flags: Flags, language: string, w: WordClass)
    requires WellTyped(f) && HasContent(f)
    requires !(flags.translation && Lower(language) == "en")
    ensures var clean := CleanHashtags(f["content"].s, w);
      Enrich(f, st, flags, language, w).fields["poem_en"] == Str(GrammarOf(Ask(st, GrammarFix(clean)).reply, clean))
  {
    KeysDistinct(language);
    var g, t, s3, s4 := EnrichSteps(f, st, flags, language, w);
    var f2 := f["poem_en" := Str(g.text)]["title_en" := Str(t.text)];
    if flags.translation {
      TranslationKeys(f2, t.service, language);
    }
    TagsStep(s3.fields, s3.service, flags.tagging);
  }

  /** Without titling and without an existing title the placeholder is used. */
  lemma UntitledWhenDisabled(f: Record, st: ServiceState, flags: Flags, language: string, w: WordClass)
    requires WellTyped(f) && HasContent(f) && !flags.title && Existing(f).None?
    requires !(flags.translation && Lower(language) == "en")
    ensures Enrich(f, st, flags, language, w).fields["title_en"] == Str(UntitledPoem)
  {
    KeysDistinct(language);
    var g, t, s3, s4 := EnrichSteps(f, st, flags, language, w);
    var f2 := f["poem_en" := Str(g.text)]["title_en" := Str(t.text)];
    if flags.translation {
      TranslationKeys(f2, t.service, language);
    }
    TagsStep(s3.fields, s3.service, flags.tagging);
  }

  /** With titling off an existing title is cleaned of hashtags and title-cased, with
      no call made for it. */
  lemma ExistingTitleWhenDisabled(f: Record, st: ServiceState, flags: Flags, language: string, w: WordClass)
    requires WellTyped(f) && HasContent(f) && !flags.title && Existing(f).Some?
    requires !(flags.translation && Lower(language) == "en")
    ensures Enrich(f, st, flags, language, w).fields["title_en"] == Str(ApplyTitleCase(CleanHashtags(Existing(f).value.s, w)))
  {
    KeysDistinct(language);
    var g, t, s3, s4 := EnrichSteps(f, st, flags, language, w);
    var f2 := f["poem_en" := Str(g.text)]["title_en" := Str(t.text)];
    if flags.translation {
      TranslationKeys(f2, t.service, language);
    }
    TagsStep(s3.fields, s3.service, flags.tagging);
  }

  /** With translation on, both translation keys hold strings, and the poem's is
      never empty. */
  lemma TranslationKeysWritten(f: Record, st: ServiceState, flags: Flags, language: string, w: WordClass)
    requires WellTyped(f) && HasContent(f) && flags.translation
    ensures var r := Enrich(f, st, flags, language, w);
      && TitleKey(language) in r.fields && r.fields[TitleKey(language)].Str?
      && PoemKey(language) in r.fields && r.fields[PoemKey(language)].Str?
      && r.fields[PoemKey(language)].s != []
  {
    KeysDistinct(language);
    var g, t, s3, s4 := EnrichSteps(f, st, flags, language, w);
    var f2 := f["poem_en" := Str(g.text)]["title_en" := Str(t.text)];
    TranslationValues(f2, t.service, language);
    TagsStep(s3.fields, s3.service, flags.tagging);
  }

  /** With translation off, any key other than `poem_en`, `title_en`, `tags` and
      `category` keeps whatever it held. */
  lemma NoTranslationKeysWhenDisabled(f: Record, st: ServiceState, flags: Flags, language: string, w: WordClass)
    requires WellTyped(f) && HasContent(f) && !flags.translation
    ensures var r := Enrich(f, st, flags, language, w);
      forall k :: k in r.fields && k !in {"poem_en", "title_en", "tags", "category"} ==> k in f && r.fields[k] == f[k]
  {
    var g, t, s3, s4 := EnrichSteps(f, st, flags, language, w);
    TagsStep(s3.fields, s3.service, flags.tagging);
  }

  /** The category is kept when present and set to `"Uncategorized"` otherwise. */
  lemma CategoryDefault(f: Record, st: ServiceState, flags: Flags, language: string, w: WordClass)
    requires WellTyped(f) && HasContent(f)
    ensures var r := Enrich(f, st, flags, language, w);
      r.fields["category"] == if "category" in f then f["category"] else Str(Uncategorized)
  {
    KeysDistinct(language);
    var g, t, s3, s4 := EnrichSteps(f, st, flags, language, w);
    if flags.translation {
      TranslationKeys(f["poem_en" := Str(g.text)]["title_en" := Str(t.text)], t.service, language);
    }
    TagsStep(s3.fields, s3.service, flags.tagging);
    assert "category" in f ==> s4.fields["category"] == f["category"];
  }

  /** One call per enrichment call made: one grammar fix, at most one title call, two
      translations and one tagging request. */
  lemma CallCount(f: Record, st: ServiceState, flags: Flags, language: string, w: WordClass)
    requires WellTyped(f) && HasContent(f)
    ensures var r := Enrich(f, st, flags, language, w);
      var n := 1 + (if flags.title then 1 else 0) + (if flags.translation then 2 else 0) + (if flags.tagging then 1 else 0);
      |r.service.calls| == |st.calls| + n
  {
    var g, t, s3, s4 := EnrichSteps(f, st, flags, language, w);
    GrammarStep(st, CleanHashtags(f["content"].s, w));
    TitleStep(f["poem_en" := Str(g.text)], g.service, g.text, flags.title, w);
    if flags.translation {
      TranslationCalls(f["poem_en" := Str(g.text)]["title_en" := Str(t.text)], t.service, language);
    }
    TagsStep(s3.fields, s3.service, flags.tagging);
  }

  /** The calls are appended to the log: what was logged before stays in front. */
  lemma CallsAppended(f: Record, st: ServiceState, flags: Flags, language: string, w: WordClass)
    requires WellTyped(f) && HasContent(f)
    ensures st.calls <= Enrich(f, st, flags, language, w).service.calls
  {
    var g, t, s3, s4 := EnrichSteps(f, st, flags, language, w);
    GrammarStep(st, CleanHashtags(f["content"].s, w));
    TitleStep(f["poem_en" := Str(g.text)], g.service, g.text, flags.title, w);
    if flags.translation {
      TranslationCalls(f["poem_en" := Str(g.text)]["title_en" := Str(t.text)], t.service, language);
    }
    TagsStep(s3.fields, s3.service, flags.tagging);
    PrefixTrans(st.calls, g.service.calls, t.service.calls);
    PrefixTrans(st.calls, t.service.calls, s3.service.calls);
    PrefixTrans(st.calls, s3.service.calls, s4.service.calls);
  }

  /** The first call made is the grammar fix of the hashtag-cleaned content, logged
      right after the calls made before. */
  lemma FirstCallIsGrammar(f: Record, st: ServiceState, flags: Flags, language: string, w: WordClass)
    requires WellTyped(f) && HasContent(f)
    ensures st.calls + [GrammarFix(CleanHashtags(f["content"].s, w))] <= Enrich(f, st, flags, language, w).service.calls
  {
    var clean := CleanHashtags(f["content"].s, w);
    var g, t, s3, s4 := EnrichSteps(f, st, flags, language, w);
    GrammarStep(st, clean);
    TitleStep(f["poem_en" := Str(g.text)], g.service, g.text, flags.title, w);
    if flags.translation {
      TranslationCalls(f["poem_en" := Str(g.text)]["title_en" := Str(t.text)], t.service, language);
    }
    TagsStep(s3.fields, s3.service, flags.tagging);
    PrefixTrans(g.service.calls, t.service.calls, s3.service.calls);
    PrefixTrans(g.service.calls, s3.service.calls, s4.service.calls);
  }

  /** All features off and no existing title: a single grammar call, the placeholder
      title and no tags. */
  lemma AllDisabled(f: Record, st: ServiceState, language: string, w: WordClass)
    requires WellTyped(f) && HasContent(f) && Existing(f).None?
    ensures var clean := CleanHashtags(f["content"].s, w);
      var r := Enrich(f, st, Flags(false, false, false), language, w);
      && r.service.calls == st.calls + [GrammarFix(clean)]
      && r.fields["title_en"] == Str(UntitledPoem)
      && r.fields["tags"] == StrList([])
  {
    var flags := Flags(false, false, false);
    var g, t, s3, s4 := EnrichSteps(f, st, flags, language, w);
    GrammarStep(st, CleanHashtags(f["content"].s, w));
    TagsStep(s3.fields, s3.service, false);
  }

  /** The translation keys never collide with the other keys written, and they are
      `title_en` and `poem_en` exactly when the lower-cased language name is `en`. */
  lemma KeysDistinct(language: string)
    ensures TitleKey(language) != PoemKey(language)
    ensures TitleKey(language) !in {"poem_en", "tags", "category"}
    ensures PoemKey(language) !in {"title_en", "tags", "category"}
    ensures TitleKey(language) == "title_en" <==> Lower(language) == "en"
    ensures PoemKey(language) == "poem_en" <==> Lower(language) == "en"
  {
    var t, p := TitleKey(language), PoemKey(language);
    assert t[0] == 't' && t[1] == 'i' && p[0] == 'p';
    assert t[6..] == Lower(language) && p[5..] == Lower(language);
    if Lower(language) == "en" {
      assert t == "title_en" && p == "poem_en";
    }
  }

  /** A service state whose every pending answer is a failure. */
  predicate AllFailing(st: ServiceState) {
    forall i :: 0 <= i < |st.pending| ==> st.pending[i] == Fail
  }

  /** A call to a service that always fails gets nothing, and the service keeps failing. */
  lemma AskAllFailing(st: ServiceState, req: Request)
    requires AllFailing(st)
    ensures Ask(st, req).reply == None && AllFailing(Ask(st, req).state)
  {
    AlwaysFailing(st.pending);
  }

  /** The four steps against a service that always fails, for a post without a title:
      every call falls back. */
  lemma FailingSteps(f: Record, st: ServiceState, language: string, w: WordClass)
    returns (g: TextOut, t: TextOut, s3: Step, s4: Step)
    requires WellTyped(f) && HasContent(f) && Existing(f).None? && AllFailing(st)
    ensures Enrich(f, st, Flags(true, true, true), language, w) == EnrichResult(true, Category(s4.fields), s4.service)
    ensures g.text == CleanHashtags(f["content"].s, w) && AllFailing(g.service)
    ensures t.text == UntitledPoem && AllFailing(t.service)
    ensures s3.fields == f["poem_en" := Str(g.text)]["title_en" := Str(t.text)][TitleKey(language) := Str("Tbd")][PoemKey(language) := Str(Tbd)]
    ensures AllFailing(s3.service)
    ensures s4.fields == s3.fields["tags" := StrList([])]
  {
    var flags := Flags(true, true, true);
    var clean := CleanHashtags(f["content"].s, w);
    g, t, s3, s4 := EnrichSteps(f, st, flags, language, w);
    AskAllFailing(st, GrammarFix(clean));
    AskAllFailing(g.service, TitleGeneration(g.text));
    TitleOfFailure(w);
    TitleFixedPlaceholder();
    var a := Ask(t.service, TitleTranslation(language, UntitledPoem));
    AskAllFailing(t.service, TitleTranslation(language, UntitledPoem));
    TbdTitleCased();
    var f3 := f["poem_en" := Str(g.text)]["title_en" := Str(t.text)][TitleKey(language) := Str("Tbd")];
    AskAllFailing(a.state, PoemTranslation(language, f3["poem_en"].s));
    AskAllFailing(s3.service, Tagging(s3.fields["poem_en"].s, TagOptions));
  }

  /** Everything on, with a service that always fails and a post without a title: the
      poem is the cleaned content, the title the placeholder and there are no tags. */
  lemma EveryCallFails(f: Record, st: ServiceState, language: string, w: WordClass)
    requires WellTyped(f) && HasContent(f) && Existing(f).None? && AllFailing(st)
    requires Lower(language) != "en"
    ensures var r := Enrich(f, st, Flags(true, true, true), language, w);
      && r.fields["poem_en"] == Str(CleanHashtags(f["content"].s, w))
      && r.fields["title_en"] == Str(UntitledPoem)
      && r.fields["tags"] == StrList([])
  {
    KeysDistinct(language);
    var g, t, s3, s4 := FailingSteps(f, st, language, w);
    assert s4.fields["poem_en"] == Str(g.text);
    assert s4.fields["title_en"] == Str(t.text);
  }

  /** In the same setting the translated title is `"Tbd"` (the title-cased `"tbd"`)
      and the translated poem `"tbd"`. */
  lemma EveryTranslationFails(f: Record, st: ServiceState, language: string, w: WordClass)
    requires WellTyped(f) && HasContent(f) && Existing(f).None? && AllFailing(st)
    ensures var r := Enrich(f, st, Flags(true, true, true), language, w);
      && r.fields[TitleKey(language)] == Str("Tbd")
      && r.fields[PoemKey(language)] == Str(Tbd)
  {
    KeysDistinct(language);
    var g, t, s3, s4 := FailingSteps(f, st, language, w);
    assert s4.fields[TitleKey(language)] == Str("Tbd");
    assert s4.fields[PoemKey(language)] == Str(Tbd);
  }

  /** A failed title generation gives the placeholder. */
  lemma TitleOfFailure(w: WordClass)
    ensures TitleOf(None, w) == UntitledPoem
  {
    TitleFallback(None, w);
  }

  /** An ASCII letter is not whitespace. */
  lemma LetterNotSpace(c: char)
    requires 'a' <= c <= 'z' || 'A' <= c <= 'Z'
    ensures !IsSpace(c)
  {
  }

  /** A non-empty run of ASCII letters is a word. */
  lemma LettersAreWord(u: string)
    requires u != [] && forall i :: 0 <= i < |u| ==> 'a' <= u[i] <= 'z' || 'A' <= u[i] <= 'Z'
    ensures IsWord(u)
  {
    forall i | 0 <= i < |u|
      ensures !IsSpace(u[i])
    {
      LetterNotSpace(u[i]);
    }
  }

  /** The two words of `"Untitled Poem"` are already capitalised. */
  lemma PlaceholderWords()
    ensures IsWord("Untitled") && Capitalize("Untitled") == "Untitled"
    ensures IsWord("Poem") && Capitalize("Poem") == "Poem"
  {
    LettersAreWord("Untitled");
    LettersAreWord("Poem");
    assert Lower("ntitled") == "ntitled";
    assert Lower("oem") == "oem";
  }

  /** `"Untitled Poem"` is unchanged by title casing. */
  lemma TitleFixedPlaceholder()
    ensures ApplyTitleCase(UntitledPoem) == UntitledPoem
  {
    var ws := ["Untitled", "Poem"];
    assert JoinWith(ws, ' ') == UntitledPoem;
    PlaceholderWords();
    TitleCaseFixed(ws);
  }

  /** The fallback `"tbd"` becomes `"Tbd"` once title-cased. */
  lemma TbdTitleCased()
    ensures ApplyTitleCase(Tbd) == "Tbd"
  {
    var ws := ["tbd"];
    assert JoinWith(ws, ' ') == Tbd;
    WordsOfJoin(ws);
    assert Capitalize("tbd") == "Tbd" by {
      assert Lower("bd") == "bd";
    }
    assert CapitalizeAll(ws) == ["Tbd"];
  }

  /** A post record updated in place by the enrichment. */
  class Post {
    var fields: Record

    constructor (fields0: Record)
      ensures fields == fields0
    {
      fields := fields0;
    }

    /** `process_post_through_ai`: `kept` is false where the source returns `None`. */
    method ProcessThroughAI(svc: Service, flags: Flags, language: string, w: WordClass) returns (kept: bool)
      requires WellTyped(fields)
      modifies this, svc
      ensures var r := Enrich(old(fields), old(svc.State()), flags, language, w);
        kept == r.kept && fields == r.fields && svc.State() == r.service
    {
      if !("content" in fields && Strip(fields["content"].s, Whitespace) != []) {
        return false;
      }
      ghost var f0, st0 := fields, svc.State();
      ghost var g, t, s3, s4 := EnrichSteps(f0, st0, flags, language, w);
      var contentClean := CleanHashtags(fields["content"].s, w);
      var contentFixed := FixGrammar(svc, contentClean);
      fields := fields["poem_en" := Str(contentFixed)];
      WriteTitle(svc, contentFixed, flags.title, w);
      if flags.translation {
        WriteTranslations(svc, language);
      }
      WriteTags(svc, flags.tagging);
      if "category" !in fields {
        fields := fields["category" := Str(Uncategorized)];
      }
      kept := true;
    }

    /** Step 2 of `process_post_through_ai`. */
    method WriteTitle(svc: Service, poem: string, enabled: bool, w: WordClass)
      requires WellTyped(fields)
      modifies this, svc
      ensures var t := Title(old(fields), old(svc.State()), poem, enabled, w);
        fields == old(fields)["title_en" := Str(t.text)] && svc.State() == t.service
    {
      var existing := Existing(fields);
      if enabled {
        if existing.Some? {
          var titleFixed := FixGrammar(svc, CleanHashtags(existing.value.s, w));
          fields := fields["title_en" := Str(ApplyTitleCase(titleFixed))];
        } else {
          var newTitle := GenerateTitle(svc, poem, w);
          fields := fields["title_en" := Str(ApplyTitleCase(newTitle))];
        }
      } else if existing.Some? {
        fields := fields["title_en" := Str(ApplyTitleCase(CleanHashtags(existing.value.s, w)))];
      } else {
        fields := fields["title_en" := Str(UntitledPoem)];
      }
    }

    /** Step 3 of `process_post_through_ai`. */
    method WriteTranslations(svc: Service, language: string)
      requires "title_en" in fields && fields["title_en"].Str? && "poem_en" in fields && fields["poem_en"].Str?
      modifies this, svc
      ensures var s := Translation(old(fields), old(svc.State()), language);
        fields == s.fields && svc.State() == s.service
    {
      var titleTranslated := Translate(svc, fields["title_en"].s, language, true);
      fields := fields[TitleKey(language) := Str(if titleTranslated != [] then ApplyTitleCase(titleTranslated) else Tbd)];
      var poemTranslated := Translate(svc, fields["poem_en"].s, language, false);
      fields := fields[PoemKey(language) := Str(if poemTranslated != [] then poemTranslated else Tbd)];
    }

    /** Step 4 of `process_post_through_ai`. */
    method WriteTags(svc: Service, enabled: bool)
      requires "poem_en" in fields && fields["poem_en"].Str?
      modifies this, svc
      ensures var s := Tags(old(fields), old(svc.State()), enabled);
        fields == s.fields && svc.State() == s.service
    {
      if enabled {
        var tags := ClassifyTags(svc, fields["poem_en"].s, TagOptions);
        fields := fields["tags" := StrList(tags)];
      } else {
        fields := fields["tags" := StrList([])];
      }
    }
  }
}
