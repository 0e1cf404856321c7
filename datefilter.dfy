/** `final_date_filter`: an absolute date range when a start or end date parsed,
    otherwise a window of `days` days back from now, otherwise no filtering. */
module DateFilter {
  import opened Wrappers
  import opened Seqs
  import opened Dates
  import opened Records

  /** Which branch the filter takes. Range bounds are day numbers (`strptime` gives
      their midnight); the window cutoff is a timestamp. */
  datatype Mode = Range(start: Option<int>, end: Option<int>) | Window(cutoff: int) | Unfiltered

  const MaxDays: int := 9999

  /** The branch for the parsed start and end dates (`None` when absent or malformed),
      the `days` setting and the current time. */
  function ModeOf(days: int, startArg: Option<int>, endArg: Option<int>, now: int): Mode {
    if startArg.Some? || endArg.Some? then Range(startArg, endArg)
    else if days < 1 || days > MaxDays then Unfiltered
    else Window(now - days * SecondsPerDay)
  }

  /** Whether a post survives, as the source decides it. In the range branch a post
      needs a date, at or after the start's midnight and at or before the end's
      midnight; in the window branch a post survives when it is undated or not older
      than the cutoff. */
  predicate Keeps(p: Record, mode: Mode, iso: IsoParser) {
    var d := PublishedDate(p, iso);
    match mode
    case Range(start, end) =>
      d.Some? && (start.None? || d.value >= Midnight(start.value))
      && (end.None? || d.value <= Midnight(end.value))
    case Window(cutoff) => d.None? || d.value >= cutoff
    case Unfiltered => true
  }

  /** The surviving posts, in input order. */
  function Select(posts: seq<Record>, mode: Mode, iso: IsoParser): seq<Record>
    decreases |posts|
  {
    if posts == [] then []
    else
      var last := posts[|posts| - 1];
      Select(posts[..|posts| - 1], mode, iso) + (if Keeps(last, mode, iso) then [last] else [])
  }

  /** `final_date_filter` with the parsed dates and the clock as inputs. */
  method FinalDateFilter(posts: seq<Record>, days: int, startArg: Option<int>, endArg: Option<int>,
                         now: int, iso: IsoParser) returns (kept: seq<Record>)
    ensures kept == Select(posts, ModeOf(days, startArg, endArg, now), iso)
  {
    var mode := ModeOf(days, startArg, endArg, now);
    kept := [];
    if startArg.Some? || endArg.Some? {
      for i := 0 to |posts|
        invariant kept == Select(posts[..i], mode, iso)
      {
        assert posts[..i + 1][..i] == posts[..i];
        var p := posts[i];
        var dt := PublishedDate(p, iso);
        if dt.None? {
          continue;
        }
        if startArg.Some? && dt.value < Midnight(startArg.value) {
          continue;
        }
        if endArg.Some? && dt.value > Midnight(endArg.value) {
          continue;
        }
        kept := kept + [p];
      }
    } else {
      if days < 1 || days > MaxDays {
        SelectAll(posts, mode, iso);
        return posts;
      }
      var cutoff := now - days * SecondsPerDay;
      for i := 0 to |posts|
        invariant kept == Select(posts[..i], mode, iso)
      {
        assert posts[..i + 1][..i] == posts[..i];
        var p := posts[i];
        var dt := PublishedDate(p, iso);
        if dt.Some? && dt.value >= cutoff {
          kept := kept + [p];
        } else if dt.None? {
          kept := kept + [p];
        }
      }
    }
    assert posts[..|posts|] == posts;
  }

  /** When every post survives, the input comes back unchanged. */
  lemma {:induction false} SelectAll(posts: seq<Record>, mode: Mode, iso: IsoParser)
    requires forall i :: 0 <= i < |posts| ==> Keeps(posts[i], mode, iso)
    ensures Select(posts, mode, iso) == posts
    decreases |posts|
  {
    if posts != [] {
      var init := posts[..|posts| - 1];
      SelectAllInit(posts, init, mode, iso);
      SelectAll(init, mode, iso);
      SelectLastKept(posts, mode, iso);
      assert init + [posts[|posts| - 1]] == posts;
    }
  }

  /** Every post of the list without its last one survives too. */
  lemma SelectAllInit(posts: seq<Record>, init: seq<Record>, mode: Mode, iso: IsoParser)
    requires posts != [] && init == posts[..|posts| - 1]
    requires forall i :: 0 <= i < |posts| ==> Keeps(posts[i], mode, iso)
    ensures forall i :: 0 <= i < |init| ==> Keeps(init[i], mode, iso)
  {
  }

  /** One unfolding of `Select` on a list whose last post survives. */
  lemma SelectLastKept(posts: seq<Record>, mode: Mode, iso: IsoParser)
    requires posts != [] && Keeps(posts[|posts| - 1], mode, iso)
    ensures Select(posts, mode, iso) == Select(posts[..|posts| - 1], mode, iso) + [posts[|posts| - 1]]
  {
  }

  /** The output keeps the input order: it is a subsequence of the input. */
  lemma {:induction false} SelectIsSubsequence(posts: seq<Record>, mode: Mode, iso: IsoParser)
    ensures IsSubsequence(Select(posts, mode, iso), posts)
    decreases |posts|
  {
    if posts != [] {
      var init := posts[..|posts| - 1];
      var last := posts[|posts| - 1];
      SelectIsSubsequence(init, mode, iso);
      SubsequenceSnoc(Select(init, mode, iso), init, last, Keeps(last, mode, iso));
      assert init + [last] == posts;
      assert Select(init, mode, iso) + [] == Select(init, mode, iso);
    }
  }

  /** Exactly the surviving posts are kept, each as often as it occurs. */
  lemma {:induction false} SelectCounts(posts: seq<Record>, mode: Mode, iso: IsoParser)
    ensures forall p :: multiset(Select(posts, mode, iso))[p] == if Keeps(p, mode, iso) then multiset(posts)[p] else 0
    decreases |posts|
  {
    if posts != [] {
      var init := posts[..|posts| - 1];
      var last := posts[|posts| - 1];
      SelectCounts(init, mode, iso);
      assert init + [last] == posts;
      assert multiset(posts) == multiset(init) + multiset{last};
    }
  }

  /** A post is kept exactly when it is in the input and survives. */
  lemma SelectMembership(posts: seq<Record>, mode: Mode, iso: IsoParser, p: Record)
    ensures p in Select(posts, mode, iso) <==> p in posts && Keeps(p, mode, iso)
  {
    SelectCounts(posts, mode, iso);
    assert p in Select(posts, mode, iso) <==> multiset(Select(posts, mode, iso))[p] > 0;
    assert p in posts <==> multiset(posts)[p] > 0;
  }

  /** The range branch is fail-closed: every kept post has a date inside the bounds
      given. */
  lemma RangeKeepsOnlyDated(posts: seq<Record>, days: int, startArg: Option<int>, endArg: Option<int>,
                            now: int, iso: IsoParser)
    requires startArg.Some? || endArg.Some?
    ensures forall p :: p in Select(posts, ModeOf(days, startArg, endArg, now), iso) ==>
      var d := PublishedDate(p, iso);
      && d.Some?
      && (startArg.Some? ==> Midnight(startArg.value) <= d.value)
      && (endArg.Some? ==> d.value <= Midnight(endArg.value))
  {
    forall p | p in Select(posts, ModeOf(days, startArg, endArg, now), iso)
      ensures PublishedDate(p, iso).Some?
    {
      SelectMembership(posts, ModeOf(days, startArg, endArg, now), iso, p);
    }
    forall p | p in Select(posts, ModeOf(days, startArg, endArg, now), iso)
      ensures Keeps(p, ModeOf(days, startArg, endArg, now), iso)
    {
      SelectMembership(posts, ModeOf(days, startArg, endArg, now), iso, p);
    }
  }

  /** The window branch is fail-open: an undated post is always kept, and a dated
      one exactly when it is not older than `days` days before now. */
  lemma WindowKeepsUndated(posts: seq<Record>, days: int, now: int, iso: IsoParser, p: Record)
    requires 1 <= days <= MaxDays
    requires p in posts
    ensures PublishedDate(p, iso).None? ==> p in Select(posts, ModeOf(days, None, None, now), iso)
    ensures PublishedDate(p, iso).Some? ==>
      (p in Select(posts, ModeOf(days, None, None, now), iso) <==> PublishedDate(p, iso).value >= now - days * SecondsPerDay)
  {
    SelectMembership(posts, ModeOf(days, None, None, now), iso, p);
  }

  /** Without bounds and with `days` outside `[1, 9999]` nothing is filtered. */
  lemma OutOfRangeDaysUnfiltered(posts: seq<Record>, days: int, now: int, iso: IsoParser)
    requires days < 1 || days > MaxDays
    ensures Select(posts, ModeOf(days, None, None, now), iso) == posts
  {
    SelectAll(posts, Unfiltered, iso);
  }

  // ---------------------------------------------------------------------------
  // The end bound

  /** As written, the end bound is the midnight that starts the end date, so a post
      made later on the end date itself is dropped. */
  lemma EndDateDropsSameDay(p: Record, e: int, iso: IsoParser)
    requires PublishedDate(p, iso) == Some(Midnight(e) + 3600)
    ensures Day(PublishedDate(p, iso).value) == e
    ensures !Keeps(p, Range(None, Some(e)), iso)
  {
    DayBounds(Midnight(e) + 3600, e);
  }

  /** The range as the option texts describe it ("on or after", "on or before"):
      bounds compared by calendar day, so the whole end date is included. */
  predicate KeepsByDay(p: Record, mode: Mode, iso: IsoParser) {
    var d := PublishedDate(p, iso);
    match mode
    case Range(start, end) =>
      d.Some? && (start.None? || Day(d.value) >= start.value) && (end.None? || Day(d.value) <= end.value)
    case Window(cutoff) => d.None? || d.value >= cutoff
    case Unfiltered => true
  }

  /** The corrected filter, in input order. */
  function SelectByDay(posts: seq<Record>, mode: Mode, iso: IsoParser): seq<Record>
    decreases |posts|
  {
    if posts == [] then []
    else
      var last := posts[|posts| - 1];
      SelectByDay(posts[..|posts| - 1], mode, iso) + (if KeepsByDay(last, mode, iso) then [last] else [])
  }

  /** The corrected range keeps a post exactly when it is dated on a day from the
      start date through the end date, and it keeps everything the written one keeps. */
  lemma KeepsByDayIsInclusive(p: Record, start: Option<int>, end: Option<int>, iso: IsoParser)
    ensures KeepsByDay(p, Range(start, end), iso) <==>
      var d := PublishedDate(p, iso);
      d.Some? && (start.None? || start.value <= Day(d.value)) && (end.None? || Day(d.value) <= end.value)
    ensures Keeps(p, Range(start, end), iso) ==> KeepsByDay(p, Range(start, end), iso)
  {
    var d := PublishedDate(p, iso);
    if d.Some? {
      if start.Some? {
        BeforeMidnight(d.value, start.value);
      }
      if end.Some? {
        NotAfterMidnight(d.value, end.value);
      }
    }
  }

  /** The corrected filter keeps the input order. */
  lemma {:induction false} SelectByDayIsSubsequence(posts: seq<Record>, mode: Mode, iso: IsoParser)
    ensures IsSubsequence(SelectByDay(posts, mode, iso), posts)
    decreases |posts|
  {
    if posts != [] {
      var init := posts[..|posts| - 1];
      var last := posts[|posts| - 1];
      SelectByDayIsSubsequence(init, mode, iso);
      SubsequenceSnoc(SelectByDay(init, mode, iso), init, last, KeepsByDay(last, mode, iso));
      assert init + [last] == posts;
      assert SelectByDay(init, mode, iso) + [] == SelectByDay(init, mode, iso);
    }
  }

  /** Every post the corrected filter keeps passes the corrected test. */
  lemma {:induction false} SelectByDayKeeps(posts: seq<Record>, mode: Mode, iso: IsoParser)
    ensures forall p :: p in SelectByDay(posts, mode, iso) ==> KeepsByDay(p, mode, iso)
    decreases |posts|
  {
    if posts != [] {
      SelectByDayKeeps(posts[..|posts| - 1], mode, iso);
    }
  }

  /** The corrected filter keeps exactly the posts that pass the corrected test,
      each as often as it occurs in the input. */
  lemma {:induction false} SelectByDayCounts(posts: seq<Record>, mode: Mode, iso: IsoParser)
    ensures forall p :: multiset(SelectByDay(posts, mode, iso))[p] == if KeepsByDay(p, mode, iso) then multiset(posts)[p] else 0
    decreases |posts|
  {
    if posts != [] {
      var init := posts[..|posts| - 1];
      var last := posts[|posts| - 1];
      SelectByDayCounts(init, mode, iso);
      assert init + [last] == posts;
      assert multiset(posts) == multiset(init) + multiset{last};
    }
  }

  /** The corrected range filter keeps, in order, exactly the input posts dated on a
      day from the start date through the end date. */
  lemma SelectByDayInclusive(posts: seq<Record>, start: Option<int>, end: Option<int>, iso: IsoParser)
    ensures IsSubsequence(SelectByDay(posts, Range(start, end), iso), posts)
    ensures forall p :: p in SelectByDay(posts, Range(start, end), iso) <==>
      var d := PublishedDate(p, iso);
      p in posts && d.Some? && (start.None? || start.value <= Day(d.value)) && (end.None? || Day(d.value) <= end.value)
  {
    SelectByDayIsSubsequence(posts, Range(start, end), iso);
    SelectByDayCounts(posts, Range(start, end), iso);
    forall p
      ensures p in SelectByDay(posts, Range(start, end), iso) <==> p in posts && KeepsByDay(p, Range(start, end), iso)
    {
      assert p in SelectByDay(posts, Range(start, end), iso) <==> multiset(SelectByDay(posts, Range(start, end), iso))[p] > 0;
      assert p in posts <==> multiset(posts)[p] > 0;
    }
  }

  /** The corrected range keeps the post the written one drops. */
  lemma ByDayKeepsSameDay(p: Record, e: int, iso: IsoParser)
    requires PublishedDate(p, iso) == Some(Midnight(e) + 3600)
    ensures KeepsByDay(p, Range(None, Some(e)), iso)
  {
    DayBounds(Midnight(e) + 3600, e);
  }
}
