/** Timestamps and `extract_date_str_as_dt`. A timestamp is a whole number of seconds
    of naive (zone-less) wall-clock time; a calendar date is a day number, and the
    midnight that starts day `d` is `d * SecondsPerDay`. */
module Dates {
  import opened Wrappers

  const SecondsPerDay: int := 86400

  /** The calendar day of a timestamp (`dt.date()`); rounds down for instants before the epoch. */
  function Day(t: int): int {
    t / SecondsPerDay
  }

  /** The first second of day `d` (a date parsed with `%Y-%m-%d`). */
  function Midnight(d: int): int {
    d * SecondsPerDay
  }

  /** A timestamp lies on day `d` exactly when it is at or after that day's midnight and
      before the next one. */
  lemma DayBounds(t: int, d: int)
    ensures Day(t) == d <==> Midnight(d) <= t < Midnight(d + 1)
  {
  }

  /** `Day` is monotone. */
  lemma DayMonotone(s: int, t: int)
    requires s <= t
    ensures Day(s) <= Day(t)
  {
  }

  /** A timestamp at or before a day's midnight lies on that day or earlier. */
  lemma NotAfterMidnight(t: int, d: int)
    ensures t <= Midnight(d) ==> Day(t) <= d
  {
  }

  /** Comparing a timestamp with a midnight is comparing days. */
  lemma BeforeMidnight(t: int, d: int)
    ensures t < Midnight(d) <==> Day(t) < d
  {
  }

  /** An ISO-8601 parser treated as a black box: the naive timestamp a text denotes,
      or `None` when `fromisoformat` would reject it. */
  type IsoParser = string -> Option<int>

  /** The text handed to the parser: a trailing `Z` is replaced by `+00:00`. */
  function IsoInput(s: string): string {
    if |s| > 0 && s[|s| - 1] == 'Z' then s[..|s| - 1] + "+00:00" else s
  }

  /** The parser never sees a trailing `Z`, and it sees a non-empty text for a non-empty input. */
  lemma IsoInputNoZulu(s: string)
    ensures var r := IsoInput(s); r == [] || r[|r| - 1] != 'Z'
    ensures s != [] ==> IsoInput(s) != []
  {
  }

  /** Everything before the last character is handed over unchanged, and the text
      never gets shorter. */
  lemma IsoInputKeepsPrefix(s: string)
    ensures |IsoInput(s)| >= |s|
    ensures forall i :: 0 <= i < |s| - 1 ==> IsoInput(s)[i] == s[i]
  {
  }

  /** A text is handed over unchanged exactly when it does not end in `Z`. */
  lemma IsoInputUnchanged(s: string)
    ensures IsoInput(s) == s <==> s == [] || s[|s| - 1] != 'Z'
  {
    if |s| > 0 && s[|s| - 1] == 'Z' {
      assert IsoInput(s)[|IsoInput(s)| - 1] == '0';
    }
  }

  /** Rewriting twice is rewriting once. */
  lemma IsoInputIdempotent(s: string)
    ensures IsoInput(IsoInput(s)) == IsoInput(s)
  {
    IsoInputNoZulu(s);
    IsoInputUnchanged(IsoInput(s));
  }

  /** `extract_date_str_as_dt`: no date for an empty text, otherwise what the parser
      makes of the rewritten text (a parse failure is `None` too). */
  function ExtractDate(s: string, iso: IsoParser): Option<int> {
    if s == [] then None else iso(IsoInput(s))
  }

  /** An empty text never has a date, whatever the parser. */
  lemma ExtractDateEmpty(iso: IsoParser)
    ensures ExtractDate("", iso) == None
  {
  }

  /** A `Z`-suffixed timestamp is read as the same text with an explicit `+00:00` offset. */
  lemma ExtractDateZulu(s: string, iso: IsoParser)
    ensures ExtractDate(s + "Z", iso) == iso(s + "+00:00")
    ensures ExtractDate(s + "Z", iso) == ExtractDate(s + "+00:00", iso)
  {
    var z := s + "Z";
    assert z[..|z| - 1] == s;
    var o := s + "+00:00";
    assert o[|o| - 1] == '0';
  }
}
