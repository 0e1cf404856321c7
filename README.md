# Bluesky poem parser — a verified model of its core

`bluesky_poem_parser.py` takes a user's posts from the Bluesky feed, filters them by
date and enriches each one. Enrichment goes through a chat-completion service and produces:

- a grammar-fixed poem;
- a title;
- optional translations;
- tags chosen from a fixed vocabulary.

This project models the core of that pipeline in Dafny and proves what the code
promises. It covers:

- **Text helpers** (modules `Strings`, `TitleCase`, `Hashtags`):
  - `clean_hashtags_from_text` drops a `#` that stands directly before a word character;
  - `apply_title_case` splits on whitespace, capitalises each word and joins with single spaces;
  - the slices of `str.strip`, `str.split` and `str.lower` that these helpers use.
- **The retry policy of `log_and_call_openai`** (module `Completion`):
  - The completion service is an oracle: a sequence of outcomes, each `Fail` (an exception) or `Reply(text)`.
  - Sleeps are recorded as a list of delays.
  - `RetryFrom` is the recursive reference.
  - `Completion.Service.Call` is the loop that carries the one shared retry counter.
- **The four reply post-processors and their fallbacks** (module `Enricher`): grammar fix, title generation, translation and tagging. Each one exists:
  - as a function of the reply;
  - as a method that calls the service.
- **Timestamps** (modules `Dates`, `Records`):
  - A timestamp is a whole number of naive seconds, and its day is `t / 86400`.
  - The ISO parser is a parameter.
  - Only the empty-text case and the `Z` → `+00:00` rewrite of `extract_date_str_as_dt` are modelled as string logic.
- **The paginated fetch of `fetch_bluesky_posts`** (module `Fetch`):
  - The authentication result and the sequence of page responses are inputs.
  - `Fetch.Paginate` runs the `while True` loop.
  - It is proved against a declarative description, `FetchedAs`: which pages were requested, why the loop went on after each of them, why it stopped after the last, and what it collected.
- **`final_date_filter`** (module `DateFilter`): it has an absolute range branch, a relative window branch and an unfiltered branch. The clock and the parsed bounds are parameters.
- **`process_post_through_ai`** (module `Pipeline`):
  - `Pipeline.Enrich` is the reference function.
  - The class `Pipeline.Post` holds the post dictionary as a mutable field.
  - `Post.ProcessThroughAI` updates that field step by step, and calls the service between steps.

## Model

Every function, predicate, method and lemma of the project has a row. A helper's row names the member whose contract it serves.

| member | source | states |
|---|---|---|
| Wrappers.Option.GetOr | bluesky_poem_parser.py:336 | an optional value, or a default when it is absent; used by `Fetch.StartDay` |
| Strings.IsSpace | bluesky_poem_parser.py:259 | the `str.isspace()` character set, written out; see `CaseKeepsSpace`, `StripEmpty` and `Words` |
| Strings.AsciiWordChar | bluesky_poem_parser.py:112 | the ASCII part of `\w`, a witness that the word-class type is not empty |
| Strings.LowerChar | bluesky_poem_parser.py:242 | ASCII lower-casing of one character; see `CaseKeepsSpace` |
| Strings.UpperChar | bluesky_poem_parser.py:249 | ASCII upper-casing of one character; see `CaseKeepsSpace` |
| Strings.Lower | bluesky_poem_parser.py:242 | `str.lower` with ASCII case mapping; see `LowerIdempotent` and `CaseKeepsSpace` |
| Strings.CaseKeepsSpace | bluesky_poem_parser.py:242 | lower- and upper-casing a character never changes whether it is whitespace |
| Strings.LowerIdempotent | bluesky_poem_parser.py:242 | lower-casing twice is lower-casing once |
| Strings.TrimStart | bluesky_poem_parser.py:259 | stripping leading characters never lengthens the text |
| Strings.TrimStartSpec | bluesky_poem_parser.py:259 | the left strip is a suffix of the input, does not start with a stripped character, and only stripped characters were removed |
| Strings.TrimEnd | bluesky_poem_parser.py:172 | stripping trailing characters never lengthens the text |
| Strings.TrimEndSpec | bluesky_poem_parser.py:172 | the right strip is a prefix of the input, does not end with a stripped character, and only stripped characters were removed |
| Strings.Strip | bluesky_poem_parser.py:172 | `str.strip` with a set of characters; characterised by `StripSpec`, `StripEnds`, `StripChars`, `StripClean` and `StripEmpty` |
| Strings.StripSpec | bluesky_poem_parser.py:172 | `strip` gives a contiguous slice of the input with no stripped character at either end, and everything cut off on either side is a stripped character |
| Strings.StripStart | bluesky_poem_parser.py:207 | the position where the stripped text starts; see `StripSlice` |
| Strings.StripSlice | bluesky_poem_parser.py:207 | the stripped text is the slice of the input that starts at the first kept position |
| Strings.StripEnds | bluesky_poem_parser.py:230 | a stripped text neither starts nor ends with a character of the strip set |
| Strings.StripChars | bluesky_poem_parser.py:242 | every character of a stripped text occurs in the input |
| Strings.StripClean | bluesky_poem_parser.py:242 | a text that neither starts nor ends with a strip character is left unchanged |
| Strings.StripEmpty | bluesky_poem_parser.py:259 | a text strips to nothing exactly when all its characters are in the strip set (the whitespace-only content test) |
| Strings.JoinWith | bluesky_poem_parser.py:249 | `sep.join(pieces)` for a one-character separator; see `SplitOn`, `SplitJoin`, `JoinFirstChar`, `WordsOfJoin` and `JoinSingleSpaced` |
| Strings.SplitOn | bluesky_poem_parser.py:242 | `split(',')` gives at least one piece, no piece contains the separator, and joining the pieces gives the input back |
| Strings.SplitJoin | bluesky_poem_parser.py:242 | splitting a join of separator-free pieces gives the pieces back |
| Strings.JoinFirstChar | bluesky_poem_parser.py:242 | a join starts with the first character of its first piece, and the rest is the join with that character dropped |
| Strings.IsWord | bluesky_poem_parser.py:249 | a non-empty text without whitespace, a piece of `split()`; see `Words` and `WordsOfJoin` |
| Strings.RunLength | bluesky_poem_parser.py:249 | the run length is the length of the longest non-space prefix |
| Strings.Words | bluesky_poem_parser.py:249 | every piece of `split()` is a non-empty word without whitespace |
| Strings.RunLengthOfWord | bluesky_poem_parser.py:249 | a word followed by whitespace or by nothing is one run |
| Strings.WordsOfJoin | bluesky_poem_parser.py:249 | `split()` of words joined by single spaces gives the words back |
| Strings.IsPrefix | bluesky_poem_parser.py:166 | the text starts with the needle; used by `IsInfix` |
| Strings.IsInfix | bluesky_poem_parser.py:166 | Python's `needle in hay` on strings; see `IsInfixAt` and `IsApology` |
| Strings.IsInfixAt | bluesky_poem_parser.py:207 | a slice of a text is an infix of it |
| Seqs.IsSubsequence | bluesky_poem_parser.py:243 | the result keeps some elements of the input, in order; see `SubsequenceLength` |
| Seqs.SubsequenceSnoc | bluesky_poem_parser.py:464 | appending one element to both sides, or to the longer side only, keeps a subsequence; used by `SelectIsSubsequence` |
| Seqs.SubsequenceCons | bluesky_poem_parser.py:207 | prepending one element to both sides, or to the longer side only, keeps a subsequence; used by `KeepTitleCharsOrder` |
| Seqs.SubsequenceTail | bluesky_poem_parser.py:207 | dropping the first element of a subsequence keeps it a subsequence; used by `SubsequenceCons` |
| Seqs.SubsequenceOfSingle | bluesky_poem_parser.py:464 | the last element alone is a subsequence; used by `SubsequenceSnoc` |
| Seqs.SubsequenceLength | bluesky_poem_parser.py:243 | a subsequence is never longer than the sequence it came from |
| Seqs.PySliceTo | bluesky_poem_parser.py:413 | Python's `xs[:k]`: a prefix of `xs`, with `min(k, |xs|)` items for `0 <= k`, and with the last `min(-k, |xs|)` items cut off for negative `k` |
| TitleCase.Capitalize | bluesky_poem_parser.py:249 | `str.capitalize` with ASCII case mapping; see `CapitalizeKeepsWord` and `CapitalizeIdempotent` |
| TitleCase.ApplyTitleCase | bluesky_poem_parser.py:247-249 | `apply_title_case`; its word list, spacing and idempotence are stated by the `TitleCase*` lemmas |
| TitleCase.CapitalizeAll | bluesky_poem_parser.py:249 | `capitalize` applied to each word; see `CapitalizeAllWords` |
| TitleCase.SingleSpaced | bluesky_poem_parser.py:249 | no leading, trailing or doubled whitespace, and only plain spaces; see `JoinSingleSpaced` and `TitleCaseSingleSpaced` |
| TitleCase.CapitalizeKeepsWord | bluesky_poem_parser.py:249 | capitalising a word keeps it one word of the same length |
| TitleCase.CapitalizeIdempotent | bluesky_poem_parser.py:249 | capitalising twice is capitalising once |
| TitleCase.CapitalizeAllWords | bluesky_poem_parser.py:249 | capitalising a list of words gives a list of words |
| TitleCase.JoinSingleSpaced | bluesky_poem_parser.py:249 | words joined with `' '` have no leading, trailing or doubled whitespace |
| TitleCase.TitleCaseWords | bluesky_poem_parser.py:247-249 | the words of a title-cased text are the capitalised words of the input, so their number is kept |
| TitleCase.TitleCaseSingleSpaced | bluesky_poem_parser.py:247-249 | a title-cased text has no leading, trailing or doubled whitespace |
| TitleCase.TitleCaseIdempotent | bluesky_poem_parser.py:247-249 | title-casing is idempotent |
| TitleCase.TitleCaseFixed | bluesky_poem_parser.py:247-249 | single-spaced words that are already capitalised are left unchanged |
| Hashtags.CleanHashtags | bluesky_poem_parser.py:111-112 | `clean_hashtags_from_text` as a left-to-right scan of `#` + word-run matches; tied to the reference `Unmarked` by `CleanIsUnmarked` |
| Hashtags.IsMarker | bluesky_poem_parser.py:111-112 | a `#` followed directly by a word character, the start of a `#(\w+)` match; see `CleanIsUnmarked` |
| Hashtags.Unmarked | bluesky_poem_parser.py:111-112 | the reference definition: every marker dropped, every other character kept in order; see `CleanIsUnmarked` |
| Hashtags.MarkersBefore | bluesky_poem_parser.py:111-112 | the number of markers before a position; see `NonMarkerSurvives` and `CleanLength` |
| Hashtags.WordRun | bluesky_poem_parser.py:112 | the run length is the longest word-character prefix |
| Hashtags.UnmarkedOfPlain | bluesky_poem_parser.py:112 | a prefix without `#` passes through the reference definition unchanged |
| Hashtags.CleanIsUnmarked | bluesky_poem_parser.py:111-112 | the run-by-run substitution equals the reference definition: drop exactly the `#` signs directly followed by a word character |
| Hashtags.PlainUnmarked | bluesky_poem_parser.py:111-112 | a text without `#` is its own reference cleaning; used by `NoHashUnchanged` |
| Hashtags.NoHashUnchanged | bluesky_poem_parser.py:111-112 | a text without `#` is returned unchanged |
| Hashtags.NonMarkerSurvives | bluesky_poem_parser.py:111-112 | every character that is not a dropped `#` survives, and is shifted left by the number of dropped signs before it |
| Hashtags.CleanLength | bluesky_poem_parser.py:111-112 | the result is shorter than the input by exactly the number of dropped signs |
| Hashtags.CleanIsSubsequence | bluesky_poem_parser.py:111-112 | the result is an in-order subsequence of the input |
| Hashtags.CleanNonEmpty | bluesky_poem_parser.py:111-112 | a non-empty text stays non-empty |
| Hashtags.TagDropped | bluesky_poem_parser.py:111-112 | a `#` followed by a word character and then by a text without `#` is the only character removed |
| Hashtags.DoubleTagHalved | bluesky_poem_parser.py:111-112 | of `##` in front of a word without `#`, only the `#` next to the word is removed |
| Hashtags.LoveWins | bluesky_poem_parser.py:111-112 | `"#love wins"` becomes `"love wins"` |
| Hashtags.NotIdempotent | bluesky_poem_parser.py:111-112 | `"##love"` becomes `"#love"`, and a second pass gives `"love"` |
| Completion.OutcomeAt | bluesky_poem_parser.py:146-164 | the outcome of the `n`-th request to the service, a failure once the oracle is used up; see `DropNext` |
| Completion.Drop | bluesky_poem_parser.py:146-164 | the oracle after `k` requests; see `DropNext` and `AskConsumes` |
| Completion.Final | bluesky_poem_parser.py:172-183 | the text of the last attempt, or `None` after an error; see `RetryStops` and `NoneIffLastFailed` |
| Completion.RetryFrom | bluesky_poem_parser.py:166-183 | the recursive reference for the retry policy from retry count `n`; see `RetryShape`, `AttemptsBounded` and `NoneIffLastFailed` |
| Completion.Ask | bluesky_poem_parser.py:136-183 | one call of `log_and_call_openai` on a service state; see `AskConsumes` and `Service.Call` |
| Completion.IsApology | bluesky_poem_parser.py:166 | the `"i'm sorry" in result.lower()` test; see `RetryShape` and `ReplyIsLastText` |
| Completion.Retries | bluesky_poem_parser.py:166-177 | whether attempt `n` is followed by another: `retry_count < 3` and a raised error or an apology, on the one shared counter; see `RetryShape` and `AttemptsBounded` |
| Completion.Backoff | bluesky_poem_parser.py:170-181 | the sleep before the next attempt: 2 seconds after an apology, `2 * (retry_count + 1)` after an error; see `RetryShape` and `AlwaysFailing` |
| Completion.Stripped | bluesky_poem_parser.py:172 | `result.strip()` on the returned text; see `AskConsumes` and `Service.Call` |
| Completion.RetryShape | bluesky_poem_parser.py:166-183 | from retry count `n`, the attempts run up to the first that does not retry. Every earlier attempt retried, with that attempt's backoff as its delay, and the result is what the last attempt gave |
| Completion.AttemptsBounded | bluesky_poem_parser.py:166-183 | one shared counter bounds a call to between 1 and 4 attempts, with one sleep between consecutive attempts |
| Completion.NoneIffLastFailed | bluesky_poem_parser.py:173-183 | `None` comes back exactly when the fourth attempt raised |
| Completion.ReplyIsLastText | bluesky_poem_parser.py:166-172 | a returned text is the reply of the last attempt, which is no apology unless it was the fourth attempt |
| Completion.LastApologyReturned | bluesky_poem_parser.py:166-172 | after three retries, an apology on the fourth attempt is returned as text. The delays are each attempt's backoff |
| Completion.AlwaysFailing | bluesky_poem_parser.py:173-183 | a service that always raises gives four attempts, sleeps of 2, 4 and 6 seconds, and `None` |
| Completion.AskConsumes | bluesky_poem_parser.py:136-183 | one call records its request once, sleeps at most three times, and consumes between one and four outcomes |
| Completion.DropNext | bluesky_poem_parser.py:171 | the oracle after `k` requests answers the `k`-th outcome next |
| Completion.RetryContinues | bluesky_poem_parser.py:171 | a retrying attempt is followed by the trace from the next retry count, its delay in front |
| Completion.RetryStops | bluesky_poem_parser.py:172 | an attempt that does not retry ends the call with its own result |
| Completion.Service.State | bluesky_poem_parser.py:136-183 | the service's pending oracle, sleeps and requests as one value; the contracts of `Send`, `Sleep` and `Call` are stated over it |
| Completion.Service.constructor | bluesky_poem_parser.py:136 | a fresh service has its oracle pending and has logged nothing |
| Completion.Service.Send | bluesky_poem_parser.py:146-164 | a request takes the next outcome off the oracle |
| Completion.Service.Sleep | bluesky_poem_parser.py:170 | a sleep is appended to the recorded delays |
| Completion.Service.Call | bluesky_poem_parser.py:136-183 | the retry loop leaves the service state and the reply exactly as `Ask` describes |
| Enricher.Usable | bluesky_poem_parser.py:192 | the `if result:` test, also at bluesky_poem_parser.py:209, 231 and 245; see `GrammarFallback`, `TitleFallback`, `TranslationFallback` and `TagsFallback` |
| Enricher.GrammarOf | bluesky_poem_parser.py:185-192 | the grammar fix is either the input text or the non-empty reply, and it is empty only if the input was |
| Enricher.GrammarFallback | bluesky_poem_parser.py:192 | a missing or empty reply falls back to the input text |
| Enricher.TitleChar | bluesky_poem_parser.py:207 | the `[\w\s]` class; see `KeepTitleCharsCounts` and `GeneratedTitleShape` |
| Enricher.KeepTitleChars | bluesky_poem_parser.py:207 | the `[^\w\s]` removal; see `KeepTitleCharsOrder` and `KeepTitleCharsCounts` |
| Enricher.KeepTitleCharsOrder | bluesky_poem_parser.py:207 | removing non-word, non-space characters keeps the rest in order |
| Enricher.KeepTitleCharsCounts | bluesky_poem_parser.py:207 | every word or space character keeps its count, and every other character is gone |
| Enricher.TitleOf | bluesky_poem_parser.py:206-209 | the title of a reply; see `GeneratedTitleShape`, `TitleFallback` and `PunctuationTitleIsEmpty` |
| Enricher.GeneratedTitleShape | bluesky_poem_parser.py:206-208 | a generated title holds only word and whitespace characters, has no whitespace at either end, and is a contiguous piece of the cleaned reply |
| Enricher.TitleFallback | bluesky_poem_parser.py:209 | a missing or empty reply gives "Untitled Poem" |
| Enricher.PunctuationTitleIsEmpty | bluesky_poem_parser.py:206-208 | a reply made only of punctuation gives an empty title, not the placeholder |
| Enricher.TranslationOf | bluesky_poem_parser.py:229-231 | the translation of a reply; see `TranslationUnquoted` and `TranslationFallback` |
| Enricher.TranslationUnquoted | bluesky_poem_parser.py:229-230 | a translation neither starts nor ends with `'`, and is a contiguous piece of the reply |
| Enricher.TranslationDoubleOutside | bluesky_poem_parser.py:230 | `"'Lune'"` (double quotes outside) loses both quote layers |
| Enricher.TranslationSingleOutside | bluesky_poem_parser.py:230 | `'"Lune"'` (single quotes outside) keeps its inner double quotes |
| Enricher.TranslationFallback | bluesky_poem_parser.py:231 | a missing or empty reply gives "tbd" |
| Enricher.Normalized | bluesky_poem_parser.py:242 | `tag.strip().lower()` for each piece; see `TagsNormalized` and `ExampleNormalized` |
| Enricher.RawTags | bluesky_poem_parser.py:241-242 | the reply split on commas, each piece stripped and lower-cased; see `TagsNormalized` |
| Enricher.Validated | bluesky_poem_parser.py:243 | the vocabulary filter; see `ValidatedOrder` and `ValidatedCounts` |
| Enricher.TagsOf | bluesky_poem_parser.py:241-245 | the tags of a reply; see `TagsShape` and `TagsFallback` |
| Enricher.ValidatedOrder | bluesky_poem_parser.py:243 | the vocabulary filter keeps the raw tags in order |
| Enricher.ValidatedCounts | bluesky_poem_parser.py:243 | every tag in the vocabulary keeps its count, duplicates included, and every other tag is gone |
| Enricher.TagsShape | bluesky_poem_parser.py:241-244 | at most five tags, each in the vocabulary. They are the in-order subsequence of the first five normalised pieces that lie in the vocabulary, duplicates included |
| Enricher.TagsFallback | bluesky_poem_parser.py:245 | a missing or empty reply gives no tags |
| Enricher.TagsNormalized | bluesky_poem_parser.py:242 | every tag is lower case |
| Enricher.TagsExample | bluesky_poem_parser.py:241-244 | `"Haiku, moon ,dark"` gives `["haiku", "dark"]` |
| Enricher.ExamplePieces | bluesky_poem_parser.py:242 | the example reply splits into three pieces |
| Enricher.ExampleNormalized | bluesky_poem_parser.py:242 | the pieces are trimmed and lower-cased |
| Enricher.ExampleStripHaiku | bluesky_poem_parser.py:242 | `"Haiku"` has nothing to trim |
| Enricher.ExampleStripDark | bluesky_poem_parser.py:242 | `"dark"` has nothing to trim |
| Enricher.ExampleStripMoon | bluesky_poem_parser.py:242 | `" moon "` trims to `"moon"` |
| Enricher.ExampleValidated | bluesky_poem_parser.py:27-31 | `moon` is not in the vocabulary, `haiku` and `dark` are |
| Enricher.FixGrammar | bluesky_poem_parser.py:185-192 | sends one grammar request and returns the grammar fix of the reply |
| Enricher.GenerateTitle | bluesky_poem_parser.py:194-209 | sends one title request and returns the cleaned title or the placeholder |
| Enricher.TranslationRequest | bluesky_poem_parser.py:211-228 | the title or the poem translation request, chosen by `is_title`; see `Translate` and `TranslationCalls` |
| Enricher.Translate | bluesky_poem_parser.py:211-231 | sends the title or poem translation request and returns the unquoted reply or "tbd" |
| Enricher.ClassifyTags | bluesky_poem_parser.py:233-245 | sends one tagging request and returns the validated tags |
| Dates.Day | bluesky_poem_parser.py:397 | `dt.date()` on a timestamp in seconds; see `DayBounds` and `DayMonotone` |
| Dates.Midnight | bluesky_poem_parser.py:331-332 | the first second of a date parsed with `%Y-%m-%d`; see `DayBounds`, `NotAfterMidnight` and `BeforeMidnight` |
| Dates.DayBounds | bluesky_poem_parser.py:397 | a timestamp lies on day `d` exactly when it is at or after that day's midnight, and before the next |
| Dates.DayMonotone | bluesky_poem_parser.py:417 | a later instant never has an earlier date |
| Dates.NotAfterMidnight | bluesky_poem_parser.py:462 | an instant at or before a day's midnight lies on that day or earlier |
| Dates.BeforeMidnight | bluesky_poem_parser.py:460 | being before a day's midnight is lying on an earlier day |
| Dates.IsoInput | bluesky_poem_parser.py:118-119 | the text handed to `fromisoformat`; its properties are stated by `IsoInputNoZulu`, `IsoInputKeepsPrefix`, `IsoInputUnchanged` and `IsoInputIdempotent` |
| Dates.IsoInputNoZulu | bluesky_poem_parser.py:118-120 | the parser never sees a trailing `Z`, and it sees a non-empty text for a non-empty input |
| Dates.IsoInputKeepsPrefix | bluesky_poem_parser.py:118-119 | everything before the last character reaches the parser unchanged, and the text never gets shorter |
| Dates.IsoInputUnchanged | bluesky_poem_parser.py:118-119 | a text reaches the parser unchanged exactly when it does not end in `Z` |
| Dates.IsoInputIdempotent | bluesky_poem_parser.py:118-119 | rewriting twice is rewriting once |
| Dates.ExtractDate | bluesky_poem_parser.py:114-123 | `extract_date_str_as_dt`: no date for an empty text, else the parse of the rewritten text; see `ExtractDateEmpty` and `ExtractDateZulu` |
| Dates.ExtractDateEmpty | bluesky_poem_parser.py:115-116 | an empty text has no date |
| Dates.ExtractDateZulu | bluesky_poem_parser.py:118-121 | `…Z` parses as `…+00:00`, the bare `"Z"` included |
| Records.Truthy | bluesky_poem_parser.py:270 | Python truthiness of a field value, as in the `or` of bluesky_poem_parser.py:270; see `UntitledWhenDisabled` and `ExistingTitleWhenDisabled` |
| Records.TextField | bluesky_poem_parser.py:457 | `p.get(key, '')` for a string field, else the empty text; see `UndatedWithoutField` |
| Records.PublishedDate | bluesky_poem_parser.py:457 | the date of a post's `published_at`; see `UndatedWithoutField` |
| Records.UndatedWithoutField | bluesky_poem_parser.py:457 | a post without a `published_at` string has no date |
| Fetch.Authenticated | bluesky_poem_parser.py:351 | a token and a `did` are both present; see `FetchPosts` |
| Fetch.StartDay | bluesky_poem_parser.py:325-336 | the start day: the given date, or today when it is absent or does not parse; see `FetchPosts` and `FetchedPostsDated` |
| Fetch.Present | bluesky_poem_parser.py:423 | a present, non-empty optional text, as in `if not next_cursor`; see `StopsWithoutCursor` |
| Fetch.PageLimit | bluesky_poem_parser.py:365 | the page limit is `min(per_page_limit, 100)` |
| Fetch.ToRecord | bluesky_poem_parser.py:398-404 | the post dictionary built from a feed item; see `ScanPage` and `KeptItems` |
| Fetch.Keeps | bluesky_poem_parser.py:397 | an item is kept when its date parses and lies on or after the start day; see `ScanPage` and `FetchedPostsDated` |
| Fetch.Oldest | bluesky_poem_parser.py:384-394 | the oldest parsed date of a page; see `OldestIsMinimum` |
| Fetch.OldestIsMinimum | bluesky_poem_parser.py:384-394 | the tracked oldest date is absent exactly when no item has a date. Otherwise it is some item's date, and no item's date is earlier |
| Fetch.CrossedStart | bluesky_poem_parser.py:417 | the older-date stop test on the page's oldest date; see `CrossedStartIff` and `StopsAtOlderPost` |
| Fetch.CrossedStartIff | bluesky_poem_parser.py:417 | the older-date stop fires exactly when some item of the page lies on a day before the start day |
| Fetch.KeptItems | bluesky_poem_parser.py:384-404 | the items of a page dated on or after the start day, in order; see `ScanPage` and `FetchedPostsDated` |
| Fetch.ScanPage | bluesky_poem_parser.py:384-404 | the item loop keeps the items dated on or after the start day, in order, and tracks the page's oldest date |
| Fetch.StopFetch | bluesky_poem_parser.py:364-425 | a request log in which every earlier page continued and this one stops is a complete fetch |
| Fetch.MaxReached | bluesky_poem_parser.py:411 | `max_count and len(all_posts) >= max_count`; see `StepMax`, `StepBelowMax` and `FetchedAtMostMax` |
| Fetch.Collected | bluesky_poem_parser.py:407-414 | the posts after a page is added, trimmed to the maximum; see `StepMax` and `StepBelowMax` |
| Fetch.Continues | bluesky_poem_parser.py:410-425 | whether the loop requests another page; see `AfterScan` |
| Fetch.FetchedAs | bluesky_poem_parser.py:361-428 | the declarative description of a finished fetch; `Paginate` meets it, and `FetchDeterministic` shows it has one outcome |
| Fetch.PageAt | bluesky_poem_parser.py:370-376 | the `j`-th page response, a page error beyond the given responses; see `StopsOnPageError` |
| Fetch.CursorOf | bluesky_poem_parser.py:422 | the `cursor` of a page response, none for a failed request; see `RequestsWellFormed` and `StopsWithoutCursor` |
| Fetch.PageKept | bluesky_poem_parser.py:384-404 | the posts kept from one page response, none for a failed or empty one; see `FetchedInPageOrder` |
| Fetch.KeptUpTo | bluesky_poem_parser.py:407 | all posts kept from the first `n` pages, in page order; see `FetchedInPageOrder` and `FetchedAtMostMax` |
| Fetch.Progress | bluesky_poem_parser.py:364-425 | the invariant of the `while True` loop; carried by `FetchPage` and used by `Paginate` |
| Fetch.StepEmpty | bluesky_poem_parser.py:370-381 | a page error or an empty feed stops the loop and adds nothing |
| Fetch.StepMax | bluesky_poem_parser.py:411-414 | reaching the maximum stops the loop and trims the posts to it |
| Fetch.StepBelowMax | bluesky_poem_parser.py:407-411 | below the maximum, the page's kept posts are appended untrimmed |
| Fetch.FetchPosts | bluesky_poem_parser.py:311-428 | on failed authentication, or a missing token or `did`: no request and no posts. Otherwise the pagination described by `FetchedAs` |
| Fetch.FetchPage | bluesky_poem_parser.py:365-425 | one pass of the loop body either ends the fetch completely or carries the loop invariant one page further |
| Fetch.AfterScan | bluesky_poem_parser.py:407-425 | the three stop tests after a scanned page, in their order: maximum, then older date, then cursor |
| Fetch.Paginate | bluesky_poem_parser.py:361-428 | the loop ends and what it returns satisfies `FetchedAs` |
| Fetch.FetchDeterministic | bluesky_poem_parser.py:364-425 | `FetchedAs` describes at most one outcome |
| Fetch.RequestAt | bluesky_poem_parser.py:365-368 | the `j`-th request: the `did`, the page limit, and the previous page's cursor when there is one; see `RequestsWellFormed` |
| Fetch.RequestsWellFormed | bluesky_poem_parser.py:365-368 | every request carries the `did` and the page limit. The first has no cursor, and each later one carries the previous page's cursor |
| Fetch.DatedFrom | bluesky_poem_parser.py:397 | a post has a date on the start day or later; see `FetchedPostsDated` |
| Fetch.KeptItemsDated | bluesky_poem_parser.py:397 | every post kept from one page is dated from the start day; used by `FetchedPostsDated` |
| Fetch.KeptUpToDated | bluesky_poem_parser.py:397-407 | every post kept from the first `n` pages is dated from the start day; used by `FetchedPostsDated` |
| Fetch.FetchedPostsDated | bluesky_poem_parser.py:397 | every fetched post had a parseable date on or after the start day |
| Fetch.FetchedInPageOrder | bluesky_poem_parser.py:386-407 | the posts are a prefix of the kept items in page order, then item order |
| Fetch.FetchedAtMostMax | bluesky_poem_parser.py:411-414 | with a positive maximum there are at most that many posts: exactly that many once the pages read held that many, and every kept post when they held fewer, so `min(max_count, kept)` posts |
| Fetch.StopsOnPageError | bluesky_poem_parser.py:370-376 | a page error is the last request, and what came before is kept |
| Fetch.StopsOnEmptyFeed | bluesky_poem_parser.py:378-381 | an empty feed is the last request even when it has a cursor |
| Fetch.StopsAtOlderPost | bluesky_poem_parser.py:416-419 | a page holding a post dated before the start day is the last request |
| Fetch.StopsWithoutCursor | bluesky_poem_parser.py:421-425 | a page without a cursor is the last request |
| Fetch.MaxBeforeDate | bluesky_poem_parser.py:410-419 | when the maximum and the older-date stop fire together, the posts are trimmed: the maximum is tested first |
| DateFilter.ModeOf | bluesky_poem_parser.py:438-471 | which branch the bounds and `days` choose; see `RangeKeepsOnlyDated`, `WindowKeepsUndated` and `OutOfRangeDaysUnfiltered` |
| DateFilter.Keeps | bluesky_poem_parser.py:456-478 | the test one post must pass in each branch; see `SelectMembership` |
| DateFilter.Select | bluesky_poem_parser.py:454-480 | the filter as a function on the list; `FinalDateFilter` computes it, and `SelectIsSubsequence` and `SelectCounts` state it |
| DateFilter.FinalDateFilter | bluesky_poem_parser.py:430-480 | the loops keep exactly the posts the branch chosen by the bounds and `days` admits, in order |
| DateFilter.SelectAll | bluesky_poem_parser.py:454-480 | when every post is admitted, the list comes back unchanged |
| DateFilter.SelectAllInit | bluesky_poem_parser.py:454-480 | when every post is kept, every post of a prefix is kept too; used by `SelectAll` |
| DateFilter.SelectLastKept | bluesky_poem_parser.py:464 | a kept last post is appended to the filtered prefix; used by `SelectAll` |
| DateFilter.SelectIsSubsequence | bluesky_poem_parser.py:454-480 | the output is an order-preserving subsequence of the input |
| DateFilter.SelectCounts | bluesky_poem_parser.py:454-480 | an admitted post keeps its count, duplicates included, and any other post is gone |
| DateFilter.SelectMembership | bluesky_poem_parser.py:454-480 | a post is in the output exactly when it is in the input and admitted |
| DateFilter.RangeKeepsOnlyDated | bluesky_poem_parser.py:454-466 | with a start or end bound, undated posts are dropped. Every kept post lies between the bounds that are present |
| DateFilter.WindowKeepsUndated | bluesky_poem_parser.py:467-480 | without bounds and with `1 <= days <= 9999`, undated posts are kept, and a dated post is kept exactly when it is not older than `now - days` |
| DateFilter.OutOfRangeDaysUnfiltered | bluesky_poem_parser.py:469-470 | without bounds and with `days` outside `[1, 9999]`, the input comes back unchanged |
| DateFilter.EndDateDropsSameDay | bluesky_poem_parser.py:462 | a post at 01:00 on the end day is on that day, yet the end bound drops it |
| DateFilter.KeepsByDay | bluesky_poem_parser.py:69-70 | the corrected test, comparing calendar days; see `KeepsByDayIsInclusive` |
| DateFilter.SelectByDay | bluesky_poem_parser.py:454-466 | the corrected filter; see `SelectByDayIsSubsequence`, `SelectByDayCounts` and `SelectByDayInclusive` |
| DateFilter.KeepsByDayIsInclusive | bluesky_poem_parser.py:69-70 | the corrected test keeps a post exactly when it is dated and its day lies between the bounds, both included. It keeps every post the code keeps |
| DateFilter.SelectByDayIsSubsequence | bluesky_poem_parser.py:454-466 | the corrected filter keeps an order-preserving subsequence |
| DateFilter.SelectByDayKeeps | bluesky_poem_parser.py:454-466 | every post of the corrected filter passes the corrected test |
| DateFilter.SelectByDayCounts | bluesky_poem_parser.py:454-466 | the corrected filter keeps every post that passes the corrected test with its count, duplicates included, and drops every other post |
| DateFilter.SelectByDayInclusive | bluesky_poem_parser.py:69-70 | the corrected range filter keeps, in order, exactly the input posts that are dated on a day from the start date through the end date |
| DateFilter.ByDayKeepsSameDay | bluesky_poem_parser.py:70 | the corrected test keeps the 01:00 post on the end day |
| Pipeline.WellTyped | bluesky_poem_parser.py:259-273 | `content` and any existing title are strings, as the `.strip()` and hashtag cleaning assume; the precondition of `Enrich` |
| Pipeline.Existing | bluesky_poem_parser.py:270 | `post_data.get('title_en') or post_data.get('title')`; see `UntitledWhenDisabled` and `ExistingTitleWhenDisabled` |
| Pipeline.HasContent | bluesky_poem_parser.py:259 | `content` is present and does not strip to nothing; see `SkipsWithoutContent` |
| Pipeline.TitleKey | bluesky_poem_parser.py:289-293 | the `title_<lang>` key with the language lower-cased; see `KeysDistinct` and `TranslationKeysWritten` |
| Pipeline.PoemKey | bluesky_poem_parser.py:289-297 | the `poem_<lang>` key with the language lower-cased; see `KeysDistinct` and `TranslationKeysWritten` |
| Pipeline.Grammar | bluesky_poem_parser.py:264-265 | the grammar call on the cleaned content; see `GrammarStep` and `FirstCallIsGrammar` |
| Pipeline.Written | bluesky_poem_parser.py:266-307 | the keys the enrichment writes; see `KeysWritten` and `OtherKeysUntouched` |
| Pipeline.Enrich | bluesky_poem_parser.py:251-309 | `process_post_through_ai` as a function of the dictionary and the service; see `EnrichSteps`, `KeysWritten` and `Post.ProcessThroughAI` |
| Pipeline.Title | bluesky_poem_parser.py:268-285 | the title step; see `TitleStep` |
| Pipeline.Translation | bluesky_poem_parser.py:288-297 | the translation step; see `TranslationKeys`, `TranslationValues` and `TranslationCalls` |
| Pipeline.Tags | bluesky_poem_parser.py:299-303 | the tag step; see `TagsStep` |
| Pipeline.Category | bluesky_poem_parser.py:306-307 | the category default; see `CategoryDefault` |
| Pipeline.GrammarStep | bluesky_poem_parser.py:264-266 | the grammar step logs one grammar request for the cleaned content, and a non-empty text stays non-empty |
| Pipeline.TitleStep | bluesky_poem_parser.py:268-285 | the title step sends one request when titling is on and none when it is off, appending to the log |
| Pipeline.TranslationKeys | bluesky_poem_parser.py:288-297 | translation adds only `title_<lang>` and `poem_<lang>` and leaves every other key as it was |
| Pipeline.TranslationValues | bluesky_poem_parser.py:292-297 | both translation keys hold texts, and the poem translation is never empty |
| Pipeline.TranslationCalls | bluesky_poem_parser.py:292-296 | translation sends the title request and then the poem request |
| Pipeline.TagsStep | bluesky_poem_parser.py:299-303 | the tag step writes only `tags`: a list of at most five vocabulary tags, empty when tagging is off |
| Pipeline.LaterKeys | bluesky_poem_parser.py:288-303 | after the optional translation and the tag step, the keys are the earlier ones plus `tags` and the translation keys; used by `KeysWritten` |
| Pipeline.PrefixTrans | bluesky_poem_parser.py:251-309 | the call log only grows, by transitivity of prefixes |
| Pipeline.EnrichSteps | bluesky_poem_parser.py:263-309 | a post with content goes through grammar, title, the optional translation, tags and category, in this order |
| Pipeline.SkipsWithoutContent | bluesky_poem_parser.py:259-261 | missing or whitespace-only content skips the post, sends nothing and leaves the dictionary as it was |
| Pipeline.KeysWritten | bluesky_poem_parser.py:263-309 | a kept post gains exactly the written keys: `poem_en`, `title_en`, `tags`, `category`, and the two translation keys when translating |
| Pipeline.OtherKeysUntouched | bluesky_poem_parser.py:263-309 | every key that is not written keeps its value |
| Pipeline.CoreFieldsSet | bluesky_poem_parser.py:266-285 | `poem_en` is a non-empty text and `title_en` is a text |
| Pipeline.TagsSet | bluesky_poem_parser.py:300-303 | `tags` is a list of at most five vocabulary tags, and empty when tagging is off |
| Pipeline.PoemIsFixedContent | bluesky_poem_parser.py:264-266 | `poem_en` is the grammar fix of the hashtag-cleaned content, unless the translation language lower-cases to `en` |
| Pipeline.UntitledWhenDisabled | bluesky_poem_parser.py:284-285 | with titling off and no `title_en` or `title`, the title is "Untitled Poem" |
| Pipeline.ExistingTitleWhenDisabled | bluesky_poem_parser.py:281-283 | with titling off, an existing title is hashtag-cleaned and title-cased without a service call |
| Pipeline.TranslationKeysWritten | bluesky_poem_parser.py:288-297 | with translation on, both translation keys hold texts, and `poem_<lang>` is never empty |
| Pipeline.NoTranslationKeysWhenDisabled | bluesky_poem_parser.py:288 | with translation off, nothing beyond the four core keys is written |
| Pipeline.CategoryKeys | bluesky_poem_parser.py:306-307 | the category step adds `category` exactly when neither the post nor an earlier step has one, so the final keys are the old ones plus the written ones |
| Pipeline.CategoryDefault | bluesky_poem_parser.py:306-307 | `category` becomes "Uncategorized" only when it was absent |
| Pipeline.CallCount | bluesky_poem_parser.py:263-303 | the log grows by one grammar call, plus one for titling, two for translation and one for tagging when each is on |
| Pipeline.CallsAppended | bluesky_poem_parser.py:263-303 | earlier log entries stay in front |
| Pipeline.FirstCallIsGrammar | bluesky_poem_parser.py:264-265 | the first request is the grammar fix of the cleaned content |
| Pipeline.AllDisabled | bluesky_poem_parser.py:263-309 | with every option off, only the grammar call is made, the title is the placeholder and the tags are empty |
| Pipeline.KeysDistinct | bluesky_poem_parser.py:289-297 | the translation keys differ from each other and from the core keys, except that a language lower-casing to `en` overwrites `title_en` and `poem_en` |
| Pipeline.AskAllFailing | bluesky_poem_parser.py:173-183 | a service that always raises answers `None` and keeps failing |
| Pipeline.AllFailing | bluesky_poem_parser.py:173-183 | a service whose every pending answer is a failure; see `AskAllFailing` and `EveryCallFails` |
| Pipeline.FailingSteps | bluesky_poem_parser.py:263-309 | with every option on and a service that always fails, these are the intermediate dictionaries of each step |
| Pipeline.EveryCallFails | bluesky_poem_parser.py:263-303 | with a service that always fails, the result is: `poem_en` the cleaned content, `title_en` "Untitled Poem", and `tags` empty |
| Pipeline.EveryTranslationFails | bluesky_poem_parser.py:292-297 | with a service that always fails: `title_<lang>` is "Tbd" (the "tbd" fallback title-cased) and `poem_<lang>` is "tbd" |
| Pipeline.TitleOfFailure | bluesky_poem_parser.py:209 | a failed title call gives the placeholder |
| Pipeline.LetterNotSpace | bluesky_poem_parser.py:249 | an ASCII letter is not whitespace; used by `LettersAreWord` |
| Pipeline.LettersAreWord | bluesky_poem_parser.py:249 | a non-empty run of ASCII letters is one word; used by `PlaceholderWords` |
| Pipeline.PlaceholderWords | bluesky_poem_parser.py:209 | the two words of "Untitled Poem" are words that capitalising leaves unchanged; used by `TitleFixedPlaceholder` |
| Pipeline.TitleFixedPlaceholder | bluesky_poem_parser.py:249 | title-casing leaves "Untitled Poem" unchanged |
| Pipeline.TbdTitleCased | bluesky_poem_parser.py:293 | title-casing "tbd" gives "Tbd" |
| Pipeline.Post.constructor | bluesky_poem_parser.py:251 | a post holds the dictionary it was given |
| Pipeline.Post.ProcessThroughAI | bluesky_poem_parser.py:251-309 | updating the dictionary in place ends in the state `Enrich` describes. The same holds for the service log and oracle, and for whether the post was kept |
| Pipeline.Post.WriteTitle | bluesky_poem_parser.py:268-285 | the in-place title step ends in the state `Title` describes |
| Pipeline.Post.WriteTranslations | bluesky_poem_parser.py:288-297 | the in-place translation step ends in the state `Translation` describes |
| Pipeline.Post.WriteTags | bluesky_poem_parser.py:299-303 | the in-place tag step ends in the state `Tags` describes |

## Left out

- The OpenAI client, its version probe (bluesky_poem_parser.py:125-134, 143-165) and the prompts: they are foreign library calls. The model keeps only which request kind is sent, plus the text and language it carries.
- What the language model answers. For example, whether a grammar fix keeps the words cannot be stated about this code.
- The HTTP calls to Bluesky. They become an authentication result and a sequence of page responses. A request beyond the end of that sequence counts as a page error, so an endless feed is not modelled.
- The completion service is an oracle. Once it runs out, every further request fails.
- `time.sleep` is recorded as a list of delays. No time passes.
- The clock, `strptime` and `datetime.fromisoformat`:
  - the current time and the parsed day are parameters;
  - the ISO parser is a function parameter;
  - a date that does not parse is `None`;
  - an invalid start date falls back to today, so the fetch takes the start day already resolved (`StartDay`);
  - timestamps have whole-second resolution, so sub-second precision and time zones are not modelled: every parsed time is naive.
- Python's `\w` is a parameter (`WordClass`): any character class that excludes `#`. Whitespace is Python's `str.isspace()` set, written out. Case mapping covers ASCII letters only.
- Logging, console output, `load_json_file` and the JSON writes are file I/O.
- `parse_arguments` and `main` are left out:
  - credential and flag precedence are not modelled;
  - `main`'s second pass over filter and enrichment (which omits the translation language) is not modelled;
  - the model covers one pass of the pipeline.
- Item fields in the feed are decoded already. A malformed page raises in the source, because the field reads at bluesky_poem_parser.py:378-404 are outside any `try`: a page that is not a JSON object, an item field that is not a dictionary, or a tag that is not a string. The model assumes well-typed items. A missing `createdAt`, `text`, `uri` or `cid` is the empty text, and missing `tags` are the empty list.
- Pipeline.Post.ProcessThroughAI:
  - it requires `content` and any existing `title_en` or `title` to be strings. In the source a non-string value raises, and the model does not follow that exception;
  - its result is `kept` together with the updated dictionary, not an optional dictionary.
- Five behaviours of the source that a reader might not expect. The model follows the source in each:
  - the exception trigger and the "i'm sorry" trigger share one retry counter;
  - `strip('"')` and then `strip("'")` remove every outer quote of each kind, not just one pair;
  - hashtag cleaning is not idempotent on `"##love"`;
  - the failed title translation is stored title-cased as "Tbd";
  - a translation language that lower-cases to `en` overwrites `title_en` and `poem_en` (the preconditions of `Pipeline.PoemIsFixedContent`, `Pipeline.UntitledWhenDisabled` and `Pipeline.ExistingTitleWhenDisabled` exclude that language).
- A negative `max_count` is truthy. It trims the way Python's negative slice does (`Seqs.PySliceTo`).

## Findings

| source | as written | input that shows it | evidently intended | confidence | as-written member | corrected member |
|---|---|---|---|---|---|---|
| bluesky_poem_parser.py:462 | `dt > end_dt` compares the post's time with the end date's midnight, so a post later on the end day is dropped | `--end-date 2024-05-01` and a post published at `2024-05-01T01:00:00Z` | the end date is inclusive, as its help text at bluesky_poem_parser.py:70 says: every post dated on or before that day is kept | not executed | DateFilter.EndDateDropsSameDay | DateFilter.SelectByDayInclusive |
