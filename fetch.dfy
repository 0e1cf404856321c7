/** `fetch_bluesky_posts`: authenticate, then page through the author feed newest
    first, keeping the posts dated on or after the start day, until a stop condition
    holds. The network is replaced by its answers: one authentication result and the
    sequence of answers to successive page requests. */
module Fetch {
  import opened Wrappers
  import opened Seqs
  import opened Strings
  import opened Dates
  import opened Records

  /** One feed entry, with every missing field already given its default
      (`""` for the texts, `[]` for the tags). */
  datatype Item = Item(createdAt: string, text: string, tags: seq<string>, uri: string, cid: string)

  /** The answer to a page request: a failure (HTTP error, bad JSON, network), or the
      `feed` list (`[]` when absent) and the `cursor` field. */
  datatype PageResult = PageError | Page(feed: seq<Item>, cursor: Option<string>)

  /** The answer to the session request: a failure, or the two fields read from it. */
  datatype AuthResult = AuthFailed | Session(accessJwt: Option<string>, did: Option<string>)

  /** The parameters of one page request. */
  datatype PageRequest = PageRequest(actor: string, limit: int, cursor: Option<string>)

  /** The most posts the service hands out per page. */
  const MaxPageSize: int := 100

  /** `if not access_token or not did`: both fields present and non-empty. */
  predicate Authenticated(auth: AuthResult) {
    auth.Session? && auth.accessJwt.Some? && auth.accessJwt.value != []
    && auth.did.Some? && auth.did.value != []
  }

  /** A present, non-empty optional text (`if next_cursor`). */
  predicate Present(o: Option<string>) {
    o.Some? && o.value != []
  }

  /** `min(per_page_limit, 100)`. */
  function PageLimit(perPage: int): (l: int)
    ensures l <= MaxPageSize && l <= perPage && (l == perPage || l == MaxPageSize)
  {
    if perPage < MaxPageSize then perPage else MaxPageSize
  }

  /** The start day: the parsed start date, or today when it is missing or malformed. */
  function StartDay(startArg: Option<int>, today: int): int {
    startArg.GetOr(today)
  }

  /** The settings of one fetch. `startDay` is already resolved. */
  datatype Config = Config(perPage: int, maxCount: Option<int>, startDay: int)

  /** The answer to the `j`-th page request; requests beyond the given answers fail. */
  function PageAt(pages: seq<PageResult>, j: nat): PageResult {
    if j < |pages| then pages[j] else PageError
  }

  /** The output record of an item: its text, its raw timestamp, its tags joined by
      spaces, and its identifiers. */
  function ToRecord(item: Item): Record {
    map["content" := Str(item.text), "published_at" := Str(item.createdAt),
        "tags" := Str(JoinWith(item.tags, ' ')), "uri" := Str(item.uri), "cid" := Str(item.cid)]
  }

  /** An item the page loop keeps: it has a date whose day is the start day or later. */
  predicate Keeps(item: Item, startDay: int, iso: IsoParser) {
    var d := ExtractDate(item.createdAt, iso);
    d.Some? && Day(d.value) >= startDay
  }

  /** The records kept from a page, in feed order. */
  function KeptItems(feed: seq<Item>, startDay: int, iso: IsoParser): seq<Record>
    decreases |feed|
  {
    if feed == [] then []
    else
      var last := feed[|feed| - 1];
      KeptItems(feed[..|feed| - 1], startDay, iso) + (if Keeps(last, startDay, iso) then [ToRecord(last)] else [])
  }

  /** The oldest date among a page's items that have one. */
  function Oldest(feed: seq<Item>, iso: IsoParser): Option<int>
    decreases |feed|
  {
    if feed == [] then None
    else
      var o := Oldest(feed[..|feed| - 1], iso);
      var d := ExtractDate(feed[|feed| - 1].createdAt, iso);
      if d.Some? && (o.None? || d.value < o.value) then d else o
  }

  /** `Oldest` is the minimum of the dates present, and absent exactly when no item has one. */
  lemma {:induction false} OldestIsMinimum(feed: seq<Item>, iso: IsoParser)
    ensures Oldest(feed, iso).None? <==> forall i :: 0 <= i < |feed| ==> ExtractDate(feed[i].createdAt, iso).None?
    ensures Oldest(feed, iso).Some? ==>
      (exists i :: 0 <= i < |feed| && ExtractDate(feed[i].createdAt, iso) == Oldest(feed, iso))
      && forall i :: 0 <= i < |feed| && ExtractDate(feed[i].createdAt, iso).Some? ==>
           Oldest(feed, iso).value <= ExtractDate(feed[i].createdAt, iso).value
    decreases |feed|
  {
    if feed != [] {
      var init := feed[..|feed| - 1];
      OldestIsMinimum(init, iso);
      assert forall i :: 0 <= i < |init| ==> init[i] == feed[i];
      var o := Oldest(init, iso);
      if o.Some? {
        var i :| 0 <= i < |init| && ExtractDate(init[i].createdAt, iso) == o;
        assert ExtractDate(feed[i].createdAt, iso) == o;
      }
    }
  }

  /** The page reaches back before the start day: its oldest date lies on an earlier day. */
  predicate CrossedStart(feed: seq<Item>, startDay: int, iso: IsoParser) {
    var o := Oldest(feed, iso);
    o.Some? && Day(o.value) < startDay
  }

  /** A page crosses the start day exactly when one of its items is dated before it. */
  lemma CrossedStartIff(feed: seq<Item>, startDay: int, iso: IsoParser)
    ensures CrossedStart(feed, startDay, iso) <==>
      exists i :: 0 <= i < |feed| && ExtractDate(feed[i].createdAt, iso).Some? &&
        Day(ExtractDate(feed[i].createdAt, iso).value) < startDay
  {
    OldestIsMinimum(feed, iso);
    if exists i :: 0 <= i < |feed| && ExtractDate(feed[i].createdAt, iso).Some? &&
        Day(ExtractDate(feed[i].createdAt, iso).value) < startDay {
      var i :| 0 <= i < |feed| && ExtractDate(feed[i].createdAt, iso).Some? &&
        Day(ExtractDate(feed[i].createdAt, iso).value) < startDay;
      DayMonotone(Oldest(feed, iso).value, ExtractDate(feed[i].createdAt, iso).value);
    }
  }

  /** What a page contributes to the result before any truncation. */
  function PageKept(page: PageResult, startDay: int, iso: IsoParser): seq<Record> {
    if page.Page? then KeptItems(page.feed, startDay, iso) else []
  }

  /** The records kept from the first `n` pages, in page order and then feed order. */
  function KeptUpTo(pages: seq<PageResult>, n: nat, startDay: int, iso: IsoParser): seq<Record>
    decreases n
  {
    if n == 0 then [] else KeptUpTo(pages, n - 1, startDay, iso) + PageKept(PageAt(pages, n - 1), startDay, iso)
  }

  /** `if max_count and len(all_posts) >= max_count`. */
  predicate MaxReached(maxCount: Option<int>, count: int) {
    maxCount.Some? && maxCount.value != 0 && count >= maxCount.value
  }

  /** Pagination goes on after the `j`-th page: it was a non-empty page, the maximum
      was not reached, it did not reach back before the start day, and it carried a
      cursor. The three stop tests come in this order in the source; each one stops. */
  predicate Continues(pages: seq<PageResult>, j: nat, cfg: Config, iso: IsoParser) {
    var page := PageAt(pages, j);
    && page.Page? && page.feed != []
    && !MaxReached(cfg.maxCount, |KeptUpTo(pages, j + 1, cfg.startDay, iso)|)
    && !CrossedStart(page.feed, cfg.startDay, iso)
    && Present(page.cursor)
  }

  /** The `cursor` field of a page answer; a failed request has none. */
  function CursorOf(page: PageResult): Option<string> {
    if page.Page? then page.cursor else None
  }

  /** The `j`-th page request: the first carries no cursor, each later one the cursor
      of the page before it. */
  function RequestAt(did: string, pages: seq<PageResult>, j: nat, cfg: Config): PageRequest {
    PageRequest(did, PageLimit(cfg.perPage), if j == 0 then None else CursorOf(PageAt(pages, j - 1)))
  }

  /** The result after `m` pages: everything kept, cut to `max_count` (Python slicing)
      when the stop was the maximum. */
  function Collected(pages: seq<PageResult>, m: nat, cfg: Config, iso: IsoParser): seq<Record> {
    var all := KeptUpTo(pages, m, cfg.startDay, iso);
    if m > 0 && PageAt(pages, m - 1).Page? && PageAt(pages, m - 1).feed != [] && MaxReached(cfg.maxCount, |all|)
    then PySliceTo(all, cfg.maxCount.value)
    else all
  }

  /** The full behaviour of an authenticated fetch that made `|requests|` page requests:
      each request carried the expected parameters, pagination went on after every page
      but the last, stopped after the last, and the posts are what was collected. */
  predicate FetchedAs(did: string, pages: seq<PageResult>, cfg: Config, iso: IsoParser,
                      posts: seq<Record>, requests: seq<PageRequest>)
  {
    && |requests| >= 1
    && (forall j :: 0 <= j < |requests| ==> requests[j] == RequestAt(did, pages, j, cfg))
    && (forall j :: 0 <= j < |requests| - 1 ==> Continues(pages, j, cfg, iso))
    && !Continues(pages, |requests| - 1, cfg, iso)
    && posts == Collected(pages, |requests|, cfg, iso)
  }

  /** The inner loop: keeps the dated items of a page and tracks its oldest date. */
  method ScanPage(feed: seq<Item>, startDay: int, iso: IsoParser) returns (kept: seq<Record>, oldest: Option<int>)
    ensures kept == KeptItems(feed, startDay, iso)
    ensures oldest == Oldest(feed, iso)
  {
    kept, oldest := [], None;
    for i := 0 to |feed|
      invariant kept == KeptItems(feed[..i], startDay, iso)
      invariant oldest == Oldest(feed[..i], iso)
    {
      var item := feed[i];
      assert feed[..i + 1][..i] == feed[..i];
      var d := ExtractDate(item.createdAt, iso);
      if d.Some? && (oldest.None? || d.value < oldest.value) {
        oldest := d;
      }
      if d.Some? && Day(d.value) >= startDay {
        kept := kept + [ToRecord(item)];
      }
    }
    assert feed[..|feed|] == feed;
  }

  /** The characterisation holds once pagination stops after the `j`-th page. */
  lemma StopFetch(did: string, pages: seq<PageResult>, cfg: Config, iso: IsoParser,
                  posts: seq<Record>, requests: seq<PageRequest>, j: nat)
    requires |requests| == j + 1
    requires forall k :: 0 <= k <= j ==> requests[k] == RequestAt(did, pages, k, cfg)
    requires forall k :: 0 <= k < j ==> Continues(pages, k, cfg, iso)
    requires !Continues(pages, j, cfg, iso)
    requires posts == Collected(pages, j + 1, cfg, iso)
    ensures FetchedAs(did, pages, cfg, iso, posts, requests)
  {
  }

  /** A failed or empty page adds nothing and stops pagination. */
  lemma StepEmpty(pages: seq<PageResult>, j: nat, cfg: Config, iso: IsoParser)
    requires PageAt(pages, j).PageError? || PageAt(pages, j).feed == []
    ensures !Continues(pages, j, cfg, iso)
    ensures Collected(pages, j + 1, cfg, iso) == KeptUpTo(pages, j + 1, cfg.startDay, iso) == KeptUpTo(pages, j, cfg.startDay, iso)
  {
  }

  /** A non-empty page that brings the count to the maximum stops pagination with the cut. */
  lemma StepMax(pages: seq<PageResult>, j: nat, cfg: Config, iso: IsoParser)
    requires PageAt(pages, j).Page? && PageAt(pages, j).feed != []
    requires MaxReached(cfg.maxCount, |KeptUpTo(pages, j + 1, cfg.startDay, iso)|)
    ensures !Continues(pages, j, cfg, iso)
    ensures Collected(pages, j + 1, cfg, iso) == PySliceTo(KeptUpTo(pages, j + 1, cfg.startDay, iso), cfg.maxCount.value)
  {
  }

  /** Below the maximum, everything kept so far is collected. */
  lemma StepBelowMax(pages: seq<PageResult>, j: nat, cfg: Config, iso: IsoParser)
    requires !MaxReached(cfg.maxCount, |KeptUpTo(pages, j + 1, cfg.startDay, iso)|)
    ensures Collected(pages, j + 1, cfg, iso) == KeptUpTo(pages, j + 1, cfg.startDay, iso)
  {
  }

  /** `fetch_bluesky_posts` with the network answers as inputs. */
  method FetchPosts(auth: AuthResult, pages: seq<PageResult>, perPage: int, maxCount: Option<int>,
                    startArg: Option<int>, today: int, iso: IsoParser)
    returns (posts: seq<Record>, requests: seq<PageRequest>)
    ensures !Authenticated(auth) ==> posts == [] && requests == []
    ensures Authenticated(auth) ==>
      FetchedAs(auth.did.value, pages, Config(perPage, maxCount, StartDay(startArg, today)), iso, posts, requests)
  {
    if !Authenticated(auth) {
      return [], [];
    }
    posts, requests := Paginate(auth.did.value, pages, Config(perPage, maxCount, StartDay(startArg, today)), iso);
  }

  /** The loop invariant of the pagination: `j` pages were requested with the
      expected parameters, pagination went on after each of them, everything kept
      from them has been collected, and `cursor` is the last page's cursor. */
  predicate Progress(did: string, pages: seq<PageResult>, cfg: Config, iso: IsoParser, j: nat,
                     posts: seq<Record>, requests: seq<PageRequest>, cursor: Option<string>)
  {
    && |requests| == j
    && (forall k :: 0 <= k < j ==> requests[k] == RequestAt(did, pages, k, cfg))
    && (forall k :: 0 <= k < j ==> Continues(pages, k, cfg, iso))
    && posts == KeptUpTo(pages, j, cfg.startDay, iso)
    && cursor == (if j == 0 then None else CursorOf(PageAt(pages, j - 1)))
    && (j > 0 ==> Present(cursor))
  }

  /** One round of the pagination loop: request page `j`, keep its dated posts, and
      either stop with the final result or go on with the page's cursor. */
  method FetchPage(did: string, pages: seq<PageResult>, cfg: Config, iso: IsoParser, j: nat,
                   posts: seq<Record>, requests: seq<PageRequest>, cursor: Option<string>)
    returns (posts': seq<Record>, requests': seq<PageRequest>, cursor': Option<string>, done: bool)
    requires Progress(did, pages, cfg, iso, j, posts, requests, cursor)
    ensures done ==> FetchedAs(did, pages, cfg, iso, posts', requests')
    ensures !done ==> j < |pages| && Progress(did, pages, cfg, iso, j + 1, posts', requests', cursor')
  {
    var limit := PageLimit(cfg.perPage);
    var request := PageRequest(did, limit, if Present(cursor) then cursor else None);
    requests' := requests + [request];
    assert forall k :: 0 <= k <= j ==> requests'[k] == RequestAt(did, pages, k, cfg);
    cursor' := cursor;
    var page := PageAt(pages, j);
    if page.PageError? || page.feed == [] {
      StepEmpty(pages, j, cfg, iso);
      posts', done := posts, true;
      StopFetch(did, pages, cfg, iso, posts', requests', j);
      return;
    }
    var pagePosts, oldest := ScanPage(page.feed, cfg.startDay, iso);
    posts' := posts + pagePosts;
    assert posts' == KeptUpTo(pages, j + 1, cfg.startDay, iso);
    posts', cursor', done := AfterScan(did, pages, cfg, iso, j, posts', requests', oldest);
  }

  /** The rest of a round once a non-empty page has been scanned: stop at the maximum,
      at a post older than the start date or without a cursor, and otherwise go on. */
  method AfterScan(did: string, pages: seq<PageResult>, cfg: Config, iso: IsoParser, j: nat,
                   posts: seq<Record>, requests: seq<PageRequest>, oldest: Option<int>)
    returns (posts': seq<Record>, cursor': Option<string>, done: bool)
    requires |requests| == j + 1
    requires forall k :: 0 <= k <= j ==> requests[k] == RequestAt(did, pages, k, cfg)
    requires forall k :: 0 <= k < j ==> Continues(pages, k, cfg, iso)
    requires PageAt(pages, j).Page? && PageAt(pages, j).feed != []
    requires posts == KeptUpTo(pages, j + 1, cfg.startDay, iso)
    requires oldest == Oldest(PageAt(pages, j).feed, iso)
    ensures done ==> FetchedAs(did, pages, cfg, iso, posts', requests)
    ensures !done ==> j < |pages| && Progress(did, pages, cfg, iso, j + 1, posts', requests, cursor')
  {
    var page := PageAt(pages, j);
    posts' := posts;
    if cfg.maxCount.Some? && cfg.maxCount.value != 0 && |posts'| >= cfg.maxCount.value {
      StepMax(pages, j, cfg, iso);
      posts', cursor', done := PySliceTo(posts', cfg.maxCount.value), None, true;
      StopFetch(did, pages, cfg, iso, posts', requests, j);
      return;
    }
    StepBelowMax(pages, j, cfg, iso);
    if oldest.Some? && Day(oldest.value) < cfg.startDay {
      assert CrossedStart(page.feed, cfg.startDay, iso);
      cursor', done := None, true;
      StopFetch(did, pages, cfg, iso, posts', requests, j);
      return;
    }
    cursor' := page.cursor;
    if !Present(cursor') {
      done := true;
      StopFetch(did, pages, cfg, iso, posts', requests, j);
      return;
    }
    assert Continues(pages, j, cfg, iso);
    done := false;
  }

  /** The pagination loop of an authenticated fetch (`while True`), which ends because
      every request past the given answers fails. */
  method Paginate(did: string, pages: seq<PageResult>, cfg: Config, iso: IsoParser)
    returns (posts: seq<Record>, requests: seq<PageRequest>)
    ensures FetchedAs(did, pages, cfg, iso, posts, requests)
  {
    posts, requests := [], [];
    var cursor: Option<string> := None;
    var j: nat := 0;
    while true
      invariant Progress(did, pages, cfg, iso, j, posts, requests, cursor)
      decreases |pages| - j
    {
      var done;
      posts, requests, cursor, done := FetchPage(did, pages, cfg, iso, j, posts, requests, cursor);
      if done {
        break;
      }
      j := j + 1;
    }
  }

  // ---------------------------------------------------------------------------
  // What the characterisation implies

  /** The number of page requests is determined: it is one more than the number of
      pages after which pagination went on. */
  lemma FetchDeterministic(did: string, pages: seq<PageResult>, cfg: Config, iso: IsoParser,
                           posts1: seq<Record>, requests1: seq<PageRequest>,
                           posts2: seq<Record>, requests2: seq<PageRequest>)
    requires FetchedAs(did, pages, cfg, iso, posts1, requests1)
    requires FetchedAs(did, pages, cfg, iso, posts2, requests2)
    ensures posts1 == posts2 && requests1 == requests2
  {
  }

  /** Every page request asks for `min(per_page_limit, 100)` posts of the session's
      account, and a cursor is sent only when the previous page carried one. */
  lemma RequestsWellFormed(did: string, pages: seq<PageResult>, cfg: Config, iso: IsoParser,
                           posts: seq<Record>, requests: seq<PageRequest>)
    requires FetchedAs(did, pages, cfg, iso, posts, requests)
    ensures forall j :: 0 <= j < |requests| ==>
      requests[j].actor == did && requests[j].limit == PageLimit(cfg.perPage) && requests[j].limit <= MaxPageSize
    ensures requests[0].cursor == None
    ensures forall j :: 0 < j < |requests| ==> Present(requests[j].cursor)
  {
    forall j | 0 < j < |requests|
      ensures Present(requests[j].cursor)
    {
      assert Continues(pages, j - 1, cfg, iso);
    }
  }

  /** Every kept record carries a date whose day is the start day or later. */
  predicate DatedFrom(p: Record, startDay: int, iso: IsoParser) {
    var d := PublishedDate(p, iso);
    d.Some? && Day(d.value) >= startDay
  }

  lemma {:induction false} KeptItemsDated(feed: seq<Item>, startDay: int, iso: IsoParser)
    ensures forall i :: 0 <= i < |KeptItems(feed, startDay, iso)| ==> DatedFrom(KeptItems(feed, startDay, iso)[i], startDay, iso)
    decreases |feed|
  {
    if feed != [] {
      KeptItemsDated(feed[..|feed| - 1], startDay, iso);
      var last := feed[|feed| - 1];
      assert TextField(ToRecord(last), "published_at") == last.createdAt;
    }
  }

  lemma {:induction false} KeptUpToDated(pages: seq<PageResult>, n: nat, startDay: int, iso: IsoParser)
    ensures forall i :: 0 <= i < |KeptUpTo(pages, n, startDay, iso)| ==> DatedFrom(KeptUpTo(pages, n, startDay, iso)[i], startDay, iso)
    decreases n
  {
    if n > 0 {
      KeptUpToDated(pages, n - 1, startDay, iso);
      var page := PageAt(pages, n - 1);
      if page.Page? {
        KeptItemsDated(page.feed, startDay, iso);
      }
    }
  }

  /** Every fetched post has a parseable date on the start day or later. */
  lemma FetchedPostsDated(did: string, pages: seq<PageResult>, cfg: Config, iso: IsoParser,
                          posts: seq<Record>, requests: seq<PageRequest>)
    requires FetchedAs(did, pages, cfg, iso, posts, requests)
    ensures forall i :: 0 <= i < |posts| ==> DatedFrom(posts[i], cfg.startDay, iso)
  {
    KeptUpToDated(pages, |requests|, cfg.startDay, iso);
  }

  /** The posts come in page order and then feed order: they are a prefix of everything
      kept from the pages requested. */
  lemma FetchedInPageOrder(did: string, pages: seq<PageResult>, cfg: Config, iso: IsoParser,
                           posts: seq<Record>, requests: seq<PageRequest>)
    requires FetchedAs(did, pages, cfg, iso, posts, requests)
    ensures posts <= KeptUpTo(pages, |requests|, cfg.startDay, iso)
  {
  }

  /** With a positive `max_count` at most that many posts come back: exactly that
      many once the pages read held that many, and every kept post otherwise. */
  lemma FetchedAtMostMax(did: string, pages: seq<PageResult>, cfg: Config, iso: IsoParser,
                         posts: seq<Record>, requests: seq<PageRequest>)
    requires FetchedAs(did, pages, cfg, iso, posts, requests)
    requires cfg.maxCount.Some? && cfg.maxCount.value > 0
    ensures |posts| <= cfg.maxCount.value
    ensures |KeptUpTo(pages, |requests|, cfg.startDay, iso)| >= cfg.maxCount.value ==> |posts| == cfg.maxCount.value
    ensures |KeptUpTo(pages, |requests|, cfg.startDay, iso)| < cfg.maxCount.value ==> posts == KeptUpTo(pages, |requests|, cfg.startDay, iso)
  {
    var m := |requests|;
    var k := cfg.maxCount.value;
    if m > 1 {
      assert Continues(pages, m - 2, cfg, iso);
      assert |KeptUpTo(pages, m - 1, cfg.startDay, iso)| < k;
    }
    var page := PageAt(pages, m - 1);
    if !(page.Page? && page.feed != []) {
      assert KeptUpTo(pages, m, cfg.startDay, iso) == KeptUpTo(pages, m - 1, cfg.startDay, iso);
    }
  }

  /** Pagination stops after a failed page, keeping what was collected before it. */
  lemma StopsOnPageError(did: string, pages: seq<PageResult>, cfg: Config, iso: IsoParser,
                         posts: seq<Record>, requests: seq<PageRequest>, j: nat)
    requires FetchedAs(did, pages, cfg, iso, posts, requests)
    requires j < |requests| && PageAt(pages, j).PageError?
    ensures |requests| == j + 1
    ensures posts == KeptUpTo(pages, j, cfg.startDay, iso)
  {
    assert !Continues(pages, j, cfg, iso);
  }

  /** Pagination stops after an empty feed, even when the page carries a cursor. */
  lemma StopsOnEmptyFeed(did: string, pages: seq<PageResult>, cfg: Config, iso: IsoParser,
                         posts: seq<Record>, requests: seq<PageRequest>, j: nat)
    requires FetchedAs(did, pages, cfg, iso, posts, requests)
    requires j < |requests| && PageAt(pages, j).Page? && PageAt(pages, j).feed == []
    ensures |requests| == j + 1
    ensures posts == KeptUpTo(pages, j, cfg.startDay, iso)
  {
    assert !Continues(pages, j, cfg, iso);
  }

  /** A page holding an item dated before the start day is the last one requested. */
  lemma StopsAtOlderPost(did: string, pages: seq<PageResult>, cfg: Config, iso: IsoParser,
                         posts: seq<Record>, requests: seq<PageRequest>, j: nat, i: nat)
    requires FetchedAs(did, pages, cfg, iso, posts, requests)
    requires j < |requests| && PageAt(pages, j).Page? && i < |PageAt(pages, j).feed|
    requires var d := ExtractDate(PageAt(pages, j).feed[i].createdAt, iso); d.Some? && Day(d.value) < cfg.startDay
    ensures |requests| == j + 1
  {
    CrossedStartIff(PageAt(pages, j).feed, cfg.startDay, iso);
    assert !Continues(pages, j, cfg, iso);
  }

  /** A page without a cursor is the last one requested. */
  lemma StopsWithoutCursor(did: string, pages: seq<PageResult>, cfg: Config, iso: IsoParser,
                           posts: seq<Record>, requests: seq<PageRequest>, j: nat)
    requires FetchedAs(did, pages, cfg, iso, posts, requests)
    requires j < |requests| && !Present(CursorOf(PageAt(pages, j)))
    ensures |requests| == j + 1
  {
    assert !Continues(pages, j, cfg, iso);
  }

  /** The maximum is tested before the date: a page that reaches the maximum and also
      reaches back before the start day is cut to the maximum. */
  lemma MaxBeforeDate(did: string, pages: seq<PageResult>, cfg: Config, iso: IsoParser,
                      posts: seq<Record>, requests: seq<PageRequest>)
    requires FetchedAs(did, pages, cfg, iso, posts, requests)
    requires var p := PageAt(pages, |requests| - 1); p.Page? && p.feed != [] && CrossedStart(p.feed, cfg.startDay, iso)
    requires MaxReached(cfg.maxCount, |KeptUpTo(pages, |requests|, cfg.startDay, iso)|)
    ensures posts == PySliceTo(KeptUpTo(pages, |requests|, cfg.startDay, iso), cfg.maxCount.value)
  {
  }
}
