/** The REST fetchers: a retrying GET with rate-limit waits, the page loop over an array
    endpoint, and the aggregation of event dates into the stars, forks, pull request and
    downloads series. The network is a function from the page number to the responses of
    the successive attempts at that page; the clock reading is part of each attempt. */
module GitHubFetcher {
  import opened Wrappers
  import opened Json
  import opened Dates
  import opened Http
  import opened Orders
  import opened Series
  import opened Frames
  import opened Metrics

  /** One decoded object of an array endpoint. */
  type Item = map<string, Json>

  /** The body of one page: the list of objects it returned. */
  type Page = seq<Item>

  /** What the GitHub server answers to the attempts at each page number. */
  type Server = nat -> seq<Attempt<Page>>

  const RateLimitReset: string := "X-RateLimit-Reset"
  const MaxSleep: nat := 60

  function Min(a: int, b: int): int {
    if a <= b then a else b
  }

  function Max(a: int, b: int): int {
    if a >= b then a else b
  }

  function Pow2(n: nat): (p: nat)
    ensures p >= 1
  {
    if n == 0 then 1 else 2 * Pow2(n - 1)
  }

  // ---------------------------------------------------------------------------------
  // The retrying request
  // ---------------------------------------------------------------------------------

  /** The reset time announced by a response: its `X-RateLimit-Reset` header when that is
      a non-empty run of decimal digits (`reset and reset.isdigit()`). */
  function ResetHeader<B>(r: Response<B>): (v: Option<nat>)
    ensures v.Some? <==>
      && RateLimitReset in r.headers && |r.headers[RateLimitReset]| > 0
      && forall k :: 0 <= k < |r.headers[RateLimitReset]| ==> IsDigit(r.headers[RateLimitReset][k])
    ensures v.Some? ==> v.value < Pow10(|r.headers[RateLimitReset]|)
  {
    if RateLimitReset in r.headers && |r.headers[RateLimitReset]| > 0 then
      var h := r.headers[RateLimitReset];
      Number(h, 0, |h|)
    else None
  }

  /** The `n`-th sleep taken without a reset header: 2 seconds, doubling, capped at 60. */
  function Backoff(n: nat): (s: nat)
    ensures 2 <= s <= MaxSleep
  {
    Min(Pow2(n + 1), MaxSleep)
  }

  /** Doubling the current fallback sleep and capping it gives the next one. */
  lemma BackoffStep(n: nat)
    ensures Backoff(n + 1) == Min(2 * Backoff(n), MaxSleep)
  {
    assert Pow2(n + 2) == 2 * Pow2(n + 1);
  }

  /** The sleep before retrying after a 403 that announced a reset at `reset`, the clock
      reading `now`: until one second past the reset, at most 60 seconds. */
  function ResetWait(reset: int, now: int): (s: nat)
    ensures 1 <= s <= MaxSleep
    ensures s == MaxSleep || s == Max(0, reset - now) + 1
  {
    Min(Max(0, reset - now) + 1, MaxSleep)
  }

  /** Some attempt gets a response other than 403. */
  predicate Settles<B>(attempts: seq<Attempt<B>>) {
    exists i :: 0 <= i < |attempts| && attempts[i].response.status != 403
  }

  /** The index of the first attempt whose answer is not a 403. */
  function FirstSettled<B>(attempts: seq<Attempt<B>>): (k: nat)
    requires Settles(attempts)
    ensures k < |attempts| && attempts[k].response.status != 403
    ensures forall j :: 0 <= j < k ==> attempts[j].response.status == 403
  {
    if attempts[0].response.status != 403 then 0
    else
      var i :| 0 <= i < |attempts| && attempts[i].response.status != 403;
      assert attempts[1..][i - 1] == attempts[i];
      1 + FirstSettled(attempts[1..])
  }

  /** The response `_request` returns for these attempts. */
  function Settled<B>(attempts: seq<Attempt<B>>): Response<B>
    requires Settles(attempts)
  {
    attempts[FirstSettled(attempts)].response
  }

  /** How many of the first `k` attempts carried no usable reset header. */
  function Fallbacks<B>(attempts: seq<Attempt<B>>, k: nat): nat
    requires k <= |attempts|
  {
    if k == 0 then 0
    else Fallbacks(attempts, k - 1) + (if ResetHeader(attempts[k - 1].response).None? then 1 else 0)
  }

  /** The sleep after the 403 of attempt `j`. */
  function SleepAfter<B>(attempts: seq<Attempt<B>>, j: nat): nat
    requires j < |attempts|
  {
    match ResetHeader(attempts[j].response)
    case Some(reset) => ResetWait(reset, attempts[j].now)
    case None => Backoff(Fallbacks(attempts, j))
  }

  // ---------------------------------------------------------------------------------
  // Dates of events
  // ---------------------------------------------------------------------------------

  /** `_to_date`: the UTC day of a timestamp, or None when pandas cannot parse it. A text is
      parsed as ISO-8601; a number counts nanoseconds since the epoch. */
  function ToDate(value: Json): (r: Option<Date>)
    ensures value.JStr? ==> r == ParseTimestamp(value.s)
    ensures value.JInt? ==> r.Some? && r.value * NanosPerDay <= value.i < (r.value + 1) * NanosPerDay
    ensures !value.JStr? && !value.JInt? ==> r.None?
  {
    match value
    case JStr(s) => ParseTimestamp(s)
    case JInt(i) => Some(i / NanosPerDay)
    case _ => None
  }

  /** The nanoseconds of a day: pandas reads a number as nanoseconds since the epoch. */
  const NanosPerDay: int := SecondsPerDay * 1_000_000_000

  /** `it.get(field)`, then `_to_date` when that is truthy. */
  function EventDate(item: Item, field: string): (r: Option<Date>)
    ensures field !in item ==> r.None?
    ensures field in item && !Truthy(item[field]) ==> r.None?
    ensures field in item && Truthy(item[field]) ==> r == ToDate(item[field])
  {
    if field in item && Truthy(item[field]) then ToDate(item[field]) else None
  }

  /** The dates of the items carrying a usable `field`, in item order. */
  function ItemDates(items: seq<Item>, field: string): (dates: seq<Date>)
    ensures |dates| <= |items|
  {
    if |items| == 0 then []
    else
      (match EventDate(items[0], field) case Some(d) => [d] case None => []) + ItemDates(items[1..], field)
  }

  lemma {:induction false} ItemDatesAppend(a: seq<Item>, b: seq<Item>, field: string)
    ensures ItemDates(a + b, field) == ItemDates(a, field) + ItemDates(b, field)
  {
    if |a| == 0 {
      assert a + b == b;
    } else {
      var head := match EventDate(a[0], field) case Some(d) => [d] case None => [];
      assert (a + b)[0] == a[0];
      assert (a + b)[1..] == a[1..] + b;
      ItemDatesAppend(a[1..], b, field);
      AppendAssoc(head, ItemDates(a[1..], field), ItemDates(b, field));
    }
  }

  /** An item contributes a date exactly when its field is present, truthy and parses. */
  lemma {:induction false} ItemDatesMembers(items: seq<Item>, field: string)
    ensures forall d :: d in ItemDates(items, field) <==> exists i :: 0 <= i < |items| && EventDate(items[i], field) == Some(d)
  {
    if |items| > 0 {
      ItemDatesMembers(items[1..], field);
      forall d ensures d in ItemDates(items, field) <==> exists i :: 0 <= i < |items| && EventDate(items[i], field) == Some(d) {
        if d in ItemDates(items[1..], field) {
          var i :| 0 <= i < |items[1..]| && EventDate(items[1..][i], field) == Some(d);
          assert items[i + 1] == items[1..][i];
        }
        if exists i :: 0 <= i < |items| && EventDate(items[i], field) == Some(d) {
          var i :| 0 <= i < |items| && EventDate(items[i], field) == Some(d);
          if i > 0 {
            assert items[1..][i - 1] == items[i];
          }
        }
      }
    }
  }

  // ---------------------------------------------------------------------------------
  // The page loop
  // ---------------------------------------------------------------------------------

  /** Every page from `first` to `last` eventually gets an answer other than 403. */
  ghost predicate Answers(server: Server, first: nat, last: nat) {
    forall p :: first <= p <= last ==> Settles(server(p))
  }

  /** The loop ends after a page that failed, came back empty or came back short. */
  predicate EndsLoop(r: Response<Page>, perPage: nat) {
    r.status != 200 || |r.body| == 0 || |r.body| < perPage
  }

  /** The items the page loop collects from page `page` on, when it may go up to `last`. */
  function Crawl(server: Server, perPage: nat, page: nat, last: nat): seq<Item>
    requires forall p :: page <= p <= last ==> Settles(server(p))
    decreases last + 1 - page
  {
    if page > last then []
    else
      var r := Settled(server(page));
      if r.status != 200 || |r.body| == 0 then []
      else if |r.body| < perPage then r.body
      else r.body + Crawl(server, perPage, page + 1, last)
  }

  /** How many pages the loop requests from page `page` on: it requests pages in turn until
      one ends the loop, and never more than up to `last`. */
  function PagesRead(server: Server, perPage: nat, page: nat, last: nat): (n: nat)
    requires forall p :: page <= p <= last ==> Settles(server(p))
    ensures page > last ==> n == 0
    ensures page <= last ==> 1 <= n <= last + 1 - page
    ensures forall p :: page <= p < page + n - 1 ==> !EndsLoop(Settled(server(p)), perPage)
    ensures n > 0 && page + n - 1 < last ==> EndsLoop(Settled(server(page + n - 1)), perPage)
    decreases last + 1 - page
  {
    if page > last then 0
    else if EndsLoop(Settled(server(page)), perPage) then 1
    else 1 + PagesRead(server, perPage, page + 1, last)
  }

  /** The pages after the ones the loop requests do not matter: two servers that give the
      same answers up to the page that ends the loop yield the same items. */
  lemma {:induction false} CrawlOnlyReadsRequested(s1: Server, s2: Server, perPage: nat, page: nat, last: nat)
    requires forall p :: page <= p <= last ==> Settles(s1(p)) && Settles(s2(p))
    requires forall p :: page <= p < page + PagesRead(s1, perPage, page, last) ==> Settled(s1(p)) == Settled(s2(p))
    ensures Crawl(s1, perPage, page, last) == Crawl(s2, perPage, page, last)
    ensures PagesRead(s1, perPage, page, last) == PagesRead(s2, perPage, page, last)
    decreases last + 1 - page
  {
    if page <= last {
      assert Settled(s1(page)) == Settled(s2(page));
      if !EndsLoop(Settled(s1(page)), perPage) {
        assert PagesRead(s1, perPage, page, last) == 1 + PagesRead(s1, perPage, page + 1, last);
        CrawlOnlyReadsRequested(s1, s2, perPage, page + 1, last);
      }
    }
  }

  /** One step of the page loop, as `Crawl` and `PagesRead` see it. */
  lemma CrawlStep(server: Server, perPage: nat, page: nat, last: nat)
    requires page <= last && forall p :: page <= p <= last ==> Settles(server(p))
    ensures var r := Settled(server(page));
      && (EndsLoop(r, perPage) ==> PagesRead(server, perPage, page, last) == 1)
      && (r.status != 200 || |r.body| == 0 ==> Crawl(server, perPage, page, last) == [])
      && (r.status == 200 && 0 < |r.body| < perPage ==> Crawl(server, perPage, page, last) == r.body)
      && (!EndsLoop(r, perPage) ==>
            Crawl(server, perPage, page, last) == r.body + Crawl(server, perPage, page + 1, last)
            && PagesRead(server, perPage, page, last) == 1 + PagesRead(server, perPage, page + 1, last))
  {
  }

  /** One step of the page loop, as the dates it collects see it. */
  lemma CrawlDatesStep(server: Server, perPage: nat, page: nat, last: nat, field: string)
    requires page <= last && forall p :: page <= p <= last ==> Settles(server(p))
    ensures var r := Settled(server(page));
      && (r.status != 200 || |r.body| == 0 ==> ItemDates(Crawl(server, perPage, page, last), field) == [])
      && (r.status == 200 && 0 < |r.body| < perPage ==> ItemDates(Crawl(server, perPage, page, last), field) == ItemDates(r.body, field))
      && (!EndsLoop(r, perPage) ==>
            ItemDates(Crawl(server, perPage, page, last), field) == ItemDates(r.body, field) + ItemDates(Crawl(server, perPage, page + 1, last), field))
  {
    var r := Settled(server(page));
    if !EndsLoop(r, perPage) {
      ItemDatesAppend(r.body, Crawl(server, perPage, page + 1, last), field);
    }
  }

  /** One more item adds its date, when it has one, to the dates of the items before it. */
  lemma ItemDatesSnoc(items: seq<Item>, j: nat, field: string)
    requires j < |items|
    ensures ItemDates(items[..j + 1], field) ==
      ItemDates(items[..j], field) + (match EventDate(items[j], field) case Some(d) => [d] case None => [])
  {
    var init, one := items[..j], [items[j]];
    assert items[..j + 1] == init + one;
    ItemDatesAppend(init, one, field);
    ItemDatesOne(items[j], field);
  }

  /** A single item gives its date, when it has one. */
  lemma ItemDatesOne(item: Item, field: string)
    ensures ItemDates([item], field) == match EventDate(item, field) case Some(d) => [d] case None => []
  {
    assert [item][1..] == [];
  }

  /** The dates of one page's items, gathered in a loop. */
  method PageDates(items: seq<Item>, field: string) returns (dates: seq<Date>)
    ensures dates == ItemDates(items, field)
  {
    dates := [];
    var j := 0;
    while j < |items|
      invariant 0 <= j <= |items|
      invariant dates == ItemDates(items[..j], field)
    {
      ItemDatesSnoc(items, j, field);
      var ts := EventDate(items[j], field);
      if ts.Some? {
        dates := dates + [ts.value];
      }
      j := j + 1;
    }
    assert items[..|items|] == items;
  }

  /** Shared HTTP logic: page size and page limit of the array endpoints. */
  class BaseFetcher {
    const perPage: nat
    const maxPages: nat

    constructor (perPage: nat, maxPages: nat)
      ensures this.perPage == perPage && this.maxPages == maxPages
    {
      this.perPage := perPage;
      this.maxPages := maxPages;
    }

    /** `_request`: retries while the answer is 403, sleeping first, and returns the first
        other response unchanged. `sleeps` records the sleeps taken, in order. */
    method Request<B>(attempts: seq<Attempt<B>>) returns (resp: Response<B>, sleeps: seq<nat>)
      requires Settles(attempts)
      ensures resp == Settled(attempts)
      ensures |sleeps| == FirstSettled(attempts)
      ensures forall j :: 0 <= j < |sleeps| ==> sleeps[j] == SleepAfter(attempts, j)
      ensures forall j :: 0 <= j < |sleeps| ==> 1 <= sleeps[j] <= MaxSleep
    {
      var backoff := 2;
      var i := 0;
      sleeps := [];
      ghost var k := FirstSettled(attempts);
      while attempts[i].response.status == 403
        invariant 0 <= i <= k
        invariant |sleeps| == i
        invariant forall j :: 0 <= j < i ==> sleeps[j] == SleepAfter(attempts, j) && 1 <= sleeps[j] <= MaxSleep
        invariant backoff == Backoff(Fallbacks(attempts, i))
        decreases k - i
      {
        var reset := ResetHeader(attempts[i].response);
        if reset.Some? {
          var wait := Max(0, reset.value - attempts[i].now) + 1;
          sleeps := sleeps + [Min(wait, MaxSleep)];
        } else {
          BackoffStep(Fallbacks(attempts, i));
          sleeps := sleeps + [backoff];
          backoff := Min(backoff * 2, MaxSleep);
        }
        i := i + 1;
      }
      resp := attempts[i].response;
    }

    /** The page loop of the stars, forks and pull request fetchers: the dates found under
        `field` on the pages it reads. `requested` counts the pages it requests. */
    method CollectDates(server: Server, field: string) returns (dates: seq<Date>, ghost requested: nat)
      requires Answers(server, 1, maxPages)
      ensures dates == ItemDates(Crawl(server, perPage, 1, maxPages), field)
      ensures requested == PagesRead(server, perPage, 1, maxPages) && requested <= maxPages
    {
      dates := [];
      requested := 0;
      var page := 1;
      while page <= maxPages
        invariant 1 <= page <= maxPages + 1
        invariant requested == page - 1
        invariant dates + ItemDates(Crawl(server, perPage, page, maxPages), field) == ItemDates(Crawl(server, perPage, 1, maxPages), field)
        invariant PagesRead(server, perPage, 1, maxPages) == requested + PagesRead(server, perPage, page, maxPages)
        decreases maxPages + 1 - page
      {
        var resp, _ := Request(server(page));
        requested := requested + 1;
        CrawlStep(server, perPage, page, maxPages);
        CrawlDatesStep(server, perPage, page, maxPages, field);
        ghost var rest := ItemDates(Crawl(server, perPage, page, maxPages), field);
        if resp.status != 200 {
          assert dates + rest == dates;
          break;
        }
        var items := resp.body;
        if |items| == 0 {
          assert dates + rest == dates;
          break;
        }
        var found := PageDates(items, field);
        if |items| < perPage {
          dates := dates + found;
          break;
        }
        ghost var next := ItemDates(Crawl(server, perPage, page + 1, maxPages), field);
        AppendAssoc(dates, found, next);
        dates := dates + found;
        page := page + 1;
      }
    }
  }

  // ---------------------------------------------------------------------------------
  // The series
  // ---------------------------------------------------------------------------------

  /** A cumulative series (stars, forks) of the event dates: empty with the metric's
      schema when there are none. */
  function CumulativeFrame(m: MetricType, dates: seq<Date>): Frame {
    if |dates| == 0 then Frame(Schema(m), [])
    else Frame(Schema(m), Cumulative(Ones(dates), IntLess))
  }

  /** A daily-count series (pull requests) of the event dates. */
  function DailyFrame(m: MetricType, dates: seq<Date>): Frame {
    if |dates| == 0 then Frame(Schema(m), [])
    else Frame(Schema(m), Tally(dates, IntLess))
  }

  /** The cumulative series has the metric's schema and one row per event day, ascending;
      the value on a day is the number of events on or before it, so it never decreases and
      the last value is the number of dated events. */
  lemma CumulativeFrameSpec(m: MetricType, dates: seq<Date>)
    ensures var f := CumulativeFrame(m, dates);
      && f.columns == Schema(m)
      && Ascending(f.rows, IntLess)
      && KeySet(f.rows) == (set d | d in dates)
      && (forall i :: 0 <= i < |f.rows| ==> f.rows[i].1 == CountUpTo(dates, f.rows[i].0, IntLess))
      && NonDecreasing(f.rows)
      && (|dates| > 0 <==> |f.rows| > 0)
      && (|f.rows| > 0 ==> f.rows[|f.rows| - 1].1 == |dates|)
  {
    if |dates| > 0 {
      IntLessIsStrictTotal();
      CumulativeCountSpec(dates, IntLess);
      assert CumulativeFrame(m, dates).rows == Cumulative(Ones(dates), IntLess);
    }
  }

  /** The daily series has the metric's schema and one row per event day, ascending; each
      row holds the number of events of its day, and the counts add up to the number of
      dated events. */
  lemma DailyFrameSpec(m: MetricType, dates: seq<Date>)
    ensures var f := DailyFrame(m, dates);
      && f.columns == Schema(m)
      && Ascending(f.rows, IntLess)
      && KeySet(f.rows) == (set d | d in dates)
      && (forall i :: 0 <= i < |f.rows| ==> f.rows[i].1 == multiset(dates)[f.rows[i].0])
      && Total(f.rows) == |dates|
  {
    IntLessIsStrictTotal();
    TallySpec(dates, IntLess);
  }

  /** The stars series the server's stargazer pages give. */
  function StarsFrame(server: Server, perPage: nat, maxPages: nat): Frame
    requires Answers(server, 1, maxPages)
  {
    CumulativeFrame(Stars, ItemDates(Crawl(server, perPage, 1, maxPages), "starred_at"))
  }

  /** The forks series the server's fork pages give. */
  function ForksFrame(server: Server, perPage: nat, maxPages: nat): Frame
    requires Answers(server, 1, maxPages)
  {
    CumulativeFrame(Forks, ItemDates(Crawl(server, perPage, 1, maxPages), "created_at"))
  }

  /** The pull request series the server's pull request pages give. */
  function PrsFrame(server: Server, perPage: nat, maxPages: nat): Frame
    requires Answers(server, 1, maxPages)
  {
    DailyFrame(Prs, ItemDates(Crawl(server, perPage, 1, maxPages), "created_at"))
  }

  // ---------------------------------------------------------------------------------
  // Downloads
  // ---------------------------------------------------------------------------------

  /** The body of the releases endpoint: each release's list of asset objects. */
  type Releases = seq<seq<Item>>

  /** Python's `a or b` on two looked-up values. */
  function OrElse(a: Json, b: Json): Json {
    if Truthy(a) then a else b
  }

  /** `int(asset.get("download_count", 0) or 0)`. */
  function DownloadCount(asset: Item): (n: nat)
    ensures "download_count" !in asset ==> n == 0
    ensures "download_count" in asset && asset["download_count"].JInt? && asset["download_count"].i >= 0 ==> n == asset["download_count"].i
  {
    match GetOr(asset, "download_count", JInt(0))
    case JInt(i) => if i >= 0 then i else 0
    case JBool(b) => if b then 1 else 0
    case JStr(s) => if Number(s, 0, |s|).Some? then Number(s, 0, |s|).value else 0
    case _ => 0
  }

  /** The (date, count) row of one asset: dated by `created_at`, else `updated_at`. */
  function AssetRow(asset: Item): RawRow {
    var created := OrElse(GetOr(asset, "created_at", JNull), GetOr(asset, "updated_at", JNull));
    (if Truthy(created) then ToDate(created) else None, DownloadCount(asset))
  }

  function AssetRows(assets: seq<Item>): (rows: seq<RawRow>)
    ensures |rows| == |assets|
    ensures forall i :: 0 <= i < |assets| ==> rows[i] == AssetRow(assets[i])
  {
    seq(|assets|, i requires 0 <= i < |assets| => AssetRow(assets[i]))
  }

  /** The rows of all assets of all releases, in order. */
  function ReleaseRows(releases: Releases): seq<RawRow> {
    if |releases| == 0 then [] else AssetRows(releases[0]) + ReleaseRows(releases[1..])
  }

  lemma {:induction false} ReleaseRowsAppend(a: Releases, b: Releases)
    ensures ReleaseRows(a + b) == ReleaseRows(a) + ReleaseRows(b)
  {
    if |a| == 0 {
      assert a + b == b;
    } else {
      assert (a + b)[1..] == a[1..] + b;
      ReleaseRowsAppend(a[1..], b);
    }
  }

  /** The downloads series the releases response gives. */
  function DownloadsFrame(r: Response<Releases>): Frame {
    if r.status != 200 || |ReleaseRows(r.body)| == 0 then Frame(Schema(Downloads), [])
    else Frame(Schema(Downloads), Cumulative(Parsed(ReleaseRows(r.body)), IntLess))
  }

  /** The downloads series: nothing without a 200; otherwise one row per day on which a
      dated asset was created, ascending, holding the summed counts of the dated assets
      created on or before that day, never decreasing, ending at the total count. Assets
      without a date count for nothing. */
  lemma DownloadsFrameSpec(r: Response<Releases>)
    ensures var f := DownloadsFrame(r);
      var dated := Parsed(ReleaseRows(r.body));
      && f.columns == Schema(Downloads)
      && (r.status != 200 ==> f.rows == [])
      && Ascending(f.rows, IntLess)
      && (r.status == 200 ==> KeySet(f.rows) == KeySet(dated))
      && (forall i :: 0 <= i < |f.rows| ==> f.rows[i].1 == WeightUpTo(dated, f.rows[i].0, IntLess))
      && NonDecreasing(f.rows)
      && (|f.rows| > 0 ==> f.rows[|f.rows| - 1].1 == Total(dated))
  {
    var dated := Parsed(ReleaseRows(r.body));
    IntLessIsStrictTotal();
    CumulativeSpec(dated, IntLess);
    if r.status == 200 && |ReleaseRows(r.body)| == 0 {
      assert dated == [];
    }
  }

  /** The stargazers endpoint's fetcher. */
  method FetchStars(f: BaseFetcher, server: Server) returns (frame: Frame)
    requires Answers(server, 1, f.maxPages)
    ensures frame == StarsFrame(server, f.perPage, f.maxPages)
  {
    var dates, _ := f.CollectDates(server, "starred_at");
    if |dates| == 0 {
      return Frame(Schema(Stars), []);
    }
    frame := Frame(Schema(Stars), Cumulative(Ones(dates), IntLess));
  }

  /** The forks endpoint's fetcher. */
  method FetchForks(f: BaseFetcher, server: Server) returns (frame: Frame)
    requires Answers(server, 1, f.maxPages)
    ensures frame == ForksFrame(server, f.perPage, f.maxPages)
  {
    var dates, _ := f.CollectDates(server, "created_at");
    if |dates| == 0 {
      return Frame(Schema(Forks), []);
    }
    frame := Frame(Schema(Forks), Cumulative(Ones(dates), IntLess));
  }

  /** The pull requests endpoint's fetcher. */
  method FetchPrs(f: BaseFetcher, server: Server) returns (frame: Frame)
    requires Answers(server, 1, f.maxPages)
    ensures frame == PrsFrame(server, f.perPage, f.maxPages)
  {
    var dates, _ := f.CollectDates(server, "created_at");
    if |dates| == 0 {
      return Frame(Schema(Prs), []);
    }
    frame := Frame(Schema(Prs), Tally(dates, IntLess));
  }

  /** The releases endpoint's fetcher: one request, then a row per asset. */
  method FetchDownloads(f: BaseFetcher, attempts: seq<Attempt<Releases>>) returns (frame: Frame)
    requires Settles(attempts)
    ensures frame == DownloadsFrame(Settled(attempts))
  {
    var resp, _ := f.Request(attempts);
    if resp.status != 200 {
      return Frame(Schema(Downloads), []);
    }
    var releases := resp.body;
    var rows: seq<RawRow> := [];
    var i := 0;
    while i < |releases|
      invariant 0 <= i <= |releases|
      invariant rows == ReleaseRows(releases[..i])
    {
      var assets := releases[i];
      ghost var before := rows;
      var j := 0;
      while j < |assets|
        invariant 0 <= j <= |assets|
        invariant rows == before + AssetRows(assets[..j])
      {
        assert AssetRows(assets[..j + 1]) == AssetRows(assets[..j]) + [AssetRow(assets[j])];
        rows := rows + [AssetRow(assets[j])];
        j := j + 1;
      }
      assert assets[..j] == assets;
      ReleaseRowsAppend(releases[..i], [assets]);
      assert releases[..i + 1] == releases[..i] + [assets];
      assert ReleaseRows([assets]) == AssetRows(assets) by {
        assert [assets][1..] == [];
      }
      i := i + 1;
    }
    assert releases[..i] == releases;
    if |rows| == 0 {
      return Frame(Schema(Downloads), []);
    }
    frame := Frame(Schema(Downloads), Cumulative(Parsed(rows), IntLess));
  }

  /** The four series under their metric names. */
  function FourSeries(s: Frame, f: Frame, p: Frame, d: Frame): (all: map<string, Frame>)
    ensures all.Keys == {"stars", "forks", "prs", "downloads"}
    ensures all["stars"] == s && all["forks"] == f && all["prs"] == p && all["downloads"] == d
  {
    map["stars" := s, "forks" := f, "prs" := p, "downloads" := d]
  }

  /** The four fetchers together, with the default page size and page limit. */
  class GitHubFetcher {
    const stars: BaseFetcher
    const forks: BaseFetcher
    const prs: BaseFetcher
    const downloads: BaseFetcher

    constructor ()
      ensures stars.perPage == 100 && stars.maxPages == 1000
      ensures forks.perPage == 100 && forks.maxPages == 1000
      ensures prs.perPage == 100 && prs.maxPages == 1000
      ensures downloads.perPage == 100 && downloads.maxPages == 1000
    {
      stars := new BaseFetcher(100, 1000);
      forks := new BaseFetcher(100, 1000);
      prs := new BaseFetcher(100, 1000);
      downloads := new BaseFetcher(100, 1000);
    }

    /** `fetch_all`: the four series under their metric names, and nothing else. */
    method FetchAll(starPages: Server, forkPages: Server, prPages: Server, releases: seq<Attempt<Releases>>)
      returns (all: map<string, Frame>)
      requires Answers(starPages, 1, stars.maxPages) && Answers(forkPages, 1, forks.maxPages)
      requires Answers(prPages, 1, prs.maxPages) && Settles(releases)
      ensures all.Keys == {"stars", "forks", "prs", "downloads"}
      ensures all["stars"] == StarsFrame(starPages, stars.perPage, stars.maxPages)
      ensures all["forks"] == ForksFrame(forkPages, forks.perPage, forks.maxPages)
      ensures all["prs"] == PrsFrame(prPages, prs.perPage, prs.maxPages)
      ensures all["downloads"] == DownloadsFrame(Settled(releases))
    {
      var s := FetchStars(stars, starPages);
      var f := FetchForks(forks, forkPages);
      var p := FetchPrs(prs, prPages);
      var d := FetchDownloads(downloads, releases);
      all := FourSeries(s, f, p, d);
    }
  }
}
