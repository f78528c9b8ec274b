/** The dashboard's data logic: resolving each of the six metrics from the cache or the
    network, the downloads fallback to PyPI figures, the date-range filter, the totals and
    chart series, and the merged export. */
module App {
  import opened Wrappers
  import opened Metrics
  import opened Frames
  import opened Orders
  import opened Series
  import opened Dates
  import opened Http
  import DataLoader
  import GF = GitHubFetcher
  import DM = DataManager

  /** The manager the dashboard builds: `data`, refreshed after 24 hours. */
  const DataDir: string := "data"
  const RefreshThresholdHours: int := 24

  /** What one run of the dashboard is given: the repository, whether a GitHub token is
      set, what the manager's fetch answers, what a direct call of a fetcher answers (a
      second request may answer differently from the first), and the clock. */
  datatype Env = Env(owner: string, repo: string, hasToken: bool,
                     viaManager: DM.Upstream, direct: DM.Upstream, now: int)

  /** `dm.fetcher.<type>_fetcher.fetch(owner, repo)`: the fetcher has the four managed
      metrics and no attribute for issues or contributions. */
  function DirectFetch(env: Env, m: MetricType): (r: Result<Frame>)
    ensures m in DM.Managed ==> r == env.direct(m, env.owner, env.repo)
    ensures m !in DM.Managed ==> r.Err? && r.error.AttributeError?
  {
    if m in DM.Managed then env.direct(m, env.owner, env.repo)
    else Err(AttributeError(Name(m) + "_fetcher"))
  }

  /** The manager's `get_data(metric, owner, repo, force_refresh=True)`. */
  function ForcedFetch(env: Env, m: MetricType, files: Files): (Result<Frame>, Files) {
    var (r, after, _) := DM.GetDataOutcome(DataDir, RefreshThresholdHours, Name(m), env.owner, env.repo, true, env.viaManager, files, env.now);
    (r, after)
  }

  /** The body of the `try` for one metric when the cache is consulted first. */
  function CachedAttempt(env: Env, m: MetricType, files: Files): (Result<Frame>, Files) {
    match DataLoader.GetFor(files, DataDir, Name(m), env.owner, env.repo)
    case Err(e) => (Err(e), files)
    case Ok(cached) =>
      if !IsEmpty(cached) then (Ok(cached), files)
      else if env.hasToken then
        var (r, after) := ForcedFetch(env, m, files);
        if r.Ok? then (r, after) else (DirectFetch(env, m), after)
      else (DirectFetch(env, m), files)
  }

  /** One metric's entry in `get_data`, and the files after: whatever the attempt raised
      becomes the empty table with the metric's schema. */
  function Resolve(env: Env, force: bool, m: MetricType, files: Files): (Frame, Files) {
    var (r, after) := if force then ForcedFetch(env, m, files) else CachedAttempt(env, m, files);
    (if r.Ok? then r.value else DataLoader.EmptyTable(m), after)
  }

  /** The loop of `get_data` over `metrics`, adding to `result`. */
  function ResolveAll(env: Env, force: bool, result: map<string, Frame>, metrics: seq<MetricType>, files: Files)
    : (map<string, Frame>, Files)
    decreases |metrics|
  {
    if |metrics| == 0 then (result, files)
    else
      var (entry, after) := Resolve(env, force, metrics[0], files);
      ResolveAll(env, force, result[Name(metrics[0]) := entry], metrics[1..], after)
  }

  /** One turn of the loop: the `i`-th metric's entry is added, and the walk goes on from
      the files its resolution left. */
  lemma ResolveAllStep(env: Env, force: bool, result: map<string, Frame>, metrics: seq<MetricType>, i: nat, files: Files)
    requires i < |metrics|
    ensures var (entry, after) := Resolve(env, force, metrics[i], files);
      ResolveAll(env, force, result, metrics[i..], files) == ResolveAll(env, force, result[Name(metrics[i]) := entry], metrics[i + 1..], after)
  {
    assert metrics[i..][0] == metrics[i] && metrics[i..][1..] == metrics[i + 1..];
  }

  /** Every metric walked gets an entry, whatever its resolution raised. */
  lemma {:induction false} ResolveAllKeys(env: Env, force: bool, result: map<string, Frame>, metrics: seq<MetricType>, files: Files)
    ensures ResolveAll(env, force, result, metrics, files).0.Keys == result.Keys + set m | m in metrics :: Name(m)
    decreases |metrics|
  {
    if |metrics| > 0 {
      var (entry, after) := Resolve(env, force, metrics[0], files);
      ResolveAllKeys(env, force, result[Name(metrics[0]) := entry], metrics[1..], after);
      assert (set m | m in metrics :: Name(m)) == {Name(metrics[0])} + set m | m in metrics[1..] :: Name(m) by {
        forall m | m in metrics ensures m == metrics[0] || m in metrics[1..] {
          var i :| 0 <= i < |metrics| && metrics[i] == m;
          if i > 0 {
            assert metrics[1..][i - 1] == m;
          }
        }
      }
    }
  }

  /** The six names `get_data` walks. */
  lemma AllMetricNames()
    ensures (set m | m in AllMetrics :: Name(m)) == {"stars", "forks", "prs", "downloads", "issues", "contributions"}
  {
    var names := set m | m in AllMetrics :: Name(m);
    assert AllMetrics[0] == Stars && AllMetrics[1] == Forks && AllMetrics[2] == Prs;
    assert AllMetrics[3] == Downloads && AllMetrics[4] == Issues && AllMetrics[5] == Contributions;
    assert Name(Stars) in names && Name(Forks) in names && Name(Prs) in names;
    assert Name(Downloads) in names && Name(Issues) in names && Name(Contributions) in names;
  }

  /** On the forced path issues and contributions fail at the manager's lookup and get the
      empty table, with no file written; the four managed metrics are fetched and saved,
      and a failed fetch gives the empty table with no file written. */
  lemma ForcedEntry(env: Env, m: MetricType, files: Files)
    ensures m !in DM.Managed ==> Resolve(env, true, m, files) == (DataLoader.EmptyTable(m), files)
    ensures m in DM.Managed ==>
      var (r, after) := DM.FetchAndSaveOutcome(DataDir, Name(m), env.owner, env.repo, env.viaManager, files, env.now);
      Resolve(env, true, m, files) == (if r.Ok? then r.value else DataLoader.EmptyTable(m), after)
    ensures env.viaManager(m, env.owner, env.repo).Err? ==> Resolve(env, true, m, files) == (DataLoader.EmptyTable(m), files)
  {
    NamesDistinct(m, m);
    DM.CacheFileOf(DataDir, Name(m));
    DM.GetDataSpec(DataDir, RefreshThresholdHours, Name(m), env.owner, env.repo, true, env.viaManager, files, env.now);
    DM.FetchAndSaveSpec(DataDir, Name(m), env.owner, env.repo, env.viaManager, files, env.now);
  }

  /** Off the forced path a non-empty cached table is the entry as it is, and nothing is
      fetched or written. */
  lemma CacheHit(env: Env, m: MetricType, files: Files)
    ensures var cached := DataLoader.GetFor(files, DataDir, Name(m), env.owner, env.repo);
      cached.Ok? && !IsEmpty(cached.value) ==> Resolve(env, false, m, files) == (cached.value, files)
  {
    DataLoader.GetForSpec(files, DataDir, m, env.owner, env.repo);
  }

  /** Off the forced path a cache file with no header line makes `get_for` raise before
      anything is fetched: the entry is the empty table and no file changes. This holds of
      the repository file, and of the generic file when the repository file is not used. */
  lemma HeaderlessCache(env: Env, m: MetricType, files: Files)
    requires var path := DataLoader.PathFor(DataDir, Name(m), env.owner, env.repo).value;
      var generic := DataLoader.PathFor(DataDir, Name(m), "", "").value;
      || DataLoader.Headerless(files, path)
      || (!(path in files && DataLoader.RepoFileUsable(files[path].content, m)) && DataLoader.Headerless(files, generic))
    ensures Resolve(env, false, m, files) == (DataLoader.EmptyTable(m), files)
  {
    DataLoader.GetForSpec(files, DataDir, m, env.owner, env.repo);
  }

  /** Off the forced path issues and contributions are never fetched: their entry is the
      cached table when it is non-empty and the empty table otherwise (a cache file that
      raises included), and no file changes. */
  lemma UnmanagedFromCacheOnly(env: Env, m: MetricType, files: Files)
    requires m !in DM.Managed
    ensures var cached := DataLoader.GetFor(files, DataDir, Name(m), env.owner, env.repo);
      Resolve(env, false, m, files) == (if cached.Err? || IsEmpty(cached.value) then DataLoader.EmptyTable(m) else cached.value, files)
  {
    NamesDistinct(m, m);
    DataLoader.GetForSpec(files, DataDir, m, env.owner, env.repo);
    DM.GetDataSpec(DataDir, RefreshThresholdHours, Name(m), env.owner, env.repo, true, env.viaManager, files, env.now);
  }

  /** The fetchers answer with tables of the metric's exact schema. */
  ghost predicate SchemaFetches(env: Env) {
    && (forall m: MetricType :: env.viaManager(m, env.owner, env.repo).Ok? ==> env.viaManager(m, env.owner, env.repo).value.columns == Schema(m))
    && (forall m: MetricType :: env.direct(m, env.owner, env.repo).Ok? ==> env.direct(m, env.owner, env.repo).value.columns == Schema(m))
  }

  /** The answers of the fetchers of `GitHubFetcher` for a repository, given the event
      dates their crawls collect and the releases response: stars and forks as cumulative
      series, pull requests as a daily series, downloads from the releases; there is no
      fetcher for issues or contributions. */
  function FetcherUpstream(events: (MetricType, string, string) -> seq<Date>,
                           releases: (string, string) -> Response<GF.Releases>): DM.Upstream
  {
    (m: MetricType, owner: string, repo: string) =>
      match m
      case Stars => Ok(GF.CumulativeFrame(Stars, events(m, owner, repo)))
      case Forks => Ok(GF.CumulativeFrame(Forks, events(m, owner, repo)))
      case Prs => Ok(GF.DailyFrame(Prs, events(m, owner, repo)))
      case Downloads => Ok(GF.DownloadsFrame(releases(owner, repo)))
      case _ => Err(AttributeError(Name(m) + "_fetcher"))
  }

  /** The fetchers of `GitHubFetcher` answer with tables of the metric's exact schema, so
      the dashboard built on them meets the schema assumption. */
  lemma FetchersKeepSchema(owner: string, repo: string, hasToken: bool, now: int,
                           events: (MetricType, string, string) -> seq<Date>,
                           releases: (string, string) -> Response<GF.Releases>)
    ensures SchemaFetches(Env(owner, repo, hasToken, FetcherUpstream(events, releases), FetcherUpstream(events, releases), now))
  {
    var up := FetcherUpstream(events, releases);
    forall m: MetricType | up(m, owner, repo).Ok? ensures up(m, owner, repo).value.columns == Schema(m) {
      match m
      case Stars => GF.CumulativeFrameSpec(Stars, events(m, owner, repo));
      case Forks => GF.CumulativeFrameSpec(Forks, events(m, owner, repo));
      case Prs => GF.DailyFrameSpec(Prs, events(m, owner, repo));
      case Downloads => GF.DownloadsFrameSpec(releases(owner, repo));
      case _ =>
    }
  }

  /** When the fetchers answer with the metric's schema, every entry has the metric's
      columns, however it was resolved. */
  lemma EntryHasColumns(env: Env, force: bool, m: MetricType, files: Files)
    requires SchemaFetches(env)
    ensures HasColumns(Resolve(env, force, m, files).0.columns, Expected(m))
  {
    ForcedHasColumns(env, m, files);
    if !force {
      CachedHasColumns(env, m, files);
    }
  }

  /** The cache-first attempt, when it gives a table, gives one with the metric's columns. */
  lemma CachedHasColumns(env: Env, m: MetricType, files: Files)
    requires SchemaFetches(env)
    ensures CachedAttempt(env, m, files).0.Ok? ==> HasColumns(CachedAttempt(env, m, files).0.value.columns, Expected(m))
  {
    var cached := DataLoader.GetFor(files, DataDir, Name(m), env.owner, env.repo);
    if cached.Ok? && !IsEmpty(cached.value) {
      DataLoader.GetForSpec(files, DataDir, m, env.owner, env.repo);
    } else if cached.Ok? {
      ForcedHasColumns(env, m, files);
      var r := DirectFetch(env, m);
      if r.Ok? {
        assert r.value.columns == Schema(m);
      }
    }
  }

  /** The manager's answer, when it is a table, has the metric's columns. */
  lemma ForcedHasColumns(env: Env, m: MetricType, files: Files)
    requires SchemaFetches(env)
    ensures ForcedFetch(env, m, files).0.Ok? ==> HasColumns(ForcedFetch(env, m, files).0.value.columns, Expected(m))
  {
    NamesDistinct(m, m);
    DM.GetDataSpec(DataDir, RefreshThresholdHours, Name(m), env.owner, env.repo, true, env.viaManager, files, env.now);
    DM.FetchAndSaveSpec(DataDir, Name(m), env.owner, env.repo, env.viaManager, files, env.now);
    if env.viaManager(m, env.owner, env.repo).Ok? {
      DM.KeepSchema(m, env.viaManager(m, env.owner, env.repo).value.columns);
    }
  }

  /** The `try` block of `get_data` for one metric, with its `except`. */
  method ResolveMetric(dm: DM.DataManager, disk: Disk, env: Env, force: bool, m: MetricType) returns (entry: Frame)
    requires dm.disk == disk && dm.Valid() && dm.dataDir == DataDir && dm.refreshThresholdHours == RefreshThresholdHours
    modifies disk
    ensures (entry, disk.files) == Resolve(env, force, m, old(disk.files))
  {
    var r: Result<Frame>;
    if force {
      var fetched;
      r, fetched := dm.GetData(Name(m), env.owner, env.repo, true, env.viaManager, env.now);
    } else {
      var cached := DataLoader.GetFor(disk.files, DataDir, Name(m), env.owner, env.repo);
      if cached.Err? {
        r := cached;
      } else if !IsEmpty(cached.value) {
        r := cached;
      } else if env.hasToken {
        var fetched;
        r, fetched := dm.GetData(Name(m), env.owner, env.repo, true, env.viaManager, env.now);
        if r.Err? {
          r := DirectFetch(env, m);
        }
      } else {
        r := DirectFetch(env, m);
      }
    }
    entry := if r.Ok? then r.value else DataLoader.EmptyTable(m);
  }

  /** The loop of `get_data` over `metrics`. */
  method ResolveMetrics(dm: DM.DataManager, disk: Disk, env: Env, force: bool, metrics: seq<MetricType>)
    returns (result: map<string, Frame>)
    requires dm.disk == disk && dm.Valid() && dm.dataDir == DataDir && dm.refreshThresholdHours == RefreshThresholdHours
    modifies disk
    ensures (result, disk.files) == ResolveAll(env, force, map[], metrics, old(disk.files))
  {
    ghost var files0 := disk.files;
    result := map[];
    var i := 0;
    while i < |metrics|
      invariant 0 <= i <= |metrics|
      invariant ResolveAll(env, force, map[], metrics, files0) == ResolveAll(env, force, result, metrics[i..], disk.files)
    {
      var m := metrics[i];
      ResolveAllStep(env, force, result, metrics, i, disk.files);
      var entry := ResolveMetric(dm, disk, env, force, m);
      result := result[Name(m) := entry];
      i := i + 1;
    }
  }

  /** `get_data`: one entry for each of the six metrics. The manager is built on `disk`. */
  method GetData(disk: Disk, env: Env, force: bool) returns (result: map<string, Frame>)
    modifies disk
    ensures (result, disk.files) == ResolveAll(env, force, map[], AllMetrics, old(disk.files))
    ensures result.Keys == {"stars", "forks", "prs", "downloads", "issues", "contributions"}
  {
    var dm := new DM.DataManager(DataDir, RefreshThresholdHours, disk);
    ghost var files0 := disk.files;
    result := ResolveMetrics(dm, disk, env, force, AllMetrics);
    ResolveAllKeys(env, force, map[], AllMetrics, files0);
    AllMetricNames();
  }

  // ---------------------------------------------------------------------------------
  // Tables on the page
  // ---------------------------------------------------------------------------------

  /** The rows whose date parses, in their order. */
  function Dated(rows: seq<RawRow>): (r: seq<RawRow>)
    ensures forall x :: multiset(r)[x] == if x.0.Some? then multiset(rows)[x] else 0
    ensures forall i :: 0 <= i < |r| ==> r[i].0.Some?
  {
    if |rows| == 0 then []
    else
      assert rows == [rows[0]] + rows[1..];
      (if rows[0].0.Some? then [rows[0]] else []) + Dated(rows[1..])
  }

  /** The rows whose date parses and lies between `start` and `end`, both included, in
      their order. */
  function InRange(rows: seq<RawRow>, start: Date, end: Date): (r: seq<RawRow>)
    ensures forall x :: multiset(r)[x] == if x.0.Some? && start <= x.0.value <= end then multiset(rows)[x] else 0
    ensures forall i :: 0 <= i < |r| ==> r[i].0.Some? && start <= r[i].0.value <= end
  {
    if |rows| == 0 then []
    else
      assert rows == [rows[0]] + rows[1..];
      (if rows[0].0.Some? && start <= rows[0].0.value <= end then [rows[0]] else []) + InRange(rows[1..], start, end)
  }

  /** The rows that have a date come in ascending order of date. */
  predicate DatesAscending(rows: seq<RawRow>) {
    forall i, j :: 0 <= i < j < |rows| && rows[i].0.Some? && rows[j].0.Some? ==> rows[i].0.value <= rows[j].0.value
  }

  lemma AscendingTail(rows: seq<RawRow>)
    requires |rows| > 0 && DatesAscending(rows)
    ensures DatesAscending(rows[1..])
  {
    var rest := rows[1..];
    forall i, j | 0 <= i < j < |rest| && rest[i].0.Some? && rest[j].0.Some? ensures rest[i].0.value <= rest[j].0.value {
      assert rest[i] == rows[i + 1] && rest[j] == rows[j + 1];
    }
  }

  /** A dated row put before rows drawn from the rest of an ascending sequence keeps the
      order ascending. */
  lemma AscendingCons(rows: seq<RawRow>, tail: seq<RawRow>)
    requires |rows| > 0 && rows[0].0.Some? && DatesAscending(rows) && DatesAscending(tail)
    requires forall i :: 0 <= i < |tail| ==> tail[i].0.Some? && tail[i] in rows[1..]
    ensures DatesAscending([rows[0]] + tail)
  {
    var r := [rows[0]] + tail;
    forall j | 0 <= j < |tail| ensures rows[0].0.value <= tail[j].0.value {
      var p :| 0 <= p < |rows[1..]| && rows[1..][p] == tail[j];
      assert rows[p + 1] == tail[j];
    }
    forall i, j | 0 <= i < j < |r| && r[i].0.Some? && r[j].0.Some? ensures r[i].0.value <= r[j].0.value {
      assert r[j] == tail[j - 1];
      if i > 0 {
        assert r[i] == tail[i - 1];
      }
    }
  }

  /** Dropping the undated rows keeps the order of the others. */
  lemma {:induction false} DatedAscending(rows: seq<RawRow>)
    ensures DatesAscending(rows) ==> DatesAscending(Dated(rows))
  {
    if |rows| > 0 && DatesAscending(rows) {
      var rest := rows[1..];
      AscendingTail(rows);
      DatedAscending(rest);
      var tail := Dated(rest);
      if rows[0].0.Some? {
        forall i | 0 <= i < |tail| ensures tail[i].0.Some? && tail[i] in rest {
          assert tail[i] in multiset(tail);
          assert multiset(rest)[tail[i]] > 0;
        }
        AscendingCons(rows, tail);
      }
    }
  }

  /** Keeping the rows within a range keeps their order. */
  lemma {:induction false} InRangeAscending(rows: seq<RawRow>, start: Date, end: Date)
    ensures DatesAscending(rows) ==> DatesAscending(InRange(rows, start, end))
  {
    if |rows| > 0 && DatesAscending(rows) {
      var rest := rows[1..];
      AscendingTail(rows);
      InRangeAscending(rest, start, end);
      var tail := InRange(rest, start, end);
      if rows[0].0.Some? && start <= rows[0].0.value <= end {
        forall i | 0 <= i < |tail| ensures tail[i].0.Some? && tail[i] in rest {
          assert tail[i] in multiset(tail);
          assert multiset(rest)[tail[i]] > 0;
        }
        AscendingCons(rows, tail);
      }
    }
  }

  /** `filter_by_date`: an empty table comes back as it is; a table without a date column
      raises; otherwise exactly the rows whose date parses and lies in the range, both
      ends included, are kept. */
  function FilterByDate(f: RawFrame, start: Date, end: Date): (r: Result<RawFrame>)
    ensures IsEmptyRaw(f) ==> r == Ok(f)
    ensures !IsEmptyRaw(f) && "date" !in f.columns ==> r == Err(KeyError("date"))
    ensures !IsEmptyRaw(f) && "date" in f.columns ==>
      && r.Ok? && r.value.columns == f.columns
      && (forall x :: multiset(r.value.rows)[x] == if x.0.Some? && start <= x.0.value <= end then multiset(f.rows)[x] else 0)
    ensures r.Ok? && DatesAscending(f.rows) ==> DatesAscending(r.value.rows)
  {
    if IsEmptyRaw(f) then Ok(f)
    else if "date" !in f.columns then Err(KeyError("date"))
    else
      InRangeAscending(f.rows, start, end);
      Ok(RawFrame(f.columns, InRange(f.rows, start, end)))
  }

  /** `ensure_datetime`: a non-empty table with a date column loses the rows whose date
      does not parse; any other table comes back as it is. */
  function EnsureDatetime(f: RawFrame): (r: RawFrame)
    ensures IsEmptyRaw(f) || "date" !in f.columns ==> r == f
    ensures !IsEmptyRaw(f) && "date" in f.columns ==>
      && r.columns == f.columns
      && (forall x :: multiset(r.rows)[x] == if x.0.Some? then multiset(f.rows)[x] else 0)
    ensures DatesAscending(f.rows) ==> DatesAscending(r.rows)
  {
    if !IsEmptyRaw(f) && "date" in f.columns then
      DatedAscending(f.rows);
      RawFrame(f.columns, Dated(f.rows))
    else f
  }

  /** Rows whose dates all parse are kept as they are. */
  lemma {:induction false} DatedOfDated(rows: seq<RawRow>)
    requires forall i :: 0 <= i < |rows| ==> rows[i].0.Some?
    ensures Dated(rows) == rows
  {
    if |rows| > 0 {
      DatedOfDated(rows[1..]);
      assert rows == [rows[0]] + rows[1..];
    }
  }

  /** Rows whose dates all lie in the range are kept as they are. */
  lemma {:induction false} InRangeOfInRange(rows: seq<RawRow>, start: Date, end: Date)
    requires forall i :: 0 <= i < |rows| ==> rows[i].0.Some? && start <= rows[i].0.value <= end
    ensures InRange(rows, start, end) == rows
  {
    if |rows| > 0 {
      InRangeOfInRange(rows[1..], start, end);
      assert rows == [rows[0]] + rows[1..];
    }
  }

  /** After `filter_by_date`, `ensure_datetime` changes nothing. */
  lemma EnsureAfterFilter(f: RawFrame, start: Date, end: Date)
    requires FilterByDate(f, start, end).Ok?
    ensures EnsureDatetime(FilterByDate(f, start, end).value) == FilterByDate(f, start, end).value
  {
    if !IsEmptyRaw(f) {
      DatedOfDated(InRange(f.rows, start, end));
    }
  }

  /** Filtering twice by the same range is filtering once. */
  lemma FilterIdempotent(f: RawFrame, start: Date, end: Date)
    requires FilterByDate(f, start, end).Ok?
    ensures FilterByDate(FilterByDate(f, start, end).value, start, end) == FilterByDate(f, start, end)
  {
    if !IsEmptyRaw(f) {
      InRangeOfInRange(InRange(f.rows, start, end), start, end);
    }
  }

  /** The sum of the value column. */
  function RawTotal(rows: seq<RawRow>): nat {
    if |rows| == 0 then 0 else rows[0].1 + RawTotal(rows[1..])
  }

  /** `summarize_total`: 0 for an empty table, else the sum of the value column. */
  function SummarizeTotal(f: RawFrame): (n: nat)
    ensures IsEmptyRaw(f) ==> n == 0
    ensures !IsEmptyRaw(f) ==> n == RawTotal(f.rows)
  {
    if IsEmptyRaw(f) then 0 else RawTotal(f.rows)
  }

  /** Written out as raw rows, a table keeps its total. */
  lemma {:induction false} RawTotalToRaw(rows: seq<Row>)
    ensures RawTotal(ToRaw(Frame([], rows)).rows) == Total(rows)
    decreases |rows|
  {
    if |rows| > 0 {
      RawTotalToRaw(rows[1..]);
      assert ToRaw(Frame([], rows)).rows[1..] == ToRaw(Frame([], rows[1..])).rows;
    }
  }

  /** The daily pull-request series, filtered to a range holding all its events, keeps
      every row, and its total is the number of dated pull requests. */
  lemma DailyTotalInRange(m: MetricType, dates: seq<Date>, start: Date, end: Date)
    requires forall i :: 0 <= i < |dates| ==> start <= dates[i] <= end
    ensures var f := ToRaw(GF.DailyFrame(m, dates));
      FilterByDate(f, start, end) == Ok(f) && SummarizeTotal(f) == |dates|
  {
    var frame := GF.DailyFrame(m, dates);
    var f := ToRaw(frame);
    GF.DailyFrameSpec(m, dates);
    forall i | 0 <= i < |f.rows| ensures f.rows[i].0.Some? && start <= f.rows[i].0.value <= end {
      assert frame.rows[i].0 in KeySet(frame.rows);
    }
    InRangeOfInRange(f.rows, start, end);
    RawTotalToRaw(frame.rows);
    assert ToRaw(Frame([], frame.rows)).rows == f.rows;
  }

  /** `to_plotly_xy(df, "date", y)`: the dates and the values as two lists, empty for an
      empty table; a missing column raises. */
  function ToPlotlyXY(f: RawFrame, yCol: string): (r: Result<(seq<Option<Date>>, seq<nat>)>)
    ensures IsEmptyRaw(f) ==> r == Ok(([], []))
    ensures !IsEmptyRaw(f) ==> (r.Ok? <==> "date" in f.columns && yCol in f.columns)
    ensures r.Ok? ==> |r.value.0| == |r.value.1|
    ensures r.Ok? && !IsEmptyRaw(f) ==>
      && |r.value.0| == |f.rows|
      && forall i :: 0 <= i < |f.rows| ==> (r.value.0[i], r.value.1[i]) == f.rows[i]
  {
    if IsEmptyRaw(f) then Ok(([], []))
    else if "date" !in f.columns then Err(KeyError("date"))
    else if yCol !in f.columns then Err(KeyError(yCol))
    else Ok((seq(|f.rows|, i requires 0 <= i < |f.rows| => f.rows[i].0), seq(|f.rows|, i requires 0 <= i < |f.rows| => f.rows[i].1)))
  }

  // ---------------------------------------------------------------------------------
  // The downloads fallback
  // ---------------------------------------------------------------------------------

  /** A row of `pypi_metrics.csv`: its date cell (None when it does not parse), library and
      download count. */
  type PypiRow = (Option<Date>, string, nat)

  datatype PypiFile = PypiFile(columns: seq<string>, rows: seq<PypiRow>)

  /** The rows of library `lib` whose date parses, as (date, downloads), in order. */
  function LibraryRows(rows: seq<PypiRow>, lib: string): (r: seq<Row>)
    ensures forall x :: multiset(r)[x] == multiset(rows)[(Some(x.0), lib, x.1)]
  {
    if |rows| == 0 then []
    else
      assert rows == [rows[0]] + rows[1..];
      (if rows[0].0.Some? && rows[0].1 == lib then [(rows[0].0.value, rows[0].2)] else []) + LibraryRows(rows[1..], lib)
  }

  /** The downloads table after the fallback: an empty one is replaced by the PyPI figures
      of the repository when `pypi_metrics.csv` exists with the needed columns. */
  function DownloadsFallback(downloads: Frame, pypi: Option<PypiFile>, repo: string): Frame {
    if !IsEmpty(downloads) || pypi.None? || !HasColumns(pypi.value.columns, {"date", "library", "downloads"}) then downloads
    else Frame(["date", "downloads"], SortBy(LibraryRows(pypi.value.rows, repo), DateLe))
  }

  /** The fallback leaves a non-empty downloads table alone, and without a usable PyPI file
      too; otherwise the table is exactly the repository's dated PyPI rows, sorted by date. */
  lemma DownloadsFallbackSpec(downloads: Frame, pypi: Option<PypiFile>, repo: string)
    ensures !IsEmpty(downloads) ==> DownloadsFallback(downloads, pypi, repo) == downloads
    ensures pypi.None? || !HasColumns(pypi.value.columns, {"date", "library", "downloads"}) ==> DownloadsFallback(downloads, pypi, repo) == downloads
    ensures IsEmpty(downloads) && pypi.Some? && HasColumns(pypi.value.columns, {"date", "library", "downloads"}) ==>
      var r := DownloadsFallback(downloads, pypi, repo);
      && r.columns == ["date", "downloads"]
      && SortedBy(r.rows, DateLe)
      && forall x :: multiset(r.rows)[x] == multiset(pypi.value.rows)[(Some(x.0), repo, x.1)]
  {
    if IsEmpty(downloads) && pypi.Some? && HasColumns(pypi.value.columns, {"date", "library", "downloads"}) {
      DateLeIsTotalPreorder();
      SortBySorted(LibraryRows(pypi.value.rows, repo), DateLe);
    }
  }

  // ---------------------------------------------------------------------------------
  // The merged export
  // ---------------------------------------------------------------------------------

  /** A row of the outer join: its date and one cell per table joined so far, None where
      the join found no row of that table. */
  type JoinedRow = (Date, seq<Option<nat>>)

  /** The values `right` holds on day `d`, in order. */
  function Matches(right: seq<Row>, d: Date): seq<nat> {
    if |right| == 0 then [] else (if right[0].0 == d then [right[0].1] else []) + Matches(right[1..], d)
  }

  /** `n` empty cells. */
  function Missing(n: nat): (r: seq<Option<nat>>)
    ensures |r| == n && forall j :: 0 <= j < n ==> r[j].None?
  {
    seq(n, _ => None)
  }

  /** The rows the outer join makes of one left row: one per right row of its day, or the
      left row with an empty cell when there is none. */
  function JoinRow(l: JoinedRow, right: seq<Row>): seq<JoinedRow> {
    var vs := Matches(right, l.0);
    if |vs| == 0 then [(l.0, l.1 + [None])]
    else seq(|vs|, i requires 0 <= i < |vs| => (l.0, l.1 + [Some(vs[i])]))
  }

  function JoinLeft(left: seq<JoinedRow>, right: seq<Row>): seq<JoinedRow> {
    if |left| == 0 then [] else JoinRow(left[0], right) + JoinLeft(left[1..], right)
  }

  /** The days occurring in a joined table. */
  function JoinedDates(t: seq<JoinedRow>): set<Date> {
    set i | 0 <= i < |t| :: t[i].0
  }

  /** The right rows of days the left side lacks, with `width` empty cells before them. */
  function RightOnly(leftDates: set<Date>, right: seq<Row>, width: nat): seq<JoinedRow> {
    if |right| == 0 then []
    else
      var head := if right[0].0 in leftDates then [] else [(right[0].0, Missing(width) + [Some(right[0].1)])];
      head + RightOnly(leftDates, right[1..], width)
  }

  /** `left.merge(right, on="date", how="outer")`, where `width` tables are already on the
      left. */
  function OuterJoin(left: seq<JoinedRow>, width: nat, right: seq<Row>): seq<JoinedRow> {
    JoinLeft(left, right) + RightOnly(JoinedDates(left), right, width)
  }

  /** The first table as a joined table with one cell per row. */
  function Lift(t: seq<Row>): seq<JoinedRow> {
    seq(|t|, i requires 0 <= i < |t| => (t[i].0, [Some(t[i].1)]))
  }

  /** The chain of merges: the first table, then each next one joined on the right. */
  function JoinAll(tables: seq<seq<Row>>): seq<JoinedRow>
    decreases |tables|
  {
    if |tables| == 0 then []
    else if |tables| == 1 then Lift(tables[0])
    else OuterJoin(JoinAll(tables[..|tables| - 1]), |tables| - 1, tables[|tables| - 1])
  }

  /** A row of the export: its date and one value per table. */
  type ExportRow = (Date, seq<nat>)

  /** `fillna(0)` on one row. */
  function FillNa(r: JoinedRow): ExportRow {
    (r.0, seq(|r.1|, j requires 0 <= j < |r.1| => if r.1[j].Some? then r.1[j].value else 0))
  }

  function ExportLe(a: ExportRow, b: ExportRow): bool {
    a.0 <= b.0
  }

  /** The export: the tables merged on date, sorted by date, with empty cells as 0. */
  function Export(tables: seq<seq<Row>>): seq<ExportRow> {
    var j := JoinAll(tables);
    SortBy(seq(|j|, i requires 0 <= i < |j| => FillNa(j[i])), ExportLe)
  }

  /** The days of all tables. */
  function AllDates(tables: seq<seq<Row>>): set<Date>
    decreases |tables|
  {
    if |tables| == 0 then {} else AllDates(tables[..|tables| - 1]) + KeySet(tables[|tables| - 1])
  }

  /** No day occurs twice in the table. */
  predicate UniqueDays(t: seq<Row>) {
    forall i, j :: 0 <= i < j < |t| ==> t[i].0 != t[j].0
  }

  predicate DistinctJoined(t: seq<JoinedRow>) {
    forall i, j :: 0 <= i < j < |t| ==> t[i].0 != t[j].0
  }

  /** The cell a one-row-per-day table gives a day: its value there, or empty. */
  function Cell(t: seq<Row>, d: Date): Option<nat> {
    if d in KeySet(t) then Some(Weight(t, d)) else None
  }

  /** Each row of a joined table holds every table's cell of its day. */
  ghost predicate CellsOf(t: seq<JoinedRow>, tables: seq<seq<Row>>) {
    forall i :: 0 <= i < |t| ==> |t[i].1| == |tables| && forall k :: 0 <= k < |tables| ==> t[i].1[k] == Cell(tables[k], t[i].0)
  }

  /** A joined table is the join of `tables`: one row per day of any of them, each holding
      every table's cell of the day. */
  ghost predicate JoinOf(t: seq<JoinedRow>, tables: seq<seq<Row>>) {
    DistinctJoined(t) && JoinedDates(t) == AllDates(tables) && CellsOf(t, tables)
  }

  /** In a table with one row per day, the first day does not come again. */
  lemma HeadDayNotInRest(t: seq<Row>)
    requires UniqueDays(t) && |t| > 0
    ensures t[0].0 !in KeySet(t[1..])
  {
    forall x | x in KeySet(t[1..]) ensures x != t[0].0 {
      var i :| 0 <= i < |t[1..]| && t[1..][i].0 == x;
      assert t[i + 1].0 == x;
    }
  }

  /** In a table with one row per day, the values of a day are its weight, or nothing. */
  lemma {:induction false} MatchesUnique(right: seq<Row>, d: Date)
    requires UniqueDays(right)
    ensures Matches(right, d) == if d in KeySet(right) then [Weight(right, d)] else []
  {
    if |right| > 0 {
      var rest := right[1..];
      UniqueTail(right);
      MatchesUnique(rest, d);
      KeySetCons(right[0], rest);
      assert right == [right[0]] + rest;
      if right[0].0 == d {
        HeadDayNotInRest(right);
        WeightOutside(rest, d);
      }
    }
  }

  /** Against a table with one row per day, a left row gains exactly its day's cell. */
  lemma JoinRowUnique(l: JoinedRow, right: seq<Row>)
    requires UniqueDays(right)
    ensures JoinRow(l, right) == [(l.0, l.1 + [Cell(right, l.0)])]
  {
    MatchesUnique(right, l.0);
    var vs := Matches(right, l.0);
    if |vs| > 0 {
      var j := JoinRow(l, right);
      assert |j| == 1 && j[0] == (l.0, l.1 + [Some(vs[0])]);
    }
  }

  /** Against a table with one row per day, each left row gets exactly one cell more. */
  lemma {:induction false} JoinLeftUnique(left: seq<JoinedRow>, right: seq<Row>)
    requires UniqueDays(right)
    ensures |JoinLeft(left, right)| == |left|
    ensures forall i :: 0 <= i < |left| ==> JoinLeft(left, right)[i] == (left[i].0, left[i].1 + [Cell(right, left[i].0)])
  {
    if |left| > 0 {
      var tail := JoinLeft(left[1..], right);
      JoinLeftUnique(left[1..], right);
      JoinRowUnique(left[0], right);
      var r := JoinLeft(left, right);
      assert r == [(left[0].0, left[0].1 + [Cell(right, left[0].0)])] + tail;
      forall i | 0 <= i < |left| ensures r[i] == (left[i].0, left[i].1 + [Cell(right, left[i].0)]) {
        if i > 0 {
          assert r[i] == tail[i - 1];
          assert left[1..][i - 1] == left[i];
        }
      }
    }
  }

  /** What remains of a table with one row per day after its first row still has one
      row per day. */
  lemma UniqueTail(t: seq<Row>)
    requires UniqueDays(t) && |t| > 0
    ensures UniqueDays(t[1..])
  {
    var rest := t[1..];
    forall i, j | 0 <= i < j < |rest| ensures rest[i].0 != rest[j].0 {
      assert rest[i] == t[i + 1] && rest[j] == t[j + 1];
    }
  }

  /** The first right row contributes a row exactly when its day is not on the left. */
  function RightHead(leftDates: set<Date>, row: Row, width: nat): seq<JoinedRow> {
    if row.0 in leftDates then [] else [(row.0, Missing(width) + [Some(row.1)])]
  }

  lemma RightOnlyCons(leftDates: set<Date>, right: seq<Row>, width: nat)
    requires |right| > 0
    ensures RightOnly(leftDates, right, width) == RightHead(leftDates, right[0], width) + RightOnly(leftDates, right[1..], width)
  {
  }

  /** The right-only rows cover the right days outside the left days. */
  lemma {:induction false} RightOnlyDates(leftDates: set<Date>, right: seq<Row>, width: nat)
    ensures JoinedDates(RightOnly(leftDates, right, width)) == KeySet(right) - leftDates
  {
    if |right| > 0 {
      var rest := right[1..];
      var head := RightHead(leftDates, right[0], width);
      RightOnlyDates(leftDates, rest, width);
      KeySetCons(right[0], rest);
      assert right == [right[0]] + rest;
      RightOnlyCons(leftDates, right, width);
      JoinedDatesAppend(head, RightOnly(leftDates, rest, width));
      assert JoinedDates(head) == if right[0].0 in leftDates then {} else {right[0].0} by {
        if right[0].0 !in leftDates {
          assert head[0].0 == right[0].0;
        }
      }
    } else {
      assert JoinedDates([]) == {};
    }
  }

  /** A joined row copied from some right row, with `width` empty cells before its value. */
  ghost predicate FromRight(row: JoinedRow, right: seq<Row>, width: nat) {
    exists p :: 0 <= p < |right| && row == (right[p].0, Missing(width) + [Some(right[p].1)])
  }

  lemma {:induction false} RightOnlyFrom(leftDates: set<Date>, right: seq<Row>, width: nat)
    ensures var r := RightOnly(leftDates, right, width);
      forall i :: 0 <= i < |r| ==> FromRight(r[i], right, width)
  {
    if |right| > 0 {
      var rest := right[1..];
      var head := RightHead(leftDates, right[0], width);
      var tail := RightOnly(leftDates, rest, width);
      RightOnlyFrom(leftDates, rest, width);
      RightOnlyCons(leftDates, right, width);
      var r := head + tail;
      forall i | 0 <= i < |r| ensures FromRight(r[i], right, width) {
        if i < |head| {
          assert r[i] == (right[0].0, Missing(width) + [Some(right[0].1)]);
        } else {
          assert r[i] == tail[i - |head|];
          assert FromRight(tail[i - |head|], rest, width);
          var p :| 0 <= p < |rest| && tail[i - |head|] == (rest[p].0, Missing(width) + [Some(rest[p].1)]);
          assert rest[p] == right[p + 1];
        }
      }
    }
  }

  lemma {:induction false} RightOnlyDistinct(leftDates: set<Date>, right: seq<Row>, width: nat)
    requires UniqueDays(right)
    ensures DistinctJoined(RightOnly(leftDates, right, width))
  {
    if |right| > 0 {
      var rest := right[1..];
      var head := RightHead(leftDates, right[0], width);
      var tail := RightOnly(leftDates, rest, width);
      UniqueTail(right);
      RightOnlyDistinct(leftDates, rest, width);
      RightOnlyDates(leftDates, rest, width);
      HeadDayNotInRest(right);
      RightOnlyCons(leftDates, right, width);
      var r := head + tail;
      forall i, j | 0 <= i < j < |r| ensures r[i].0 != r[j].0 {
        assert r[j] == tail[j - |head|];
        if i < |head| {
          assert r[j].0 in JoinedDates(tail);
        } else {
          assert r[i] == tail[i - |head|];
        }
      }
    }
  }

  /** The rows of days the left side lacks: each day of the right table outside the left
      days, once, with empty cells for the left tables and the right table's value. */
  lemma RightOnlyUnique(leftDates: set<Date>, right: seq<Row>, width: nat)
    requires UniqueDays(right)
    ensures var r := RightOnly(leftDates, right, width);
      && DistinctJoined(r)
      && JoinedDates(r) == KeySet(right) - leftDates
      && forall i :: 0 <= i < |r| ==> r[i].1 == Missing(width) + [Some(Weight(right, r[i].0))]
  {
    var r := RightOnly(leftDates, right, width);
    RightOnlyDistinct(leftDates, right, width);
    RightOnlyDates(leftDates, right, width);
    RightOnlyFrom(leftDates, right, width);
    forall i | 0 <= i < |r| ensures r[i].1 == Missing(width) + [Some(Weight(right, r[i].0))] {
      assert FromRight(r[i], right, width);
      var p :| 0 <= p < |right| && r[i] == (right[p].0, Missing(width) + [Some(right[p].1)]);
      WeightAtUniqueDay(right, p);
    }
  }

  /** In a table with one row per day, a row's day carries that row's value. */
  lemma {:induction false} WeightAtUniqueDay(t: seq<Row>, i: nat)
    requires UniqueDays(t) && i < |t|
    ensures Weight(t, t[i].0) == t[i].1
  {
    var rest := t[1..];
    UniqueTail(t);
    if i == 0 {
      HeadDayNotInRest(t);
      WeightOutside(rest, t[0].0);
    } else {
      assert rest[i - 1] == t[i];
      WeightAtUniqueDay(rest, i - 1);
    }
  }

  /** Each table's days are among the days of all tables. */
  lemma {:induction false} KeySetInAllDates(tables: seq<seq<Row>>, k: nat)
    requires k < |tables|
    ensures KeySet(tables[k]) <= AllDates(tables)
    decreases |tables|
  {
    if k < |tables| - 1 {
      KeySetInAllDates(tables[..|tables| - 1], k);
    }
  }

  /** The first table alone is its own join. */
  lemma LiftJoin(t: seq<Row>)
    requires UniqueDays(t)
    ensures JoinOf(Lift(t), [t])
  {
    var j := Lift(t);
    assert [t][..0] == [];
    assert AllDates([t]) == KeySet(t);
    forall i | 0 <= i < |j| ensures j[i].1[0] == Cell(t, j[i].0) {
      WeightAtUniqueDay(t, i);
      assert t[i].0 in KeySet(t);
    }
    assert JoinedDates(j) == KeySet(t) by {
      forall x | x in KeySet(t) ensures x in JoinedDates(j) {
        var i :| 0 <= i < |t| && t[i].0 == x;
        assert j[i].0 == x;
      }
    }
  }

  lemma JoinedDatesAppend(a: seq<JoinedRow>, b: seq<JoinedRow>)
    ensures JoinedDates(a + b) == JoinedDates(a) + JoinedDates(b)
  {
    var o := a + b;
    forall x | x in JoinedDates(o) ensures x in JoinedDates(a) + JoinedDates(b) {
      var i :| 0 <= i < |o| && o[i].0 == x;
      if i >= |a| {
        assert o[i] == b[i - |a|];
      }
    }
    forall x | x in JoinedDates(a) ensures x in JoinedDates(o) {
      var i :| 0 <= i < |a| && a[i].0 == x;
      assert o[i] == a[i];
    }
    forall x | x in JoinedDates(b) ensures x in JoinedDates(o) {
      var i :| 0 <= i < |b| && b[i].0 == x;
      assert o[i + |a|] == b[i];
    }
  }

  /** The left rows of a merge keep their days. */
  lemma JoinLeftDates(left: seq<JoinedRow>, last: seq<Row>)
    requires UniqueDays(last)
    ensures JoinedDates(JoinLeft(left, last)) == JoinedDates(left)
  {
    var jl := JoinLeft(left, last);
    JoinLeftUnique(left, last);
    forall x | x in JoinedDates(left) ensures x in JoinedDates(jl) {
      var i :| 0 <= i < |left| && left[i].0 == x;
      assert jl[i].0 == x;
    }
  }

  /** The days of a merge are the days of both sides. */
  lemma StepDates(left: seq<JoinedRow>, init: seq<seq<Row>>, last: seq<Row>)
    requires JoinedDates(left) == AllDates(init) && UniqueDays(last)
    ensures JoinedDates(OuterJoin(left, |init|, last)) == AllDates(init + [last])
  {
    var tables := init + [last];
    assert tables[..|init|] == init;
    assert AllDates(tables) == AllDates(init) + KeySet(last);
    var jl := JoinLeft(left, last);
    var ro := RightOnly(JoinedDates(left), last, |init|);
    JoinLeftDates(left, last);
    RightOnlyUnique(JoinedDates(left), last, |init|);
    JoinedDatesAppend(jl, ro);
  }

  /** A merge against a table with one row per day keeps the days distinct. */
  lemma StepDistinct(left: seq<JoinedRow>, width: nat, last: seq<Row>)
    requires DistinctJoined(left) && UniqueDays(last)
    ensures DistinctJoined(OuterJoin(left, width, last))
  {
    var jl := JoinLeft(left, last);
    var ro := RightOnly(JoinedDates(left), last, width);
    JoinLeftUnique(left, last);
    JoinLeftDates(left, last);
    RightOnlyUnique(JoinedDates(left), last, width);
    var o := jl + ro;
    forall i, j | 0 <= i < j < |o| ensures o[i].0 != o[j].0 {
      if j < |jl| {
      } else if i < |jl| {
        assert o[j] == ro[j - |jl|];
        assert o[j].0 in JoinedDates(ro);
        assert o[i].0 in JoinedDates(jl);
      } else {
        assert o[i] == ro[i - |jl|] && o[j] == ro[j - |jl|];
      }
    }
  }

  lemma CellsAppend(a: seq<JoinedRow>, b: seq<JoinedRow>, tables: seq<seq<Row>>)
    requires CellsOf(a, tables) && CellsOf(b, tables)
    ensures CellsOf(a + b, tables)
  {
    var o := a + b;
    forall i | 0 <= i < |o| ensures |o[i].1| == |tables| && forall k :: 0 <= k < |tables| ==> o[i].1[k] == Cell(tables[k], o[i].0) {
      if i >= |a| {
        assert o[i] == b[i - |a|];
      }
    }
  }

  /** The left rows of a merge against a table with one row per day gain its cell. */
  lemma JoinLeftCells(left: seq<JoinedRow>, init: seq<seq<Row>>, last: seq<Row>)
    requires CellsOf(left, init) && UniqueDays(last)
    ensures CellsOf(JoinLeft(left, last), init + [last])
  {
    var tables := init + [last];
    var jl := JoinLeft(left, last);
    JoinLeftUnique(left, last);
    forall i | 0 <= i < |jl| ensures |jl[i].1| == |tables| && forall k :: 0 <= k < |tables| ==> jl[i].1[k] == Cell(tables[k], jl[i].0) {
      assert jl[i] == (left[i].0, left[i].1 + [Cell(last, left[i].0)]);
    }
  }

  /** The rows a merge adds for days the left side lacks hold empty left cells. */
  lemma RightOnlyCells(init: seq<seq<Row>>, last: seq<Row>)
    requires UniqueDays(last)
    ensures CellsOf(RightOnly(AllDates(init), last, |init|), init + [last])
  {
    var tables := init + [last];
    var n := |init|;
    var ro := RightOnly(AllDates(init), last, n);
    RightOnlyUnique(AllDates(init), last, n);
    forall i | 0 <= i < |ro| ensures |ro[i].1| == |tables| && forall k :: 0 <= k < |tables| ==> ro[i].1[k] == Cell(tables[k], ro[i].0) {
      var d := ro[i].0;
      assert d in JoinedDates(ro);
      forall k | 0 <= k < n ensures Cell(tables[k], d) == None {
        KeySetInAllDates(init, k);
      }
    }
  }

  /** One merge of the last table, which has one row per day, into the join of the tables
      before it gives the join of all of them. */
  lemma JoinStep(left: seq<JoinedRow>, tables: seq<seq<Row>>)
    requires |tables| > 0 && JoinOf(left, tables[..|tables| - 1]) && UniqueDays(tables[|tables| - 1])
    ensures JoinOf(OuterJoin(left, |tables| - 1, tables[|tables| - 1]), tables)
  {
    var init, last := tables[..|tables| - 1], tables[|tables| - 1];
    assert init + [last] == tables;
    StepDates(left, init, last);
    StepDistinct(left, |init|, last);
    JoinLeftCells(left, init, last);
    RightOnlyCells(init, last);
    CellsAppend(JoinLeft(left, last), RightOnly(AllDates(init), last, |init|), tables);
  }

  /** The chain of merges over tables with one row per day is their join. */
  lemma {:induction false} JoinAllUnique(tables: seq<seq<Row>>)
    requires forall k :: 0 <= k < |tables| ==> UniqueDays(tables[k])
    ensures JoinOf(JoinAll(tables), tables)
    decreases |tables|
  {
    if |tables| == 1 {
      assert tables == [tables[0]];
      LiftJoin(tables[0]);
    } else if |tables| > 1 {
      var init := tables[..|tables| - 1];
      assert forall k :: 0 <= k < |init| ==> init[k] == tables[k];
      JoinAllUnique(init);
      JoinStep(JoinAll(init), tables);
    }
  }

  lemma ExportLeIsTotalPreorder()
    ensures TotalPreorder(ExportLe)
  {
  }

  /** In a sequence without two rows of one day, a row occurs once. */
  lemma {:induction false} OnceEach(s: seq<ExportRow>, x: ExportRow)
    requires forall i, j :: 0 <= i < j < |s| ==> s[i].0 != s[j].0
    ensures multiset(s)[x] <= 1
  {
    if |s| > 0 {
      var rest := s[1..];
      assert s == [s[0]] + rest;
      OnceEach(rest, x);
      if s[0] == x {
        forall i | 0 <= i < |rest| ensures rest[i] != x {
          assert rest[i] == s[i + 1];
        }
      }
    }
  }

  /** Two positions holding the same row make it occur twice. */
  lemma Twice(s: seq<ExportRow>, i: nat, j: nat)
    requires i < j < |s| && s[i] == s[j]
    ensures multiset(s)[s[i]] >= 2
  {
    assert s == s[..j] + [s[j]] + s[j + 1..];
    assert s[i] in multiset(s[..j]) by {
      assert s[..j][i] == s[i];
    }
  }

  /** Each row of a reordering is a row of the original. */
  lemma ReorderedRows(f: seq<ExportRow>, r: seq<ExportRow>)
    requires multiset(r) == multiset(f)
    ensures forall i :: 0 <= i < |r| ==> exists p :: 0 <= p < |f| && f[p] == r[i]
  {
    forall i | 0 <= i < |r| ensures exists p :: 0 <= p < |f| && f[p] == r[i] {
      assert r[i] in multiset(r);
      assert r[i] in multiset(f);
      assert r[i] in f;
    }
  }

  /** A reordering of rows with distinct days has distinct days. */
  lemma ReorderedDistinct(f: seq<ExportRow>, r: seq<ExportRow>)
    requires multiset(r) == multiset(f)
    requires forall i, j :: 0 <= i < j < |f| ==> f[i].0 != f[j].0
    ensures forall i, j :: 0 <= i < j < |r| ==> r[i].0 != r[j].0
  {
    ReorderedRows(f, r);
    forall i, j | 0 <= i < j < |r| ensures r[i].0 != r[j].0 {
      var p :| 0 <= p < |f| && f[p] == r[i];
      var q :| 0 <= q < |f| && f[q] == r[j];
      if p == q {
        Twice(r, i, j);
        OnceEach(f, r[i]);
      }
    }
  }

  /** A reordering has the same days. */
  lemma ReorderedDays(f: seq<ExportRow>, r: seq<ExportRow>)
    requires multiset(r) == multiset(f)
    ensures (set i | 0 <= i < |r| :: r[i].0) == (set p | 0 <= p < |f| :: f[p].0)
  {
    ReorderedRows(f, r);
    ReorderedRows(r, f);
  }

  /** The export rows before sorting: the join with empty cells as 0. */
  lemma FilledJoin(tables: seq<seq<Row>>)
    requires forall k :: 0 <= k < |tables| ==> UniqueDays(tables[k])
    ensures var joined := JoinAll(tables);
      var f := seq(|joined|, i requires 0 <= i < |joined| => FillNa(joined[i]));
      && (forall i, j :: 0 <= i < j < |f| ==> f[i].0 != f[j].0)
      && (set p | 0 <= p < |f| :: f[p].0) == AllDates(tables)
      && forall i :: 0 <= i < |f| ==> |f[i].1| == |tables| && forall k :: 0 <= k < |tables| ==> f[i].1[k] == Weight(tables[k], f[i].0)
  {
    var joined := JoinAll(tables);
    JoinAllUnique(tables);
    var f := seq(|joined|, i requires 0 <= i < |joined| => FillNa(joined[i]));
    forall i | 0 <= i < |f| ensures |f[i].1| == |tables| && forall k :: 0 <= k < |tables| ==> f[i].1[k] == Weight(tables[k], f[i].0) {
      forall k | 0 <= k < |tables| ensures f[i].1[k] == Weight(tables[k], f[i].0) {
        if joined[i].0 !in KeySet(tables[k]) {
          WeightOutside(tables[k], joined[i].0);
        }
      }
    }
    assert (set p | 0 <= p < |f| :: f[p].0) == JoinedDates(joined) by {
      forall x | x in JoinedDates(joined) ensures x in (set p | 0 <= p < |f| :: f[p].0) {
        var p :| 0 <= p < |joined| && joined[p].0 == x;
        assert f[p].0 == x;
      }
    }
  }

  /** The export of tables with one row per day: one row per day of any table, in strictly
      ascending order, each holding every table's value of the day, 0 where it has none. */
  lemma ExportSpec(tables: seq<seq<Row>>)
    requires forall k :: 0 <= k < |tables| ==> UniqueDays(tables[k])
    ensures var r := Export(tables);
      && (forall i, j :: 0 <= i < j < |r| ==> r[i].0 < r[j].0)
      && (set i | 0 <= i < |r| :: r[i].0) == AllDates(tables)
      && forall i :: 0 <= i < |r| ==> |r[i].1| == |tables| && forall k :: 0 <= k < |tables| ==> r[i].1[k] == Weight(tables[k], r[i].0)
  {
    var joined := JoinAll(tables);
    var f := seq(|joined|, i requires 0 <= i < |joined| => FillNa(joined[i]));
    FilledJoin(tables);
    var r := SortBy(f, ExportLe);
    ExportLeIsTotalPreorder();
    SortBySorted(f, ExportLe);
    ReorderedRows(f, r);
    ReorderedDistinct(f, r);
    ReorderedDays(f, r);
    forall i | 0 <= i < |r| ensures |r[i].1| == |tables| && forall k :: 0 <= k < |tables| ==> r[i].1[k] == Weight(tables[k], r[i].0) {
      var p :| 0 <= p < |f| && f[p] == r[i];
    }
  }

  // ---------------------------------------------------------------------------------
  // The dtypes of the merge keys
  // ---------------------------------------------------------------------------------

  /** A table entering the merges, with the dtype of its date column: `datetime64` (true)
      for every table `filter_by_date` converted, that is every table that had a row, and
      object (false) for an empty table built from its column names alone, as the schema
      fallbacks of `get_data` are. */
  datatype KeyedTable = KeyedTable(rows: seq<Row>, datetimeKey: bool)

  /** What pandas raises when merge keys of different dtypes meet. */
  const KeyClash: Error := ValueError("You are trying to merge on datetime64[ns] and object columns")

  /** The dtype checks of the merges of `tables` in turn into a merged table that is empty
      or not and whose key has dtype `key`: pandas compares the two keys unless exactly one
      side is empty, the merged table is empty only when both sides are, and its key takes
      the dtype of a non-empty side. The result is the dtype of the last merged key. */
  function MergeKeys(leftEmpty: bool, key: bool, tables: seq<KeyedTable>): Result<bool>
    decreases |tables|
  {
    if |tables| == 0 then Ok(key)
    else
      var rightEmpty := |tables[0].rows| == 0;
      if leftEmpty == rightEmpty && key != tables[0].datetimeKey then Err(KeyClash)
      else MergeKeys(leftEmpty && rightEmpty, if leftEmpty then tables[0].datetimeKey else key, tables[1..])
  }

  /** The dtype checks of the whole chain, which starts from the first table. */
  function MergeChain(tables: seq<KeyedTable>): Result<bool> {
    if |tables| == 0 then Ok(true) else MergeKeys(|tables[0].rows| == 0, tables[0].datetimeKey, tables[1..])
  }

  function RowsOf(tables: seq<KeyedTable>): (r: seq<seq<Row>>)
    ensures |r| == |tables| && forall k :: 0 <= k < |tables| ==> r[k] == tables[k].rows
  {
    seq(|tables|, k requires 0 <= k < |tables| => tables[k].rows)
  }

  /** The `try` of the export: the merged, sorted and filled table, or the ValueError of a
      merge whose keys clash, which the `except` reports instead of offering the file. */
  function ExportChecked(tables: seq<KeyedTable>): Result<seq<ExportRow>> {
    var key :- MergeChain(tables);
    Ok(Export(RowsOf(tables)))
  }

  /** The tables `0` to `j` are all empty. */
  predicate EmptyThrough(tables: seq<KeyedTable>, j: nat)
    requires j < |tables|
  {
    forall k :: 0 <= k <= j ==> |tables[k].rows| == 0
  }

  /** Every table with a row has a `datetime64` key, as after `filter_by_date`. */
  predicate ConvertedWhenNonEmpty(tables: seq<KeyedTable>) {
    forall k :: 0 <= k < |tables| && |tables[k].rows| > 0 ==> tables[k].datetimeKey
  }

  /** Some table of the leading run of empty ones has a key dtype other than `key`. */
  predicate LeadingClash(tables: seq<KeyedTable>, key: bool) {
    exists j :: 0 <= j < |tables| && EmptyThrough(tables, j) && tables[j].datetimeKey != key
  }

  lemma EmptyThroughShift(tables: seq<KeyedTable>, j: nat)
    requires 0 < j < |tables|
    ensures EmptyThrough(tables, j) <==> |tables[0].rows| == 0 && EmptyThrough(tables[1..], j - 1)
  {
    var rest := tables[1..];
    if |tables[0].rows| == 0 && EmptyThrough(rest, j - 1) {
      forall k | 0 <= k <= j ensures |tables[k].rows| == 0 {
        if k > 0 {
          assert tables[k] == rest[k - 1];
        }
      }
    }
    if EmptyThrough(tables, j) {
      forall k | 0 <= k <= j - 1 ensures |rest[k].rows| == 0 {
        assert rest[k] == tables[k + 1];
      }
    }
  }

  lemma ConvertedTail(tables: seq<KeyedTable>)
    requires |tables| > 0 && ConvertedWhenNonEmpty(tables)
    ensures ConvertedWhenNonEmpty(tables[1..])
  {
    var rest := tables[1..];
    forall k | 0 <= k < |rest| && |rest[k].rows| > 0 ensures rest[k].datetimeKey {
      assert rest[k] == tables[k + 1];
    }
  }

  /** When every table with a row is converted, the merges fail exactly when the merged
      table is still empty and some table of the leading run of empty ones has a key dtype
      other than the merged key's; the failure is the ValueError of the clash. */
  lemma {:induction false} MergeKeysSpec(leftEmpty: bool, key: bool, tables: seq<KeyedTable>)
    requires ConvertedWhenNonEmpty(tables) && (!leftEmpty ==> key)
    ensures MergeKeys(leftEmpty, key, tables).Err? <==> leftEmpty && LeadingClash(tables, key)
    ensures MergeKeys(leftEmpty, key, tables).Err? ==> MergeKeys(leftEmpty, key, tables).error == KeyClash
    decreases |tables|
  {
    if |tables| > 0 {
      var t := tables[0];
      var rest := tables[1..];
      if leftEmpty && |t.rows| == 0 && key != t.datetimeKey {
        assert EmptyThrough(tables, 0);
      } else {
        ConvertedTail(tables);
        MergeKeysSpec(leftEmpty && |t.rows| == 0, if leftEmpty then t.datetimeKey else key, rest);
        if LeadingClash(tables, key) {
          var j :| 0 <= j < |tables| && EmptyThrough(tables, j) && tables[j].datetimeKey != key;
          assert |t.rows| == 0;
          if leftEmpty {
            assert j > 0;
            EmptyThroughShift(tables, j);
            assert rest[j - 1] == tables[j];
          }
        }
        if leftEmpty && |t.rows| == 0 && LeadingClash(rest, key) {
          var j :| 0 <= j < |rest| && EmptyThrough(rest, j) && rest[j].datetimeKey != key;
          EmptyThroughShift(tables, j + 1);
          assert tables[j + 1] == rest[j];
        }
      }
    }
  }

  /** The dtype checks of converted tables fail exactly when the first tables are empty
      and one of them has a key dtype other than the first's; the failure is the clash's
      ValueError. */
  lemma MergeChainSpec(tables: seq<KeyedTable>)
    requires ConvertedWhenNonEmpty(tables)
    ensures MergeChain(tables).Err? <==>
      exists j :: 0 < j < |tables| && EmptyThrough(tables, j) && tables[j].datetimeKey != tables[0].datetimeKey
    ensures MergeChain(tables).Err? ==> MergeChain(tables).error == KeyClash
  {
    if |tables| > 0 {
      var first := tables[0];
      var rest := tables[1..];
      ConvertedTail(tables);
      MergeKeysSpec(|first.rows| == 0, first.datetimeKey, rest);
      if LeadingClash(rest, first.datetimeKey) && |first.rows| == 0 {
        var j :| 0 <= j < |rest| && EmptyThrough(rest, j) && rest[j].datetimeKey != first.datetimeKey;
        EmptyThroughShift(tables, j + 1);
        assert tables[j + 1] == rest[j];
      }
      if exists j :: 0 < j < |tables| && EmptyThrough(tables, j) && tables[j].datetimeKey != first.datetimeKey {
        var j :| 0 < j < |tables| && EmptyThrough(tables, j) && tables[j].datetimeKey != first.datetimeKey;
        EmptyThroughShift(tables, j);
        assert rest[j - 1] == tables[j];
      }
    }
  }

  /** The export of converted tables fails exactly when the merge keys clash, as
      `MergeChainSpec` states, and then with the clash's ValueError. A successful export of
      tables with one row per day is the one `ExportSpec` describes: one row per day of any
      table, in strictly ascending order, each holding every table's value of the day, 0
      where it has none. */
  lemma ExportCheckedSpec(tables: seq<KeyedTable>)
    requires ConvertedWhenNonEmpty(tables)
    requires forall k :: 0 <= k < |tables| ==> UniqueDays(tables[k].rows)
    ensures ExportChecked(tables).Err? <==>
      exists j :: 0 < j < |tables| && EmptyThrough(tables, j) && tables[j].datetimeKey != tables[0].datetimeKey
    ensures ExportChecked(tables).Err? ==> ExportChecked(tables).error == KeyClash
    ensures ExportChecked(tables).Ok? ==>
      var r := ExportChecked(tables).value;
      && (forall i, j :: 0 <= i < j < |r| ==> r[i].0 < r[j].0)
      && (set i | 0 <= i < |r| :: r[i].0) == AllDates(RowsOf(tables))
      && forall i :: 0 <= i < |r| ==> |r[i].1| == |tables| && forall k :: 0 <= k < |tables| ==> r[i].1[k] == Weight(tables[k].rows, r[i].0)
  {
    MergeChainSpec(tables);
    var rows := RowsOf(tables);
    assert forall k :: 0 <= k < |rows| ==> UniqueDays(rows[k]);
    ExportSpec(rows);
  }

  /** Stars, forks, pull requests and downloads with rows but none in the selected range
      come out of `filter_by_date` empty and converted; issues without a cache are the
      object-keyed schema table. Whatever the commits, merging the issues raises. */
  lemma EmptyRangeClash(commits: KeyedTable)
    ensures var none := KeyedTable([], true);
      ExportChecked([none, none, none, none, KeyedTable([], false), commits]) == Err(KeyClash)
  {
    var none := KeyedTable([], true);
    var t4 := [KeyedTable([], false), commits];
    assert MergeKeys(true, true, t4) == Err(KeyClash);
    var t3 := [none] + t4;
    assert t3[1..] == t4;
    assert MergeKeys(true, true, t3) == Err(KeyClash);
    var t2 := [none] + t3;
    assert t2[1..] == t3;
    assert MergeKeys(true, true, t2) == Err(KeyClash);
    var t1 := [none] + t2;
    assert t1[1..] == t2;
    assert MergeKeys(true, true, t1) == Err(KeyClash);
    var tables := [none] + t1;
    assert tables[1..] == t1;
    assert tables == [none, none, none, none, KeyedTable([], false), commits];
    assert MergeChain(tables) == Err(KeyClash);
  }
}
