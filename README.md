# p16-dashboard: a verified model of the metrics pipeline

p16-dashboard is a Streamlit dashboard for the open-source metrics of one GitHub repository: stars, forks, pull requests, downloads, issues and contributions. The data comes from three places: the GitHub REST and GraphQL APIs, PyPI, and pypistats.org. Its data logic has these parts:

- **Fetchers** page through the GitHub endpoints, retrying on rate limits. They turn event timestamps into daily or cumulative series.
- **A loader** reads the CSV cache, per repository or generic. It coerces and sorts the dates.
- **A cache manager** decides between fetching and loading based on file age. It writes what it fetches, reports file status and clears files.
- **The dashboard's own logic** resolves each metric from the cache or the network. It falls back to PyPI figures for downloads, filters by a date range, sums totals and builds chart series. It also merges every table into a single export, or reports the error of a merge that fails.
- **Stand-alone scripts** fetch pull requests, repository info, PyPI release history and pypistats download counts.

This project models that logic in Dafny and proves what each piece promises. The network, the file system and the clock become values:

- an HTTP endpoint is a function from page number, cursor or payload to the response;
- the file system is a `Disk` object whose `files` map the methods update;
- the clock is a parameter in whole seconds.

Each source file has its own module. Four shared modules hold the common pieces:

- `Orders`: Python's string order and a stable sort;
- `Series`: group-by-sum, tally and running totals;
- `Dates`: ISO-8601 dates as day numbers;
- `Frames`: tables, CSV round trips and the disk.

Code that loops or mutates is modelled as methods with loop invariants. Each such method is proved equal to a specification function, and that function's properties are proved as lemmas. Code that only computes is modelled as functions and lemmas.

A few facts about the code shape the model:

- The manager handles four metrics (stars, forks, pull requests, downloads). Issues and contributions fail with a `KeyError` there.
- The fetcher object has no attribute for issues or contributions, so a direct fetch of either raises an `AttributeError`.
- The loader keeps a generic per-metric file as well as the per-repository one.
- There is no range-gap state, no merge of refetched data into old data, no fallback to stale data when a fetch fails, and no bound of three retries.

## Model

| member | source | states |
|---|---|---|
| App.DirectFetch | app.py:110-135 | A direct fetcher call answers for the four metrics the fetcher has; for issues and contributions it raises an AttributeError |
| App.ResolveAllKeys | app.py:47-85 | The `get_data` loop gives every metric walked an entry, whatever its resolution raised |
| App.AllMetricNames | app.py:47 | The six names walked are stars, forks, prs, downloads, issues, contributions |
| App.ForcedEntry | app.py:50-83 | On the forced path, issues and contributions get the empty table of their schema and no file changes. The four managed metrics are fetched and saved. A failed fetch gives the empty table and writes no file |
| App.CacheHit | app.py:98-100 | Off the forced path, a cached table that was read and is non-empty (read with the corrected `get_for`) is the entry unchanged, and nothing is fetched or written |
| App.HeaderlessCache | app.py:97-150 | Off the forced path, a cache file with no header line raises in `get_for` before anything is fetched: the entry is the metric's empty schema table, and no file changes. This covers the repository file, and the generic file when the repository file is not used |
| App.UnmanagedFromCacheOnly | app.py:96-150 | Off the forced path, issues and contributions come only from the cache (read with the corrected `get_for`): the cached table when it is non-empty, the empty table otherwise (a cache file that raises included), and no file changes |
| App.FetchersKeepSchema | app.py:110-135 | The fetchers of `GitHubFetcher` answer with tables of the metric's exact schema, so a dashboard built on them meets the assumption of the three lemmas below |
| App.EntryHasColumns | app.py:43-152 | When the fetchers answer with the metric's schema, every entry has the metric's columns, however it was resolved |
| App.CachedHasColumns | app.py:97-135 | A table produced by the cache-first attempt has the metric's columns |
| App.ForcedHasColumns | app.py:53 | The manager's forced answer, when it is a table, has the metric's columns |
| App.ResolveMetric | app.py:51-83 | One metric's `try` block with its `except`: the entry and the files after are those of the resolution function |
| App.ResolveMetrics | app.py:50-85 | The loop over the metrics leaves the result and the files of the resolution function |
| App.GetData | app.py:43-152 | `get_data` gives exactly the six metric names as keys, with the entries and files of the resolution function |
| App.Dated | app.py:178-179 | The rows kept are exactly the rows whose date parses, with their multiplicity |
| App.InRange | app.py:186-187 | The rows kept are exactly the rows with a parsed date between start and end, both included, with their multiplicity |
| App.FilterByDate | app.py:173-187 | An empty table comes back as it is. A non-empty table without a date column raises a KeyError. Otherwise the columns are kept, along with exactly the rows dated within the range. Rows whose dates ascend still ascend |
| App.EnsureDatetime | app.py:327-334 | A non-empty table with a date column loses exactly its undated rows; any other table comes back unchanged. Rows whose dates ascend still ascend |
| App.DatedOfDated | app.py:178-179 | Rows whose dates all parse come back unchanged |
| App.InRangeOfInRange | app.py:186-187 | Rows that all lie in the range come back unchanged |
| App.DatedAscending | app.py:179 | Dropping the undated rows keeps the others in their order: dated rows that ascend still ascend |
| App.InRangeAscending | app.py:186-187 | Keeping the rows within the range keeps their order: dated rows that ascend still ascend |
| App.EnsureAfterFilter | app.py:173-187 | After `filter_by_date`, `ensure_datetime` changes nothing |
| App.FilterIdempotent | app.py:173-187 | Filtering twice by the same range is filtering once |
| App.SummarizeTotal | app.py:165-168 | 0 for an empty table, else the sum of the value column |
| App.RawTotalToRaw | app.py:168 | A table written out as raw rows keeps its total |
| App.DailyTotalInRange | app.py:165-187 | The daily pull request series, filtered to a range holding all its events, keeps every row, and its total is the number of dated pull requests |
| App.ToPlotlyXY | app.py:157-160 | Empty lists for an empty table. A missing column raises. Otherwise the two lists have equal length and are the table's rows taken apart |
| App.LibraryRows | app.py:221-223 | The dated PyPI rows of the library, with their multiplicity |
| App.DownloadsFallbackSpec | app.py:215-224 | A non-empty downloads table, or a missing or incomplete PyPI file, leaves the downloads as they are. Otherwise the table is exactly the repository's dated PyPI rows, sorted by date, under `date`/`downloads` |
| App.Missing | app.py:346-350 | The cells of a row the merge found nowhere: one empty (NaN) cell per table, `n` in all |
| App.MatchesUnique | app.py:346-350 | Against a table with one row per day, a day matches its value or nothing |
| App.JoinRowUnique | app.py:346-350 | Against a table with one row per day, a left row gains exactly its day's cell |
| App.JoinLeftUnique | app.py:346-350 | Every left row of an outer merge gets exactly one cell more |
| App.RightOnlyDates | app.py:346-350 | The rows the outer merge adds are for the right days the left side lacks |
| App.RightOnlyUnique | app.py:346-350 | Each right day missing on the left is added once, with empty left cells and its right value |
| App.StepDates | app.py:346-350 | The days of an outer merge are the days of both sides |
| App.StepDistinct | app.py:346-350 | Merging against a table with one row per day keeps the days distinct |
| App.JoinAllUnique | app.py:346-350 | When the merges succeed (see App.MergeChainSpec), the chain of outer merges over tables with one row per day has one row per day of any table, each holding every table's cell of the day |
| App.FilledJoin | app.py:346-353 | When the merges succeed, after `fillna(0)` each merged row holds every table's value of its day, 0 where it has none |
| App.ExportSpec | app.py:346-353 | The export that succeeding merges give, for tables with one row per day, has one row per day of any table, in strictly ascending order, each holding every table's value of the day or 0 |
| App.MergeKeysSpec | app.py:346-350 | When every table with a row has a converted date key, a run of merges fails exactly when the merged table is still empty and a table in the leading run of empty ones has a key dtype other than the merged key's. The failure is the ValueError of the clash |
| App.MergeChainSpec | app.py:346-350 | For converted tables, the chain of merges fails exactly when the first tables are empty and one of them has a key dtype other than the first table's, with the clash's ValueError |
| App.ExportCheckedSpec | app.py:344-364 | The export of converted tables is the clash's ValueError, which the `except` reports, exactly when the merge keys clash. Otherwise it is the sorted, filled export with one ascending row per day of any table and every table's value of the day or 0 |
| App.EmptyRangeClash | app.py:344-364 | Four tables with no row in the range (empty, converted), then the object-keyed issues fallback: whatever the commits, the export raises |
| DataLoader.BaseName | loaders/data_loader.py:13-25 | The file name of each of the six types; a ValueError exactly for an unknown type |
| DataLoader.PathFor | loaders/data_loader.py:27-32 | The path is defined exactly for known types, prefixed by `owner_repo_` only when both are non-empty |
| DataLoader.PathForSpec | loaders/data_loader.py:27-32 | Without a repository the path is the generic one; with one it names a different file |
| DataLoader.GetSpec | loaders/data_loader.py:34-63 | A ValueError exactly for unknown types and for a stored file with no header line, on which `read_csv` raises. A missing file gives the exact empty schema. A file lacking a column gives an empty table over the expected columns. Otherwise the file's columns, with exactly its dated rows, sorted by date |
| DataLoader.CleanSorted | loaders/data_loader.py:61-62 | Cleaning keeps the columns and sorts the rows by date |
| DataLoader.GetForSpec | loaders/data_loader.py:65-110 | `get_for` raises a ValueError exactly when the repository file has no header line, or when that file is not used and the generic file has none. Otherwise the result has the metric's columns and date-sorted rows. It is the repository file when that is usable, else the generic file when it has the columns, else the exact empty schema |
| DataLoader.SingleRowRepoFileSkipped | loaders/data_loader.py:70 | A usable single-row repository file is passed over as written and taken with the intended check |
| DataLoader.GetForAgreement | loaders/data_loader.py:65-92 | `get_for` as written and with the intended check give the same answer on every store except one whose repository file is usable and holds exactly one row |
| DataManager.CacheFile | data_manager.py:34-39 | The manager's file exists exactly for the four managed types, and it is the generic file the loader reads |
| DataManager.CacheFileOf | data_manager.py:34-39 | Looking a type up in `type_to_file` finds its cache file |
| DataManager.IsStale | data_manager.py:41-46 | A missing file is stale; an existing one when its age in hours strictly exceeds the threshold |
| DataManager.KeepColumns | data_manager.py:68 | The columns kept are exactly the expected ones the table has |
| DataManager.Project | data_manager.py:68 | Projection keeps the rows and exactly the expected columns present |
| DataManager.FetchAndSaveSpec | data_manager.py:48-70 | A ValueError for types outside the four, and a fetch exception passes through; neither writes a file. Otherwise the projected table is both returned and written to the metric's file, stamped with the current time, and no other file changes |
| DataManager.SavedTableLoadsBack | data_manager.py:48-79 | A fetched table with the schema's columns and sorted rows loads back from the cache unchanged |
| DataManager.SaveWrites | data_manager.py:68-70 | Saving a table that has the schema's columns writes that same table |
| DataManager.LoadWritten | data_manager.py:69-73 | The loader reads back a written sorted table with the schema's columns |
| DataManager.KeepSchema | data_manager.py:68 | Projecting a table with exactly the schema's columns keeps them all |
| DataManager.GetDataSpec | data_manager.py:75-79 | A KeyError for any type but the four. For those, it fetches and saves exactly when forced or stale, and otherwise returns the loader's table and changes no file |
| DataManager.GetAllKeys | data_manager.py:81-85 | A successful `get_all_cached_data` has exactly one table per entry |
| DataManager.CacheFileNames | data_manager.py:34-39 | The names in `type_to_file` are the four managed ones |
| DataManager.FileInfo | data_manager.py:87-99 | The status of a file: whether it exists, its age in hours when it does, and staleness as `_is_data_stale` decides it |
| DataManager.DataManager.constructor | data_manager.py:26-39 | The manager keeps its directory and threshold, and builds `type_to_file` from the directory |
| DataManager.DataManager.FetchAndSaveData | data_manager.py:48-70 | The result and the files after are those of the fetch-and-save function |
| DataManager.DataManager.GetData | data_manager.py:75-79 | The result, the files after and whether it fetched are those of the `get_data` function |
| DataManager.DataManager.GetAllCachedData | data_manager.py:81-85 | The four tables or the first exception, with the files as the calls left them; a success has exactly the four names |
| DataManager.DataManager.GetDataStatus | data_manager.py:87-99 | One entry per managed metric, each the status of its file |
| DataManager.DataManager.ClearCache | data_manager.py:101-109 | Removes the file of the given type, or all four; an unknown type removes nothing, and no other file changes |
| Dates.Number | fetchers/github_fetcher.py:52 | A digit run is read exactly when every character is a digit, and stays below the power of ten |
| Dates.ParseDay | app.py:178 | A text is a day exactly when it is a real "YYYY-MM-DD" calendar date |
| Dates.DigitRun | fetchers/github_fetcher.py:40 | The length of the leading run of digits |
| Dates.ParseZone | fetchers/github_fetcher.py:52 | A UTC offset is less than a day, and "" and "Z" are UTC |
| Dates.ParseTimestamp | fetchers/github_fetcher.py:52 | A text parses exactly when it is a valid "YYYY-MM-DD" day, alone or followed by 'T' or a space and a valid clock and zone. A bare day is that day; otherwise the result is the UTC day holding the instant the clock and offset name |
| Dates.Prefix10 | github_graphql.py:47 | Python's `s[:10]` |
| Dates.UtcTimestampDay | github_graphql.py:47 | A UTC timestamp falls on the day its first ten characters name |
| FetchGitHubData.FirstSeen | fetch_github_data.py:25 | The dictionary's keys are exactly the days counted |
| FetchGitHubData.FirstSeenDistinct | fetch_github_data.py:25 | No key is listed twice |
| FetchGitHubData.CountsOf | fetch_github_data.py:25 | The dictionary has an entry exactly for the days counted |
| FetchGitHubData.CountsOfSpec | fetch_github_data.py:25 | Each day's entry is the number of times it occurs |
| FetchGitHubData.CountsOfSnoc | fetch_github_data.py:25 | Counting one more day bumps its entry and appends it to the key order if it is new |
| FetchGitHubData.Items | fetch_github_data.py:28 | `list(pr_counts.items())` in key order |
| FetchGitHubData.TotalCounts | fetch_github_data.py:23-28 | The counts add up to the number of pull requests counted |
| FetchGitHubData.ParseRows | fetch_github_data.py:29 | The conversion succeeds exactly when every key is a day text, and dates each row |
| FetchGitHubData.PrFrameOk | fetch_github_data.py:28-30 | The table exists exactly when every day is a date |
| FetchGitHubData.DayRowsSpec | fetch_github_data.py:28-29 | Row `j` before sorting is the `j`-th distinct day with its count |
| FetchGitHubData.PrFrameSpec | fetch_github_data.py:28-31 | The table raises exactly when some day is not a date. Otherwise it is sorted by date, with one row per distinct day (its count of pull requests), every day present, and counts adding up to the number of pull requests |
| FetchGitHubData.CountDay | fetch_github_data.py:25 | Bumping one day's count leaves the dictionary and key order of the days counted with it |
| FetchGitHubData.CountPage | fetch_github_data.py:23-25 | The inner loop leaves the dictionary and key order of the days read, or the first bad pull request's error |
| FetchGitHubData.DateRows | fetch_github_data.py:29 | The loop's rows are those of the conversion function |
| FetchGitHubData.FetchPullRequests | fetch_github_data.py:11-31 | The result is that of the page walk's outcome: None on a refused page, the dated and sorted counts after an empty one |
| FetchGitHubData.FetchPypiDownloadsSpec | fetch_github_data.py:33-48 | A refused answer is None. An object body is None exactly when its records build an empty table. A list that is not of objects raises a KeyError for `date`. A view has one row per record (its converted date and downloads) in some order, sorted by date with NaT last |
| FetchPypiDownloads.FetchPypiDownloadsSpec | fetch_pypi_downloads.py:5-22 | None exactly on a refused answer or a missing, empty or non-list `data`. A list of records gives a view exactly when `date` and `downloads` exist and every date converts: one row per entry, sorted with NaT last |
| Frames.JoinPath | loaders/data_loader.py:31-32 | `os.path.join`: an absolute name replaces the directory; otherwise a single slash joins them, and none is added after an empty directory or one ending in a slash |
| Frames.ReadDated | github_api.py:16 | `read_csv` with `parse_dates=["date"]` gives the stored table exactly when its header has a `date` column, and a ValueError otherwise |
| Frames.Parsed | loaders/data_loader.py:62 | Dropping undated rows never adds a row |
| Frames.ParsedCount | loaders/data_loader.py:61-62 | Each dated row is kept as often as it occurs; undated rows are dropped |
| Frames.ParsedAppend | loaders/data_loader.py:62 | Dropping undated rows keeps the order of the rest |
| Frames.ToRaw | data_manager.py:69 | Writing a table keeps its columns and every row, dated |
| Frames.ParsedToRaw | data_manager.py:69-73 | Reading back what was written loses no row |
| Frames.DateLeIsTotalPreorder | loaders/data_loader.py:62 | The date order is a total preorder, so the sort is well defined |
| Frames.CleanSpec | loaders/data_loader.py:61-62 | Cleaning keeps the columns, keeps exactly the dated rows with their multiplicity, and sorts by date |
| Frames.CleanToRaw | loaders/data_loader.py:61-62 | A date-sorted table survives being written and cleaned unchanged |
| Frames.Disk.Write | data_manager.py:69 | `to_csv` overwrites or creates the one file |
| Frames.Disk.Remove | data_manager.py:104-105 | `os.remove` takes out the one file |
| GitHubApi.KeepLast | github_api.py:48 | Deduplication never adds a row |
| GitHubApi.KeepLastSpec | github_api.py:48 | Deduplication keeps every day, once |
| GitHubApi.KeepLastAppend | github_api.py:44-48 | Appending a snapshot and deduplicating drops the old rows of its day and ends with the new one |
| GitHubApi.KeepLastOfOnePerDay | github_api.py:48 | Rows that already have one per day are unchanged |
| GitHubApi.KeepLastIdempotent | github_api.py:48 | Deduplicating twice is deduplicating once |
| GitHubApi.SaveSpec | github_api.py:38-50 | A save leaves one row per day, the new snapshot last and replacing its day's stored row, and the other days' rows in order |
| GitHubApi.SavedRowsAsWritten | github_api.py:40-48 | The rows a save leaves as written end with the new snapshot |
| GitHubApi.SavedRowsAsWrittenSpec | github_api.py:40-48 | As written, a save keeps every day and leaves one row per day exactly when the new snapshot's day was not stored yet |
| GitHubApi.SameDaySaveKeepsBoth | github_api.py:40-48 | A second save on a stored day leaves two rows for it as written, one more than the intended deduplication, which leaves one row per day |
| GitHubApi.SnapshotDisk.LoadDailyMetrics | github_api.py:53-57 | The stored snapshots, or none when the file is absent; a file without a `date` column raises a ValueError |
| GitHubApi.SnapshotDisk.SaveDailyMetrics | github_api.py:38-50 | A stored file without a `date` column raises and nothing is written. Otherwise the file afterwards holds the stored snapshots plus the new one, deduplicated on the day keeping the last, under the stored columns and the snapshot's |
| GitHubApi.LoadHistoricData | github_api.py:12-19 | A ValueError exactly when a present file has no `date` column. Otherwise the stored stars and forks tables, each the empty table when its file is absent |
| GitHubFetcher.Backoff | fetchers/github_fetcher.py:33-45 | The fallback sleep stays between 2 and 60 seconds |
| GitHubFetcher.BackoffStep | fetchers/github_fetcher.py:45 | Each next fallback sleep is the current one doubled, capped at 60 |
| GitHubFetcher.ResetHeader | fetchers/github_fetcher.py:38-40 | A reset time is read exactly when the reset header is present, non-empty and all decimal digits, and it is below the power of ten of its length |
| GitHubFetcher.ResetWait | fetchers/github_fetcher.py:41-42 | The wait is one second past the reset, between 1 and 60 seconds |
| GitHubFetcher.FirstSettled | fetchers/github_fetcher.py:34-47 | The first attempt that is not a 403, with every earlier one a 403 |
| GitHubFetcher.BaseFetcher.Request | fetchers/github_fetcher.py:28-47 | `_request` returns the first non-403 response. It sleeps once per 403 before it, each sleep the reset wait or the backoff and between 1 and 60 seconds |
| GitHubFetcher.ToDate | fetchers/github_fetcher.py:50-54 | A text is parsed as an ISO timestamp. An integer, read as nanoseconds since the epoch, gives the day holding that instant. A value that is neither text nor integer gives None |
| GitHubFetcher.EventDate | fetchers/github_fetcher.py:78-79 | An absent or falsy field gives None; otherwise the field's parsed date |
| GitHubFetcher.ItemDates | fetchers/github_fetcher.py:77-81 | A page never yields more dates than items |
| GitHubFetcher.ItemDatesAppend | fetchers/github_fetcher.py:77-81 | The dates of two batches are the dates of each, in order |
| GitHubFetcher.ItemDatesMembers | fetchers/github_fetcher.py:77-81 | A date is collected exactly when some item carries it |
| GitHubFetcher.PagesRead | fetchers/github_fetcher.py:69-83 | The loop requests pages in turn, at most up to the limit, and stops at the first failed, empty or short page |
| GitHubFetcher.CrawlOnlyReadsRequested | fetchers/github_fetcher.py:69-83 | Answers to pages after the one that ends the loop do not matter |
| GitHubFetcher.PageDates | fetchers/github_fetcher.py:77-81 | The inner loop collects the page's dates |
| GitHubFetcher.BaseFetcher.CollectDates | fetchers/github_fetcher.py:68-83 | The page loop collects the dates of the pages it reads, and requests no more than `max_pages` pages |
| GitHubFetcher.CumulativeFrameSpec | fetchers/github_fetcher.py:85-91 | The stars and forks series have the schema and one row per event day, ascending. Each value counts the events up to its day, never decreases and ends at the number of events |
| GitHubFetcher.DailyFrameSpec | fetchers/github_fetcher.py:153-159 | The pull request series has one row per event day, ascending, each with its day's count, and the counts add up to the events |
| GitHubFetcher.DownloadCount | fetchers/github_fetcher.py:182 | A missing count is 0; a non-negative integer count is itself |
| GitHubFetcher.AssetRows | fetchers/github_fetcher.py:179-183 | One row per asset, in order |
| GitHubFetcher.ReleaseRowsAppend | fetchers/github_fetcher.py:178-183 | The rows of two release batches are each batch's rows, in order |
| GitHubFetcher.DownloadsFrameSpec | fetchers/github_fetcher.py:171-192 | Nothing without a 200. Otherwise one row per day of a dated asset, ascending, holding the summed counts up to that day; the values never decrease and end at the total |
| GitHubFetcher.FetchStars | fetchers/github_fetcher.py:63-91 | The stars fetcher returns the cumulative series of the stargazer dates it reads |
| GitHubFetcher.FetchForks | fetchers/github_fetcher.py:100-125 | The forks fetcher returns the cumulative series of the fork dates it reads |
| GitHubFetcher.FetchPrs | fetchers/github_fetcher.py:134-159 | The pull request fetcher returns the daily counts of the creation dates it reads |
| GitHubFetcher.FetchDownloads | fetchers/github_fetcher.py:171-192 | The downloads fetcher returns the series of the releases response |
| GitHubFetcher.BaseFetcher.constructor | fetchers/github_fetcher.py:17-26 | A fetcher keeps the page size and page limit it is given |
| GitHubFetcher.GitHubFetcher.constructor | fetchers/github_fetcher.py:198-202 | The four fetchers are built with the defaults, 100 per page and 1000 pages |
| GitHubFetcher.GitHubFetcher.FetchAll | fetchers/github_fetcher.py:204-210 | The four series under their names, and nothing else |
| GitHubGraphql.Payload | github_graphql.py:16-18 | The body holds the query, and the variables exactly when they are truthy |
| GitHubGraphql.RunQuery | github_graphql.py:15-22 | Raises exactly on a status other than 200; otherwise the decoded body |
| GitHubGraphql.Variables | github_graphql.py:43 | The variables always include the owner, so they are sent |
| GitHubGraphql.EdgeDay | github_graphql.py:47 | An edge gives the first ten characters of its text timestamp, and raises otherwise |
| GitHubGraphql.ListDays | github_graphql.py:46-47 | One day per edge, in order, or an error when an edge is bad |
| GitHubGraphql.EdgeDays | github_graphql.py:45-47 | A list gives its edges' days; an empty object or empty text gives none; anything else raises |
| GitHubGraphql.PageOfSpec | github_graphql.py:45-51 | A page read holds its edges' days, and the walk goes on exactly when `hasNextPage` is truthy, taking the cursor from `endCursor` |
| GitHubGraphql.Step | github_graphql.py:43-51 | A successful iteration answered 200 and its page is read from that body |
| GitHubGraphql.StepOf | github_graphql.py:42-51 | The loop body as a function of its cursor |
| GitHubGraphql.Sweep | github_graphql.py:42-51 | The walk finishes only with some request made |
| GitHubGraphql.SweepFuel | github_graphql.py:42-51 | The outcome of a finished walk does not depend on the bound used to show it finishes |
| GitHubGraphql.Walk | github_graphql.py:42-51 | The walk's outcome agrees with every bound that shows it finishes |
| GitHubGraphql.Cursors | github_graphql.py:41-51 | The first request carries the starting cursor |
| GitHubGraphql.CursorChain | github_graphql.py:41-51 | Each next request uses the cursor the page before named. The last request raised or had no next page, and the walk fails exactly when it raised |
| GitHubGraphql.Aggregate | github_graphql.py:52-56 | The table has the columns `date` and the metric's name |
| GitHubGraphql.AggregateSpec | github_graphql.py:52-56 | One row per distinct day, strictly ascending as text, each the count of events up to its day; never decreasing and ending at the number of events |
| GitHubGraphql.AppendDays | github_graphql.py:46-47 | The inner loop appends each edge's day, or raises at the first bad one |
| GitHubGraphql.ReadPage | github_graphql.py:43-51 | One pass of the loop body matches one iteration of the walk |
| GitHubGraphql.SweepStep | github_graphql.py:42-51 | One turn of the walk as the loop sees it |
| GitHubGraphql.FetchConnection | github_graphql.py:24-94 | `fetch_stargazers`/`fetch_forks` raise exactly when the walk does; otherwise the table of the walk's days. The cursors sent are the walk's cursors |
| GitHubGraphql.LoadCsv | github_graphql.py:101-105 | None exactly when the file is absent; a ValueError exactly when it has no `date` column; otherwise the stored table |
| Json.GetOr | fetchers/github_fetcher.py:78 | `dict.get` with a default |
| Json.Field | github_graphql.py:45 | Subscripting succeeds exactly on an object with the key |
| Metrics.Schema | loaders/data_loader.py:38-45 | Each metric's schema is `date` and its value column |
| Metrics.Expected | loaders/data_loader.py:50-57 | The expected columns are the schema's columns as a set |
| Metrics.Parse | loaders/data_loader.py:14-22 | A name parses exactly to the metric it names |
| Metrics.NamesDistinct | loaders/data_loader.py:14-21 | Names round-trip, and different metrics have different names, value columns and files |
| Orders.IntLessIsStrictTotal | fetchers/github_fetcher.py:89 | The date order is a strict total order |
| Orders.TextLessIsStrictTotal | github_graphql.py:54 | Python's string order is a strict total order |
| Orders.Insert | loaders/data_loader.py:62 | Insertion adds exactly one element |
| Orders.InsertSorted | loaders/data_loader.py:62 | Insertion into a sorted list keeps it sorted |
| Orders.SortBy | loaders/data_loader.py:62 | Sorting is a permutation |
| Orders.SortByMembers | loaders/data_loader.py:62 | Sorting keeps exactly the elements given |
| Orders.SortBySorted | loaders/data_loader.py:62 | The result is sorted under a total preorder |
| Orders.SortByOfSorted | loaders/data_loader.py:62 | Sorting what is already sorted changes nothing |
| PullRequestPages.PrDay | scripts/fetch_github_data.py:40 | A pull request gives the first ten characters of its text `created_at`, and raises otherwise |
| PullRequestPages.ListDaysSpec | scripts/fetch_github_data.py:38-40 | Every pull request's day in order, or the error of the first bad one |
| PullRequestPages.PageDays | scripts/fetch_github_data.py:38 | A list gives its pull requests' days; any other body raises a TypeError |
| PullRequestPages.Walk | scripts/fetch_github_data.py:23-42 | The walk finishes only with some request made |
| PullRequestPages.WalkFuel | scripts/fetch_github_data.py:23-42 | The outcome does not depend on the bound used to show it finishes |
| PullRequestPages.Pulled | scripts/fetch_github_data.py:23-42 | The walk's outcome agrees with every bound that shows it finishes |
| PullRequestPages.WalkEndsAt | scripts/fetch_github_data.py:23-42 | The walk stops at the first refused or empty page. A refusal discards what was collected; an empty page ends with the days of the pages before it |
| PullRequestPages.PulledEndsAt | fetch_github_data.py:13-26 | The same for the walk from page 1 |
| PullRequestPages.WalkStep | scripts/fetch_github_data.py:23-42 | One turn of the walk as the loops see it |
| PypiApi.FirstUpload | pypi_api.py:13-14 | A non-empty file list whose first file is an object gives that file's `upload_time` (null when absent); other truthy values raise |
| PypiApi.CollectSnoc | pypi_api.py:11-15 | One more version extends the list by its entry |
| PypiApi.CollectErrSticks | pypi_api.py:11-15 | An error on a prefix of the versions is the loop's error |
| PypiApi.CollectSpec | pypi_api.py:11-15 | Exactly one entry per version with a non-empty file list, with that list's first upload time, and no version twice |
| PypiApi.ReleaseLeIsTotalPreorder | pypi_api.py:17 | The descending upload-time order is a total preorder |
| PypiApi.GetPypiReleaseInfo | pypi_api.py:3-18 | The loop and the sort give the release-info function's result |
| PypiApi.ReleaseInfoSpec | pypi_api.py:3-18 | Refused is []; a bad body or `releases` raises. Otherwise an entry for exactly the versions with files, a permutation of the collected list, newest first, with missing upload times last |
| PypiApi.PypiDownloadsSpec | pypi_api.py:20-36 | Refused is []. An object `data` gives exactly three rows, Last day, Last week and Last month, each its aggregate or 0. A non-object body or `data` raises an AttributeError |
| PypiRecords.KeysOfSpec | fetch_github_data.py:42 | Every key of any record is a column |
| PypiRecords.Build | fetch_github_data.py:42 | A list becomes a table: records for a list of objects, positional columns otherwise. An object of scalars and other scalars raise |
| PypiRecords.DateCell | fetch_github_data.py:46 | A missing, null or empty date is NaT, a bare "YYYY-MM-DD" text is its day, and anything else raises a ValueError |
| PypiRecords.ParsedDates | fetch_github_data.py:46 | The column converts exactly when every cell does, cell by cell |
| PypiRecords.NaTLastIsTotalPreorder | fetch_github_data.py:47 | Date order with NaT last is a total preorder |
| PypiRecords.DownloadsViewSpec | fetch_github_data.py:46-47 | The view exists exactly with `date` and `downloads` columns and convertible dates; a missing `date` raises first. It is a date-sorted permutation of one row per record |
| PypiRecords.ListViewSpec | fetch_pypi_downloads.py:19-21 | The same stated in terms of a list of records |
| PypiRecords.NaTAfterDays | fetch_github_data.py:47 | In the sorted view NaT rows come after every dated row |
| PypiRecords.Dated | scripts/fetch_pypi_downloads.py:31-32 | The table converts exactly with a `date` column of convertible cells; then one row per record, in order, with its date and other cells |
| ScriptsFetchGitHubData.ScriptsPrResultSpec | scripts/fetch_github_data.py:26-51 | A refusal is None, and so is a walk without pull requests; a raised error passes through. Otherwise one row per day text, strictly ascending, each its count, and counts adding up to the pull requests read |
| ScriptsFetchGitHubData.AppendPage | scripts/fetch_github_data.py:38-40 | The inner loop appends each pull request's day, or raises |
| ScriptsFetchGitHubData.FetchPullRequests | scripts/fetch_github_data.py:17-51 | The result is that of the walk's outcome, with 401 and other refusals both None |
| ScriptsFetchGitHubData.FetchRepoInfo | scripts/fetch_github_data.py:53-64 | The decoded body exactly on status 200; None on 401 or any other status |
| ScriptsFetchPypiDownloads.Member | scripts/fetch_pypi_downloads.py:14 | Python's `in`: object keys, list elements; raises on a non-container |
| ScriptsFetchPypiDownloads.HasAggregatesSpec | scripts/fetch_pypi_downloads.py:14 | Raises exactly on a non-container; on an object, true exactly with all three keys |
| ScriptsFetchPypiDownloads.FetchPypiDownloadsSpec | scripts/fetch_pypi_downloads.py:4-33 | Refused is None. All three aggregates give exactly the three period rows. Otherwise a falsy `downloads` is None, and a list of dated records gives one row per record, in order |
| Series.AddEvent | fetchers/github_fetcher.py:89 | Adding an event adds its weight to its key and to every running total at or after it |
| Series.AddEventAscending | fetchers/github_fetcher.py:89 | Adding an event keeps the keys ascending |
| Series.WeightAtKey | fetchers/github_fetcher.py:89 | In an ascending table a key's weight is its row's value |
| Series.GroupSum | fetchers/github_fetcher.py:190 | The group-by-sum keeps the keys, the total and each key's weight |
| Series.GroupSumSpec | fetchers/github_fetcher.py:190 | Keys ascend, and each key has exactly its row, holding its total weight |
| Series.OnesFacts | fetchers/github_fetcher.py:88 | One event per date: keys, total and counts of the dates |
| Series.TallySpec | fetchers/github_fetcher.py:157 | One row per distinct key, ascending, each its count; the counts add up |
| Series.Accumulate | fetchers/github_fetcher.py:90 | The running sum keeps the keys |
| Series.AccumulateValues | fetchers/github_fetcher.py:90 | Row `i` holds the sum of the first `i + 1` values; never decreasing |
| Series.RunningTotalsSpec | fetchers/github_fetcher.py:90 | `cumsum` keeps the keys, never decreases and ends at the total |
| Series.PrefixIsWeightUpTo | fetchers/github_fetcher.py:89-90 | In an ascending table, a prefix's sum is the weight up to its last key |
| Series.CumulativeSpec | fetchers/github_fetcher.py:190-191 | One row per key, ascending, each the weight up to its key; never decreasing, ending at the total |
| Series.AscendingUnique | fetchers/github_fetcher.py:89 | An ascending table is determined by its keys and weights |
| Series.CountUpTo | github_graphql.py:54-55 | The count up to a key never exceeds the events |
| Series.CumulativeCountSpec | github_graphql.py:52-55 | The cumulative count of events: one row per key, ascending, each the events up to its key, ending at the number of events |
| Series.TotalPermutation | fetch_github_data.py:30 | Reordering rows keeps the sum |

## Left out

- Network, sleeping and the clock: responses are parameters, and sleeps are recorded, not taken. The clock is an integer number of seconds, and file ages are reals computed from integer seconds.
- Printing, the Streamlit page layout, the charts and widgets, `save_csv`, and the `__main__` blocks: these are presentation and entry points, not data logic.
- `fetch_daily_metrics` in github_api.py: it calls PyGithub, whose code is not part of this model. The snapshot it returns is a parameter of the save.
- The `hasattr(dm, "get_data")` else branch of app.py:55-68: `DataManager` always has `get_data`, so that branch cannot run.
- Infinite `while True` loops (`_request`, the GraphQL cursor walk, the pull request page walks): they are modelled under a precondition that the endpoint eventually ends them, which is the loops' own exit condition.
- Dictionary key order and pandas column order: JSON objects and column sets are maps and sets. Where iteration order matters (`releases.items()`, `pr_counts.items()`), the order is an explicit sequence parameter or is derived from insertion order.
- Dates: the calendar day is an integer, and a time of day is never kept. For event timestamps (`_to_date` in the GitHub fetchers), text parsing covers "YYYY-MM-DD" with an optional ISO clock and zone, and integers are read as nanoseconds since the epoch; `pd.to_datetime` accepts more formats than that. pandas represents only instants between the years 1677 and 2262 and raises `OutOfBoundsDatetime` outside them; no conversion in the model has that bound, so FetchGitHubData.ParseRows and PypiRecords.DateCell accept day texts of any year where pandas raises.
- PypiRecords.DateCell: a date cell of a pypistats record converts only when it is `null`, empty or a bare "YYYY-MM-DD" text. A text with a clock, or a number, raises a ValueError in the model, where `pd.to_datetime` reads it as a timestamp with its time of day, which a day number cannot hold. The pypistats API sends bare days.
- GitHubFetcher.ToDate: pandas represents only instants between the years 1677 and 2262 and raises outside them, which `_to_date` turns into None; the model has no such bound and gives a day. A non-empty JSON list is None in the model, where `pd.to_datetime` makes it a `DatetimeIndex`, which `_to_date` returns.
- GitHubFetcher.ResetHeader: the header is read when it is all ASCII digits. Python's `str.isdigit` also accepts other Unicode digits: `int` reads Arabic-Indic digit strings and raises a ValueError on superscript digits. The model falls back to the doubling sleep in both cases.
- Date cells of stored CSV files are modelled as already coerced (a date or NaT), and values as natural numbers.
- GitHubFetcher.DownloadCount: counts are natural numbers, and on unusual inputs the model differs from Python's `int(asset.get("download_count", 0) or 0)`. A negative integer count is 0 in the model, where Python keeps it. A text that is not a plain run of digits is 0, where Python raises a ValueError (for "abc") or reads signs and spaces (for "-5" or " 7 "). A non-empty list or object is 0, where Python raises a TypeError and the fetch fails. A float count is not modelled. The GitHub API sends non-negative integers.
- NaN cells of pypistats records are kept as JSON `null` rather than a float NaN.
- PypiRecords.Build: column-oriented objects (an object of lists) are modelled as a ValueError. A list of empty lists is modelled as a non-empty positional table. Mixed lists of objects and other values all become positional tables.
- PypiApi.ReleaseInfoSpec: sort stability is not stated. Non-text upload times that Python could compare with each other are modelled as a TypeError.
- Orders.SortBy: pandas' `sort_values` is not stable by default; the model uses one stable sort, so the order of ties may differ.
- RunQuery's exception is modelled as a ValueError carrying no status or body text.
- Dates.ParseDay: injectivity is not proved.
- GitHubApi.SnapshotDisk.SaveDailyMetrics: writes the intended deduplication, one row per day. As written, a second save on the same day keeps two rows for it; see "## Findings".
- App.CacheHit: reads the cache with the corrected `get_for` (`DataLoader.GetFor`), where app.py:98 runs it as written. A usable repository file with a single row counts as a hit in the model, while the dashboard passes over it and fetches. `DataLoader.GetForAgreement` proves that this is the only store on which the two differ.
- App.UnmanagedFromCacheOnly: reads the cache with the corrected `get_for`, so a single-row repository file for issues or contributions is the entry in the model, where the dashboard shows the generic file or the empty table.
- App.CachedHasColumns: states the cache-first attempt with the corrected `get_for`; the columns hold for both versions, since either returns a table with the expected columns.
- App.ResolveMetric: its cache read is the corrected `get_for`, with the single-row difference above.
- App.ResolveMetrics: equals the resolution walk built on the corrected `get_for`, with the single-row difference above.
- App.GetData: its entries and files follow the corrected `get_for`, with the single-row difference above.
- GitHubFetcher.BaseFetcher.CollectDates: pages are typed as lists of items, so a 200 answer whose body is not a list, which makes Python's loop raise, is not modelled.
- GitHubFetcher.FetchDownloads: releases are typed as lists of asset lists, so the TypeError of a release whose `assets` is `null` is not modelled.
- App.MergeKeys: the dtype of a merged key is taken from a non-empty side, and from either side when both are empty and agree. It follows pandas' merge-key coercion as its code reads: the dtype check is skipped only when exactly one side is empty. The dtype of each table entering the export is an input of the model: converted for any table `filter_by_date` kept a row of, and object for a schema fallback table. `ExportCheckedSpec` is stated for tables where every table with a row is converted.
- App.SummarizeTotal: the value column is fixed by the table's schema, so the KeyError of a missing `y_col` is not modelled.
- Concurrency between dashboard runs and Streamlit's `st.cache_data` memoisation are not modelled.

## Findings

| source | as written | input that shows it | evidently intended | confidence | as-written member | corrected member |
|---|---|---|---|---|---|---|
| loaders/data_loader.py:70 | `get_for` uses the repository file only when `len(df) > 1`, that is, at least two data rows | a repository file with the expected columns and one data row, next to a generic file with the expected columns | the comment "More than just header" calls for at least one data row, `len(df) >= 1` | not executed | DataLoader.GetForAsWritten (shown by DataLoader.SingleRowRepoFileSkipped) | DataLoader.GetFor (proved by DataLoader.GetForSpec) |
| github_api.py:40-48 | `save_daily_metrics` reads the stored dates as Timestamps, appends today's `datetime.date` and calls `drop_duplicates(subset=["date"], keep="last")`, which never takes a Timestamp and a `datetime.date` for equal | a file with a row for today, then today's snapshot saved again | one row per day, the new snapshot replacing the stored row of its day | not executed; rests on pandas 2 comparing a Timestamp and a `datetime.date` as unequal | GitHubApi.SavedRowsAsWritten (shown by GitHubApi.SameDaySaveKeepsBoth) | GitHubApi.KeepLast (proved by GitHubApi.SaveSpec) |
