/** The cache manager: decides between fetching and loading, writes what it fetches, reports
    the age of its files and clears them. The fetchers are a function from metric type,
    owner and repository to the fetched table or the exception the fetch raised; the clock
    is a parameter in whole seconds. */
module DataManager {
  import opened Wrappers
  import opened Metrics
  import opened Frames
  import opened Orders
  import DataLoader

  type Upstream = (MetricType, string, string) -> Result<Frame>

  /** The four metrics the manager knows, in the order of its `type_to_file`. */
  const Managed: seq<MetricType> := [Stars, Forks, Prs, Downloads]

  /** `type_to_file`: each managed metric's name and generic cache file, in order. */
  function CacheFiles(dataDir: string): seq<(string, string)> {
    [("stars", JoinPath(dataDir, "github_stars.csv")),
     ("forks", JoinPath(dataDir, "github_forks.csv")),
     ("prs", JoinPath(dataDir, "github_pull_requests.csv")),
     ("downloads", JoinPath(dataDir, "github_downloads.csv"))]
  }

  /** The value of the first entry under `key`, as a dictionary lookup finds it. */
  function Lookup(entries: seq<(string, string)>, key: string): Option<string> {
    if |entries| == 0 then None
    else if entries[0].0 == key then Some(entries[0].1)
    else Lookup(entries[1..], key)
  }

  /** The manager's file for a type: defined exactly for the four managed metrics, and
      then the generic file the loader reads. */
  function CacheFile(dataDir: string, dataType: string): (r: Option<string>)
    ensures r.Some? <==> Parse(dataType).Some? && Parse(dataType).value in Managed
    ensures r.Some? ==> DataLoader.PathFor(dataDir, dataType, "", "") == Ok(r.value)
  {
    match Parse(dataType)
    case Some(m) => if m in Managed then Some(JoinPath(dataDir, BaseFileName(m))) else None
    case None => None
  }

  /** Looking a type up in `type_to_file` finds its cache file. */
  lemma CacheFileOf(dataDir: string, dataType: string)
    ensures Lookup(CacheFiles(dataDir), dataType) == CacheFile(dataDir, dataType)
  {
    var e := CacheFiles(dataDir);
    var e1, e2, e3 := e[1..], e[1..][1..], e[1..][1..][1..];
    assert e1[0].0 == "forks" && e2[0].0 == "prs" && e3[0].0 == "downloads" && e3[1..] == [];
    match Parse(dataType)
    case Some(Stars) =>
      assert Lookup(e, dataType) == Some(e[0].1);
    case Some(Forks) =>
      assert Lookup(e, dataType) == Lookup(e1, dataType) == Some(e1[0].1);
    case Some(Prs) =>
      assert Lookup(e, dataType) == Lookup(e1, dataType) == Lookup(e2, dataType) == Some(e2[0].1);
    case Some(Downloads) =>
      assert Lookup(e, dataType) == Lookup(e1, dataType) == Lookup(e2, dataType) == Lookup(e3, dataType) == Some(e3[0].1);
    case _ =>
      assert Lookup(e, dataType) == Lookup(e1, dataType) == Lookup(e2, dataType) == Lookup(e3, dataType) == Lookup(e3[1..], dataType);
  }

  /** `_is_data_stale`: a missing file is stale, an existing one when its age in hours is
      strictly greater than the threshold. The age is compared in whole seconds. */
  function IsStale(files: Files, path: string, now: int, thresholdHours: int): (r: bool)
    ensures path !in files ==> r
    ensures path in files ==> (r <==> (now - files[path].mtime) as real / 3600.0 > thresholdHours as real)
  {
    path !in files || now - files[path].mtime > thresholdHours * 3600
  }

  /** The columns of `expected` that `columns` has, in the order of `expected`. */
  function KeepColumns(expected: seq<string>, columns: seq<string>): (r: seq<string>)
    ensures |r| <= |expected|
    ensures forall c :: c in r <==> c in expected && c in columns
  {
    if |expected| == 0 then []
    else (if expected[0] in columns then [expected[0]] else []) + KeepColumns(expected[1..], columns)
  }

  /** `df.loc[:, [c for c in expected_cols if c in df.columns]]`. */
  function Project(f: Frame, expected: seq<string>): (r: Frame)
    ensures r.rows == f.rows
    ensures forall c :: c in r.columns <==> c in expected && c in f.columns
  {
    Frame(KeepColumns(expected, f.columns), f.rows)
  }

  /** `_fetch_and_save_data` as a transition of the files: the result, and the files after. */
  function FetchAndSaveOutcome(dataDir: string, dataType: string, owner: string, repo: string,
                        upstream: Upstream, files: Files, now: int): (Result<Frame>, Files)
  {
    match Parse(dataType)
    case None => (Err(ValueError("Unknown data_type: " + dataType)), files)
    case Some(m) =>
      if m !in Managed then (Err(ValueError("Unknown data_type: " + dataType)), files)
      else
        match upstream(m, owner, repo)
        case Err(e) => (Err(e), files)
        case Ok(df) =>
          var out := Project(df, Schema(m));
          (Ok(out), files[JoinPath(dataDir, BaseFileName(m)) := FileEntry(ToRaw(out), now)])
  }

  /** What `_fetch_and_save_data` promises: a ValueError for a type outside the four; an
      exception of the fetch passes through with no file written; otherwise the returned
      table keeps exactly the expected columns the fetched one has, in schema order, with
      the fetched rows, and that same table is written to the metric's file, stamped now,
      and no other file changes. */
  lemma FetchAndSaveSpec(dataDir: string, dataType: string, owner: string, repo: string,
                         upstream: Upstream, files: Files, now: int)
    ensures var (r, after) := FetchAndSaveOutcome(dataDir, dataType, owner, repo, upstream, files, now);
      && (Parse(dataType).None? || Parse(dataType).value !in Managed ==> r.Err? && r.error.ValueError? && after == files)
      && (Parse(dataType).Some? && Parse(dataType).value in Managed ==>
            var m := Parse(dataType).value;
            var path := JoinPath(dataDir, BaseFileName(m));
            && (upstream(m, owner, repo).Err? ==> r == upstream(m, owner, repo) && after == files)
            && (upstream(m, owner, repo).Ok? ==>
                  && r.Ok?
                  && r.value.rows == upstream(m, owner, repo).value.rows
                  && r.value.columns == KeepColumns(Schema(m), upstream(m, owner, repo).value.columns)
                  && after == files[path := FileEntry(ToRaw(r.value), now)]
                  && after[path].content == ToRaw(r.value)
                  && forall p :: p != path ==> (p in after <==> p in files) && (p in files ==> after[p] == files[p])))
  {
  }

  /** Written and read back: when the fetched table has the metric's columns in schema order
      and its rows sorted by date, the loader returns exactly the table the fetch returned. */
  lemma SavedTableLoadsBack(dataDir: string, m: MetricType, owner: string, repo: string,
                            upstream: Upstream, files: Files, now: int)
    requires m in Managed && upstream(m, owner, repo).Ok?
    requires upstream(m, owner, repo).value.columns == Schema(m)
    requires SortedBy(upstream(m, owner, repo).value.rows, DateLe)
    ensures var (r, after) := FetchAndSaveOutcome(dataDir, Name(m), owner, repo, upstream, files, now);
      r.Ok? && DataLoader.Get(after, dataDir, Name(m)) == r
  {
    var df := upstream(m, owner, repo).value;
    SaveWrites(dataDir, m, owner, repo, upstream, files, now);
    LoadWritten(files, dataDir, m, df, now);
  }

  /** Saving a table that has the schema's columns writes that same table. */
  lemma SaveWrites(dataDir: string, m: MetricType, owner: string, repo: string,
                   upstream: Upstream, files: Files, now: int)
    requires m in Managed && upstream(m, owner, repo).Ok?
    requires upstream(m, owner, repo).value.columns == Schema(m)
    ensures FetchAndSaveOutcome(dataDir, Name(m), owner, repo, upstream, files, now)
      == (Ok(upstream(m, owner, repo).value),
          files[JoinPath(dataDir, BaseFileName(m)) := FileEntry(ToRaw(upstream(m, owner, repo).value), now)])
  {
    NamesDistinct(m, m);
    KeepSchema(m, upstream(m, owner, repo).value.columns);
  }

  /** The loader reads back a sorted table with the schema's columns from the generic file. */
  lemma LoadWritten(files: Files, dataDir: string, m: MetricType, df: Frame, now: int)
    requires df.columns == Schema(m) && SortedBy(df.rows, DateLe)
    ensures DataLoader.Get(files[JoinPath(dataDir, BaseFileName(m)) := FileEntry(ToRaw(df), now)], dataDir, Name(m)) == Ok(df)
  {
    NamesDistinct(m, m);
    var path := JoinPath(dataDir, BaseFileName(m));
    var written := files[path := FileEntry(ToRaw(df), now)];
    assert DataLoader.PathFor(dataDir, Name(m), "", "") == Ok(path);
    assert path in written && written[path].content == ToRaw(df);
    assert HasColumns(ToRaw(df).columns, Expected(m));
    assert DataLoader.Get(written, dataDir, Name(m)) == Ok(Clean(ToRaw(df)));
    CleanToRaw(df);
  }

  /** Projecting a table that has exactly the schema's columns keeps them all. */
  lemma KeepSchema(m: MetricType, columns: seq<string>)
    requires columns == Schema(m)
    ensures KeepColumns(Schema(m), columns) == Schema(m)
  {
    var s := Schema(m);
    assert s[1..][1..] == [];
    assert KeepColumns(s[1..], columns) == [s[1]];
  }

  /** `get_data` as a transition: the result, the files after, and whether it fetched. */
  function GetDataOutcome(dataDir: string, thresholdHours: int, dataType: string, owner: string, repo: string,
                   force: bool, upstream: Upstream, files: Files, now: int): (Result<Frame>, Files, bool)
  {
    match CacheFile(dataDir, dataType)
    case None => (Err(KeyError(dataType)), files, false)
    case Some(path) =>
      if force || IsStale(files, path, now, thresholdHours) then
        var (r, after) := FetchAndSaveOutcome(dataDir, dataType, owner, repo, upstream, files, now);
        (r, after, true)
      else (DataLoader.Get(files, dataDir, dataType), files, false)
  }

  /** What `get_data` promises: a KeyError for any type but the four (issues and
      contributions among them); for those it fetches and saves exactly when forced or
      when the generic file is stale, and otherwise returns the loader's table and changes
      no file. */
  lemma GetDataSpec(dataDir: string, thresholdHours: int, dataType: string, owner: string, repo: string,
                    force: bool, upstream: Upstream, files: Files, now: int)
    ensures var (r, after, fetched) := GetDataOutcome(dataDir, thresholdHours, dataType, owner, repo, force, upstream, files, now);
      && (Parse(dataType).None? || Parse(dataType).value !in Managed ==> r == Err(KeyError(dataType)) && after == files && !fetched)
      && (Parse(dataType).Some? && Parse(dataType).value in Managed ==>
            var path := CacheFile(dataDir, dataType).value;
            && (fetched <==> force || IsStale(files, path, now, thresholdHours))
            && (fetched ==> (r, after) == FetchAndSaveOutcome(dataDir, dataType, owner, repo, upstream, files, now))
            && (!fetched ==> r == DataLoader.Get(files, dataDir, dataType) && after == files))
  {
  }

  /** `get_all_cached_data` over the given entries, as its dictionary comprehension builds
      the result on top of `tables`: every table, or the first exception, with the files as
      the calls left them. */
  function GetAllOutcome(dataDir: string, thresholdHours: int, tables: map<string, Frame>, entries: seq<(string, string)>,
                         owner: string, repo: string, force: bool, upstream: Upstream, files: Files, now: int)
    : (Result<map<string, Frame>>, Files)
    decreases |entries|
  {
    if |entries| == 0 then (Ok(tables), files)
    else
      var (r, after, _) := GetDataOutcome(dataDir, thresholdHours, entries[0].0, owner, repo, force, upstream, files, now);
      match r
      case Err(e) => (Err(e), after)
      case Ok(table) => GetAllOutcome(dataDir, thresholdHours, tables[entries[0].0 := table], entries[1..], owner, repo, force, upstream, after, now)
  }

  /** One turn of the comprehension: the `i`-th entry's exception ends it, and its table
      otherwise joins the result. */
  lemma GetAllStep(dataDir: string, thresholdHours: int, tables: map<string, Frame>, entries: seq<(string, string)>, i: nat,
                   owner: string, repo: string, force: bool, upstream: Upstream, files: Files, now: int)
    requires i < |entries|
    ensures var (r, after, _) := GetDataOutcome(dataDir, thresholdHours, entries[i].0, owner, repo, force, upstream, files, now);
      GetAllOutcome(dataDir, thresholdHours, tables, entries[i..], owner, repo, force, upstream, files, now) ==
        if r.Err? then (Err(r.error), after)
        else GetAllOutcome(dataDir, thresholdHours, tables[entries[i].0 := r.value], entries[i + 1..], owner, repo, force, upstream, after, now)
  {
    assert entries[i..][0] == entries[i] && entries[i..][1..] == entries[i + 1..];
  }

  /** A successful `get_all_cached_data` has exactly one table per entry, under its name,
      besides those it started with. */
  lemma {:induction false} GetAllKeys(dataDir: string, thresholdHours: int, tables: map<string, Frame>, entries: seq<(string, string)>,
                                      owner: string, repo: string, force: bool, upstream: Upstream, files: Files, now: int)
    ensures var (r, _) := GetAllOutcome(dataDir, thresholdHours, tables, entries, owner, repo, force, upstream, files, now);
      r.Ok? ==> r.value.Keys == tables.Keys + set i | 0 <= i < |entries| :: entries[i].0
    decreases |entries|
  {
    if |entries| > 0 {
      var (r, after, _) := GetDataOutcome(dataDir, thresholdHours, entries[0].0, owner, repo, force, upstream, files, now);
      if r.Ok? {
        GetAllKeys(dataDir, thresholdHours, tables[entries[0].0 := r.value], entries[1..], owner, repo, force, upstream, after, now);
        assert GetAllOutcome(dataDir, thresholdHours, tables, entries, owner, repo, force, upstream, files, now)
          == GetAllOutcome(dataDir, thresholdHours, tables[entries[0].0 := r.value], entries[1..], owner, repo, force, upstream, after, now);
        EntryNamesCons(entries);
      }
    }
  }

  /** The names of the entries: the first one's and those of the rest. */
  lemma EntryNamesCons(entries: seq<(string, string)>)
    requires |entries| > 0
    ensures (set i | 0 <= i < |entries| :: entries[i].0) == {entries[0].0} + set i | 0 <= i < |entries[1..]| :: entries[1..][i].0
  {
    var tailKeys := set i | 0 <= i < |entries[1..]| :: entries[1..][i].0;
    forall k | k in tailKeys ensures k in (set i | 0 <= i < |entries| :: entries[i].0) {
      var i :| 0 <= i < |entries[1..]| && entries[1..][i].0 == k;
      assert entries[i + 1].0 == k;
    }
  }

  /** The names in `type_to_file` are the four managed ones. */
  lemma CacheFileNames(dataDir: string)
    ensures (set i | 0 <= i < |CacheFiles(dataDir)| :: CacheFiles(dataDir)[i].0) == {"stars", "forks", "prs", "downloads"}
  {
    var e := CacheFiles(dataDir);
    var names := set i | 0 <= i < |e| :: e[i].0;
    assert e[0].0 in names && e[1].0 in names && e[2].0 in names && e[3].0 in names;
  }

  /** No name appears twice in `type_to_file`. */
  lemma CacheFilesDistinct(dataDir: string)
    ensures forall j, k :: 0 <= j < k < |CacheFiles(dataDir)| ==> CacheFiles(dataDir)[j].0 != CacheFiles(dataDir)[k].0
  {
  }

  /** One file's entry in `get_data_status`. */
  datatype DataFileInfo = DataFileInfo(path: string, fileExists: bool, ageHours: Option<real>, stale: bool)

  /** The status of the file at `path`: an absent file exists not, has no age and is stale. */
  function FileInfo(files: Files, path: string, now: int, thresholdHours: int): (info: DataFileInfo)
    ensures info.path == path && info.fileExists == (path in files)
    ensures path !in files ==> info.ageHours.None? && info.stale
    ensures path in files ==> info.ageHours == Some((now - files[path].mtime) as real / 3600.0)
    ensures info.stale == IsStale(files, path, now, thresholdHours)
  {
    if path in files then
      var age := (now - files[path].mtime) as real / 3600.0;
      DataFileInfo(path, true, Some(age), age > thresholdHours as real)
    else DataFileInfo(path, false, None, true)
  }

  /** The paths `clear_cache` removes. */
  function ClearedPaths(entries: seq<(string, string)>, dataType: Option<string>): set<string> {
    match dataType
    case None => set i | 0 <= i < |entries| :: entries[i].1
    case Some(t) => match Lookup(entries, t) case Some(p) => {p} case None => {}
  }

  class DataManager {
    const dataDir: string
    const refreshThresholdHours: int
    const typeToFile: seq<(string, string)>
    const disk: Disk

    constructor (dataDir: string, refreshThresholdHours: int, disk: Disk)
      ensures this.dataDir == dataDir && this.refreshThresholdHours == refreshThresholdHours
      ensures this.disk == disk && typeToFile == CacheFiles(dataDir)
    {
      this.dataDir := dataDir;
      this.refreshThresholdHours := refreshThresholdHours;
      this.disk := disk;
      typeToFile := CacheFiles(dataDir);
    }

    predicate Valid() {
      typeToFile == CacheFiles(dataDir)
    }

    /** `_fetch_and_save_data`. */
    method FetchAndSaveData(dataType: string, owner: string, repo: string, upstream: Upstream, now: int)
      returns (r: Result<Frame>)
      requires Valid()
      modifies disk
      ensures (r, disk.files) == FetchAndSaveOutcome(dataDir, dataType, owner, repo, upstream, old(disk.files), now)
    {
      var m := Parse(dataType);
      if m.None? || m.value !in Managed {
        return Err(ValueError("Unknown data_type: " + dataType));
      }
      var fetched := upstream(m.value, owner, repo);
      if fetched.Err? {
        return Err(fetched.error);
      }
      var df := Project(fetched.value, Schema(m.value));
      CacheFileOf(dataDir, dataType);
      var path := Lookup(typeToFile, dataType).value;
      disk.Write(path, ToRaw(df), now);
      r := Ok(df);
    }

    /** `get_data`; `fetched` tells whether it fetched. */
    method GetData(dataType: string, owner: string, repo: string, force: bool, upstream: Upstream, now: int)
      returns (r: Result<Frame>, fetched: bool)
      requires Valid()
      modifies disk
      ensures (r, disk.files, fetched) == GetDataOutcome(dataDir, refreshThresholdHours, dataType, owner, repo, force, upstream, old(disk.files), now)
    {
      var path := Lookup(typeToFile, dataType);
      CacheFileOf(dataDir, dataType);
      if path.None? {
        return Err(KeyError(dataType)), false;
      }
      if force || IsStale(disk.files, path.value, now, refreshThresholdHours) {
        r := FetchAndSaveData(dataType, owner, repo, upstream, now);
        fetched := true;
      } else {
        r := DataLoader.Get(disk.files, dataDir, dataType);
        fetched := false;
      }
    }

    /** `get_all_cached_data`: the tables of the four metrics, stopping at the first
        exception. */
    method GetAllCachedData(owner: string, repo: string, force: bool, upstream: Upstream, now: int)
      returns (r: Result<map<string, Frame>>)
      requires Valid()
      modifies disk
      ensures (r, disk.files) == GetAllOutcome(dataDir, refreshThresholdHours, map[], typeToFile, owner, repo, force, upstream, old(disk.files), now)
      ensures r.Ok? ==> r.value.Keys == {"stars", "forks", "prs", "downloads"}
    {
      ghost var files0 := disk.files;
      var tables: map<string, Frame> := map[];
      var i := 0;
      while i < |typeToFile|
        invariant 0 <= i <= |typeToFile|
        invariant GetAllOutcome(dataDir, refreshThresholdHours, map[], typeToFile, owner, repo, force, upstream, files0, now)
          == GetAllOutcome(dataDir, refreshThresholdHours, tables, typeToFile[i..], owner, repo, force, upstream, disk.files, now)
      {
        GetAllStep(dataDir, refreshThresholdHours, tables, typeToFile, i, owner, repo, force, upstream, disk.files, now);
        var table, _ := GetData(typeToFile[i].0, owner, repo, force, upstream, now);
        if table.Err? {
          r := Err(table.error);
          return;
        }
        tables := tables[typeToFile[i].0 := table.value];
        i := i + 1;
      }
      r := Ok(tables);
      GetAllKeys(dataDir, refreshThresholdHours, map[], typeToFile, owner, repo, force, upstream, files0, now);
      CacheFileNames(dataDir);
    }

    /** `get_data_status`: one entry per managed metric describing its file. */
    method GetDataStatus(now: int) returns (status: map<string, DataFileInfo>)
      requires Valid()
      ensures status.Keys == {"stars", "forks", "prs", "downloads"}
      ensures forall i :: 0 <= i < |typeToFile| ==>
        status[typeToFile[i].0] == FileInfo(disk.files, typeToFile[i].1, now, refreshThresholdHours)
    {
      status := map[];
      CacheFilesDistinct(dataDir);
      var i := 0;
      while i < |typeToFile|
        invariant 0 <= i <= |typeToFile|
        invariant status.Keys == set j | 0 <= j < i :: typeToFile[j].0
        invariant forall j :: 0 <= j < i ==> status[typeToFile[j].0] == FileInfo(disk.files, typeToFile[j].1, now, refreshThresholdHours)
      {
        var path := typeToFile[i].1;
        var info;
        if path in disk.files {
          var age := (now - disk.files[path].mtime) as real / 3600.0;
          info := DataFileInfo(path, true, Some(age), age > refreshThresholdHours as real);
        } else {
          info := DataFileInfo(path, false, None, true);
        }
        assert info == FileInfo(disk.files, path, now, refreshThresholdHours);
        status := status[typeToFile[i].0 := info];
        i := i + 1;
      }
      CacheFileNames(dataDir);
    }

    /** `clear_cache`: removes the file of the given type, or all four files; a type with
        no file removes nothing. */
    method ClearCache(dataType: Option<string>)
      requires Valid()
      modifies disk
      ensures disk.files == old(disk.files) - ClearedPaths(typeToFile, dataType)
    {
      if dataType.None? {
        var i := 0;
        while i < |typeToFile|
          invariant 0 <= i <= |typeToFile|
          invariant disk.files == old(disk.files) - set j | 0 <= j < i :: typeToFile[j].1
        {
          var path := typeToFile[i].1;
          if path in disk.files {
            disk.Remove(path);
          }
          i := i + 1;
        }
      } else {
        var path := Lookup(typeToFile, dataType.value);
        if path.Some? && path.value in disk.files {
          disk.Remove(path.value);
        }
      }
    }
  }
}
