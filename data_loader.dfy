/** The cache reader: from a metric type to its file, and from the file to a clean table. */
module DataLoader {
  import opened Wrappers
  import opened Orders
  import opened Metrics
  import opened Frames

  /** `_base_name`: the generic file name of a metric type; a ValueError for any string
      that names none of the six. */
  function BaseName(dataType: string): (r: Result<string>)
    ensures r.Ok? <==> Parse(dataType).Some?
    ensures r.Ok? ==> r.value == BaseFileName(Parse(dataType).value)
    ensures r.Err? ==> r.error.ValueError?
  {
    match Parse(dataType)
    case Some(m) => Ok(BaseFileName(m))
    case None => Err(ValueError("Unknown data_type: " + dataType))
  }

  /** The file name of a metric for a repository: prefixed by `{owner}_{repo}_` only when
      both are non-empty. */
  function QualifiedName(base: string, owner: string, repo: string): string {
    if owner != "" && repo != "" then owner + "_" + repo + "_" + base else base
  }

  /** `path_for`. */
  function PathFor(dataDir: string, dataType: string, owner: string, repo: string): (r: Result<string>)
    ensures r.Ok? <==> Parse(dataType).Some?
    ensures r.Ok? ==> r.value == JoinPath(dataDir, QualifiedName(BaseFileName(Parse(dataType).value), owner, repo))
  {
    var base :- BaseName(dataType);
    Ok(JoinPath(dataDir, QualifiedName(base, owner, repo)))
  }

  /** Without a repository the path is the generic one; with one (whose owner does not
      start with '/') it is a different file from the generic one. */
  lemma PathForSpec(dataDir: string, m: MetricType, owner: string, repo: string)
    ensures owner == "" || repo == "" ==> PathFor(dataDir, Name(m), owner, repo) == PathFor(dataDir, Name(m), "", "")
    ensures owner != "" && repo != "" && owner[0] != '/' ==>
      PathFor(dataDir, Name(m), owner, repo).value != PathFor(dataDir, Name(m), "", "").value
  {
    NamesDistinct(m, m);
    var base := BaseFileName(m);
    if owner != "" && repo != "" && owner[0] != '/' {
      var q := QualifiedName(base, owner, repo);
      assert q[0] == owner[0];
      assert |q| > |base|;
      assert base[0] != '/';
    }
  }

  /** The empty table with the metric's exact schema. */
  function EmptyTable(m: MetricType): Frame {
    Frame(Schema(m), [])
  }

  /** The stored file at `path` has no header line at all: `pd.read_csv` raises on it
      (pandas' `EmptyDataError`, a ValueError) before any column is looked at. */
  predicate Headerless(files: Files, path: string) {
    path in files && files[path].content.columns == []
  }

  /** What `pd.read_csv` raises on a file with no header line. */
  const NoColumns: Error := ValueError("No columns to parse from file")

  /** `get`: the generic file of the metric, cleaned. */
  function Get(files: Files, dataDir: string, dataType: string): Result<Frame> {
    var path :- PathFor(dataDir, dataType, "", "");
    var m := Parse(dataType).value;
    if path !in files then Ok(EmptyTable(m))
    else if Headerless(files, path) then Err(NoColumns)
    else if !HasColumns(files[path].content.columns, Expected(m)) then Ok(EmptyTable(m))
    else Ok(Clean(files[path].content))
  }

  /** What `get` promises: a ValueError exactly for unknown types and for a stored file
      with no header line; the empty table with the metric's exact schema when the file is
      missing; an empty table over the expected columns when the file lacks one of them;
      otherwise the file's columns, with exactly its rows whose date parses, sorted by
      date. */
  lemma GetSpec(files: Files, dataDir: string, dataType: string)
    ensures Get(files, dataDir, dataType).Err? <==>
      Parse(dataType).None? || Headerless(files, PathFor(dataDir, dataType, "", "").value)
    ensures Get(files, dataDir, dataType).Err? ==> Get(files, dataDir, dataType).error.ValueError?
    ensures Parse(dataType).Some? && !Headerless(files, PathFor(dataDir, dataType, "", "").value) ==>
      var m := Parse(dataType).value;
      var path := PathFor(dataDir, dataType, "", "").value;
      var r := Get(files, dataDir, dataType).value;
      && (path !in files ==> r == Frame(Schema(m), []))
      && (path in files && !HasColumns(files[path].content.columns, Expected(m)) ==>
            (set c | c in r.columns) == Expected(m) && r.rows == [])
      && (path in files && HasColumns(files[path].content.columns, Expected(m)) ==>
            && r.columns == files[path].content.columns
            && SortedBy(r.rows, DateLe)
            && forall x :: multiset(r.rows)[x] == multiset(files[path].content.rows)[(Some(x.0), x.1)])
  {
    if Parse(dataType).Some? {
      var path := PathFor(dataDir, dataType, "", "").value;
      if path in files && !Headerless(files, path) {
        CleanSpec(files[path].content);
      }
    }
  }

  /** The repository file is used as written: it must be non-empty, hold more than one row
      and have the expected columns. */
  predicate RepoFileUsableAsWritten(raw: RawFrame, m: MetricType) {
    !IsEmptyRaw(raw) && |raw.rows| > 1 && HasColumns(raw.columns, Expected(m))
  }

  /** The repository file is used as intended: it must hold at least one row (not just the
      header line) and have the expected columns. */
  predicate RepoFileUsable(raw: RawFrame, m: MetricType) {
    !IsEmptyRaw(raw) && HasColumns(raw.columns, Expected(m))
  }

  /** The fallback of `get_for` once the repository file is not used: a raise when the
      generic file has no header line, the generic file when it has the expected columns,
      else the empty table with the exact schema. */
  function GenericOrEmpty(files: Files, dataDir: string, m: MetricType): Result<Frame> {
    var generic := PathFor(dataDir, Name(m), "", "").value;
    if Headerless(files, generic) then Err(NoColumns)
    else if generic in files && HasColumns(files[generic].content.columns, Expected(m)) then Ok(Clean(files[generic].content))
    else Ok(EmptyTable(m))
  }

  /** `get_for` as written: the repository file only when it has at least two rows. */
  function GetForAsWritten(files: Files, dataDir: string, dataType: string, owner: string, repo: string): Result<Frame> {
    var path :- PathFor(dataDir, dataType, owner, repo);
    var m := Parse(dataType).value;
    if Headerless(files, path) then Err(NoColumns)
    else if path in files && RepoFileUsableAsWritten(files[path].content, m) then Ok(Clean(files[path].content))
    else GenericOrEmpty(files, dataDir, m)
  }

  /** `get_for` with the row check its comment describes ("more than just header"): the
      repository file whenever it holds a row. */
  function GetFor(files: Files, dataDir: string, dataType: string, owner: string, repo: string): Result<Frame> {
    var path :- PathFor(dataDir, dataType, owner, repo);
    var m := Parse(dataType).value;
    if Headerless(files, path) then Err(NoColumns)
    else if path in files && RepoFileUsable(files[path].content, m) then Ok(Clean(files[path].content))
    else GenericOrEmpty(files, dataDir, m)
  }

  /** A usable table of a stored file: cleaned, with the file's columns. */
  predicate CleanOf(r: Frame, files: Files, path: string) {
    path in files && r == Clean(files[path].content)
  }

  /** A cleaned stored table keeps the file's columns and comes out sorted by date. */
  lemma CleanSorted(raw: RawFrame)
    ensures Clean(raw).columns == raw.columns && SortedBy(Clean(raw).rows, DateLe)
  {
    DateLeIsTotalPreorder();
    SortBySorted(Parsed(raw.rows), DateLe);
  }

  /** What `get_for` promises: a ValueError exactly when the repository file has no header
      line, or when it is not used and the generic file has none; otherwise the result has
      the metric's columns and rows sorted by date, and it is the repository file when that
      is usable, else the generic file when that has the columns, else the empty table with
      the exact schema. */
  lemma GetForSpec(files: Files, dataDir: string, m: MetricType, owner: string, repo: string)
    ensures var path := PathFor(dataDir, Name(m), owner, repo).value;
      var generic := PathFor(dataDir, Name(m), "", "").value;
      GetFor(files, dataDir, Name(m), owner, repo).Err? <==>
        Headerless(files, path) || (!(path in files && RepoFileUsable(files[path].content, m)) && Headerless(files, generic))
    ensures GetFor(files, dataDir, Name(m), owner, repo).Err? ==> GetFor(files, dataDir, Name(m), owner, repo).error.ValueError?
    ensures GetFor(files, dataDir, Name(m), owner, repo).Ok? ==>
      var r := GetFor(files, dataDir, Name(m), owner, repo).value;
      var path := PathFor(dataDir, Name(m), owner, repo).value;
      var generic := PathFor(dataDir, Name(m), "", "").value;
      && HasColumns(r.columns, Expected(m))
      && SortedBy(r.rows, DateLe)
      && (path in files && RepoFileUsable(files[path].content, m) ==> CleanOf(r, files, path))
      && (!(path in files && RepoFileUsable(files[path].content, m)) ==>
            if generic in files && HasColumns(files[generic].content.columns, Expected(m)) then CleanOf(r, files, generic)
            else r == Frame(Schema(m), []))
  {
    NamesDistinct(m, m);
    var path := PathFor(dataDir, Name(m), owner, repo).value;
    var generic := PathFor(dataDir, Name(m), "", "").value;
    var g := GetFor(files, dataDir, Name(m), owner, repo);
    if g.Ok? {
      var r := g.value;
      if path in files && RepoFileUsable(files[path].content, m) {
        assert r == Clean(files[path].content);
        CleanSorted(files[path].content);
      } else {
        assert g == GenericOrEmpty(files, dataDir, m);
        if generic in files && HasColumns(files[generic].content.columns, Expected(m)) {
          CleanSorted(files[generic].content);
        }
      }
    }
  }

  /** A repository file holding a single row with the expected columns, next to a generic
      file with the expected columns: as written, `get_for` passes over the repository's
      own row and returns the generic table; with the intended check it returns the
      repository's table. */
  lemma SingleRowRepoFileSkipped(files: Files, dataDir: string, m: MetricType, owner: string, repo: string)
    requires var path := PathFor(dataDir, Name(m), owner, repo).value;
      path in files && |files[path].content.rows| == 1 && RepoFileUsable(files[path].content, m)
    requires var generic := PathFor(dataDir, Name(m), "", "").value;
      generic in files && HasColumns(files[generic].content.columns, Expected(m))
    ensures var path := PathFor(dataDir, Name(m), owner, repo).value;
      var generic := PathFor(dataDir, Name(m), "", "").value;
      && GetForAsWritten(files, dataDir, Name(m), owner, repo) == Ok(Clean(files[generic].content))
      && GetFor(files, dataDir, Name(m), owner, repo) == Ok(Clean(files[path].content))
  {
    NamesDistinct(m, m);
    var path := PathFor(dataDir, Name(m), owner, repo).value;
    var generic := PathFor(dataDir, Name(m), "", "").value;
    assert "date" in Expected(m);
    assert !Headerless(files, path) && !Headerless(files, generic);
    assert !RepoFileUsableAsWritten(files[path].content, m);
    assert GenericOrEmpty(files, dataDir, m) == Ok(Clean(files[generic].content));
  }

  /** The two row checks part only on a repository file holding exactly one row: on every
      other store `get_for` as written and with the intended check give the same answer. */
  lemma GetForAgreement(files: Files, dataDir: string, dataType: string, owner: string, repo: string)
    ensures GetForAsWritten(files, dataDir, dataType, owner, repo) != GetFor(files, dataDir, dataType, owner, repo) ==>
      && PathFor(dataDir, dataType, owner, repo).Ok?
      && var path := PathFor(dataDir, dataType, owner, repo).value;
         path in files && |files[path].content.rows| == 1 && RepoFileUsable(files[path].content, Parse(dataType).value)
  {
  }
}
