/** Tables as the code builds them with pandas, and the files that hold them. */
module Frames {
  import opened Wrappers
  import opened Orders
  import opened Dates

  /** One row of a metric table: its date and its value. */
  type Row = (Date, nat)

  /** A metric table: its column names, and its rows in order. The value of a row only means
      something when the table has a value column. */
  datatype Frame = Frame(columns: seq<string>, rows: seq<Row>)

  /** A row as read from a CSV file before dates are coerced: the date cell is None when it
      does not parse as a date. */
  type RawRow = (Option<Date>, nat)

  /** A table as `pd.read_csv` returns it. */
  datatype RawFrame = RawFrame(columns: seq<string>, rows: seq<RawRow>)

  /** One row of a table keyed by text dates, such as the `"YYYY-MM-DD"` prefix of a
      timestamp, and its value. */
  type TextRow = (string, nat)

  /** A table whose date column holds text, ordered as Python orders strings. */
  datatype TextFrame = TextFrame(columns: seq<string>, rows: seq<TextRow>)

  /** A stored file: its table and its modification time in whole seconds. */
  datatype FileEntry = FileEntry(content: RawFrame, mtime: int)

  type Files = map<string, FileEntry>

  /** pandas' `DataFrame.empty`: no rows, or no columns. */
  predicate IsEmpty(f: Frame) {
    |f.rows| == 0 || |f.columns| == 0
  }

  predicate IsEmptyRaw(f: RawFrame) {
    |f.rows| == 0 || |f.columns| == 0
  }

  /** Every column of `expected` is among `columns`. */
  predicate HasColumns(columns: seq<string>, expected: set<string>) {
    forall c :: c in expected ==> c in columns
  }

  /** `pd.read_csv(path, parse_dates=["date"])` of a stored file: its table, or a ValueError
      when the header names no `date` column (a file with no header at all included). */
  function ReadDated(entry: FileEntry): (r: Result<RawFrame>)
    ensures r.Ok? <==> "date" in entry.content.columns
    ensures r.Ok? ==> r.value == entry.content
    ensures r.Err? ==> r.error.ValueError?
  {
    if "date" in entry.content.columns then Ok(entry.content)
    else Err(ValueError("Missing column provided to 'parse_dates': 'date'"))
  }

  /** `os.path.join(dir, name)` on POSIX paths. */
  function JoinPath(dir: string, name: string): (p: string)
    ensures |name| > 0 && name[0] == '/' ==> p == name
    ensures (|name| == 0 || name[0] != '/') && dir != "" && dir[|dir| - 1] != '/' ==> p == dir + "/" + name
    ensures (|name| == 0 || name[0] != '/') && (dir == "" || dir[|dir| - 1] == '/') ==> p == dir + name
  {
    if |name| > 0 && name[0] == '/' then name
    else if dir == "" || dir[|dir| - 1] == '/' then dir + name
    else dir + "/" + name
  }

  /** The rows whose date cell parses: `dropna(subset=["date"])` after coercion. */
  function Parsed(rows: seq<RawRow>): (r: seq<Row>)
    ensures |r| <= |rows|
  {
    if |rows| == 0 then []
    else (if rows[0].0.Some? then [(rows[0].0.value, rows[0].1)] else []) + Parsed(rows[1..])
  }

  /** Each dated row is kept as often as it occurs; undated rows are dropped. */
  lemma {:induction false} ParsedCount(rows: seq<RawRow>)
    ensures forall x :: multiset(Parsed(rows))[x] == multiset(rows)[(Some(x.0), x.1)]
  {
    if |rows| > 0 {
      ParsedCount(rows[1..]);
      assert rows == [rows[0]] + rows[1..];
      assert multiset(rows) == multiset{rows[0]} + multiset(rows[1..]);
    }
  }

  /** Dropping unparseable dates keeps the order of what it keeps. */
  lemma {:induction false} ParsedAppend(a: seq<RawRow>, b: seq<RawRow>)
    ensures Parsed(a + b) == Parsed(a) + Parsed(b)
  {
    if |a| > 0 {
      assert (a + b)[1..] == a[1..] + b;
      ParsedAppend(a[1..], b);
    } else {
      assert a + b == b;
    }
  }

  /** The table as written to a CSV file by `to_csv(index=False)`. */
  function ToRaw(f: Frame): (r: RawFrame)
    ensures r.columns == f.columns && |r.rows| == |f.rows|
    ensures forall i :: 0 <= i < |f.rows| ==> r.rows[i] == (Some(f.rows[i].0), f.rows[i].1)
  {
    RawFrame(f.columns, seq(|f.rows|, i requires 0 <= i < |f.rows| => (Some(f.rows[i].0), f.rows[i].1)))
  }

  /** Reading back what was written loses no row. */
  lemma {:induction false} ParsedToRaw(f: Frame)
    ensures Parsed(ToRaw(f).rows) == f.rows
    decreases |f.rows|
  {
    if |f.rows| > 0 {
      var tail := Frame(f.columns, f.rows[1..]);
      ParsedToRaw(tail);
      assert ToRaw(f).rows[1..] == ToRaw(tail).rows;
      assert f.rows == [f.rows[0]] + f.rows[1..];
    }
  }

  /** Row order by date: ties keep their order under the stable sort. */
  function DateLe(a: Row, b: Row): bool {
    a.0 <= b.0
  }

  lemma DateLeIsTotalPreorder()
    ensures TotalPreorder(DateLe)
  {
  }

  /** `df["date"] = pd.to_datetime(df["date"], errors="coerce")` followed by
      `df.dropna(subset=["date"]).sort_values("date")`. */
  function Clean(raw: RawFrame): Frame {
    Frame(raw.columns, SortBy(Parsed(raw.rows), DateLe))
  }

  /** Cleaning keeps the columns, keeps exactly the rows whose date parses (with their
      multiplicity) and sorts them by date. */
  lemma CleanSpec(raw: RawFrame)
    ensures Clean(raw).columns == raw.columns
    ensures forall x :: multiset(Clean(raw).rows)[x] == multiset(raw.rows)[(Some(x.0), x.1)]
    ensures SortedBy(Clean(raw).rows, DateLe)
  {
    ParsedCount(raw.rows);
    DateLeIsTotalPreorder();
    SortBySorted(Parsed(raw.rows), DateLe);
  }

  /** A table sorted by date comes back unchanged after being written and read back. */
  lemma CleanToRaw(f: Frame)
    requires SortedBy(f.rows, DateLe)
    ensures Clean(ToRaw(f)) == f
  {
    ParsedToRaw(f);
    SortByOfSorted(f.rows, DateLe);
  }

  /** The files the program reads and writes, by path. */
  class Disk {
    var files: Files

    constructor (files: Files)
      ensures this.files == files
    {
      this.files := files;
    }

    /** Overwrites (or creates) the file at `path`. */
    method Write(path: string, content: RawFrame, mtime: int)
      modifies this
      ensures files == old(files)[path := FileEntry(content, mtime)]
    {
      files := files[path := FileEntry(content, mtime)];
    }

    /** `os.remove(path)` on an existing file; nothing happens to a missing one. */
    method Remove(path: string)
      modifies this
      ensures files == old(files) - {path}
    {
      files := files - {path};
    }
  }
}
