/** The daily snapshot store: today's repository figures appended to a CSV file that keeps
    one row per day, and the readers of the stored series. */
module GitHubApi {
  import opened Wrappers
  import opened Dates
  import opened Frames

  /** One day's snapshot of a repository. */
  datatype Snapshot = Snapshot(date: Date, commits: nat, openIssues: nat, contributors: nat)

  const DailyMetricsFile: string := "data/github_daily_metrics.csv"
  const StarsFile: string := "data/github_stars.csv"
  const ForksFile: string := "data/github_forks.csv"

  /** The days of the snapshots. */
  function Days(s: seq<Snapshot>): set<Date> {
    set i | 0 <= i < |s| :: s[i].date
  }

  /** No day occurs twice. */
  predicate OnePerDay(s: seq<Snapshot>) {
    forall i, j :: 0 <= i < j < |s| ==> s[i].date != s[j].date
  }

  /** `drop_duplicates(subset=["date"], keep="last")`: a row stays when no later row has
      its day; the rows that stay keep their order. */
  function KeepLast(s: seq<Snapshot>): (r: seq<Snapshot>)
    ensures |r| <= |s|
  {
    if |s| == 0 then []
    else (if s[0].date in Days(s[1..]) then [] else [s[0]]) + KeepLast(s[1..])
  }

  /** The snapshots of days other than `d`, in order. */
  function Without(s: seq<Snapshot>, d: Date): (r: seq<Snapshot>)
    ensures |r| <= |s|
  {
    if |s| == 0 then [] else (if s[0].date == d then [] else [s[0]]) + Without(s[1..], d)
  }

  lemma DaysCons(x: Snapshot, s: seq<Snapshot>)
    ensures Days([x] + s) == {x.date} + Days(s)
  {
    var r := [x] + s;
    forall d | d in Days(r) ensures d in {x.date} + Days(s) {
      var i :| 0 <= i < |r| && r[i].date == d;
      if i > 0 {
        assert r[i] == s[i - 1];
        assert d in Days(s);
      }
    }
    forall d | d in Days(s) ensures d in Days(r) {
      var i :| 0 <= i < |s| && s[i].date == d;
      assert r[i + 1] == s[i];
    }
    assert r[0] == x;
    assert x.date in Days(r);
  }

  /** Deduplication keeps every day, once. */
  lemma {:induction false} KeepLastSpec(s: seq<Snapshot>)
    ensures OnePerDay(KeepLast(s)) && Days(KeepLast(s)) == Days(s)
  {
    if |s| > 0 {
      var rest := s[1..];
      KeepLastSpec(rest);
      assert s == [s[0]] + rest;
      DaysCons(s[0], rest);
      var tail := KeepLast(rest);
      if s[0].date in Days(rest) {
        assert KeepLast(s) == tail;
      } else {
        var r := [s[0]] + tail;
        assert KeepLast(s) == r;
        DaysCons(s[0], tail);
        forall i, j | 0 <= i < j < |r| ensures r[i].date != r[j].date {
          assert r[j] == tail[j - 1];
          assert tail[j - 1].date in Days(tail);
          if i > 0 {
            assert r[i] == tail[i - 1];
          }
        }
      }
    }
  }

  lemma {:induction false} WithoutDays(s: seq<Snapshot>, d: Date)
    ensures Days(Without(s, d)) == Days(s) - {d}
  {
    if |s| > 0 {
      WithoutDays(s[1..], d);
      assert s == [s[0]] + s[1..];
      DaysCons(s[0], s[1..]);
      if s[0].date != d {
        assert Without(s, d) == [s[0]] + Without(s[1..], d);
        DaysCons(s[0], Without(s[1..], d));
      } else {
        assert Without(s, d) == Without(s[1..], d);
      }
    }
  }

  lemma DaysSnoc(s: seq<Snapshot>, m: Snapshot)
    ensures Days(s + [m]) == Days(s) + {m.date}
  {
    var t := s + [m];
    forall d | d in Days(t) ensures d in Days(s) + {m.date} {
      var i :| 0 <= i < |t| && t[i].date == d;
      if i < |s| {
        assert t[i] == s[i];
        assert d in Days(s);
      }
    }
    forall d | d in Days(s) ensures d in Days(t) {
      var i :| 0 <= i < |s| && s[i].date == d;
      assert t[i] == s[i];
    }
    assert t[|s|] == m;
    assert m.date in Days(t);
  }

  lemma WithoutCons(x: Snapshot, s: seq<Snapshot>, d: Date)
    ensures Without([x] + s, d) == (if x.date == d then [] else [x]) + Without(s, d)
  {
    assert ([x] + s)[1..] == s;
  }

  /** Appending a snapshot and deduplicating drops the old rows of its day, keeps the old
      rows of other days as deduplication left them, and ends with the new snapshot. */
  lemma {:induction false} KeepLastAppend(s: seq<Snapshot>, m: Snapshot)
    ensures KeepLast(s + [m]) == Without(KeepLast(s), m.date) + [m]
  {
    if |s| == 0 {
      assert [m][1..] == [];
      assert s + [m] == [m];
    } else {
      var rest := s[1..];
      assert (s + [m])[1..] == rest + [m];
      assert (s + [m])[0] == s[0];
      KeepLastAppend(rest, m);
      DaysSnoc(rest, m);
      var head := if s[0].date in Days(rest) then [] else [s[0]];
      assert KeepLast(s) == head + KeepLast(rest);
      if s[0].date in Days(rest) {
        assert KeepLast(s) == KeepLast(rest);
      } else {
        assert KeepLast(s) == [s[0]] + KeepLast(rest);
        WithoutCons(s[0], KeepLast(rest), m.date);
      }
    }
  }

  /** Deduplicating rows that already have one per day changes nothing. */
  lemma {:induction false} KeepLastOfOnePerDay(s: seq<Snapshot>)
    requires OnePerDay(s)
    ensures KeepLast(s) == s
  {
    if |s| > 0 {
      var rest := s[1..];
      assert OnePerDay(rest) by {
        forall i, j | 0 <= i < j < |rest| ensures rest[i].date != rest[j].date {
          assert rest[i] == s[i + 1] && rest[j] == s[j + 1];
        }
      }
      KeepLastOfOnePerDay(rest);
      forall d | d in Days(rest) ensures d != s[0].date {
        var i :| 0 <= i < |rest| && rest[i].date == d;
        assert rest[i] == s[i + 1];
      }
      assert s == [s[0]] + rest;
    }
  }

  /** Deduplicating twice is deduplicating once. */
  lemma KeepLastIdempotent(s: seq<Snapshot>)
    ensures KeepLast(KeepLast(s)) == KeepLast(s)
  {
    KeepLastSpec(s);
    KeepLastOfOnePerDay(KeepLast(s));
  }

  /** What a save leaves in the file: one row per day; the new snapshot as the last row,
      replacing any stored row of its day; the stored rows of other days in their order. */
  lemma SaveSpec(stored: seq<Snapshot>, m: Snapshot)
    ensures var r := KeepLast(stored + [m]);
      && OnePerDay(r)
      && Days(r) == Days(stored) + {m.date}
      && |r| > 0 && r[|r| - 1] == m
      && (OnePerDay(stored) ==> r == Without(stored, m.date) + [m])
  {
    var r := KeepLast(stored + [m]);
    KeepLastSpec(stored + [m]);
    KeepLastAppend(stored, m);
    DaysSnoc(stored, m);
    if OnePerDay(stored) {
      KeepLastOfOnePerDay(stored);
    }
  }

  /** The rows `save_daily_metrics` leaves as written. The stored rows come back from
      `read_csv` as Timestamps and compare equal among themselves; the new snapshot's date
      is a `datetime.date`, which pandas never takes for equal to a Timestamp. So
      `drop_duplicates` deduplicates the stored rows and keeps the new one beside them. */
  function SavedRowsAsWritten(stored: seq<Snapshot>, m: Snapshot): (r: seq<Snapshot>)
    ensures |r| > 0 && r[|r| - 1] == m
  {
    KeepLast(stored) + [m]
  }

  /** As written, a save keeps every day and ends with the new snapshot, and it leaves one
      row per day exactly when the new snapshot's day was not stored yet. */
  lemma SavedRowsAsWrittenSpec(stored: seq<Snapshot>, m: Snapshot)
    ensures Days(SavedRowsAsWritten(stored, m)) == Days(stored) + {m.date}
    ensures OnePerDay(SavedRowsAsWritten(stored, m)) <==> m.date !in Days(stored)
  {
    KeepLastSpec(stored);
    var t := KeepLast(stored);
    DaysSnoc(t, m);
    var r := t + [m];
    assert r == SavedRowsAsWritten(stored, m);
    if m.date in Days(stored) {
      var i :| 0 <= i < |t| && t[i].date == m.date;
      assert r[i] == t[i] && r[|r| - 1] == m;
    } else {
      forall i, j | 0 <= i < j < |r| ensures r[i].date != r[j].date {
        assert r[i] == t[i];
        if j < |r| - 1 {
          assert r[j] == t[j];
        } else {
          assert r[i].date in Days(t);
        }
      }
    }
  }

  /** A second save on the same day, as written, leaves two rows for that day, where the
      intended deduplication leaves one. */
  lemma SameDaySaveKeepsBoth(stored: seq<Snapshot>, m: Snapshot)
    requires m.date in Days(stored)
    ensures !OnePerDay(SavedRowsAsWritten(stored, m))
    ensures OnePerDay(KeepLast(stored + [m]))
    ensures |SavedRowsAsWritten(stored, m)| == |KeepLast(stored + [m])| + 1
  {
    SavedRowsAsWrittenSpec(stored, m);
    SaveSpec(stored, m);
    KeepLastSpec(stored);
    KeepLastAppend(stored, m);
    WithoutDrops(KeepLast(stored), m.date);
  }

  /** Dropping the rows of a day that occurs exactly once removes exactly one row. */
  lemma {:induction false} WithoutDrops(s: seq<Snapshot>, d: Date)
    requires OnePerDay(s) && d in Days(s)
    ensures |Without(s, d)| == |s| - 1
  {
    var rest := s[1..];
    assert s == [s[0]] + rest;
    assert OnePerDay(rest) by {
      forall i, j | 0 <= i < j < |rest| ensures rest[i].date != rest[j].date {
        assert rest[i] == s[i + 1] && rest[j] == s[j + 1];
      }
    }
    if s[0].date == d {
      assert Without(s, d) == Without(rest, d);
      assert d !in Days(rest) by {
        forall i | 0 <= i < |rest| ensures rest[i].date != d {
          assert rest[i] == s[i + 1];
        }
      }
      WithoutKeeps(rest, d);
    } else {
      var i :| 0 <= i < |s| && s[i].date == d;
      assert rest[i - 1] == s[i];
      WithoutDrops(rest, d);
    }
  }

  /** Dropping a day that does not occur changes nothing. */
  lemma {:induction false} WithoutKeeps(s: seq<Snapshot>, d: Date)
    requires d !in Days(s)
    ensures Without(s, d) == s
  {
    if |s| > 0 {
      var rest := s[1..];
      assert s == [s[0]] + rest;
      assert s[0].date != d;
      assert d !in Days(rest) by {
        forall i | 0 <= i < |rest| ensures rest[i].date != d {
          assert rest[i] == s[i + 1];
        }
      }
      WithoutKeeps(rest, d);
    }
  }

  /** The columns a snapshot row fills. */
  const SnapshotColumns: set<string> := {"date", "commits", "open_issues", "contributors"}

  /** A stored snapshot file: its header and its rows. */
  datatype SnapshotFile = SnapshotFile(columns: set<string>, rows: seq<Snapshot>)

  /** The snapshot files. */
  class SnapshotDisk {
    var files: map<string, SnapshotFile>

    constructor (files: map<string, SnapshotFile>)
      ensures this.files == files
    {
      this.files := files;
    }

    /** `load_daily_metrics`: the stored snapshots, none when the file is absent, and a
        ValueError from `parse_dates` when the file has no `date` column. */
    function LoadDailyMetrics(filename: string): (r: Result<seq<Snapshot>>)
      reads this
      ensures filename !in files ==> r == Ok([])
      ensures filename in files && "date" in files[filename].columns ==> r == Ok(files[filename].rows)
      ensures filename in files && "date" !in files[filename].columns ==> r.Err? && r.error.ValueError?
    {
      if filename !in files then Ok([])
      else if "date" in files[filename].columns then Ok(files[filename].rows)
      else Err(ValueError("Missing column provided to 'parse_dates': 'date'"))
    }

    /** The header a save writes: the stored columns and the snapshot's. */
    function SavedColumns(filename: string): set<string>
      reads this
    {
      (if filename in files then files[filename].columns else {}) + SnapshotColumns
    }

    /** `save_daily_metrics`: the stored snapshots and the new one, deduplicated on the
        day keeping the last, written back under the stored columns and the snapshot's.
        When the stored file cannot be read the error is raised and nothing is written. */
    method SaveDailyMetrics(metrics: Snapshot, filename: string) returns (r: Result<()>)
      modifies this
      ensures old(LoadDailyMetrics(filename)).Err? ==>
        r == Err(old(LoadDailyMetrics(filename)).error) && files == old(files)
      ensures old(LoadDailyMetrics(filename)).Ok? ==>
        && r == Ok(())
        && files == old(files)[filename := SnapshotFile(old(SavedColumns(filename)), KeepLast(old(LoadDailyMetrics(filename)).value + [metrics]))]
    {
      var loaded := LoadDailyMetrics(filename);
      if loaded.Err? {
        return Err(loaded.error);
      }
      var df := loaded.value;
      df := df + [metrics];
      df := KeepLast(df);
      files := files[filename := SnapshotFile(SavedColumns(filename), df)];
      r := Ok(());
    }
  }

  /** `load_historic_data`: the stored stars and forks tables, each an empty table with no
      columns when its file is absent; a file without a `date` column raises a ValueError,
      the stars file first. */
  function LoadHistoricData(files: Files): (r: Result<(RawFrame, RawFrame)>)
    ensures r.Ok? <==>
      && (StarsFile in files ==> "date" in files[StarsFile].content.columns)
      && (ForksFile in files ==> "date" in files[ForksFile].content.columns)
    ensures r.Ok? && StarsFile !in files ==> r.value.0 == RawFrame([], [])
    ensures r.Ok? && StarsFile in files ==> r.value.0 == files[StarsFile].content
    ensures r.Ok? && ForksFile !in files ==> r.value.1 == RawFrame([], [])
    ensures r.Ok? && ForksFile in files ==> r.value.1 == files[ForksFile].content
    ensures r.Err? ==> r.error.ValueError?
  {
    var stars :- if StarsFile in files then ReadDated(files[StarsFile]) else Ok(RawFrame([], []));
    var forks :- if ForksFile in files then ReadDated(files[ForksFile]) else Ok(RawFrame([], []));
    Ok((stars, forks))
  }
}
