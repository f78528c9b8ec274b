/** The table pandas builds from the `data` records of a pypistats answer, its parsed date
    column, and the `date`/`downloads` view of it that the download fetchers return. */
module PypiRecords {
  import opened Wrappers
  import opened Json
  import opened Dates
  import opened Orders

  /** `pd.DataFrame(value)` for the values it accepts: a list of objects gives one record
      per object and one column per key any of them has; a list holding anything else
      gives positional columns, none of them called "date". */
  datatype Table =
    | Records(columns: set<string>, records: seq<map<string, Json>>)
    | Positional(length: nat)

  predicate AllObjects(items: seq<Json>) {
    forall i :: 0 <= i < |items| ==> items[i].JObj?
  }

  /** The keys any of the objects has. */
  function KeysOf(items: seq<Json>): set<string>
    requires AllObjects(items)
  {
    if |items| == 0 then {} else items[0].fields.Keys + KeysOf(items[1..])
  }

  lemma {:induction false} KeysOfSpec(items: seq<Json>)
    requires AllObjects(items)
    ensures forall i, k :: 0 <= i < |items| && k in items[i].fields ==> k in KeysOf(items)
  {
    if |items| > 0 {
      KeysOfSpec(items[1..]);
      forall i, k | 0 <= i < |items| && k in items[i].fields ensures k in KeysOf(items) {
        if i > 0 {
          assert items[i] == items[1..][i - 1];
        }
      }
    }
  }

  /** Building the table: nothing gives the empty table, a list its records, an empty
      object the empty table; an object of scalars, a string, a number or a boolean raise. */
  function Build(value: Json): (r: Result<Table>)
    ensures value.JList? ==> r.Ok?
    ensures r.Ok? && r.value.Records? ==> |r.value.records| == (if value.JList? then |value.items| else 0)
    ensures value.JList? && AllObjects(value.items) ==>
      r == Ok(Records(KeysOf(value.items), seq(|value.items|, i requires 0 <= i < |value.items| => value.items[i].fields)))
    ensures value.JList? && !AllObjects(value.items) ==> r == Ok(Positional(|value.items|))
    ensures (value.JStr? || value.JInt? || value.JBool? || (value.JObj? && |value.fields| > 0)) ==> r.Err? && r.error.ValueError?
  {
    match value
    case JNull => Ok(Records({}, []))
    case JList(items) =>
      if AllObjects(items) then Ok(Records(KeysOf(items), seq(|items|, i requires 0 <= i < |items| => items[i].fields)))
      else Ok(Positional(|items|))
    case JObj(fields) =>
      if |fields| == 0 then Ok(Records({}, [])) else Err(ValueError("all scalar values need an index"))
    case _ => Err(ValueError("DataFrame constructor not properly called"))
  }

  /** `df.empty`: no rows or no columns. A positional table of a non-empty list has both. */
  predicate IsEmptyTable(t: Table) {
    match t
    case Records(columns, records) => |records| == 0 || |columns| == 0
    case Positional(length) => length == 0
  }

  /** `pd.to_datetime` on one record's `date` cell: a missing cell, `null` or the empty
      text is NaT; a "YYYY-MM-DD" text is its day; anything else raises. */
  function DateCell(rec: map<string, Json>): (r: Result<Option<Date>>)
    ensures r.Ok? && r.value.Some? <==> "date" in rec && rec["date"].JStr? && IsDayText(rec["date"].s)
    ensures r.Ok? && r.value.Some? ==> r.value == ParseDay(rec["date"].s)
    ensures r.Err? <==> "date" in rec && !(rec["date"].JNull? || (rec["date"].JStr? && (rec["date"].s == "" || IsDayText(rec["date"].s))))
  {
    if "date" !in rec then Ok(None)
    else
      match rec["date"]
      case JNull => Ok(None)
      case JStr(s) =>
        if s == "" then Ok(None)
        else if IsDayText(s) then Ok(ParseDay(s))
        else Err(ValueError("unparseable date"))
      case _ => Err(ValueError("unparseable date"))
  }

  /** The date column converted, record by record; one bad cell raises. */
  function ParsedDates(records: seq<map<string, Json>>): (r: Result<seq<Option<Date>>>)
    ensures r.Ok? <==> forall i :: 0 <= i < |records| ==> DateCell(records[i]).Ok?
    ensures r.Ok? ==> |r.value| == |records|
    ensures r.Ok? ==> forall i :: 0 <= i < |records| ==> r.value[i] == DateCell(records[i]).value
    ensures r.Err? ==> r.error.ValueError?
  {
    if |records| == 0 then Ok([])
    else
      assert forall j :: 0 <= j < |records| - 1 ==> records[1..][j] == records[j + 1];
      match DateCell(records[0])
      case Err(e) => Err(e)
      case Ok(d) =>
        match ParsedDates(records[1..])
        case Err(e) => Err(e)
        case Ok(rest) => Ok([d] + rest)
  }

  /** A row of the downloads view: its date (None for NaT) and its `downloads` cell, `null`
      where the record has none (NaN). */
  type DailyRow = (Option<Date>, Json)

  /** `df['date'] = pd.to_datetime(df['date'])` and then `df[['date', 'downloads']]`: the
      `date` column must exist, every cell of it must convert, and then the `downloads`
      column must exist. */
  function Selected(t: Table): Result<seq<DailyRow>> {
    match t
    case Positional(_) => Err(KeyError("date"))
    case Records(columns, records) =>
      if "date" !in columns then Err(KeyError("date"))
      else
        var dates :- ParsedDates(records);
        if "downloads" !in columns then Err(KeyError("downloads"))
        else Ok(seq(|records|, i requires 0 <= i < |records| => (dates[i], GetOr(records[i], "downloads", JNull))))
  }

  /** `sort_values('date')` order: by day, NaT after every day. */
  function NaTLast(a: DailyRow, b: DailyRow): bool {
    match a.0
    case None => b.0.None?
    case Some(x) => b.0.None? || x <= b.0.value
  }

  lemma NaTLastIsTotalPreorder()
    ensures TotalPreorder(NaTLast)
  {
  }

  /** The two columns the fetchers return, and the rows. */
  datatype Downloads = Downloads(columns: seq<string>, rows: seq<DailyRow>)

  /** The downloads view sorted by date. */
  function DownloadsView(t: Table): Result<Downloads> {
    var rows :- Selected(t);
    Ok(Downloads(["date", "downloads"], SortBy(rows, NaTLast)))
  }

  /** The view exists exactly when the table has records with a `date` and a `downloads`
      column and every date converts; the missing `date` column is reported first. The
      view has the two columns, one row per record (each record's converted date and its
      downloads, in some order), sorted by date with NaT last. */
  lemma DownloadsViewSpec(t: Table)
    ensures DownloadsView(t).Ok? <==>
      && t.Records? && "date" in t.columns && "downloads" in t.columns
      && (forall i :: 0 <= i < |t.records| ==> DateCell(t.records[i]).Ok?)
    ensures (t.Positional? || "date" !in t.columns) ==> DownloadsView(t) == Err(KeyError("date"))
    ensures DownloadsView(t).Ok? ==>
      var v := DownloadsView(t).value;
      && v.columns == ["date", "downloads"]
      && |v.rows| == |t.records|
      && SortedBy(v.rows, NaTLast)
      && multiset(v.rows) == multiset(Selected(t).value)
      && (forall i :: 0 <= i < |t.records| ==>
            Selected(t).value[i] == (DateCell(t.records[i]).value, GetOr(t.records[i], "downloads", JNull)))
  {
    if DownloadsView(t).Ok? {
      NaTLastIsTotalPreorder();
      SortBySorted(Selected(t).value, NaTLast);
    }
  }

  /** The view of a list of records in terms of the records themselves. */
  lemma ListViewSpec(items: seq<Json>)
    requires AllObjects(items)
    ensures Build(JList(items)).Ok?
    ensures DownloadsView(Build(JList(items)).value).Ok? <==>
      "date" in KeysOf(items) && "downloads" in KeysOf(items) && forall i :: 0 <= i < |items| ==> DateCell(items[i].fields).Ok?
    ensures DownloadsView(Build(JList(items)).value).Ok? ==>
      var v := DownloadsView(Build(JList(items)).value).value;
      && v.columns == ["date", "downloads"]
      && |v.rows| == |items|
      && SortedBy(v.rows, NaTLast)
      && (forall i :: 0 <= i < |items| ==> DateCell(items[i].fields).Ok?)
      && multiset(v.rows) == multiset(seq(|items|, i requires 0 <= i < |items| =>
           (DateCell(items[i].fields).value, GetOr(items[i].fields, "downloads", JNull))))
  {
    var t := Build(JList(items)).value;
    DownloadsViewSpec(t);
    assert forall i :: 0 <= i < |items| ==> t.records[i] == items[i].fields;
    if DownloadsView(t).Ok? {
      assert Selected(t).value == seq(|items|, i requires 0 <= i < |items| =>
        (DateCell(items[i].fields).value, GetOr(items[i].fields, "downloads", JNull)));
    }
  }

  /** Rows with NaT come after every dated row of a sorted view. */
  lemma NaTAfterDays(rows: seq<DailyRow>)
    requires SortedBy(rows, NaTLast)
    ensures forall i, j :: 0 <= i < j < |rows| && rows[i].0.None? ==> rows[j].0.None?
  {
    forall i, j | 0 <= i < j < |rows| && rows[i].0.None? ensures rows[j].0.None? {
      assert NaTLast(rows[i], rows[j]);
    }
  }

  /** The whole table with its date column converted: each record's date, and its other
      cells. */
  datatype DailyTable = DailyTable(columns: set<string>, rows: seq<(Option<Date>, map<string, Json>)>)

  /** `df['date'] = pd.to_datetime(df['date'])`, keeping every column and the record order. */
  function Dated(t: Table): (r: Result<DailyTable>)
    ensures r.Ok? <==> t.Records? && "date" in t.columns && forall i :: 0 <= i < |t.records| ==> DateCell(t.records[i]).Ok?
    ensures (t.Positional? || "date" !in t.columns) ==> r == Err(KeyError("date"))
    ensures r.Ok? ==> r.value.columns == t.columns && |r.value.rows| == |t.records|
    ensures r.Ok? ==> forall i :: 0 <= i < |t.records| ==>
      r.value.rows[i] == (DateCell(t.records[i]).value, t.records[i] - {"date"})
  {
    match t
    case Positional(_) => Err(KeyError("date"))
    case Records(columns, records) =>
      if "date" !in columns then Err(KeyError("date"))
      else
        var dates :- ParsedDates(records);
        Ok(DailyTable(columns, seq(|records|, i requires 0 <= i < |records| => (dates[i], records[i] - {"date"}))))
  }
}
