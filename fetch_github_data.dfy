/** The standalone fetch script: pull requests counted per day in a dictionary, then
    turned into a dated table, and the pypistats recent downloads reshaped into a table. */
module FetchGitHubData {
  import opened Wrappers
  import opened Json
  import opened Http
  import opened Dates
  import opened Orders
  import opened Series
  import opened Frames
  import opened PullRequestPages
  import opened PypiRecords

  // ---------------------------------------------------------------------------------
  // The per-day dictionary
  // ---------------------------------------------------------------------------------

  /** The distinct days in order of first appearance: the key order of a dictionary filled
      from `s`. */
  function FirstSeen(s: seq<string>): (r: seq<string>)
    ensures forall k :: k in r <==> k in s
  {
    if |s| == 0 then []
    else
      var init := s[..|s| - 1];
      var x := s[|s| - 1];
      assert s == init + [x];
      FirstSeen(init) + (if x in init then [] else [x])
  }

  /** No day is listed twice. */
  lemma {:induction false} FirstSeenDistinct(s: seq<string>)
    ensures forall i, j :: 0 <= i < j < |FirstSeen(s)| ==> FirstSeen(s)[i] != FirstSeen(s)[j]
  {
    if |s| > 0 {
      var init := s[..|s| - 1];
      assert s == init + [s[|s| - 1]];
      FirstSeenDistinct(init);
    }
  }

  /** The dictionary `pr_counts` after counting the days of `s`, one after the other:
      `pr_counts[date] = pr_counts.get(date, 0) + 1`. */
  function CountsOf(s: seq<string>): (m: map<string, nat>)
    ensures forall k :: k in m <==> k in s
  {
    if |s| == 0 then map[]
    else
      var init := s[..|s| - 1];
      var x := s[|s| - 1];
      assert s == init + [x];
      var m := CountsOf(init);
      m[x := (if x in m then m[x] else 0) + 1]
  }

  /** Each day's entry is the number of times it occurs. */
  lemma {:induction false} CountsOfSpec(s: seq<string>)
    ensures forall k :: k in CountsOf(s) ==> CountsOf(s)[k] == multiset(s)[k]
  {
    if |s| > 0 {
      var init := s[..|s| - 1];
      var x := s[|s| - 1];
      assert s == init + [x];
      assert multiset(s) == multiset(init) + multiset{x};
      CountsOfSpec(init);
    }
  }

  /** One more day counted, and the key order it leaves. */
  lemma {:induction false} CountsOfSnoc(s: seq<string>, x: string)
    ensures CountsOf(s + [x]) == CountsOf(s)[x := (if x in CountsOf(s) then CountsOf(s)[x] else 0) + 1]
    ensures FirstSeen(s + [x]) == FirstSeen(s) + (if x in s then [] else [x])
  {
    var t := s + [x];
    assert t[..|t| - 1] == s;
  }

  /** The rows of `list(pr_counts.items())`. */
  function Items(keys: seq<string>, counts: map<string, nat>): (r: seq<(string, nat)>)
    requires forall k :: k in keys ==> k in counts
    ensures |r| == |keys| && forall i :: 0 <= i < |keys| ==> r[i] == (keys[i], counts[keys[i]])
  {
    seq(|keys|, i requires 0 <= i < |keys| => (keys[i], counts[keys[i]]))
  }

  /** Raising one key's count by one raises the sum by one. */
  lemma {:induction false} TotalBump(keys: seq<string>, c: map<string, nat>, d: map<string, nat>, x: string)
    requires forall k :: k in keys ==> k in c && k in d
    requires forall i, j :: 0 <= i < j < |keys| ==> keys[i] != keys[j]
    requires x in keys && d[x] == c[x] + 1
    requires forall k :: k in keys && k != x ==> d[k] == c[k]
    ensures Total(Items(keys, d)) == Total(Items(keys, c)) + 1
  {
    var rest := keys[1..];
    assert Items(keys, d)[1..] == Items(rest, d);
    assert Items(keys, c)[1..] == Items(rest, c);
    if keys[0] == x {
      assert x !in rest by {
        forall i | 0 <= i < |rest| ensures rest[i] != x {
          assert rest[i] == keys[i + 1];
        }
      }
      assert Items(rest, d) == Items(rest, c);
    } else {
      assert x in rest;
      TotalBump(rest, c, d, x);
    }
  }

  lemma {:induction false} CountAgain(init: seq<string>, x: string)
    requires x in init
    ensures Total(Items(FirstSeen(init + [x]), CountsOf(init + [x]))) == Total(Items(FirstSeen(init), CountsOf(init))) + 1
  {
    CountsOfSnoc(init, x);
    var c := CountsOf(init);
    var d := CountsOf(init + [x]);
    var keys := FirstSeen(init);
    assert FirstSeen(init + [x]) == keys + [] == keys;
    assert d == c[x := c[x] + 1];
    assert x in keys;
    assert forall k :: k in keys && k != x ==> d[k] == c[k];
    FirstSeenDistinct(init);
    TotalBump(keys, c, d, x);
  }

  lemma {:induction false} CountNew(init: seq<string>, x: string)
    requires x !in init
    ensures Total(Items(FirstSeen(init + [x]), CountsOf(init + [x]))) == Total(Items(FirstSeen(init), CountsOf(init))) + 1
  {
    CountsOfSnoc(init, x);
    var keys := FirstSeen(init);
    var c := CountsOf(init);
    var d := CountsOf(init + [x]);
    assert d == c[x := 1];
    assert Items(keys + [x], d) == Items(keys, d) + [(x, 1)];
    assert Items(keys, d) == Items(keys, c);
    TotalAppend(Items(keys, d), [(x, 1)]);
    assert Total([(x, 1)]) == 1;
  }

  /** The counts add up to the number of days counted. */
  lemma {:induction false} TotalCounts(s: seq<string>)
    ensures Total(Items(FirstSeen(s), CountsOf(s))) == |s|
  {
    if |s| > 0 {
      var init := s[..|s| - 1];
      var x := s[|s| - 1];
      assert s == init + [x];
      TotalCounts(init);
      if x in init {
        CountAgain(init, x);
      } else {
        CountNew(init, x);
      }
    }
  }

  // ---------------------------------------------------------------------------------
  // The table
  // ---------------------------------------------------------------------------------

  /** `pd.to_datetime` over the date column: every key must be a day text, otherwise it
      raises. */
  function ParseRows(items: seq<(string, nat)>): (r: Result<seq<Row>>)
    ensures r.Ok? <==> forall i :: 0 <= i < |items| ==> IsDayText(items[i].0)
    ensures r.Ok? ==> |r.value| == |items|
    ensures r.Ok? ==> forall i :: 0 <= i < |items| ==> r.value[i] == (ParseDay(items[i].0).value, items[i].1)
  {
    if forall i :: 0 <= i < |items| ==> IsDayText(items[i].0) then
      Ok(seq(|items|, i requires 0 <= i < |items| => (ParseDay(items[i].0).value, items[i].1)))
    else Err(ValueError("unparseable date"))
  }

  /** The counted days dated, one row per distinct day text, in order of first appearance. */
  function DayRows(days: seq<string>): Result<seq<Row>> {
    ParseRows(Items(FirstSeen(days), CountsOf(days)))
  }

  /** The table built from the counted days: one row per distinct day text, in order of
      first appearance, then dated and sorted by date. */
  function PrFrame(days: seq<string>): Result<Frame> {
    var rows :- DayRows(days);
    Ok(Frame(["date", "pr_count"], SortBy(rows, DateLe)))
  }

  /** What `fetch_pull_requests` returns for how its walk ended. */
  function PrResult(outcome: Outcome): Result<Option<Frame>> {
    match outcome
    case Raised(e) => Err(e)
    case Refused(_) => Ok(None)
    case Collected(days) =>
      var f :- PrFrame(days);
      Ok(Some(f))
  }

  lemma {:induction false} PrFrameOk(days: seq<string>)
    ensures PrFrame(days).Ok? <==> forall d :: d in days ==> IsDayText(d)
  {
    var keys := FirstSeen(days);
    var items := Items(keys, CountsOf(days));
    if forall d :: d in days ==> IsDayText(d) {
      forall i | 0 <= i < |items| ensures IsDayText(items[i].0) {
        assert keys[i] in days;
      }
    } else {
      var d :| d in days && !IsDayText(d);
      var i :| 0 <= i < |keys| && keys[i] == d;
      assert !IsDayText(items[i].0);
    }
  }

  /** Row `j` before sorting belongs to the `j`-th distinct day and holds its count. */
  lemma {:induction false} DayRowsSpec(days: seq<string>)
    requires DayRows(days).Ok?
    ensures |DayRows(days).value| == |FirstSeen(days)|
    ensures forall j :: 0 <= j < |FirstSeen(days)| ==>
      && FirstSeen(days)[j] in days
      && ParseDay(FirstSeen(days)[j]) == Some(DayRows(days).value[j].0)
      && DayRows(days).value[j].1 == multiset(days)[FirstSeen(days)[j]]
  {
    CountsOfSpec(days);
    var keys := FirstSeen(days);
    var items := Items(keys, CountsOf(days));
    forall j | 0 <= j < |keys|
      ensures ParseDay(keys[j]) == Some(DayRows(days).value[j].0)
    {
      assert IsDayText(items[j].0);
    }
  }

  /** A row that some day's pull requests produced: its date is that day's, its count the
      number of pull requests created that day. */
  ghost predicate CountedDay(days: seq<string>, row: Row) {
    exists d :: d in days && ParseDay(d) == Some(row.0) && row.1 == multiset(days)[d]
  }

  /** Rows made one per key, each holding its key's date and count, and kept as a set by a
      sort: every row comes from a day, and every key's row is there. */
  lemma {:induction false} RowsOfKeys(days: seq<string>, keys: seq<string>, rows: seq<Row>, sorted: seq<Row>)
    requires |rows| == |keys|
    requires forall j :: 0 <= j < |keys| ==> keys[j] in days
    requires forall d :: d in days ==> d in keys
    requires forall j :: 0 <= j < |keys| ==> ParseDay(keys[j]) == Some(rows[j].0) && rows[j].1 == multiset(days)[keys[j]]
    requires forall x :: x in sorted <==> x in rows
    ensures forall i :: 0 <= i < |sorted| ==>
      CountedDay(days, sorted[i])
    ensures forall d :: d in days ==> (ParseDay(d).value, multiset(days)[d]) in sorted
  {
    forall i | 0 <= i < |sorted|
      ensures CountedDay(days, sorted[i])
    {
      assert sorted[i] in rows;
      var j :| 0 <= j < |rows| && rows[j] == sorted[i];
      var d := keys[j];
      assert d in days && ParseDay(d) == Some(sorted[i].0) && sorted[i].1 == multiset(days)[d];
    }
    forall d | d in days ensures (ParseDay(d).value, multiset(days)[d]) in sorted {
      var j :| 0 <= j < |keys| && keys[j] == d;
      assert rows[j] in rows;
    }
  }

  /** The table's rows are the dated rows, sorted. */
  lemma {:induction false} PrFrameRowsSorted(days: seq<string>)
    requires PrFrame(days).Ok?
    ensures DayRows(days).Ok? && PrFrame(days).value.rows == SortBy(DayRows(days).value, DateLe)
  {
  }

  lemma {:induction false} PrFrameRows(days: seq<string>)
    requires PrFrame(days).Ok?
    ensures var f := PrFrame(days).value;
      forall i :: 0 <= i < |f.rows| ==>
        CountedDay(days, f.rows[i])
    ensures forall d :: d in days ==> (ParseDay(d).value, multiset(days)[d]) in PrFrame(days).value.rows
  {
    PrFrameRowsSorted(days);
    var rows := DayRows(days).value;
    SortByMembers(rows, DateLe);
    DayRowsSpec(days);
    RowsOfKeys(days, FirstSeen(days), rows, PrFrame(days).value.rows);
  }

  lemma {:induction false} PrFrameTotal(days: seq<string>)
    requires PrFrame(days).Ok?
    ensures Total(PrFrame(days).value.rows) == |days|
  {
    var items := Items(FirstSeen(days), CountsOf(days));
    var rows := DayRows(days).value;
    TotalCounts(days);
    TotalOfValues(items, rows);
    TotalPermutation(rows, SortBy(rows, DateLe));
  }

  /** The pull request table: it raises exactly when some day is not a date; otherwise it
      is sorted by date, has one row per distinct day text, each row holds the number of
      pull requests created on its day, every day has its row, and the counts add up to the
      number of pull requests. */
  lemma {:induction false} PrFrameSpec(days: seq<string>)
    ensures PrFrame(days).Ok? <==> forall d :: d in days ==> IsDayText(d)
    ensures PrFrame(days).Ok? ==> var f := PrFrame(days).value;
      && f.columns == ["date", "pr_count"]
      && SortedBy(f.rows, DateLe)
      && |f.rows| == |FirstSeen(days)|
      && (forall i :: 0 <= i < |f.rows| ==>
            CountedDay(days, f.rows[i]))
      && (forall d :: d in days ==> (ParseDay(d).value, multiset(days)[d]) in f.rows)
      && Total(f.rows) == |days|
  {
    PrFrameOk(days);
    if PrFrame(days).Ok? {
      var rows := DayRows(days).value;
      DateLeIsTotalPreorder();
      SortBySorted(rows, DateLe);
      PrFrameRows(days);
      PrFrameTotal(days);
    }
  }

  /** Counting one more day: the dictionary bumps its count, the key order gains the day
      if it is new. */
  lemma {:induction false} CountStep(acc: seq<string>, c: map<string, nat>, o: seq<string>, x: string)
    requires c == CountsOf(acc) && o == FirstSeen(acc)
    ensures c[x := (if x in c then c[x] else 0) + 1] == CountsOf(acc + [x])
    ensures (if x in o then o else o + [x]) == FirstSeen(acc + [x])
  {
    CountsOfSnoc(acc, x);
    assert x in o <==> x in acc;
  }

  /** After `i` pull requests of a page, `acc` holds the days read so far and the rest of the
      page completes them to the whole page's outcome. */
  ghost predicate PageRead(seen: seq<string>, acc: seq<string>, items: seq<Json>, i: nat)
    requires i <= |items|
  {
    Extend(acc, ListDays(items[i..])) == Extend(seen, ListDays(items))
  }

  /** `pr_counts[date] = pr_counts.get(date, 0) + 1`, with the dictionary's key order. */
  method CountDay(c: map<string, nat>, o: seq<string>, ghost acc: seq<string>, d: string)
    returns (c': map<string, nat>, o': seq<string>)
    requires c == CountsOf(acc) && o == FirstSeen(acc)
    ensures c' == CountsOf(acc + [d]) && o' == FirstSeen(acc + [d])
  {
    CountStep(acc, c, o, d);
    c' := c[d := (if d in c then c[d] else 0) + 1];
    o' := if d in o then o else o + [d];
  }

  /** One pull request further into the page: a bad one is the page's error, a good one
      moves its day from the days still to read to the days read. */
  lemma {:induction false} PageAdvance(seen: seq<string>, acc: seq<string>, next: seq<string>, items: seq<Json>, i: nat)
    requires i < |items| && PageRead(seen, acc, items, i)
    requires PrDay(items[i]).Ok? ==> next == acc + [PrDay(items[i]).value]
    ensures PrDay(items[i]).Err? ==> ListDays(items) == Err(PrDay(items[i]).error)
    ensures PrDay(items[i]).Ok? ==> PageRead(seen, next, items, i + 1)
  {
    ListDaysCons(items[i..]);
    assert items[i..][0] == items[i];
    assert items[i..][1..] == items[i + 1..];
    if PrDay(items[i]).Ok? {
      ExtendTwice(acc, [PrDay(items[i]).value], ListDays(items[i + 1..]));
    }
  }

  /** The inner loop: the days of one page counted into the dictionary, in order. */
  method CountPage(counts: map<string, nat>, order: seq<string>, ghost seen: seq<string>, items: seq<Json>)
    returns (r: Result<(map<string, nat>, seq<string>)>, ghost counted: seq<string>)
    requires counts == CountsOf(seen) && order == FirstSeen(seen)
    ensures r.Err? <==> ListDays(items).Err?
    ensures r.Err? ==> r.error == ListDays(items).error
    ensures r.Ok? ==> counted == seen + ListDays(items).value
    ensures r.Ok? ==> r.value == (CountsOf(counted), FirstSeen(counted))
  {
    var c, o := counts, order;
    ghost var acc := seen;
    var i := 0;
    ExtendEmpty(ListDays(items));
    while i < |items|
      invariant 0 <= i <= |items|
      invariant c == CountsOf(acc)
      invariant o == FirstSeen(acc)
      invariant PageRead(seen, acc, items, i)
    {
      var date := PrDay(items[i]);
      if date.Err? {
        PageAdvance(seen, acc, acc, items, i);
        return Err(date.error), acc;
      }
      var d := date.value;
      PageAdvance(seen, acc, acc + [d], items, i);
      c, o := CountDay(c, o, acc, d);
      acc := acc + [d];
      i := i + 1;
    }
    assert items[i..] == [];
    assert acc + [] == acc;
    return Ok((c, o)), acc;
  }

  /** The conversion: the dictionary's items dated, in key order; the first key that is
      not a date raises. */
  method DateRows(counts: map<string, nat>, order: seq<string>) returns (r: Result<seq<Row>>)
    requires forall k :: k in order ==> k in counts
    ensures r == ParseRows(Items(order, counts))
  {
    var rows: seq<Row> := [];
    var i := 0;
    while i < |order|
      invariant 0 <= i <= |order|
      invariant forall j :: 0 <= j < i ==> IsDayText(order[j])
      invariant rows == seq(i, j requires 0 <= j < i => (ParseDay(order[j]).value, counts[order[j]]))
    {
      var date := ParseDay(order[i]);
      if date.None? {
        assert !IsDayText(Items(order, counts)[i].0);
        return Err(ValueError("unparseable date"));
      }
      rows := rows + [(date.value, counts[order[i]])];
      i := i + 1;
    }
    var items := Items(order, counts);
    assert forall j :: 0 <= j < |items| ==> items[j].0 == order[j];
    assert ParseRows(items).Ok?;
    assert ParseRows(items).value == rows;
    return Ok(rows);
  }

  /** `fetch_pull_requests`: read pages from 1 until one is refused (None, discarding what
      was counted) or empty; count the pull requests per `created_at[:10]`; then date and
      sort the counts. */
  method FetchPullRequests(server: PageServer) returns (r: Result<Option<Frame>>)
    requires Stops(server, 1)
    ensures r == PrResult(Pulled(server, 1))
  {
    ghost var fuel0: nat :| Walk(server, 1, fuel0).Some?;
    ghost var fuel := fuel0;
    ghost var seen: seq<string> := [];
    var prCounts: map<string, nat> := map[];
    var order: seq<string> := [];
    var page: nat := 1;
    AfterEmpty(Walk(server, 1, fuel0).value);
    while true
      invariant Walk(server, page, fuel).Some?
      invariant After(seen, Walk(server, page, fuel).value) == Walk(server, 1, fuel0).value
      invariant prCounts == CountsOf(seen) && order == FirstSeen(seen)
      decreases fuel
    {
      WalkStep(server, page, fuel);
      var response := server(page);
      if response.status != 200 {
        return Ok(None);
      }
      var prs := response.body;
      if !Truthy(prs) {
        break;
      }
      if !prs.JList? {
        return Err(TypeError);
      }
      var counted, now := CountPage(prCounts, order, seen, prs.items);
      if counted.Err? {
        return Err(counted.error);
      }
      AfterTwice(seen, ListDays(prs.items).value, Walk(server, page + 1, fuel - 1).value);
      prCounts, order := counted.value.0, counted.value.1;
      seen := now;
      page := page + 1;
      fuel := fuel - 1;
    }
    assert seen + [] == seen;
    var rows := DateRows(prCounts, order);
    if rows.Err? {
      return Err(rows.error);
    }
    return Ok(Some(Frame(["date", "pr_count"], SortBy(rows.value, DateLe))));
  }

  /** `fetch_pypi_downloads`: a refused answer is None; otherwise the `data` records of the
      body (none when the key is missing) become a table, an empty table is None, and a
      non-empty one gives the `date`/`downloads` view sorted by date. */
  function FetchPypiDownloads(response: Response<Json>): Result<Option<Downloads>> {
    if response.status != 200 then Ok(None)
    else if !response.body.JObj? then Err(AttributeError("get"))
    else
      var t :- Build(GetOr(response.body.fields, "data", JList([])));
      if IsEmptyTable(t) then Ok(None)
      else
        var v :- DownloadsView(t);
        Ok(Some(v))
  }

  /** A refused answer gives None and a body that is not an object raises. With an
      object body, the answer is None exactly when its records build an empty table; a
      non-empty list of records is a view with one row per record, each the record's
      converted date and downloads in some order, sorted by date with NaT last; records
      without a `date` column raise a KeyError for it. */
  lemma FetchPypiDownloadsSpec(response: Response<Json>)
    ensures response.status != 200 ==> FetchPypiDownloads(response) == Ok(None)
    ensures response.status == 200 && !response.body.JObj? ==> FetchPypiDownloads(response) == Err(AttributeError("get"))
    ensures response.status == 200 && response.body.JObj? ==>
      var data := GetOr(response.body.fields, "data", JList([]));
      && (FetchPypiDownloads(response) == Ok(None) <==> Build(data).Ok? && IsEmptyTable(Build(data).value))
      && ((data.JNull? || data == JList([])) ==> FetchPypiDownloads(response) == Ok(None))
      && (data.JList? && |data.items| > 0 && !AllObjects(data.items) ==> FetchPypiDownloads(response) == Err(KeyError("date")))
      && (FetchPypiDownloads(response).Ok? && FetchPypiDownloads(response).value.Some? ==>
            var v := FetchPypiDownloads(response).value.value;
            && data.JList? && AllObjects(data.items)
            && v.columns == ["date", "downloads"]
            && |v.rows| == |data.items|
            && SortedBy(v.rows, NaTLast)
            && (forall i :: 0 <= i < |data.items| ==> DateCell(data.items[i].fields).Ok?)
            && multiset(v.rows) == multiset(seq(|data.items|, i requires 0 <= i < |data.items| =>
                 (DateCell(data.items[i].fields).value, GetOr(data.items[i].fields, "downloads", JNull)))))
  {
    if response.status == 200 && response.body.JObj? {
      var data := GetOr(response.body.fields, "data", JList([]));
      if data.JList? && AllObjects(data.items) {
        ListViewSpec(data.items);
      }
    }
  }
}
