/** The GraphQL fetcher: POSTed queries, the cursor walk over the stargazers and forks
    connections of a repository, and the cumulative series built from the event days.
    The endpoint is a function from the posted JSON payload to the response. */
module GitHubGraphql {
  import opened Wrappers
  import opened Json
  import opened Http
  import opened Dates
  import opened Orders
  import opened Series
  import opened Frames

  /** What the GraphQL endpoint answers to a posted payload. */
  type Post = Json -> Response<Json>

  /** The request body: the query, and the variables only when they are truthy. */
  function Payload(query: string, variables: Json): (p: Json)
    ensures p.JObj? && "query" in p.fields && p.fields["query"] == JStr(query)
    ensures "variables" in p.fields <==> Truthy(variables)
    ensures "variables" in p.fields ==> p.fields["variables"] == variables
    ensures forall k :: k in p.fields ==> k == "query" || k == "variables"
  {
    var base := map["query" := JStr(query)];
    JObj(if Truthy(variables) then base["variables" := variables] else base)
  }

  /** `run_query`: the decoded body of a 200 answer; any other status raises. */
  function RunQuery(post: Post, query: string, variables: Json): (r: Result<Json>)
    ensures r.Err? <==> post(Payload(query, variables)).status != 200
    ensures r.Ok? ==> r.value == post(Payload(query, variables)).body
  {
    var response := post(Payload(query, variables));
    if response.status != 200 then Err(ValueError("query failed")) else Ok(response.body)
  }

  /** The two connections walked: stargazers and forks. */
  datatype Connection = Stargazers | Forks

  /** The connection's field under `repository`. */
  function ConnectionField(c: Connection): string {
    match c
    case Stargazers => "stargazers"
    case Forks => "forks"
  }

  /** The value column of the resulting table. */
  function ValueColumn(c: Connection): string {
    match c
    case Stargazers => "stars"
    case Forks => "forks"
  }

  /** The query text: the first 100 edges after `$cursor`, with the page info, the star
      time of each stargazer edge or the creation time of each fork node. */
  function Query(c: Connection): string {
    match c
    case Stargazers => StargazersQuery
    case Forks => ForksQuery
  }

  const StargazersQuery: string :=
    "query($owner:String!, $name:String!, $cursor:String){ repository(owner:$owner, name:$name) { stargazers(first: 100, after: $cursor) { pageInfo { hasNextPage endCursor } edges { starredAt } } } }"
  const ForksQuery: string :=
    "query($owner:String!, $name:String!, $cursor:String){ repository(owner:$owner, name:$name) { forks(first: 100, after: $cursor) { pageInfo { hasNextPage endCursor } edges { node { createdAt } } } } }"

  /** The variables of a request: owner, repository name and cursor (`None` at first). */
  function Variables(owner: string, repo: string, cursor: Json): (v: Json)
    ensures Truthy(v)
  {
    var v := map["owner" := JStr(owner), "name" := JStr(repo), "cursor" := cursor];
    assert "owner" in v && "name" in v && "cursor" in v;
    assert v.Keys >= {"owner", "name", "cursor"};
    JObj(v)
  }

  /** The timestamp an edge carries: `edge["starredAt"]`, or `edge["node"]["createdAt"]`. */
  function EventTime(c: Connection, edge: Json): Result<Json> {
    match c
    case Stargazers => Field(edge, "starredAt")
    case Forks =>
      var node :- Field(edge, "node");
      Field(node, "createdAt")
  }

  /** The event day of an edge: the first ten characters of its timestamp. */
  function EdgeDay(c: Connection, edge: Json): (r: Result<string>)
    ensures r.Ok? <==> EventTime(c, edge).Ok? && EventTime(c, edge).value.JStr?
    ensures r.Ok? ==> var t := EventTime(c, edge).value.s;
      r.value == (if |t| <= 10 then t else t[..10])
  {
    var t :- EventTime(c, edge);
    if t.JStr? then Ok(Prefix10(t.s)) else Err(TypeError)
  }

  /** The event days of a list of edges, in order; the first bad edge raises. */
  function ListDays(c: Connection, items: seq<Json>): (r: Result<seq<string>>)
    ensures r.Ok? <==> forall i :: 0 <= i < |items| ==> EdgeDay(c, items[i]).Ok?
    ensures r.Ok? ==> |r.value| == |items|
    ensures r.Ok? ==> forall i :: 0 <= i < |items| ==> r.value[i] == EdgeDay(c, items[i]).value
  {
    if |items| == 0 then Ok([])
    else
      var d :- EdgeDay(c, items[0]);
      var rest :- ListDays(c, items[1..]);
      assert forall i :: 1 <= i < |items| ==> items[i] == items[1..][i - 1];
      Ok([d] + rest)
  }

  /** `for edge in edges`: a list gives its edges; an empty object or string gives none;
      iterating anything else, or subscripting what a non-empty object or string yields,
      raises a TypeError. */
  function EdgeDays(c: Connection, edges: Json): (r: Result<seq<string>>)
    ensures edges.JList? ==> r == ListDays(c, edges.items)
    ensures !edges.JList? ==> (r.Ok? <==> !Truthy(edges) && (edges.JObj? || edges.JStr?))
    ensures r.Ok? && !edges.JList? ==> r.value == []
  {
    match edges
    case JList(items) => ListDays(c, items)
    case JObj(fields) => if |fields| == 0 then Ok([]) else Err(TypeError)
    case JStr(s) => if |s| == 0 then Ok([]) else Err(TypeError)
    case _ => Err(TypeError)
  }

  /** `result["data"]["repository"][<connection>]`. */
  function ConnectionOf(c: Connection, result: Json): Result<Json> {
    var data :- Field(result, "data");
    var repository :- Field(data, "repository");
    Field(repository, ConnectionField(c))
  }

  /** What one page contributes: its event days, and the cursor of the next page when
      there is one. */
  datatype Page = Page(days: seq<string>, next: Option<Json>)

  /** One page as the loop body reads it: the edges first, then `pageInfo`. */
  function PageOf(c: Connection, result: Json): Result<Page> {
    var conn :- ConnectionOf(c, result);
    var edges :- Field(conn, "edges");
    var days :- EdgeDays(c, edges);
    var info :- Field(conn, "pageInfo");
    var more :- Field(info, "hasNextPage");
    if !Truthy(more) then Ok(Page(days, None))
    else
      var cursor :- Field(info, "endCursor");
      Ok(Page(days, Some(cursor)))
  }

  /** A page read: the days of its edges; the walk goes on exactly when `hasNextPage` is
      truthy, from `endCursor`. */
  lemma PageOfSpec(c: Connection, result: Json)
    ensures var r := PageOf(c, result);
      r.Ok? ==>
        && ConnectionOf(c, result).Ok?
        && var conn := ConnectionOf(c, result).value;
        && Field(conn, "edges").Ok?
        && EdgeDays(c, Field(conn, "edges").value) == Ok(r.value.days)
        && Field(conn, "pageInfo").Ok?
        && var info := Field(conn, "pageInfo").value;
        && Field(info, "hasNextPage").Ok?
        && (r.value.next.None? <==> !Truthy(Field(info, "hasNextPage").value))
        && (r.value.next.Some? ==> Field(info, "endCursor") == Ok(r.value.next.value))
  {
  }

  /** One iteration of the `while True` loop: the request from `cursor` and its page. */
  function Step(post: Post, c: Connection, owner: string, repo: string, cursor: Json): (r: Result<Page>)
    ensures r.Ok? ==> var response := post(Payload(Query(c), Variables(owner, repo, cursor)));
      response.status == 200 && r == PageOf(c, response.body)
  {
    var result :- RunQuery(post, Query(c), Variables(owner, repo, cursor));
    PageOf(c, result)
  }

  /** The loop body as a function of the cursor it is entered with. */
  type Stepper = Json -> Result<Page>

  /** The loop body for one connection of one repository. */
  function StepOf(post: Post, c: Connection, owner: string, repo: string): (step: Stepper)
    ensures forall cursor :: step(cursor) == Step(post, c, owner, repo, cursor)
  {
    cursor => Step(post, c, owner, repo, cursor)
  }

  /** The walk from `cursor` within `fuel` requests: None when it needs more; otherwise the
      days of all pages read, or the first error raised. */
  function Sweep(step: Stepper, cursor: Json, fuel: nat): (r: Option<Result<seq<string>>>)
    ensures r.Some? ==> fuel > 0
    decreases fuel
  {
    if fuel == 0 then None
    else
      match step(cursor)
      case Err(e) => Some(Err(e))
      case Ok(page) =>
        if page.next.None? then Some(Ok(page.days))
        else
          match Sweep(step, page.next.value, fuel - 1)
          case None => None
          case Some(Err(e)) => Some(Err(e))
          case Some(Ok(rest)) => Some(Ok(page.days + rest))
  }

  /** The loop stops from `cursor`: an error is raised, or a last page is read. */
  ghost predicate Ends(step: Stepper, cursor: Json) {
    exists fuel: nat :: Sweep(step, cursor, fuel).Some?
  }

  /** More fuel than a finished walk needs changes nothing. */
  lemma {:induction false} SweepFuel(step: Stepper, cursor: Json, fuel: nat, more: nat)
    requires Sweep(step, cursor, fuel).Some? && fuel <= more
    ensures Sweep(step, cursor, more) == Sweep(step, cursor, fuel)
    decreases fuel
  {
    match step(cursor)
    case Err(_) =>
    case Ok(page) =>
      if page.next.Some? {
        SweepFuel(step, page.next.value, fuel - 1, more - 1);
      }
  }

  /** The outcome of a walk that stops, whatever fuel shows it. */
  ghost function Walk(step: Stepper, cursor: Json): (r: Result<seq<string>>)
    requires Ends(step, cursor)
    ensures forall fuel: nat :: Sweep(step, cursor, fuel).Some? ==> r == Sweep(step, cursor, fuel).value
  {
    var fuel: nat :| Sweep(step, cursor, fuel).Some?;
    forall other: nat | Sweep(step, cursor, other).Some?
      ensures Sweep(step, cursor, other) == Sweep(step, cursor, fuel)
    {
      if other <= fuel {
        SweepFuel(step, cursor, other, fuel);
      } else {
        SweepFuel(step, cursor, fuel, other);
      }
    }
    Sweep(step, cursor, fuel).value
  }

  /** The cursors the walk sends, in order, from `cursor` within `fuel` requests. */
  function Cursors(step: Stepper, cursor: Json, fuel: nat): (cs: seq<Json>)
    requires Sweep(step, cursor, fuel).Some?
    ensures |cs| >= 1 && cs[0] == cursor
    decreases fuel
  {
    match step(cursor)
    case Err(_) => [cursor]
    case Ok(page) =>
      if page.next.None? then [cursor]
      else [cursor] + Cursors(step, page.next.value, fuel - 1)
  }

  /** The cursor chain: each request after the first is sent from the cursor the page
      before it named as next, which it does only when `hasNextPage` is truthy; the last
      request raised or read a page without a next one, and raised when the walk did. */
  lemma {:induction false} CursorChain(step: Stepper, cursor: Json, fuel: nat)
    requires Sweep(step, cursor, fuel).Some?
    ensures var cs := Cursors(step, cursor, fuel);
      && (forall i :: 0 <= i < |cs| - 1 ==> step(cs[i]).Ok? && step(cs[i]).value.next == Some(cs[i + 1]))
      && (step(cs[|cs| - 1]).Err? || step(cs[|cs| - 1]).value.next.None?)
      && (Sweep(step, cursor, fuel).value.Ok? <==> step(cs[|cs| - 1]).Ok?)
    decreases fuel
  {
    var cs := Cursors(step, cursor, fuel);
    match step(cursor)
    case Err(_) =>
    case Ok(page) =>
      if page.next.Some? {
        var rest := Cursors(step, page.next.value, fuel - 1);
        CursorChain(step, page.next.value, fuel - 1);
        assert cs == [cursor] + rest;
        forall i | 1 <= i < |cs| - 1
          ensures step(cs[i]).Ok? && step(cs[i]).value.next == Some(cs[i + 1])
        {
          assert cs[i] == rest[i - 1] && cs[i + 1] == rest[i];
        }
        assert cs[|cs| - 1] == rest[|rest| - 1];
      }
  }

  /** The walk of `fetch_stargazers` and `fetch_forks`: the first request carries no
      cursor. */
  ghost predicate Finishes(post: Post, c: Connection, owner: string, repo: string) {
    Ends(StepOf(post, c, owner, repo), JNull)
  }

  /** The table built from the event days: one row per distinct day, ascending as strings,
      holding the running total of events. */
  function Aggregate(c: Connection, days: seq<string>): (f: TextFrame)
    ensures f.columns == ["date", ValueColumn(c)]
  {
    TextFrame(["date", ValueColumn(c)], Cumulative(Ones(days), TextLess))
  }

  /** The cumulative table: ascending distinct days, exactly the days seen, each value the
      number of events on or before its day, never decreasing, ending at the number of
      events. */
  lemma AggregateSpec(c: Connection, days: seq<string>)
    ensures var r := Aggregate(c, days).rows;
      && Ascending(r, TextLess)
      && KeySet(r) == (set d | d in days)
      && (forall i :: 0 <= i < |r| ==> r[i].1 == CountUpTo(days, r[i].0, TextLess))
      && NonDecreasing(r)
      && (|r| > 0 ==> r[|r| - 1].1 == |days|)
      && (|days| > 0 ==> |r| > 0)
  {
    TextLessIsStrictTotal();
    CumulativeCountSpec(days, TextLess);
  }

  lemma ListDaysCons(c: Connection, items: seq<Json>)
    requires |items| > 0
    ensures ListDays(c, items) ==
      match EdgeDay(c, items[0])
      case Err(e) => Err(e)
      case Ok(d) => Extend([d], ListDays(c, items[1..]))
  {
  }

  lemma EmptyPrefix<T>(s: seq<T>)
    ensures [] + s == s
  {
  }

  /** The inner loop: the day of each edge appended, in order. */
  method AppendDays(c: Connection, days: seq<string>, items: seq<Json>) returns (r: Result<seq<string>>)
    ensures r == Extend(days, ListDays(c, items))
  {
    var acc := days;
    var i := 0;
    while i < |items|
      invariant 0 <= i <= |items|
      invariant Extend(acc, ListDays(c, items[i..])) == Extend(days, ListDays(c, items))
    {
      ListDaysCons(c, items[i..]);
      assert items[i..][0] == items[i];
      assert items[i..][1..] == items[i + 1..];
      var day := EdgeDay(c, items[i]);
      if day.Err? {
        return Err(day.error);
      }
      ExtendTwice(acc, [day.value], ListDays(c, items[i + 1..]));
      acc := acc + [day.value];
      i := i + 1;
    }
    assert items[i..] == [];
    assert acc + [] == acc;
    return Ok(acc);
  }

  /** One pass of the loop body: the query from `cursor`, the edges' days appended to
      `days`, and the page info read; the next cursor is None when the loop breaks. */
  method ReadPage(post: Post, c: Connection, owner: string, repo: string, cursor: Json, days: seq<string>)
    returns (r: Result<(seq<string>, Option<Json>)>)
    ensures r.Err? <==> Step(post, c, owner, repo, cursor).Err?
    ensures r.Ok? ==> r.value == (days + Step(post, c, owner, repo, cursor).value.days, Step(post, c, owner, repo, cursor).value.next)
  {
    var variables := Variables(owner, repo, cursor);
    var result := RunQuery(post, Query(c), variables);
    if result.Err? {
      return Err(result.error);
    }
    var page := PageOf(c, result.value);
    if page.Err? {
      return Err(page.error);
    }
    // The edges are appended before `pageInfo` is read; an error there discards them.
    var conn := ConnectionOf(c, result.value).value;
    var edges := Field(conn, "edges").value;
    assert Step(post, c, owner, repo, cursor) == page;
    PageOfSpec(c, result.value);
    assert EdgeDays(c, edges) == Ok(page.value.days);
    var collected := days;
    if edges.JList? {
      var appended := AppendDays(c, days, edges.items);
      collected := appended.value;
    } else {
      assert days + page.value.days == days;
    }
    return Ok((collected, page.value.next));
  }

  /** One turn of the walk as the loop sees it. */
  lemma SweepStep(step: Stepper, cursor: Json, fuel: nat)
    requires Sweep(step, cursor, fuel).Some?
    ensures step(cursor).Err? ==> Sweep(step, cursor, fuel).value == Err(step(cursor).error)
    ensures step(cursor).Err? ==> Cursors(step, cursor, fuel) == [cursor]
    ensures step(cursor).Ok? && step(cursor).value.next.None? ==> Sweep(step, cursor, fuel).value == Ok(step(cursor).value.days)
    ensures step(cursor).Ok? && step(cursor).value.next.None? ==> Cursors(step, cursor, fuel) == [cursor]
    ensures step(cursor).Ok? && step(cursor).value.next.Some? ==>
      var next := step(cursor).value.next.value;
      && Sweep(step, next, fuel - 1).Some?
      && Sweep(step, cursor, fuel).value == Extend(step(cursor).value.days, Sweep(step, next, fuel - 1).value)
      && Cursors(step, cursor, fuel) == [cursor] + Cursors(step, next, fuel - 1)
  {
  }

  /** `fetch_stargazers` and `fetch_forks`: walk the connection from no cursor, collect
      the event days, and build the cumulative table; `sent` records the cursors sent. */
  method FetchConnection(post: Post, c: Connection, owner: string, repo: string)
    returns (r: Result<TextFrame>, ghost sent: seq<Json>)
    requires Finishes(post, c, owner, repo)
    ensures r.Err? <==> Walk(StepOf(post, c, owner, repo), JNull).Err?
    ensures r.Ok? ==> r.value == Aggregate(c, Walk(StepOf(post, c, owner, repo), JNull).value)
    ensures exists fuel: nat ::
      && Sweep(StepOf(post, c, owner, repo), JNull, fuel).Some?
      && sent == Cursors(StepOf(post, c, owner, repo), JNull, fuel)
  {
    ghost var step := StepOf(post, c, owner, repo);
    ghost var fuel0: nat :| Sweep(step, JNull, fuel0).Some?;
    ghost var fuel := fuel0;
    var days: seq<string> := [];
    var cursor := JNull;
    sent := [];
    ExtendEmpty(Sweep(step, JNull, fuel0).value);
    EmptyPrefix(Cursors(step, JNull, fuel0));
    while true
      invariant Sweep(step, cursor, fuel).Some?
      invariant Extend(days, Sweep(step, cursor, fuel).value) == Sweep(step, JNull, fuel0).value
      invariant sent + Cursors(step, cursor, fuel) == Cursors(step, JNull, fuel0)
      decreases fuel
    {
      SweepStep(step, cursor, fuel);
      assert step(cursor) == Step(post, c, owner, repo, cursor);
      ghost var before := sent;
      sent := sent + [cursor];
      var page := ReadPage(post, c, owner, repo, cursor, days);
      if page.Err? {
        assert sent == Cursors(step, JNull, fuel0);
        r := Err(page.error);
        return;
      }
      ghost var found := step(cursor).value.days;
      assert page.value.0 == days + found;
      if page.value.1.None? {
        assert Sweep(step, cursor, fuel).value == Ok(found);
        assert sent == Cursors(step, JNull, fuel0);
        r := Ok(Aggregate(c, page.value.0));
        return;
      }
      var next := page.value.1.value;
      assert step(cursor).value.next == Some(next);
      assert Sweep(step, cursor, fuel).value == Extend(found, Sweep(step, next, fuel - 1).value);
      ExtendTwice(days, found, Sweep(step, next, fuel - 1).value);
      assert Extend(days + found, Sweep(step, next, fuel - 1).value) == Sweep(step, JNull, fuel0).value;
      ghost var rest := Cursors(step, next, fuel - 1);
      assert Cursors(step, cursor, fuel) == [cursor] + rest;
      AppendAssoc(before, [cursor], rest);
      days := page.value.0;
      cursor := next;
      fuel := fuel - 1;
    }
  }

  /** `load_csv`: the stored table, its date column parsed; None when the file is absent,
      and a ValueError when the file has no `date` column. */
  function LoadCsv(files: Files, filename: string): (r: Result<Option<RawFrame>>)
    ensures r == Ok(None) <==> filename !in files
    ensures r.Ok? && r.value.Some? <==> filename in files && "date" in files[filename].content.columns
    ensures r.Ok? && r.value.Some? ==> r.value.value == files[filename].content
    ensures r.Err? ==> r.error.ValueError?
  {
    if filename in files then
      var table :- ReadDated(files[filename]);
      Ok(Some(table))
    else Ok(None)
  }
}
