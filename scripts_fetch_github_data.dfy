/** The scripts' GitHub fetchers: the pull requests per creation day, collected as a list of
    day texts and then grouped and counted, and the repository's own record. */
module ScriptsFetchGitHubData {
  import opened Wrappers
  import opened Json
  import opened Http
  import opened Orders
  import opened Series
  import opened Frames
  import opened PullRequestPages

  /** The table `fetch_pull_requests` returns for a finished walk: nothing when a page was
      refused or no pull request was read, otherwise one row per day text with its count,
      in ascending text order. */
  function ScriptsPrResult(outcome: Outcome): Result<Option<TextFrame>> {
    match outcome
    case Raised(e) => Err(e)
    case Refused(_) => Ok(None)
    case Collected(days) =>
      if |days| == 0 then Ok(None)
      else Ok(Some(TextFrame(["date", "pr_count"], Tally(days, TextLess))))
  }

  /** A refusal (401 or any other status) gives None, as does a walk that read no pull
      request; otherwise the table has the columns `date` and `pr_count`, one row per
      distinct day text in strictly ascending order, each counting the pull requests of
      that day, and the counts add up to the number of pull requests read. */
  lemma ScriptsPrResultSpec(outcome: Outcome)
    ensures outcome.Refused? ==> ScriptsPrResult(outcome) == Ok(None)
    ensures outcome.Raised? ==> ScriptsPrResult(outcome) == Err(outcome.error)
    ensures outcome.Collected? ==>
      && ScriptsPrResult(outcome).Ok?
      && (ScriptsPrResult(outcome).value.None? <==> |outcome.days| == 0)
      && (ScriptsPrResult(outcome).value.Some? ==>
            var f := ScriptsPrResult(outcome).value.value;
            && f.columns == ["date", "pr_count"]
            && Ascending(f.rows, TextLess)
            && KeySet(f.rows) == (set d | d in outcome.days)
            && (forall i :: 0 <= i < |f.rows| ==> f.rows[i].1 == multiset(outcome.days)[f.rows[i].0])
            && Total(f.rows) == |outcome.days|)
  {
    if outcome.Collected? && |outcome.days| > 0 {
      TextLessIsStrictTotal();
      TallySpec(outcome.days, TextLess);
    }
  }

  /** The inner loop: the day of each pull request of a page appended to the list. */
  method AppendPage(collected: seq<string>, items: seq<Json>) returns (r: Result<seq<string>>)
    ensures r == Extend(collected, ListDays(items))
  {
    var prCounts := collected;
    var i := 0;
    ExtendEmpty(ListDays(items));
    assert items[0..] == items;
    while i < |items|
      invariant 0 <= i <= |items|
      invariant Extend(prCounts, ListDays(items[i..])) == Extend(collected, ListDays(items))
    {
      ListDaysCons(items[i..]);
      assert items[i..][0] == items[i];
      assert items[i..][1..] == items[i + 1..];
      var createdDate := PrDay(items[i]);
      if createdDate.Err? {
        return Err(createdDate.error);
      }
      ExtendTwice(prCounts, [createdDate.value], ListDays(items[i + 1..]));
      prCounts := prCounts + [createdDate.value];
      i := i + 1;
    }
    assert items[i..] == [];
    assert prCounts + [] == prCounts;
    return Ok(prCounts);
  }

  /** `fetch_pull_requests`: read pages from 1 until one is refused (None) or empty,
      appending each pull request's `created_at[:10]`; no pull request is None, otherwise
      the days are grouped and counted. */
  method FetchPullRequests(server: PageServer) returns (r: Result<Option<TextFrame>>)
    requires Stops(server, 1)
    ensures r == ScriptsPrResult(Pulled(server, 1))
  {
    ghost var fuel0: nat :| Walk(server, 1, fuel0).Some?;
    ghost var fuel := fuel0;
    var prCounts: seq<string> := [];
    var page: nat := 1;
    AfterEmpty(Walk(server, 1, fuel0).value);
    while true
      invariant Walk(server, page, fuel).Some?
      invariant After(prCounts, Walk(server, page, fuel).value) == Walk(server, 1, fuel0).value
      decreases fuel
    {
      WalkStep(server, page, fuel);
      var response := server(page);
      if response.status == 401 {
        return Ok(None);
      }
      if response.status != 200 {
        return Ok(None);
      }
      var prs := response.body;
      if !Truthy(prs) {
        break;
      }
      if !prs.JList? {
        return Err(TypeError);
      }
      var appended := AppendPage(prCounts, prs.items);
      if appended.Err? {
        return Err(appended.error);
      }
      AfterTwice(prCounts, ListDays(prs.items).value, Walk(server, page + 1, fuel - 1).value);
      prCounts := appended.value;
      page := page + 1;
      fuel := fuel - 1;
    }
    assert prCounts + [] == prCounts;
    if |prCounts| == 0 {
      return Ok(None);
    }
    return Ok(Some(TextFrame(["date", "pr_count"], Tally(prCounts, TextLess))));
  }

  /** `fetch_repo_info`: the decoded body of an accepted answer; None on 401 or any other
      status. */
  function FetchRepoInfo(response: Response<Json>): (r: Option<Json>)
    ensures r.Some? <==> response.status == 200
    ensures r.Some? ==> r.value == response.body
  {
    if response.status == 401 then None
    else if response.status != 200 then None
    else Some(response.body)
  }
}
