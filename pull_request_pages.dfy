/** The page walk shared by both pull request fetchers: GET the pulls endpoint page after
    page, from page 1, until a page is refused or comes back empty, and collect the
    `created_at[:10]` day of every pull request read. The endpoint is a function from the
    page number to the response. */
module PullRequestPages {
  import opened Wrappers
  import opened Json
  import opened Http
  import opened Dates

  /** What the pulls endpoint answers for each page number. */
  type PageServer = nat -> Response<Json>

  /** The day of a pull request: the first ten characters of its `created_at`. */
  function PrDay(pr: Json): (r: Result<string>)
    ensures r.Ok? <==> Field(pr, "created_at").Ok? && Field(pr, "created_at").value.JStr?
    ensures r.Ok? ==> r.value == Prefix10(Field(pr, "created_at").value.s)
  {
    var created :- Field(pr, "created_at");
    if created.JStr? then Ok(Prefix10(created.s)) else Err(TypeError)
  }

  /** The days of a list of pull requests, in order; the first bad one raises. */
  function ListDays(items: seq<Json>): Result<seq<string>> {
    if |items| == 0 then Ok([])
    else
      var d :- PrDay(items[0]);
      var rest :- ListDays(items[1..]);
      Ok([d] + rest)
  }

  /** Every pull request's day, in order, or the error of the first one without a text
      `created_at`. */
  lemma {:induction false} ListDaysSpec(items: seq<Json>)
    ensures ListDays(items).Ok? <==> forall i :: 0 <= i < |items| ==> PrDay(items[i]).Ok?
    ensures ListDays(items).Ok? ==> |ListDays(items).value| == |items|
    ensures ListDays(items).Ok? ==> forall i :: 0 <= i < |items| ==> ListDays(items).value[i] == PrDay(items[i]).value
    ensures ListDays(items).Err? ==>
      exists i :: 0 <= i < |items| && PrDay(items[i]).Err? && ListDays(items).error == PrDay(items[i]).error && (forall j :: 0 <= j < i ==> PrDay(items[j]).Ok?)
  {
    if |items| > 0 {
      ListDaysSpec(items[1..]);
      assert forall i :: 1 <= i < |items| ==> items[i] == items[1..][i - 1];
      if PrDay(items[0]).Ok? && ListDays(items[1..]).Err? {
        var i :| 0 <= i < |items[1..]| && PrDay(items[1..][i]).Err? && ListDays(items[1..]).error == PrDay(items[1..][i]).error && (forall j :: 0 <= j < i ==> PrDay(items[1..][j]).Ok?);
        assert PrDay(items[i + 1]).Err?;
        forall j | 0 <= j < i + 1 ensures PrDay(items[j]).Ok? {
          if j > 0 {
            assert items[j] == items[1..][j - 1];
          }
        }
      }
    }
  }

  lemma ListDaysCons(items: seq<Json>)
    requires |items| > 0
    ensures ListDays(items) ==
      match PrDay(items[0])
      case Err(e) => Err(e)
      case Ok(d) => Extend([d], ListDays(items[1..]))
  {
  }

  /** `for pr in prs` over a truthy body: a list gives its pull requests; iterating any
      other truthy value, or subscripting what it yields, raises a TypeError. */
  function PageDays(prs: Json): (r: Result<seq<string>>)
    ensures prs.JList? ==> r == ListDays(prs.items)
    ensures !prs.JList? ==> r == Err(TypeError)
  {
    if prs.JList? then ListDays(prs.items) else Err(TypeError)
  }

  /** How a walk ends: an exception, a refused page (`return None`), or an empty page after
      the collected days (`break`). */
  datatype Outcome = Raised(error: Error) | Refused(status: int) | Collected(days: seq<string>)

  /** The walk from `page` on within `fuel` requests; None when it needs more. */
  function Walk(server: PageServer, page: nat, fuel: nat): (r: Option<Outcome>)
    ensures r.Some? ==> fuel > 0
    decreases fuel
  {
    if fuel == 0 then None
    else
      var response := server(page);
      if response.status != 200 then Some(Refused(response.status))
      else if !Truthy(response.body) then Some(Collected([]))
      else
        match PageDays(response.body)
        case Err(e) => Some(Raised(e))
        case Ok(days) =>
          match Walk(server, page + 1, fuel - 1)
          case Some(Collected(rest)) => Some(Collected(days + rest))
          case other => other
  }

  /** The endpoint eventually refuses a page, answers an empty one, or sends a page that
      raises: the `while True` loop from `page` on stops. */
  ghost predicate Stops(server: PageServer, page: nat) {
    exists fuel: nat :: Walk(server, page, fuel).Some?
  }

  /** More fuel than a finished walk needs changes nothing. */
  lemma {:induction false} WalkFuel(server: PageServer, page: nat, fuel: nat, more: nat)
    requires Walk(server, page, fuel).Some? && fuel <= more
    ensures Walk(server, page, more) == Walk(server, page, fuel)
    decreases fuel
  {
    var response := server(page);
    if response.status == 200 && Truthy(response.body) && PageDays(response.body).Ok? {
      WalkFuel(server, page + 1, fuel - 1, more - 1);
    }
  }

  /** How the walk from `page` ends, whatever fuel shows that it does. */
  ghost function Pulled(server: PageServer, page: nat): (r: Outcome)
    requires Stops(server, page)
    ensures forall fuel: nat :: Walk(server, page, fuel).Some? ==> r == Walk(server, page, fuel).value
  {
    var fuel: nat :| Walk(server, page, fuel).Some?;
    forall other: nat | Walk(server, page, other).Some?
      ensures Walk(server, page, other) == Walk(server, page, fuel)
    {
      if other <= fuel {
        WalkFuel(server, page, other, fuel);
      } else {
        WalkFuel(server, page, fuel, other);
      }
    }
    Walk(server, page, fuel).value
  }

  /** A page that the walk reads past: accepted, non-empty, and every pull request on it
      has a text `created_at`. */
  predicate Read(server: PageServer, page: nat) {
    server(page).status == 200 && Truthy(server(page).body) && PageDays(server(page).body).Ok?
  }

  /** The days on the pages `first` up to `stop` (exclusive), all of them read. */
  function DaysBetween(server: PageServer, first: nat, stop: nat): (d: seq<string>)
    requires first <= stop && (forall p :: first <= p < stop ==> Read(server, p))
    decreases stop - first
  {
    if first == stop then []
    else
      assert Read(server, first);
      PageDays(server(first).body).value + DaysBetween(server, first + 1, stop)
  }

  /** The walk stops at the first page that is refused or empty: a refusal discards every
      day collected before it, an empty page ends the walk with the days of the pages
      before it. */
  lemma {:induction false} WalkEndsAt(server: PageServer, page: nat, last: nat)
    requires page <= last && (forall p :: page <= p < last ==> Read(server, p))
    requires server(last).status != 200 || !Truthy(server(last).body)
    ensures Walk(server, page, last - page + 1).Some?
    ensures server(last).status != 200 ==> Walk(server, page, last - page + 1).value == Refused(server(last).status)
    ensures server(last).status == 200 ==> Walk(server, page, last - page + 1).value == Collected(DaysBetween(server, page, last))
    decreases last - page
  {
    if page < last {
      WalkEndsAt(server, page + 1, last);
      assert Read(server, page);
      WalkStep(server, page, last - page + 1);
    } else {
      assert DaysBetween(server, page, last) == [];
    }
  }

  /** The same for the whole walk, from page 1. */
  lemma PulledEndsAt(server: PageServer, last: nat)
    requires 1 <= last && (forall p :: 1 <= p < last ==> Read(server, p))
    requires server(last).status != 200 || !Truthy(server(last).body)
    ensures Stops(server, 1)
    ensures server(last).status != 200 ==> Pulled(server, 1) == Refused(server(last).status)
    ensures server(last).status == 200 ==> Pulled(server, 1) == Collected(DaysBetween(server, 1, last))
  {
    WalkEndsAt(server, 1, last);
  }

  /** The days collected so far, followed by what the rest of the walk gives. */
  function After(collected: seq<string>, rest: Outcome): Outcome {
    match rest
    case Collected(days) => Collected(collected + days)
    case other => other
  }

  lemma AfterEmpty(rest: Outcome)
    ensures After([], rest) == rest
  {
    if rest.Collected? {
      assert [] + rest.days == rest.days;
    }
  }

  lemma AfterTwice(a: seq<string>, b: seq<string>, rest: Outcome)
    ensures After(a + b, rest) == After(a, After(b, rest))
  {
    if rest.Collected? {
      assert (a + b) + rest.days == a + (b + rest.days);
    }
  }

  /** One turn of the walk as the loops see it. */
  lemma WalkStep(server: PageServer, page: nat, fuel: nat)
    requires Walk(server, page, fuel).Some?
    ensures server(page).status != 200 ==> Walk(server, page, fuel).value == Refused(server(page).status)
    ensures server(page).status == 200 && !Truthy(server(page).body) ==> Walk(server, page, fuel).value == Collected([])
    ensures server(page).status == 200 && Truthy(server(page).body) && PageDays(server(page).body).Err? ==>
      Walk(server, page, fuel).value == Raised(PageDays(server(page).body).error)
    ensures Read(server, page) ==>
      && Walk(server, page + 1, fuel - 1).Some?
      && Walk(server, page, fuel).value == After(PageDays(server(page).body).value, Walk(server, page + 1, fuel - 1).value)
  {
  }
}
