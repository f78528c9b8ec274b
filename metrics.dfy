/** The six metric types of the dashboard and the names the code attaches to each. */
module Metrics {
  import opened Wrappers

  datatype MetricType = Stars | Forks | Prs | Downloads | Issues | Contributions

  /** All six, in the order the dashboard walks them. */
  const AllMetrics: seq<MetricType> := [Stars, Forks, Prs, Downloads, Issues, Contributions]

  /** The `data_type` string that names the metric. */
  function Name(m: MetricType): string {
    match m
    case Stars => "stars"
    case Forks => "forks"
    case Prs => "prs"
    case Downloads => "downloads"
    case Issues => "issues"
    case Contributions => "contributions"
  }

  /** The metric's value column next to `date`. */
  function ValueColumn(m: MetricType): string {
    match m
    case Stars => "stars"
    case Forks => "forks"
    case Prs => "pr_count"
    case Downloads => "downloads"
    case Issues => "issues"
    case Contributions => "commits"
  }

  /** The metric's columns, in order: its exact schema. */
  function Schema(m: MetricType): (cols: seq<string>)
    ensures |cols| == 2 && cols[0] == "date" && cols[1] == ValueColumn(m)
  {
    ["date", ValueColumn(m)]
  }

  /** The columns a stored table of the metric must have, in any order. */
  function Expected(m: MetricType): (cols: set<string>)
    ensures cols == set c | c in Schema(m)
  {
    {"date", ValueColumn(m)}
  }

  /** The generic cache file name of the metric. */
  function BaseFileName(m: MetricType): string {
    match m
    case Stars => "github_stars.csv"
    case Forks => "github_forks.csv"
    case Prs => "github_pull_requests.csv"
    case Downloads => "github_downloads.csv"
    case Issues => "github_issues.csv"
    case Contributions => "github_contributions.csv"
  }

  /** The metric a `data_type` string names, if any. */
  function Parse(name: string): (r: Option<MetricType>)
    ensures r.Some? ==> Name(r.value) == name
    ensures r.None? ==> forall m: MetricType :: Name(m) != name
  {
    if name == "stars" then Some(Stars)
    else if name == "forks" then Some(Forks)
    else if name == "prs" then Some(Prs)
    else if name == "downloads" then Some(Downloads)
    else if name == "issues" then Some(Issues)
    else if name == "contributions" then Some(Contributions)
    else None
  }

  /** Different metrics have different names, value columns and file names, and a name
      parses back to its metric. */
  lemma NamesDistinct(m: MetricType, n: MetricType)
    ensures Parse(Name(m)) == Some(m)
    ensures m != n ==> Name(m) != Name(n) && ValueColumn(m) != ValueColumn(n) && BaseFileName(m) != BaseFileName(n)
  {
  }
}
