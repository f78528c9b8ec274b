/** The PyPI client of the dashboard: the release history of a package, newest first, and
    the three aggregate download counts of pypistats. */
module PypiApi {
  import opened Wrappers
  import opened Json
  import opened Http
  import opened Orders

  /** One release entry: the version and the first file's `upload_time` value. */
  datatype Release = Release(version: string, uploadTime: Json)

  /** `versions` is the iteration order of an object with the keys `keys`: each key once. */
  predicate ListsKeys(versions: seq<string>, keys: set<string>) {
    && (forall i, j :: 0 <= i < j < |versions| ==> versions[i] != versions[j])
    && (forall v :: v in versions ==> v in keys)
    && (forall v :: v in keys ==> v in versions)
  }

  /** `data.get("releases", {})`. */
  function ReleasesOf(body: map<string, Json>): Json {
    GetOr(body, "releases", JObj(map[]))
  }

  /** The order in which `releases.items()` visits the versions of the answer. */
  predicate KeyOrder(response: Response<Json>, versions: seq<string>) {
    response.status == 200 && response.body.JObj? && ReleasesOf(response.body.fields).JObj? ==>
      ListsKeys(versions, ReleasesOf(response.body.fields).fields.Keys)
  }

  /** `files[0].get("upload_time")` on a non-empty file list; the other truthy values
      raise as Python does: an object has no key 0, a text has no `get`, a number or a
      boolean cannot be indexed. */
  function FirstUpload(files: Json): (r: Result<Json>)
    requires Truthy(files)
    ensures r.Ok? <==> files.JList? && files.items[0].JObj?
    ensures r.Ok? ==> r.value == GetOr(files.items[0].fields, "upload_time", JNull)
  {
    match files
    case JList(items) =>
      if items[0].JObj? then Ok(GetOr(items[0].fields, "upload_time", JNull)) else Err(AttributeError("get"))
    case JObj(_) => Err(KeyError("0"))
    case JStr(_) => Err(AttributeError("get"))
    case _ => Err(TypeError)
  }

  /** What one `(version, files)` pair adds to the list: nothing for an empty file list. */
  function Entry(releases: map<string, Json>, version: string): Result<seq<Release>>
    requires version in releases
  {
    if !Truthy(releases[version]) then Ok([])
    else
      var uploadTime :- FirstUpload(releases[version]);
      Ok([Release(version, uploadTime)])
  }

  /** The list the loop builds over `versions`, raising at the first bad file list. */
  function Collect(releases: map<string, Json>, versions: seq<string>): Result<seq<Release>>
    requires forall v :: v in versions ==> v in releases
  {
    if |versions| == 0 then Ok([])
    else
      var init :- Collect(releases, versions[..|versions| - 1]);
      var entry :- Entry(releases, versions[|versions| - 1]);
      Ok(init + entry)
  }

  /** One more version extends the collected list by its entry. */
  lemma CollectSnoc(releases: map<string, Json>, versions: seq<string>, version: string)
    requires forall v :: v in versions ==> v in releases
    requires version in releases && Collect(releases, versions).Ok?
    ensures Entry(releases, version).Ok? ==>
      Collect(releases, versions + [version]) == Ok(Collect(releases, versions).value + Entry(releases, version).value)
    ensures Entry(releases, version).Err? ==> Collect(releases, versions + [version]).Err?
  {
    var next := versions + [version];
    assert next[..|next| - 1] == versions && next[|next| - 1] == version;
  }

  /** An error met on a prefix of the versions is the error of the whole loop. */
  lemma {:induction false} CollectErrSticks(releases: map<string, Json>, versions: seq<string>, k: nat)
    requires forall v :: v in versions ==> v in releases
    requires k <= |versions| && Collect(releases, versions[..k]).Err?
    ensures Collect(releases, versions) == Collect(releases, versions[..k])
  {
    if k < |versions| {
      var init := versions[..|versions| - 1];
      assert init[..k] == versions[..k];
      CollectErrSticks(releases, init, k);
    } else {
      assert versions[..k] == versions;
    }
  }

  /** One turn of the loop over `versions`: an empty file list adds nothing, a good one its
      entry, and a bad one is the whole loop's error. */
  lemma CollectNext(releases: map<string, Json>, versions: seq<string>, i: nat, list: seq<Release>)
    requires forall v :: v in versions ==> v in releases
    requires i < |versions| && Collect(releases, versions[..i]) == Ok(list)
    ensures var files := releases[versions[i]];
      && (!Truthy(files) ==> Collect(releases, versions[..i + 1]) == Ok(list))
      && (Truthy(files) && FirstUpload(files).Ok? ==>
            Collect(releases, versions[..i + 1]) == Ok(list + [Release(versions[i], FirstUpload(files).value)]))
      && (Truthy(files) && FirstUpload(files).Err? ==> Collect(releases, versions) == Err(FirstUpload(files).error))
  {
    var version := versions[i];
    assert versions[..i + 1] == versions[..i] + [version];
    CollectSnoc(releases, versions[..i], version);
    if !Truthy(releases[version]) {
      assert list + [] == list;
    } else if FirstUpload(releases[version]).Err? {
      var next := versions[..i + 1];
      assert next[..|next| - 1] == versions[..i] && next[|next| - 1] == version;
      CollectErrSticks(releases, versions, i + 1);
    }
  }

  /** The collected list holds exactly one entry per version with a non-empty file list,
      carrying that list's first upload time, in the order of `versions`; no version
      appears twice when `versions` lists each once. */
  lemma {:induction false} CollectSpec(releases: map<string, Json>, versions: seq<string>)
    requires forall v :: v in versions ==> v in releases
    requires Collect(releases, versions).Ok?
    ensures forall e :: e in Collect(releases, versions).value ==>
      e.version in versions && Truthy(releases[e.version]) && FirstUpload(releases[e.version]) == Ok(e.uploadTime)
    ensures forall v :: v in versions && Truthy(releases[v]) ==>
      FirstUpload(releases[v]).Ok? && Release(v, FirstUpload(releases[v]).value) in Collect(releases, versions).value
    ensures (forall i, j :: 0 <= i < j < |versions| ==> versions[i] != versions[j]) ==>
      var list := Collect(releases, versions).value;
      forall i, j :: 0 <= i < j < |list| ==> list[i].version != list[j].version
  {
    if |versions| > 0 {
      var init := versions[..|versions| - 1];
      var last := versions[|versions| - 1];
      CollectSpec(releases, init);
      var list := Collect(releases, versions).value;
      var before := Collect(releases, init).value;
      assert list == before + Entry(releases, last).value;
      forall v | v in versions ensures v in init || v == last {
        var k :| 0 <= k < |versions| && versions[k] == v;
        if k < |versions| - 1 {
          assert init[k] == v;
        }
      }
      if (forall i, j :: 0 <= i < j < |versions| ==> versions[i] != versions[j]) {
        assert forall i, j :: 0 <= i < j < |init| ==> init[i] != init[j] by {
          forall i, j | 0 <= i < j < |init| ensures init[i] != init[j] {
            assert init[i] == versions[i] && init[j] == versions[j];
          }
        }
        assert last !in init;
        forall i, j | 0 <= i < j < |list| ensures list[i].version != list[j].version {
          if j >= |before| {
            assert list[i] in before;
          } else {
            assert list[i] == before[i] && list[j] == before[j];
          }
        }
      }
    }
  }

  /** `x["upload_time"] or ""` as the text the sort compares. */
  function SortKey(e: Release): string {
    if e.uploadTime.JStr? then e.uploadTime.s else ""
  }

  /** The sort compares keys only when they are all texts (a missing or empty upload time
      counts as ""); a lone entry is never compared. */
  predicate Comparable(list: seq<Release>) {
    |list| < 2 || forall i :: 0 <= i < |list| ==> list[i].uploadTime.JStr? || !Truthy(list[i].uploadTime)
  }

  /** `reverse=True`: `a` may precede `b` when its key is not smaller. */
  function ReleaseLe(a: Release, b: Release): bool {
    !TextLess(SortKey(a), SortKey(b))
  }

  lemma ReleaseLeIsTotalPreorder()
    ensures TotalPreorder(ReleaseLe)
  {
    TextLessIsStrictTotal();
    forall a: Release, b: Release, c: Release | ReleaseLe(a, b) && ReleaseLe(b, c) ensures ReleaseLe(a, c) {
      if SortKey(a) != SortKey(b) && SortKey(b) != SortKey(c) {
        assert TextLess(SortKey(b), SortKey(a)) && TextLess(SortKey(c), SortKey(b));
      }
    }
  }

  /** `get_pypi_release_info` as a value: a refused answer is the empty list; the
      collected entries sorted by upload time, newest first. */
  function ReleaseInfo(response: Response<Json>, versions: seq<string>): Result<seq<Release>>
    requires KeyOrder(response, versions)
  {
    if response.status != 200 then Ok([])
    else if !response.body.JObj? then Err(AttributeError("get"))
    else
      var releases := ReleasesOf(response.body.fields);
      if !releases.JObj? then Err(AttributeError("items"))
      else
        var list :- Collect(releases.fields, versions);
        if !Comparable(list) then Err(TypeError) else Ok(SortBy(list, ReleaseLe))
  }

  /** `get_pypi_release_info`: walk the versions in the object's order, append an entry for
      each with a non-empty file list, then sort the list by upload time, newest first. */
  method GetPypiReleaseInfo(response: Response<Json>, versions: seq<string>) returns (r: Result<seq<Release>>)
    requires KeyOrder(response, versions)
    ensures r == ReleaseInfo(response, versions)
  {
    if response.status != 200 {
      return Ok([]);
    }
    if !response.body.JObj? {
      return Err(AttributeError("get"));
    }
    var releases := ReleasesOf(response.body.fields);
    if !releases.JObj? {
      return Err(AttributeError("items"));
    }
    var releaseList: seq<Release> := [];
    var i := 0;
    while i < |versions|
      invariant 0 <= i <= |versions|
      invariant Collect(releases.fields, versions[..i]) == Ok(releaseList)
    {
      var version := versions[i];
      var files := releases.fields[version];
      CollectNext(releases.fields, versions, i, releaseList);
      if Truthy(files) {
        var uploadTime := FirstUpload(files);
        if uploadTime.Err? {
          return Err(uploadTime.error);
        }
        releaseList := releaseList + [Release(version, uploadTime.value)];
      }
      i := i + 1;
    }
    assert versions[..i] == versions;
    if !Comparable(releaseList) {
      return Err(TypeError);
    }
    releaseList := SortBy(releaseList, ReleaseLe);
    return Ok(releaseList);
  }

  /** A refused answer is the empty list. Otherwise the result holds an entry for exactly
      the versions with a non-empty file list, each with its first file's upload time and
      as many entries as versions collected; it is sorted by upload time, newest first,
      and entries without an upload time come after every other entry. */
  lemma ReleaseInfoSpec(response: Response<Json>, versions: seq<string>)
    requires KeyOrder(response, versions)
    ensures response.status != 200 ==> ReleaseInfo(response, versions) == Ok([])
    ensures response.status == 200 && !response.body.JObj? ==> ReleaseInfo(response, versions) == Err(AttributeError("get"))
    ensures response.status == 200 && response.body.JObj? && !ReleasesOf(response.body.fields).JObj? ==>
      ReleaseInfo(response, versions) == Err(AttributeError("items"))
    ensures response.status == 200 && ReleaseInfo(response, versions).Ok? ==>
      var r := ReleaseInfo(response, versions).value;
      var releases := ReleasesOf(response.body.fields).fields;
      && (forall e :: e in r ==> e.version in releases && Truthy(releases[e.version]) && FirstUpload(releases[e.version]) == Ok(e.uploadTime))
      && (forall v :: v in releases && Truthy(releases[v]) ==> FirstUpload(releases[v]).Ok? && Release(v, FirstUpload(releases[v]).value) in r)
      && multiset(r) == multiset(Collect(releases, versions).value)
      && (forall i, j :: 0 <= i < j < |r| ==> !TextLess(SortKey(r[i]), SortKey(r[j])))
      && (forall i, j :: 0 <= i < j < |r| && SortKey(r[i]) == "" ==> SortKey(r[j]) == "")
  {
    if response.status == 200 && ReleaseInfo(response, versions).Ok? {
      var releases := ReleasesOf(response.body.fields).fields;
      var list := Collect(releases, versions).value;
      var r := ReleaseInfo(response, versions).value;
      assert r == SortBy(list, ReleaseLe);
      CollectSpec(releases, versions);
      SortByMembers(list, ReleaseLe);
      ReleaseLeIsTotalPreorder();
      SortBySorted(list, ReleaseLe);
      forall i, j | 0 <= i < j < |r| && SortKey(r[i]) == "" ensures SortKey(r[j]) == "" {
        assert ReleaseLe(r[i], r[j]);
      }
    }
  }

  /** A row of the aggregate downloads list. */
  datatype PeriodRow = PeriodRow(date: string, downloads: Json)

  /** `get_pypi_downloads`: a refused answer is the empty list; otherwise the three
      aggregates of `data`, each 0 where missing. */
  function PypiDownloads(response: Response<Json>): Result<seq<PeriodRow>> {
    if response.status != 200 then Ok([])
    else if !response.body.JObj? then Err(AttributeError("get"))
    else
      var data := GetOr(response.body.fields, "data", JObj(map[]));
      if !data.JObj? then Err(AttributeError("get"))
      else
        Ok([PeriodRow("Last day", GetOr(data.fields, "last_day", JInt(0))),
            PeriodRow("Last week", GetOr(data.fields, "last_week", JInt(0))),
            PeriodRow("Last month", GetOr(data.fields, "last_month", JInt(0)))])
  }

  /** The key of pypistats' answer behind each of the three rows. */
  function PeriodKey(k: nat): string
    requires k < 3
  {
    if k == 0 then "last_day" else if k == 1 then "last_week" else "last_month"
  }

  /** A refused answer is the empty list; an object `data` (missing counts as empty) gives
      exactly three rows, Last day, Last week, Last month in that order, each carrying its
      aggregate or 0 when the answer lacks it. */
  lemma PypiDownloadsSpec(response: Response<Json>)
    ensures response.status != 200 ==> PypiDownloads(response) == Ok([])
    ensures response.status == 200 && response.body.JObj? && GetOr(response.body.fields, "data", JObj(map[])).JObj? ==>
      var data := GetOr(response.body.fields, "data", JObj(map[])).fields;
      && PypiDownloads(response).Ok?
      && |PypiDownloads(response).value| == 3
      && PypiDownloads(response).value[0].date == "Last day"
      && PypiDownloads(response).value[1].date == "Last week"
      && PypiDownloads(response).value[2].date == "Last month"
      && (forall k :: 0 <= k < 3 && PeriodKey(k) in data ==> PypiDownloads(response).value[k].downloads == data[PeriodKey(k)])
      && (forall k :: 0 <= k < 3 && PeriodKey(k) !in data ==> PypiDownloads(response).value[k].downloads == JInt(0))
    ensures response.status == 200 && !(response.body.JObj? && GetOr(response.body.fields, "data", JObj(map[])).JObj?) ==>
      PypiDownloads(response) == Err(AttributeError("get"))
  {
  }
}
