/** The scripts' pypistats downloads fetcher: a three-row table of the aggregate counts
    when the answer has them, otherwise the detailed `downloads` records with their dates
    converted. */
module ScriptsFetchPypiDownloads {
  import opened Wrappers
  import opened Json
  import opened Http
  import opened PypiRecords

  /** The two answers: the aggregate periods, or the detailed table. */
  datatype PypiAnswer =
    | Periods(columns: seq<string>, rows: seq<(string, Json)>)
    | Daily(table: DailyTable)

  /** `key` occurs in `s` as a contiguous piece. */
  predicate Occurs(key: string, s: string)
    decreases |s|
  {
    |key| <= |s| && (s[..|key|] == key || (|s| > 0 && Occurs(key, s[1..])))
  }

  /** Python's `key in data`: a key of an object, an element of a list, a piece of a text;
      on anything else it raises a TypeError. */
  function Member(key: string, data: Json): (r: Result<bool>)
    ensures r.Ok? <==> data.JObj? || data.JList? || data.JStr?
    ensures data.JObj? ==> r == Ok(key in data.fields)
    ensures data.JList? ==> r == Ok(JStr(key) in data.items)
  {
    match data
    case JObj(fields) => Ok(key in fields)
    case JList(items) => Ok(JStr(key) in items)
    case JStr(s) => Ok(Occurs(key, s))
    case _ => Err(TypeError)
  }

  /** `all(key in data for key in [...])` over the three aggregate keys, stopping at the
      first one missing. */
  function HasAggregates(data: Json): Result<bool> {
    var day :- Member("last_day", data);
    if !day then Ok(false)
    else
      var week :- Member("last_week", data);
      if !week then Ok(false)
      else Member("last_month", data)
  }

  /** The test raises exactly on a value that is not a container, and on an object it
      holds exactly when the object has all three keys. */
  lemma HasAggregatesSpec(data: Json)
    ensures HasAggregates(data).Err? <==> !(data.JObj? || data.JList? || data.JStr?)
    ensures HasAggregates(data).Err? ==> HasAggregates(data) == Err(TypeError)
    ensures data.JObj? ==>
      HasAggregates(data) == Ok("last_day" in data.fields && "last_week" in data.fields && "last_month" in data.fields)
  {
  }

  /** `fetch_pypi_downloads` of the scripts: refused answers are None; the three aggregates
      give the period table; otherwise an empty `downloads` value is None and a non-empty
      one is its table with the dates converted. */
  function FetchPypiDownloads(response: Response<Json>): Result<Option<PypiAnswer>> {
    if response.status != 200 then Ok(None)
    else if !response.body.JObj? then Err(AttributeError("get"))
    else
      var data := GetOr(response.body.fields, "data", JObj(map[]));
      var aggregates :- HasAggregates(data);
      if aggregates then
        var day :- Field(data, "last_day");
        var week :- Field(data, "last_week");
        var month :- Field(data, "last_month");
        Ok(Some(Periods(["period", "downloads"], [("Last Day", day), ("Last Week", week), ("Last Month", month)])))
      else if !data.JObj? then Err(AttributeError("get"))
      else
        var downloads := GetOr(data.fields, "downloads", JList([]));
        if !Truthy(downloads) then Ok(None)
        else
          var t :- Build(downloads);
          var table :- Dated(t);
          Ok(Some(Daily(table)))
  }

  /** A refused answer is None. An object holding all three aggregates gives exactly the
      three rows Last Day, Last Week, Last Month carrying them. An object missing one of
      them falls to the `downloads` records: a missing or empty value is None, and a non-
      empty list of records with a `date` column whose dates all convert gives one row per
      entry, in order, with its converted date and its other cells. Any other `data` value
      that is not a container raises a TypeError. */
  lemma FetchPypiDownloadsSpec(response: Response<Json>)
    ensures response.status != 200 ==> FetchPypiDownloads(response) == Ok(None)
    ensures response.status == 200 && !response.body.JObj? ==> FetchPypiDownloads(response) == Err(AttributeError("get"))
    ensures response.status == 200 && response.body.JObj? ==>
      var data := GetOr(response.body.fields, "data", JObj(map[]));
      && (!(data.JObj? || data.JList? || data.JStr?) ==> FetchPypiDownloads(response) == Err(TypeError))
      && (data.JObj? && "last_day" in data.fields && "last_week" in data.fields && "last_month" in data.fields ==>
            FetchPypiDownloads(response) == Ok(Some(Periods(["period", "downloads"],
              [("Last Day", data.fields["last_day"]), ("Last Week", data.fields["last_week"]), ("Last Month", data.fields["last_month"])]))))
      && (data.JObj? && !("last_day" in data.fields && "last_week" in data.fields && "last_month" in data.fields) ==>
            var downloads := GetOr(data.fields, "downloads", JList([]));
            && (!Truthy(downloads) ==> FetchPypiDownloads(response) == Ok(None))
            && (downloads.JList? && |downloads.items| > 0 && AllObjects(downloads.items) && "date" in KeysOf(downloads.items)
                && (forall i :: 0 <= i < |downloads.items| ==> DateCell(downloads.items[i].fields).Ok?) ==>
                  && FetchPypiDownloads(response).Ok? && FetchPypiDownloads(response).value.Some?
                  && var table := FetchPypiDownloads(response).value.value.table;
                  && |table.rows| == |downloads.items|
                  && forall i :: 0 <= i < |downloads.items| ==>
                       table.rows[i] == (DateCell(downloads.items[i].fields).value, downloads.items[i].fields - {"date"})))
  {
    if response.status == 200 && response.body.JObj? {
      var data := GetOr(response.body.fields, "data", JObj(map[]));
      HasAggregatesSpec(data);
      if data.JObj? && !("last_day" in data.fields && "last_week" in data.fields && "last_month" in data.fields) {
        var downloads := GetOr(data.fields, "downloads", JList([]));
        if downloads.JList? && |downloads.items| > 0 && AllObjects(downloads.items) {
          var t := Build(downloads).value;
          assert forall i :: 0 <= i < |downloads.items| ==> t.records[i] == downloads.items[i].fields;
        }
      }
    }
  }
}
