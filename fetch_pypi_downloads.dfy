/** The stand-alone pypistats downloads fetcher: validate the `data` list of the answer, then
    return its `date` and `downloads` columns sorted by date. */
module FetchPypiDownloads {
  import opened Wrappers
  import opened Json
  import opened Http
  import opened Orders
  import opened PypiRecords

  /** `fetch_pypi_downloads`: a refused answer, or a `data` value that is missing, empty or
      not a list, is None; otherwise the records give the sorted downloads view. */
  function FetchPypiDownloads(response: Response<Json>): Result<Option<Downloads>> {
    if response.status != 200 then Ok(None)
    else if !response.body.JObj? then Err(AttributeError("get"))
    else
      var downloads := GetOr(response.body.fields, "data", JNull);
      if !Truthy(downloads) || !downloads.JList? then Ok(None)
      else
        var t :- Build(downloads);
        var v :- DownloadsView(t);
        Ok(Some(v))
  }

  /** None exactly on a refused answer or an unusable `data` value; with a non-empty list
      of records, a view exists exactly when the records have `date` and `downloads`
      columns and every date converts, and it has those two columns, one row per entry of
      `data` (each entry's converted date and downloads, in some order), sorted by date
      with NaT last. */
  lemma FetchPypiDownloadsSpec(response: Response<Json>)
    ensures response.status != 200 ==> FetchPypiDownloads(response) == Ok(None)
    ensures response.status == 200 && !response.body.JObj? ==> FetchPypiDownloads(response) == Err(AttributeError("get"))
    ensures response.status == 200 && response.body.JObj? ==>
      var data := GetOr(response.body.fields, "data", JNull);
      && (FetchPypiDownloads(response) == Ok(None) <==> !(data.JList? && |data.items| > 0))
      && (data.JList? && |data.items| > 0 && !AllObjects(data.items) ==> FetchPypiDownloads(response) == Err(KeyError("date")))
      && (data.JList? && |data.items| > 0 && AllObjects(data.items) ==>
            (FetchPypiDownloads(response).Ok? <==>
               && "date" in KeysOf(data.items) && "downloads" in KeysOf(data.items)
               && forall i :: 0 <= i < |data.items| ==> DateCell(data.items[i].fields).Ok?))
      && (FetchPypiDownloads(response).Ok? && FetchPypiDownloads(response).value.Some? ==>
            var v := FetchPypiDownloads(response).value.value;
            && data.JList? && AllObjects(data.items)
            && v.columns == ["date", "downloads"]
            && |v.rows| == |data.items|
            && SortedBy(v.rows, NaTLast)
            && (forall i :: 0 <= i < |data.items| ==> DateCell(data.items[i].fields).Ok?)
            && multiset(v.rows) == multiset(seq(|data.items|, i requires 0 <= i < |data.items| =>
                 (DateCell(data.items[i].fields).value, GetOr(data.items[i].fields, "downloads", JNull)))))
  {
    if response.status == 200 && response.body.JObj? {
      var data := GetOr(response.body.fields, "data", JNull);
      if data.JList? && AllObjects(data.items) {
        ListViewSpec(data.items);
      }
    }
  }
}
