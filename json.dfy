/** Decoded JSON documents, as `response.json()` hands them to the code. */
module Json {
  import opened Wrappers

  /** A JSON value (numbers are integers: no modelled body carries a fraction). */
  datatype Json =
    | JNull
    | JBool(b: bool)
    | JInt(i: int)
    | JStr(s: string)
    | JList(items: seq<Json>)
    | JObj(fields: map<string, Json>)

  /** Python's truth value of the decoded value: `None`, `False`, `0`, `""`, `[]` and `{}` are false. */
  predicate Truthy(j: Json) {
    match j
    case JNull => false
    case JBool(b) => b
    case JInt(i) => i != 0
    case JStr(s) => |s| > 0
    case JList(items) => |items| > 0
    case JObj(fields) => |fields| > 0
  }

  /** `obj.get(key, default)` on a decoded object. */
  function GetOr(fields: map<string, Json>, key: string, default: Json): (r: Json)
    ensures key in fields ==> r == fields[key]
    ensures key !in fields ==> r == default
  {
    if key in fields then fields[key] else default
  }

  /** `value[key]` on a decoded value: a KeyError on an object without `key`, a TypeError
      on anything that is not an object. */
  function Field(value: Json, key: string): (r: Result<Json>)
    ensures r.Ok? <==> value.JObj? && key in value.fields
    ensures r.Ok? ==> r.value == value.fields[key]
  {
    match value
    case JObj(fields) => if key in fields then Ok(fields[key]) else Err(KeyError(key))
    case _ => Err(TypeError)
  }
}
