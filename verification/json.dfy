/** JSON-shaped values: the request context the access solver inspects and the
    row values a transaction step returns. */
module JsonValues {
  import opened Wrappers

  /** Numbers are mathematical integers; see README for what that leaves out. */
  datatype Json =
    | JNull
    | JBool(b: bool)
    | JNumber(n: int)
    | JString(s: string)
    | JArray(elems: seq<Json>)
    | JObject(fields: map<string, Json>)

  /** Field lookup by key: only an object has fields, so any other value yields
      `None`, as does a key the object lacks. */
  function Get(v: Json, key: string): (r: Option<Json>)
    ensures r.Some? <==> v.JObject? && key in v.fields
    ensures r.Some? ==> r.value == v.fields[key]
  {
    if v.JObject? && key in v.fields then Some(v.fields[key]) else None
  }
}
