/** JSON values as they travel in request and response bodies. */
module Json {
  import opened Wrappers

  /** A JSON value; numbers are the integers the bodies of this application carry. */
  datatype Json =
    | JNull
    | JBool(b: bool)
    | JNum(n: int)
    | JStr(s: string)
    | JArr(items: seq<Json>)
    | JObj(fields: map<string, Json>)

  /** `j[key]` on a parsed body: the member's value, or None when `j` is not an object or lacks the key. */
  function Field(j: Json, key: string): (r: Option<Json>)
    ensures r.Some? <==> j.JObj? && key in j.fields
    ensures r.Some? ==> r.value == j.fields[key]
  {
    if j.JObj? && key in j.fields then Some(j.fields[key]) else None
  }

  /** The body `{ error: message }` that the handlers answer failures with. */
  function ErrorBody(message: string): Json
  {
    JObj(map["error" := JStr(message)])
  }
}
