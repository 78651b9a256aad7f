/**
 * JSON values as exchanged between the GitHub API, the Flask backend and the
 * React frontend. Numbers are integers only; objects are maps from key to value.
 */
module JsonValue {

  datatype Json =
    | JNull
    | JBool(b: bool)
    | JNum(n: int)
    | JStr(s: string)
    | JArr(items: seq<Json>)
    | JObj(fields: map<string, Json>)

  /** The `{}` literal used as a default in the backend. */
  const EmptyObject: Json := JObj(map[])

  /** An `{"error": message}` body. */
  function ErrorBody(message: string): (body: Json)
    ensures body.JObj? && body.fields.Keys == {"error"}
    ensures body.fields["error"] == JStr(message)
  {
    JObj(map["error" := JStr(message)])
  }
}
