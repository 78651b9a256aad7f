/** How the React frontend's JavaScript reads the JSON values it receives. */
module JsValues {
  import opened Wrappers
  import opened JsonValue

  /** JavaScript truthiness; `None` stands for `undefined`. */
  predicate JsTruthy(v: Option<Json>)
    ensures JsTruthy(v) ==> v.Some? && !v.value.JNull?
    ensures v.Some? && (v.value.JArr? || v.value.JObj?) ==> JsTruthy(v)
  {
    match v
    case None => false
    case Some(j) =>
      match j
      case JNull => false
      case JBool(b) => b
      case JNum(n) => n != 0
      case JStr(s) => s != ""
      case JArr(_) => true
      case JObj(_) => true
  }

  /**
   * `v.key` for a value `v` that is not null: the member of an object, `undefined`
   * for a missing member and for every other kind of value. (Reading a property
   * of null throws; callers handle that case first.)
   */
  function Prop(v: Json, key: string): (r: Option<Json>)
    ensures r.Some? <==> v.JObj? && key in v.fields
    ensures r.Some? ==> r.value == v.fields[key]
  {
    match v
    case JObj(fields) => if key in fields then Some(fields[key]) else None
    case _ => None
  }

  /** `x || 'Unknown'`. */
  function OrUnknown(v: Option<Json>): (r: Json)
    ensures JsTruthy(v) ==> r == v.value
    ensures !JsTruthy(v) ==> r == JStr("Unknown")
  {
    if JsTruthy(v) then v.value else JStr("Unknown")
  }
}
