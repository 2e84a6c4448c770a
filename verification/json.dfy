/** Parsed JSON request bodies and JavaScript truthiness of their fields. */
module Json {
  import opened Wrappers

  /** A value produced by `JSON.parse` (JSON has no `undefined` and no NaN). */
  datatype Json =
    | JNull
    | JBool(b: bool)
    | JNumber(n: real)
    | JString(s: string)
    | JArray(items: seq<Json>)
    | JObject(fields: map<string, Json>)

  /** `value[key]` for a non-null value: an object yields its own field, any
      other value (number, string, boolean, array) has none of the fields the
      application asks for, so the access yields `undefined` (None). */
  function Field(value: Json, key: string): (r: Option<Json>)
    requires !value.JNull?
    ensures r.Some? <==> value.JObject? && key in value.fields
    ensures r.Some? ==> r.value == value.fields[key]
  {
    match value
    case JObject(fields) => if key in fields then Some(fields[key]) else None
    case _ => None
  }

  /** JavaScript truthiness of a possibly-undefined JSON value: `undefined`,
      `null`, `false`, `0` and `""` are falsy; arrays and objects, even empty
      ones, are truthy. */
  predicate TruthyValue(v: Option<Json>) {
    match v
    case None => false
    case Some(JNull) => false
    case Some(JBool(b)) => b
    case Some(JNumber(n)) => n != 0.0
    case Some(JString(s)) => |s| > 0
    case Some(_) => true
  }
}
