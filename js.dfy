/** The JavaScript values that cross the backend's boundaries: parsed JSON,
    the result of `parseFloat`, and JavaScript truthiness. */
module Js {
  import opened Wrappers

  /** A value produced by `JSON.parse`. Object key order is not kept. */
  datatype Json =
    | JNull
    | JBool(b: bool)
    | JNumber(n: real)
    | JString(str: string)
    | JArray(items: seq<Json>)
    | JObject(fields: map<string, Json>)

  /** A JavaScript number as `parseFloat` returns it (infinities are not modelled). */
  datatype Number = NaN | Finite(value: real)

  /** JavaScript truthiness of a JSON value. */
  predicate Truthy(j: Json)
  {
    match j
    case JNull => false
    case JBool(b) => b
    case JNumber(n) => n != 0.0
    case JString(s) => s != ""
    case JArray(_) => true
    case JObject(_) => true
  }

  /** Truthiness of a number: `0` and `NaN` are falsy. */
  predicate NumberTruthy(n: Number)
  {
    n.Finite? && n.value != 0.0
  }

  /** Truthiness of a possibly absent string: absent and `""` are falsy. */
  predicate StringTruthy(o: Option<string>)
  {
    o.Some? && o.value != ""
  }

  /** The keys and values `Object.keys` enumerates on a JSON object;
      other JSON values enumerate none here. */
  function Entries(j: Json): map<string, Json>
  {
    if j.JObject? then j.fields else map[]
  }
}
