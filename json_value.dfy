/** JSON values (RFC 8259): the shape every "parsed JSON" in the model takes.
    Objects are Python dicts, so they are maps from keys to values; the text
    form of JSON (parsing and printing) is not modelled here: parsing is an
    oracle the callers receive, `string -> Option<Json>`, where None stands
    for a JSONDecodeError. */
module JsonValue {
  import opened Common

  datatype Json =
    | JNull
    | JBool(b: bool)
    | JNum(n: real)
    | JStr(s: string)
    | JArr(items: seq<Json>)
    | JObj(fields: map<string, Json>)

  /** Python truthiness of a decoded JSON value. */
  predicate Truthy(j: Json) {
    match j
    case JNull => false
    case JBool(b) => b
    case JNum(n) => n != 0.0
    case JStr(s) => s != ""
    case JArr(items) => items != []
    case JObj(fields) => fields != map[]
  }

  /** `d.get(key)` on a decoded object; None for a non-object or a missing key. */
  function Get(j: Json, key: string): (r: Option<Json>)
    ensures r.Some? <==> j.JObj? && key in j.fields
  {
    if j.JObj? && key in j.fields then Some(j.fields[key]) else None
  }
}
