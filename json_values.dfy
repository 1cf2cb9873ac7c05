/**
 * Decoded JSON values as the Python code sees them after `request.get_json()`:
 * objects are dicts, `null` is `None`, and every value has a truthiness.
 */
module JsonValues {
  import opened Wrappers

  datatype Json =
    | JNull
    | JBool(b: bool)
    | JNum(n: real)
    | JStr(s: string)
    | JArray(items: seq<Json>)
    | JObject(members: map<string, Json>)

  /** A JSON object, i.e. a Python dict with string keys. */
  type Object = map<string, Json>

  /** Python truthiness: `None`, `False`, `0`, `""`, `[]` and `{}` are false. */
  predicate Truthy(j: Json) {
    match j
    case JNull => false
    case JBool(b) => b
    case JNum(n) => n != 0.0
    case JStr(s) => s != []
    case JArray(items) => items != []
    case JObject(members) => members != map[]
  }

  /** `d.get(key)`: `None` (JSON null) when the key is absent. */
  function Get(d: Object, key: string): Json {
    if key in d then d[key] else JNull
  }
}
