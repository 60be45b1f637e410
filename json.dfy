/** The values `json.loads` hands back to the intake code, with the two
    Python behaviours the code relies on: truthiness (`if not result`) and
    `dict.get(key, default)`. */
module JsonValue {

  datatype Json =
    | JNull
    | JBool(b: bool)
    | JNum(n: real)
    | JStr(s: string)
    | JArr(items: seq<Json>)
    | JObj(fields: map<string, Json>)

  /** Python's `bool(v)` for a decoded JSON value: `None`, `False`, zero and
      empty strings, lists and dicts are false. */
  predicate Truthy(j: Json) {
    match j
    case JNull => false
    case JBool(b) => b
    case JNum(n) => n != 0.0
    case JStr(s) => s != []
    case JArr(items) => items != []
    case JObj(fields) => fields != map[]
  }

  /** `d.get(key, default)` on a decoded dict. */
  function Get(fields: map<string, Json>, key: string, default: Json): Json {
    if key in fields then fields[key] else default
  }

  /** The values the `sqlite3` module can bind as statement parameters:
      `None`, booleans, numbers and strings. Binding a list or a dict raises
      an `sqlite3` error. */
  predicate Bindable(j: Json) {
    !j.JArr? && !j.JObj?
  }
}
