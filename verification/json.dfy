/**
 * JSON-like values as the backend sees them after `response.json()` or
 * `request.get_json()`: Python `None`, `bool`, numbers, `str`, `list` and
 * `dict`, with Python's truthiness.
 */
module Json {

  datatype JsonValue =
    | JNull
    | JBool(b: bool)
    | JNum(n: int)
    | JStr(s: string)
    | JList(items: seq<JsonValue>)
    | JObject(fields: map<string, JsonValue>)

  /** Python's `bool(v)`: `None`, `False`, zero and empty containers are falsy. */
  predicate Truthy(v: JsonValue) {
    match v
    case JNull => false
    case JBool(b) => b
    case JNum(n) => n != 0
    case JStr(s) => |s| > 0
    case JList(items) => |items| > 0
    case JObject(fields) => |fields| > 0
  }

  /** `d.get(key, default)` on a dict. */
  function GetOr(fields: map<string, JsonValue>, key: string, default: JsonValue): JsonValue {
    if key in fields then fields[key] else default
  }
}
