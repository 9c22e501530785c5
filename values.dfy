/** Python values that cross the boundaries of the modelled core: optional
    values, results with exceptions, document metadata values and the JSON
    values found in request bodies, with Python's truthiness and str(). */
module Values {
  import Text

  datatype Option<+T> = None | Some(value: T) {
    /** `x if x is not None else default`. */
    function GetOr(default: T): T {
      match this
      case Some(v) => v
      case None => default
    }
  }

  /** The exceptions the core raises or lets through. */
  datatype Exception =
    | ValueError(message: string)
    | TypeError(message: string)
    | AttributeError(message: string)
    | Upstream(message: string)   // raised by an external collaborator, passed through

  datatype Result<+R> = Success(value: R) | Failure(error: Exception)

  /** A value stored in a document's metadata dictionary. */
  datatype Value = Str(s: string) | Int(n: int) | Null

  /** `dict.setdefault(key, v)`: insert `v` only when `key` is absent. */
  function SetDefault(m: map<string, Value>, key: string, v: Value): (r: map<string, Value>)
    ensures key in r && r[key] == (if key in m then m[key] else v)
    ensures r.Keys == m.Keys + {key}
    ensures forall k :: k in m ==> r[k] == m[k]
  {
    if key in m then m else m[key := v]
  }

  /** `dict.get(key, default)`. */
  function Get(m: map<string, Value>, key: string, default: Value): Value {
    if key in m then m[key] else default
  }

  /** The JSON values a request body may carry (floats, lists and objects are
      not modelled). */
  datatype Json = JNull | JBool(b: bool) | JInt(i: int) | JStr(s: string)

  /** Python truthiness of a JSON value (`if x`, `x or y`, `bool(x)`). */
  predicate Truthy(j: Json) {
    match j
    case JNull => false
    case JBool(b) => b
    case JInt(i) => i != 0
    case JStr(s) => s != ""
  }

  /** Python's `str(x)` (also what an f-string inserts). */
  function PyStr(j: Json): string {
    match j
    case JNull => "None"
    case JBool(b) => if b then "True" else "False"
    case JInt(i) => Text.IntToString(i)
    case JStr(s) => s
  }

  /** `body.get(key, default)` over a request body. */
  function Field(body: map<string, Json>, key: string, default: Json): Json {
    if key in body then body[key] else default
  }
}
