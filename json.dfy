/** The Python value that Flask's `request.get_json()` yields, as far as the
    handlers look at it, and the Python operations the handlers apply to it. */
module JsonValues {

  /** A decoded JSON value: `None`, `bool`, `int`, `float`, `str`, `list`
      or `dict`. A JSON number without fraction or exponent decodes to an
      `int`, any other number to a `float`. */
  datatype Json =
    | JNull
    | JBool(b: bool)
    | JInt(i: int)
    | JFloat(r: real)
    | JString(s: string)
    | JArray(items: seq<Json>)
    | JObject(fields: map<string, Json>)

  /** Python truthiness: `None`, `False`, `0`, `0.0`, `""`, `[]` and `{}`
      are false, every other value is true. */
  predicate Truthy(v: Json)
  {
    match v
    case JNull => false
    case JBool(b) => b
    case JInt(i) => i != 0
    case JFloat(r) => r != 0.0
    case JString(s) => s != ""
    case JArray(items) => |items| != 0
    case JObject(fields) => |fields| != 0
  }

  /** `d.get(key)` (and `d.get(key, None)`): a missing key reads as `None`,
      so a key that is absent and a key bound to `null` look the same. */
  function Get(d: map<string, Json>, key: string): Json
  {
    if key in d then d[key] else JNull
  }

  /** `isinstance(v, (int, float))`: `bool` is a subclass of `int`, so
      `True` and `False` pass. */
  predicate IsNumber(v: Json)
  {
    v.JBool? || v.JInt? || v.JFloat?
  }

  /** The numeric value Python uses when it compares a number: `True` is 1
      and `False` is 0. */
  function NumericValue(v: Json): real
    requires IsNumber(v)
  {
    match v
    case JBool(b) => if b then 1.0 else 0.0
    case JInt(i) => i as real
    case JFloat(r) => r
  }

}
