/**
 * Decoded JSON values as the Python code receives them from `json.loads`, and the
 * Python built-ins the views apply to them: truthiness, `float()`, `int()` and
 * `Decimal(str(value))`. Floats are modelled as exact rationals.
 */
module Json {
  import opened Wrappers
  import opened Text

  datatype Value =
    | Null
    | Bool(b: bool)
    | Int(i: int)
    | Float(x: real)
    | Str(s: string)
    | Arr(items: seq<Value>)
    | Obj(fields: map<string, Value>)

  /** `d.get(key)`: a missing key reads as `None`. */
  function Get(d: map<string, Value>, key: string): Value {
    if key in d then d[key] else Null
  }

  /** `value in (None, "")`. */
  predicate IsBlank(v: Value) { v == Null || v == Str("") }

  /** Python truthiness. */
  predicate Truthy(v: Value) {
    match v
    case Null => false
    case Bool(b) => b
    case Int(i) => i != 0
    case Float(x) => x != 0.0
    case Str(s) => s != ""
    case Arr(items) => items != []
    case Obj(fields) => fields != map[]
  }

  /** `int(x)` of a float: truncation toward zero. */
  function Trunc(x: real): (r: int)
    ensures x >= 0.0 ==> r as real <= x < r as real + 1.0
    ensures x < 0.0 ==> r as real - 1.0 < x <= r as real
  {
    if x >= 0.0 then x.Floor else -((-x).Floor)
  }

  /** `float(value)`; `None` where Python raises `TypeError` or `ValueError`. */
  function ToFloat(v: Value): Option<real> {
    match v
    case Bool(b) => Some(if b then 1.0 else 0.0)
    case Int(i) => Some(i as real)
    case Float(x) => Some(x)
    case Str(s) => ParseNumber(s)
    case _ => None
  }

  /** `int(value)`; `None` where Python raises `TypeError` or `ValueError`. */
  function ToInt(v: Value): Option<int> {
    match v
    case Bool(b) => Some(if b then 1 else 0)
    case Int(i) => Some(i)
    case Float(x) => Some(Trunc(x))
    case Str(s) => ParseInt(s)
    case _ => None
  }

  /** `Decimal(str(value))`: `str(True)` is "True" and a container prints with brackets,
      so only numbers and numeric strings convert. */
  function ToDecimal(v: Value): Option<real> {
    match v
    case Int(i) => Some(i as real)
    case Float(x) => Some(x)
    case Str(s) => ParseNumber(s)
    case _ => None
  }

  /** An optional float as JSON: `None` or the number. */
  function OptFloat(x: Option<real>): Value {
    if x.Some? then Float(x.value) else Null
  }

  /** `isinstance(value, str)` and its payload. */
  function AsString(v: Value): Option<string> {
    match v
    case Str(s) => Some(s)
    case _ => None
  }
}
