/** JSON values as the request handlers see them after `request.get_json()`,
    with the Python truthiness and `isinstance` tests the handlers apply. */
module Json {

  /** A decoded JSON value. A number with a fractional part is carried as an
      exact count of hundredths, so that prices can be reasoned about exactly. */
  datatype Value =
    | Null
    | Bool(b: bool)
    | Int(i: int)
    | Float(hundredths: int)
    | Str(s: string)
    | List(elems: seq<Value>)
    | Dict(fields: map<string, Value>)

  /** Python's `bool(v)`: None, False, zero and empty containers are falsy. */
  predicate Truthy(v: Value)
  {
    match v
    case Null => false
    case Bool(b) => b
    case Int(i) => i != 0
    case Float(h) => h != 0
    case Str(s) => s != ""
    case List(elems) => elems != []
    case Dict(fields) => fields != map[]
  }

  /** Python's `isinstance(v, int)`, which is also true of `True` and `False`. */
  predicate IsInt(v: Value)
  {
    v.Int? || v.Bool?
  }

  /** Python's `isinstance(v, (int, float))`. */
  predicate IsNumber(v: Value)
  {
    IsInt(v) || v.Float?
  }

  /** The integer an `int` (or `bool`) value stands for. */
  function IntValue(v: Value): int
    requires IsInt(v)
  {
    if v.Int? then v.i else if v.b then 1 else 0
  }

  /** `d.get(key)`: a missing key reads as None. */
  function Get(d: map<string, Value>, key: string): Value
  {
    if key in d then d[key] else Null
  }
}
