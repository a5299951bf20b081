/** A request body or a model reply as `json.loads` / `request.get_json()`
    decodes it, and the Python operations the handlers apply to it. */
module PyJson {
  import PyStrings

  datatype Value =
    | Null
    | Bool(b: bool)
    | Number(n: real)
    | Str(s: string)
    | Array(items: seq<Value>)
    | Object(fields: map<string, Value>)

  /** The result of evaluating a Python expression that may raise
      (`TypeError`, `KeyError`, `AttributeError`, ...). */
  datatype Eval<T> = Returns(value: T) | Raises

  /** Python truthiness, as tested by `not data` and `if history:`. */
  predicate Truthy(v: Value) {
    match v
    case Null => false
    case Bool(b) => b
    case Number(n) => n != 0.0
    case Str(s) => s != []
    case Array(items) => items != []
    case Object(fields) => fields != map[]
  }

  /** Python's `key in v` for a string `key`: a key of a dict, an element of
      a list, a substring of a str; numbers, booleans and None are not
      iterable and raise `TypeError`. */
  function In(key: string, v: Value): Eval<bool> {
    match v
    case Object(fields) => Returns(key in fields)
    case Array(items) => Returns(Str(key) in items)
    case Str(s) => Returns(PyStrings.Contains(s, key))
    case _ => Raises
  }

  /** Python's `v[key]` for a string `key`: only a dict that holds the key
      answers; any other value raises. */
  function Subscript(v: Value, key: string): Eval<Value> {
    if v.Object? && key in v.fields then Returns(v.fields[key]) else Raises
  }

  /** Python's `v.strip()`: only a str has the method. */
  function StripValue(v: Value): Eval<string> {
    if v.Str? then Returns(PyStrings.Strip(v.s)) else Raises
  }

  /** Values that `len()` accepts. */
  predicate HasLen(v: Value) {
    v.Str? || v.Array? || v.Object?
  }
}
