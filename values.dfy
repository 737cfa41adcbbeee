/**
 * Already-decoded JavaScript values, as they reach the broadcast engine from
 * the bus and as the engine hands them to sessions.  Numbers are integers:
 * floating point is not modelled.
 */
module Values {

  datatype Value =
    | Undefined
    | Null
    | Bool(b: bool)
    | Num(n: int)
    | Str(s: string)
    | Arr(items: seq<Value>)
    | Obj(fields: map<string, Value>)

  /**
   * JavaScript's conversion to boolean: `undefined`, `null`, `false`, `0`
   * and the empty string are falsy; every other value, arrays and objects
   * included, is truthy.
   */
  predicate Truthy(v: Value)
  {
    match v
    case Undefined => false
    case Null => false
    case Bool(b) => b
    case Num(n) => n != 0
    case Str(s) => s != ""
    case Arr(_) => true
    case Obj(_) => true
  }

  /** An opaque clock reading (an ISO-8601 text), supplied by the caller. */
  type Timestamp = string

  /** The value of property `key` of an object, `undefined` when it has none. */
  function Property(fields: map<string, Value>, key: string): Value
  {
    if key in fields then fields[key] else Undefined
  }
}
