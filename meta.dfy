/** Values of the open metadata maps that chunks and store records carry. */
module Meta {
  import opened Text

  /** A metadata value: the four primitive kinds the store accepts, and every
      other Python value (a list of PDF text blocks, a dict, None), of which
      only its printed form and its truth value are observable here. */
  datatype Value =
    | Str(s: string)
    | Int(i: int)
    | Float(f: real, repr: string)
    | Bool(b: bool)
    | Other(repr: string, truthy: bool)

  type Metadata = map<string, Value>

  /** `isinstance(value, (str, int, float, bool))` */
  predicate IsPrimitive(v: Value) {
    !v.Other?
  }

  /** Python's truth value of `v` (`if v:`). */
  predicate Truthy(v: Value) {
    match v
    case Str(s) => |s| > 0
    case Int(i) => i != 0
    case Float(f, _) => f != 0.0
    case Bool(b) => b
    case Other(_, t) => t
  }

  /** `str(v)`, as an f-string renders it; the text of a float is carried by the value. */
  function Show(v: Value): string {
    match v
    case Str(s) => s
    case Int(i) => IntToString(i)
    case Float(_, r) => r
    case Bool(b) => if b then "True" else "False"
    case Other(r, _) => r
  }

  /** `m.get(key, default)` */
  function Get(m: Metadata, key: string, default: Value): (v: Value)
    ensures key !in m ==> v == default
    ensures key in m ==> v == m[key]
  {
    if key in m then m[key] else default
  }
}
