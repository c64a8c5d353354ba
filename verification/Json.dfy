/** Payloads: the JSON values that JSONB columns hold and assertions inspect. */
module Json {

  datatype Value =
    | Null
    | Bool(b: bool)
    | Int(n: int)
    | Num(x: real)
    | Str(s: string)
    | Arr(items: seq<Value>)
    | Obj(fields: map<string, Value>)

  /** `isinstance(v, (int, float))`: a Python bool is an int, so booleans count. */
  predicate Numeric(v: Value) {
    v.Bool? || v.Int? || v.Num?
  }

  /** `float(v)` on a numeric value. */
  function AsReal(v: Value): real
    requires Numeric(v)
  {
    match v
    case Bool(b) => if b then 1.0 else 0.0
    case Int(n) => n as real
    case Num(x) => x
  }

  /** `isinstance(v, int)`. */
  predicate Integral(v: Value) {
    v.Bool? || v.Int?
  }

  function AsInt(v: Value): int
    requires Integral(v)
  {
    match v
    case Bool(b) => if b then 1 else 0
    case Int(n) => n
  }

  function Abs(x: real): real {
    if x < 0.0 then -x else x
  }

  function AbsInt(n: int): int {
    if n < 0 then -n else n
  }
}
