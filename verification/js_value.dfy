/**
 * The JavaScript values the record fields hold, with the operators the code applies to them:
 * truthiness (`||`, `filter(Boolean)`, `a ? b : c`), nullish coalescing (`??`), template-literal
 * rendering and the object spread that merges records.
 */
module JsValue {
  import opened JsString

  /** A scalar JavaScript value. Numbers are integers, with NaN apart. */
  datatype Value =
    | Undefined
    | Null
    | Bool(b: bool)
    | Num(n: int)
    | NaN
    | Str(s: string)

  predicate Nullish(v: Value) {
    v.Undefined? || v.Null?
  }

  /** `Boolean(v)`. */
  predicate Truthy(v: Value) {
    match v
    case Undefined => false
    case Null => false
    case Bool(b) => b
    case Num(n) => n != 0
    case NaN => false
    case Str(s) => s != ""
  }

  /** `a ?? b`. */
  function NullishOr(a: Value, b: Value): (r: Value)
    ensures !Nullish(a) ==> r == a
    ensures Nullish(a) ==> r == b
  {
    if Nullish(a) then b else a
  }

  /** `a || b`. */
  function Or(a: Value, b: Value): (r: Value)
    ensures Truthy(a) ==> r == a
    ensures !Truthy(a) ==> r == b
  {
    if Truthy(a) then a else b
  }

  /** `${v}`, i.e. `String(v)`. */
  function Render(v: Value): string
  {
    match v
    case Undefined => "undefined"
    case Null => "null"
    case Bool(b) => if b then "true" else "false"
    case Num(n) => IntToString(n)
    case NaN => "NaN"
    case Str(s) => s
  }

  /** The number `parseInt` yields. */
  function FromParsed(p: ParsedInt): Value
  {
    match p
    case Int(i) => Num(i)
    case NaN => Value.NaN
  }

  /** An object's own enumerable properties. Key order is not kept. */
  type Fields = map<string, Value>

  /** `{ ...a, ...b }`: every key of either side, the right-hand side winning a clash, even
      with an `undefined` value. */
  function Spread(a: Fields, b: Fields): (r: Fields)
    ensures r.Keys == a.Keys + b.Keys
    ensures forall k :: k in b ==> r[k] == b[k]
    ensures forall k :: k in a && k !in b ==> r[k] == a[k]
  {
    a + b
  }
}
