/**
 * A small model of JavaScript values, enough to describe the conversation items,
 * provider metadata and error objects the core passes around. Object key order is
 * not tracked here (only storage maps whose first key matters use OrderedMaps).
 */
module JsValues {

  /** A JavaScript number: finite, or one of the non-finite values. */
  datatype Number = Finite(r: real) | PosInf | NegInf | NaN

  datatype Value =
    | Undefined
    | Null
    | Bool(b: bool)
    | Num(n: Number)
    | Str(s: string)
    | Arr(elems: seq<Value>)
    | Obj(fields: map<string, Value>)

  /** JavaScript truthiness (`!!v`): undefined, null, false, 0, NaN and '' are falsy. */
  predicate Truthy(v: Value) {
    match v
    case Undefined => false
    case Null => false
    case Bool(b) => b
    case Num(n) => !(n == Finite(0.0) || n == NaN)
    case Str(s) => s != ""
    case Arr(_) => true
    case Obj(_) => true
  }

  /** Property read `v?.key`: a missing key, or a value that is not an object, reads as undefined. */
  function Get(v: Value, key: string): Value {
    if v.Obj? && key in v.fields then v.fields[key] else Undefined
  }

  /** The own enumerable properties copied by `{ ...v }` for the values the model spreads. */
  function Spread(v: Value): map<string, Value> {
    if v.Obj? then v.fields else map[]
  }

  /** `typeof v === 'string'`, returning the string. */
  predicate IsString(v: Value) { v.Str? }

  /** `a || b`: the first operand when it is truthy, otherwise the second. */
  function Or(a: Value, b: Value): Value {
    if Truthy(a) then a else b
  }

  /** `a ?? b`: the first operand unless it is null or undefined. */
  function Coalesce(a: Value, b: Value): Value {
    if a.Undefined? || a.Null? then b else a
  }

  lemma OrPicksTruthy(a: Value, b: Value)
    ensures Truthy(Or(a, b)) <==> Truthy(a) || Truthy(b)
  {
  }
}
