/**
 Values read from a parsed JSON request body, with the JavaScript type tests
 and truthiness the API handlers apply to them. Numbers are integers or NaN;
 fractional numbers are not part of this model.
 */
module Requests {

  datatype Value =
    | Undefined
    | Null
    | Bool(b: bool)
    | Num(n: int)
    | NaN
    | Str(s: string)
    | Object

  /** `typeof v === 'number'` */
  predicate IsNumber(v: Value) {
    v.Num? || v.NaN?
  }

  /** JavaScript truthiness: `undefined`, `null`, `false`, `0`, `NaN` and `""` are falsy. */
  predicate Truthy(v: Value) {
    match v
    case Undefined => false
    case Null => false
    case Bool(b) => b
    case Num(n) => n != 0
    case NaN => false
    case Str(s) => s != ""
    case Object => true
  }

  /** `!v || typeof v !== 'string'` fails exactly for a non-empty string. */
  predicate NonEmptyString(v: Value) {
    Truthy(v) && v.Str?
  }

  lemma NonEmptyStringIff(v: Value)
    ensures NonEmptyString(v) <==> v.Str? && v.s != ""
  {
  }
}
