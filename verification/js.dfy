/**
  The slice of JavaScript's value model that the request handler observes:
  the JSON values a request may carry and the truthiness test that every
  `if (x)`, `x?.y` and `x || y` in the handler applies to them.
 */
module Js {
  import opened Wrappers

  /** A JavaScript number. Finite values are modelled exactly as reals; infinities are not modelled. */
  datatype Number = Finite(value: real) | NaN

  /** A JSON value as it arrives in a parsed request body; objects and arrays are opaque. */
  datatype Value =
    | Undefined
    | Null
    | Bool(b: bool)
    | Num(n: Number)
    | Str(s: string)
    | Object

  /** `0`, `-0` and `NaN` are the falsy numbers. */
  predicate NumberTruthy(n: Number) {
    n.Finite? && n.value != 0.0
  }

  /** A string is falsy exactly when it is empty. */
  predicate StrTruthy(s: string) {
    s != ""
  }

  /** JavaScript's ToBoolean on the values above. */
  predicate Truthy(v: Value) {
    match v
    case Undefined => false
    case Null => false
    case Bool(b) => b
    case Num(n) => NumberTruthy(n)
    case Str(s) => StrTruthy(s)
    case Object => true
  }

  /** Truthiness of a string that may be missing (`undefined` or `null`). */
  predicate OptStrTruthy(o: Option<string>) {
    o.Some? && StrTruthy(o.value)
  }

  /** The value of the JavaScript expression `a || b`. */
  function Or(a: Value, b: Value): (r: Value)
    ensures Truthy(a) ==> r == a
    ensures !Truthy(a) ==> r == b
    ensures Truthy(r) <==> Truthy(a) || Truthy(b)
  {
    if Truthy(a) then a else b
  }

  /** The falsy values are exactly `undefined`, `null`, `false`, `NaN`, `0` and `""`. */
  lemma FalsyValues(v: Value)
    ensures !Truthy(v) <==> v in {Undefined, Null, Bool(false), Num(NaN), Num(Finite(0.0)), Str("")}
  {
  }
}
