/**
 The part of JavaScript's dynamic values that the delivery models inspect:
 `typeof x === "string"`, truthiness (`x ? true : false`) and
 `Array.prototype.includes`.
 */
module Js {

  /** A JavaScript value as the models see it. Numbers are integers here. */
  datatype Value =
    | Undefined
    | Null
    | Boolean(b: bool)
    | Number(n: int)
    | Str(s: string)
    | Object

  /** JavaScript truthiness: `undefined`, `null`, `false`, `0` and `""` are falsy, everything else is truthy. */
  predicate Truthy(v: Value)
  {
    match v
    case Undefined => false
    case Null => false
    case Boolean(b) => b
    case Number(n) => n != 0
    case Str(s) => |s| > 0
    case Object => true
  }

  /** A boolean passed as a flag is kept as it is. */
  lemma TruthyBoolean(b: bool)
    ensures Truthy(Boolean(b)) == b
  {
  }

  /** The falsy values among the modelled ones: `undefined`, `null`, `false`, `0` and `""`. */
  lemma FalsyValues(v: Value)
    ensures !Truthy(v) <==> v in {Undefined, Null, Boolean(false), Number(0), Str("")}
  {
  }

  /** `xs.includes(x)`: a front-to-back scan for an element equal to `x`. */
  function Includes<T(==)>(xs: seq<T>, x: T): (r: bool)
    ensures r <==> x in xs
  {
    if |xs| == 0 then false
    else xs[0] == x || Includes(xs[1..], x)
  }
}
