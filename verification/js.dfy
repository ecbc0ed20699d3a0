/**
 * The JavaScript values the frontend passes around loosely (ids, titles,
 * route params), with the language's truthiness, `||`, `??` and `String()`.
 * Numbers are integers: no code path modelled here produces a fraction or NaN.
 */
module Js {
  import Text

  datatype Value = Undefined | Null | Bool(b: bool) | Num(n: int) | Str(s: string)

  /** JavaScript truthiness: `undefined`, `null`, `false`, `0` and `""` are falsy. */
  predicate Truthy(v: Value) {
    match v
    case Undefined => false
    case Null => false
    case Bool(b) => b
    case Num(n) => n != 0
    case Str(s) => s != ""
  }

  /** `a || b`. */
  function Or(a: Value, b: Value): (r: Value)
    ensures Truthy(a) ==> r == a
    ensures !Truthy(a) ==> r == b
  {
    if Truthy(a) then a else b
  }

  /** `a ?? b`: only `undefined` and `null` are replaced. */
  function Coalesce(a: Value, b: Value): (r: Value)
    ensures (a.Undefined? || a.Null?) ==> r == b
    ensures !(a.Undefined? || a.Null?) ==> r == a
  {
    if a.Undefined? || a.Null? then b else a
  }

  /** `String(v)`, also what a template literal `${v}` produces. */
  function ToString(v: Value): (r: string)
    ensures v.Str? ==> r == v.s
  {
    match v
    case Undefined => "undefined"
    case Null => "null"
    case Bool(b) => if b then "true" else "false"
    case Num(n) => Text.IntToString(n)
    case Str(s) => s
  }

  /** Only an empty string converts to the empty string. */
  lemma ToStringEmpty(v: Value)
    ensures ToString(v) == "" <==> v == Str("")
  {
    if v.Num? {
      var t := Text.IntToString(v.n);
      assert |t| >= 1;
    }
  }
}
