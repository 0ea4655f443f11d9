/**
 The small slice of JavaScript value semantics the components rely on:
 truthiness, `??`, `||`, destructuring defaults and property lookup on a
 plain object. Every other module reads configuration through these.
 */
module Js {

  datatype Option<T> = None | Some(value: T)

  /** A JavaScript value as far as the components inspect it. Numbers are
      integers here (`NaN` is not modelled); `Fn` is a callable value told
      apart from others by an identity; `Obj` is any other object. */
  datatype Value =
    | Undefined
    | Null
    | Bool(b: bool)
    | Num(n: int)
    | Str(s: string)
    | Fn(id: nat)
    | Obj

  /** A plain object with own, enumerable keys only. */
  type Object = map<string, Value>

  /** JavaScript's ToBoolean. */
  predicate Truthy(v: Value) {
    match v
    case Undefined => false
    case Null => false
    case Bool(b) => b
    case Num(n) => n != 0
    case Str(s) => s != []
    case Fn(_) => true
    case Obj => true
  }

  predicate Nullish(v: Value) {
    v.Undefined? || v.Null?
  }

  /** `a ?? b`: only `null` and `undefined` fall through. */
  function Coalesce(a: Value, b: Value): Value {
    if Nullish(a) then b else a
  }

  /** `a || b`: every falsy value falls through. */
  function Or(a: Value, b: Value): Value {
    if Truthy(a) then a else b
  }

  /** A destructuring default `{ x = d } = options`: only `undefined`
      takes the default, an explicit `null` is kept. */
  function WithDefault(v: Value, d: Value): Value {
    if v.Undefined? then d else v
  }

  /** `o.k`: a missing key reads as `undefined`. */
  function Get(o: Object, k: string): Value {
    if k in o then o[k] else Undefined
  }

  /** `??` keeps every value that is present, falsy or not, while `||`
      replaces every falsy one; the two agree exactly on the values that
      are truthy or nullish. */
  lemma CoalesceVersusOr(a: Value, b: Value)
    ensures Coalesce(a, b) == Or(a, b) <==> Truthy(a) || Nullish(a) || a == b
  {
  }

  /** A destructuring default differs from `??` only on `null`. */
  lemma DefaultVersusCoalesce(v: Value, d: Value)
    ensures WithDefault(v, d) == Coalesce(v, d) <==> !v.Null? || d == Null
  {
  }
}
