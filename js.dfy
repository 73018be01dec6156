/**
 * The slice of JavaScript value semantics the shimmer transform relies on:
 * scalar values with their truthiness, the `||` and `??` operators, and
 * exceptions, which are threaded explicitly through a `Result`.
 */
module Js {

  datatype Option<+T> = None | Some(value: T)

  /** Whatever a user render step throws; the transform only catches it. */
  datatype JsError = JsError(message: string)

  /** Normal completion with a value, or completion by a throw. */
  datatype Result<+T> = Ok(value: T) | Thrown(error: JsError) {
    predicate IsFailure() {
      Thrown?
    }

    function PropagateFailure<U>(): Result<U>
      requires Thrown?
    {
      Thrown(error)
    }

    function Extract(): T
      requires Ok?
    {
      value
    }
  }

  /** Non-object JavaScript values (numbers as reals; NaN is not represented). */
  datatype Scalar =
    | Undefined
    | Null
    | Bool(b: bool)
    | Num(n: real)
    | Str(s: string)

  /** JavaScript truthiness: `undefined`, `null`, `false`, `0` and `''` are falsy. */
  predicate Truthy(v: Scalar) {
    match v
    case Undefined => false
    case Null => false
    case Bool(b) => b
    case Num(n) => n != 0.0
    case Str(s) => s != ""
  }

  /** `a || b`: the left operand when it is truthy, otherwise the right one. */
  function Or(a: Scalar, b: Scalar): Scalar {
    if Truthy(a) then a else b
  }

  /** `null` or `undefined`, the values `??` replaces. */
  predicate Nullish(v: Scalar) {
    v == Undefined || v == Null
  }
}
