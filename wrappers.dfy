/** Optional values and single-shot outcomes.
    A Swift optional becomes an `Option`; a throwing call or a single-shot
    observable (one value, or one error, then completion) becomes a `Result`
    or, when it carries no value, an `Outcome`. */
module Wrappers {

  datatype Option<+T> = None | Some(value: T) {
    function GetOr(default: T): T {
      match this
      case Some(v) => v
      case None => default
    }
  }

  datatype Result<+T, +E> = Success(value: T) | Failure(error: E)

  datatype Outcome<+E> = Pass | Fail(error: E)

  /** `map` on a single-shot observable: the value is transformed, an error passes through. */
  function MapSuccess<T, U, E>(r: Result<T, E>, f: T -> U): (m: Result<U, E>)
    ensures m.Success? <==> r.Success?
    ensures m.Success? ==> m.value == f(r.value)
    ensures m.Failure? ==> m.error == r.error
  {
    match r
    case Success(v) => Success(f(v))
    case Failure(e) => Failure(e)
  }
}
