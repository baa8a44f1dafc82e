/** Optional values and results with failure, used for the optional bindings
    of a query row and for the one way the conversion can fail. */
module Wrappers {

  /** An optional value: `None` stands for a query variable left unbound. */
  datatype Option<+T> = None | Some(value: T) {

    /** The value, or `default` when there is none. */
    function GetOr(default: T): T {
      match this
      case Some(v) => v
      case None => default
    }
  }

  /** Applies `f` to the value inside `o`, if there is one. */
  function MapOption<T, U>(o: Option<T>, f: T -> U): (r: Option<U>)
    ensures r.Some? <==> o.Some?
    ensures o.Some? ==> r.value == f(o.value)
  {
    match o
    case None => None
    case Some(v) => Some(f(v))
  }

  /** A value or an error; supports `:-`. */
  datatype Result<+R, +E> = Success(value: R) | Failure(error: E) {

    predicate IsFailure() {
      Failure?
    }

    function PropagateFailure<U>(): Result<U, E>
      requires Failure?
    {
      Failure(error)
    }

    function Extract(): R
      requires Success?
    {
      value
    }
  }
}
