/** Failure-compatible wrappers shared by the model.
    - Option<T> stands for a value that may be missing; for a score or a
      table cell, None is pandas' NaN.
    - Result<T, E> stands for a computation that either returns a value or
      raises the Python exception described by E. */
module Wrappers {

  datatype Option<+T> = None | Some(value: T)

  datatype Result<+T, +E> = Success(value: T) | Failure(error: E) {

    /** Applies f to a successful value and passes a failure through unchanged. */
    function MapValue<U>(f: T -> U): (r: Result<U, E>)
      ensures r.Success? <==> Success?
      ensures Success? ==> r.value == f(value)
      ensures Failure? ==> r.error == error
    {
      match this
      case Success(v) => Success(f(v))
      case Failure(e) => Failure(e)
    }
  }
}
