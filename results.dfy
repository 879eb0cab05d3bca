/** Optional values (JavaScript's `undefined`) and results that may carry a fault. */
module Results {

  /** A value that may be absent, as an optional property or a failed `find` is. */
  datatype Option<+T> = None | Some(value: T)

  /** Either a computed value or the fault the JavaScript code would throw instead. */
  datatype Result<+R, +E> = Success(value: R) | Failure(error: E) {

    predicate IsFailure() {
      Failure?
    }

    function PropagateFailure<U>(): Result<U, E>
      requires Failure?
    {
      Failure(error)
    }

    function Extract(): R
      requires Success?
    {
      value
    }
  }
}
