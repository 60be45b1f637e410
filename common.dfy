/** Option and Result, the two failure-carrying wrappers the model uses for
    Python's `None` returns and raised exceptions. */
module Common {

  datatype Option<+T> = None | Some(value: T) {
    /** `value` when present, `default` otherwise (Python's `x or default`
        on an optional value). */
    function GetOr(default: T): T {
      match this
      case Some(v) => v
      case None => default
    }
  }

  datatype Result<+T, +E> = Success(value: T) | Failure(error: E)
}
