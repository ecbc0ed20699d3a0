/** Failure-carrying wrappers shared by every module of the model. */
module Base {

  /** A value that may be absent: JavaScript `null`/`undefined`, Python `None`. */
  datatype Option<+T> = None | Some(value: T) {

    /** The wrapped value, or `default` when absent (JavaScript `x ?? d`). */
    function GetOr(default: T): T {
      match this
      case Some(v) => v
      case None => default
    }
  }

  /** The outcome of an operation that may raise instead of returning. */
  datatype Result<+T, +E> = Ok(value: T) | Err(error: E)

  /** The Python exception classes the backend raises, by class. */
  datatype PyError =
    | ValueError(message: string)
    | TypeError(message: string)
    | KeyError(key: string)
    | ValidationError(message: string)
    | AttributeError(name: string)
    | FieldError(name: string)
}
