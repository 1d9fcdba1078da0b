/** Option and Result, shared by every module of the model. */
module Wrappers {

  /** An optional value: a missing row, an absent header, an expired key. */
  datatype Option<+T> = None | Some(value: T) {

    /** The value, or `default` when there is none. */
    function GetOr(default: T): T {
      match this
      case Some(v) => v
      case None => default
    }
  }

  /** The outcome of a request handler: a value, or the error it would hand to `next`. */
  datatype Result<+T, +E> = Ok(value: T) | Err(error: E)
}

/** The errors a request handler of the user service can raise. */
module Errors {

  /**
   * `AppError(message, status)` is the service's own operational error;
   * `InvalidInput` is the schema library's parse error, which the error
   * handler answers with 400; `Unhandled(cause)` is any other exception
   * (a JSON Web Token library failure that is not one of its own error
   * classes), passed on unchanged and answered with 500.
   */
  datatype Failure =
    | AppError(message: string, status: int)
    | InvalidInput
    | Unhandled(cause: string)
  {
    /** The HTTP status the error handler answers this failure with. */
    function Status(): int {
      match this
      case AppError(_, status) => status
      case InvalidInput => 400
      case Unhandled(_) => 500
    }
  }
}
