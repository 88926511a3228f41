/** Option and Result, the two shapes every handler's answer takes. */
module Wrappers {

  /** A value that may be absent: a JavaScript `undefined`/`null`, or an SQL NULL. */
  datatype Option<+T> = None | Some(value: T)

  /** A handler either answers or throws an error. */
  datatype Result<+T, +E> = Ok(value: T) | Err(error: E)
}

/** The error kinds a handler can fail with, each carrying its message. */
module ApiErrors {
  datatype ApiError =
    | NotFound(message: string)
    | Unauthenticated(message: string)
    | Internal(message: string)
}
