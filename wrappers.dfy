/** Option and Result, the shapes of the source's `Option<T>` and `Result<T, io::Error>`. */
module Wrappers {

  datatype Option<+T> = None | Some(value: T)

  /** The only `io::ErrorKind` the core produces. */
  datatype ErrorKind = NotFound

  /** An `io::Error`: a kind and its message. */
  datatype IoError = IoError(kind: ErrorKind, message: string)

  datatype Result<+T> = Ok(value: T) | Err(error: IoError)
}
