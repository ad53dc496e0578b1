/** Option and Result, the two small wrappers the rest of the model is written in. */
module Wrappers {

  /** A value that may be absent: Python's `None` versus a value. */
  datatype Option<+T> = None | Some(value: T)

  /** A call that either returns a value or raises an error. */
  datatype Result<+T, +E> = Success(value: T) | Failure(error: E)
}
