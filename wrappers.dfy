/** Option and Result, the two wrappers the model uses
    for JavaScript's `null`/`undefined` and for thrown errors. */
module Wrappers {

  /** `None` stands for a value that is `null` or `undefined`. */
  datatype Option<+T> = None | Some(value: T)

  /** `Err` stands for an exception thrown by the operation. */
  datatype Result<+T, +E> = Ok(value: T) | Err(error: E)
}
