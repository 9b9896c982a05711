/** Option and Result, the shapes the source expresses with Kotlin nullable
    types and with `Result<T>` values produced by `runCatching`. */
module Wrappers {

  datatype Option<+T> = None | Some(value: T)

  /** A failed call carries a description of the exception that was thrown. */
  datatype Result<+T> = Ok(value: T) | Err(error: string)

  datatype Unit = Unit
}
