/** Optional values and results, the shapes the source expresses with
    `null` returns and with thrown exceptions. */
module Wrappers {

  datatype Option<+T> = None | Some(value: T)

  /** The outcome of an operation that may throw: `Err` carries the message. */
  datatype Result<+T> = Ok(value: T) | Err(message: string)
}
