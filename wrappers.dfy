/** Option and Result, the two failure-carrying types the model uses. */
module Wrappers {

  datatype Option<+T> = None | Some(value: T)

  /** `Err` carries the message of the JavaScript `Error` the source throws. */
  datatype Result<+T> = Ok(value: T) | Err(message: string)
}
