/** Option and Result, the two failure-carrying shapes used across the model. */
module Wrappers {

  datatype Option<+T> = None | Some(value: T)

  /** A server action either returns a value or throws an Error whose message is kept. */
  datatype Result<+T> = Ok(value: T) | Err(msg: string)
}
