/** Failure-carrying datatypes shared by the ledger and route models. */
module Wrappers {

  /** A value that may be absent: JavaScript's `undefined`/`null` or a lookup miss. */
  datatype Option<+T> = None | Some(value: T)

  /** The outcome of an operation that can throw or reply with an error. */
  datatype Result<+T, +E> = Ok(value: T) | Err(error: E)
}
