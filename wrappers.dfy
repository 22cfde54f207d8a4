/** Small failure-carrying datatypes shared by the codecs and plugins. */
module Wrappers {

  datatype Option<+T> = None | Some(value: T)

  /** The outcome of an operation that the source aborts by throwing an Error. */
  datatype Result<+T, +E> = Ok(value: T) | Err(error: E)
}
