/** Optional values and results with a failure case, used wherever the Java program
    returns null or throws. */
module Wrappers {

  /** A value that may be absent: a Java reference that may be null. */
  datatype Option<+T> = None | Some(value: T)

  /** The outcome of an operation that may throw. */
  datatype Result<+T, +E> = Ok(value: T) | Err(error: E)
}
