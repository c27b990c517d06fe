/** Optional values and results, standing in for Java's null and for exceptions. */
module Wrappers {

  /** A value that may be absent: a cache key that is not set, a JSON field that is missing. */
  datatype Option<+T> = None | Some(value: T)

  /** A computation that either yields a value or fails with an error. */
  datatype Result<+T, +E> = Ok(value: T) | Err(error: E)
}
