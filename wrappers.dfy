/** Optional values (Java's nullable references) and results (Java's exceptions). */
module Wrappers {

  /** `None` stands for a Java `null`. */
  datatype Option<+T> = None | Some(value: T)

  /** `Err` stands for an exception thrown out of the operation. */
  datatype Result<+T, +E> = Ok(value: T) | Err(error: E)
}
