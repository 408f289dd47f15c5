/** Stand-ins for Java's nullable references and thrown exceptions. */
module Wrappers {

  /** A possibly-null reference: `None` is Java's `null`. */
  datatype Option<+T> = None | Some(value: T)

  /** The outcome of code that either returns a value or throws. */
  datatype Result<+R, +E> = Success(value: R) | Failure(error: E)
}
