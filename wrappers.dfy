/** Option and Result values standing for Java's null and thrown exceptions. */
module Wrappers {

  /** A value that may be absent; None stands for a Java null. */
  datatype Option<+T> = None | Some(value: T)

  /** The outcome of a Java call that may throw: Failure names the exception. */
  datatype Result<+T> = Success(value: T) | Failure(error: string)
}
