/** Option and Result: Java's null and thrown exceptions, as values. */
module Wrappers {

  /** `None` stands for a Java `null` reference. */
  datatype Option<+T> = None | Some(value: T)

  /** `Failure` stands for an exception that leaves the Java method. */
  datatype Result<+R, +E> = Success(value: R) | Failure(error: E)
}
