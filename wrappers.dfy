/** Option and Result, the shapes used for Java's null returns and uncaught exceptions. */
module Wrappers {

  /** `None` stands for a Java `null` reference. */
  datatype Option<+T> = None | Some(value: T)

  /** `Err` stands for an exception that leaves the processor uncaught. */
  datatype Result<+T, +E> = Ok(value: T) | Err(error: E)
}
