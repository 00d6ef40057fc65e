/** Small failure-compatible wrappers used throughout the model. */
module Wrappers {

  /** A value that may be absent: a nullable database column or an optional request field. */
  datatype Option<+T> = None | Some(value: T)

  /** The outcome of an operation that either completes or raises the named exception. */
  datatype Outcome<+E> = Pass | Fail(error: E)
}
