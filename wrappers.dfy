/** Failure-carrying values shared by the other modules. */
module Wrappers {

  /** An optional value; `None` stands for "nothing", e.g. a thrown TypeError. */
  datatype Option<+T> = None | Some(value: T)

  /** The outcome of an operation that may fail with a message. */
  datatype Result<+R, +E> = Success(value: R) | Failure(error: E)
}
