/** Failure-carrying values shared by the other modules. */
module Wrappers {

  /** An optional value: `None` stands for JavaScript's `undefined` / `null`. */
  datatype Option<+T> = None | Some(value: T)

  /** A computation that either yields a value or raises an exception. */
  datatype Result<+R, +E> = Success(value: R) | Failure(error: E)
}
