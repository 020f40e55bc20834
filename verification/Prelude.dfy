/** Shared result types. The source's exceptions are the values of `Error`. */
module Prelude {

  datatype Option<+T> = None | Some(value: T)

  datatype Result<+T, +E> = Ok(value: T) | Err(error: E)

  /** The public error classes that the repositories raise. */
  datatype Error =
    | NotFound
    | Concurrent
    | Invariant
    | InvalidTransition
    | Duplicate
}
