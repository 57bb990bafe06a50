/** Failure-carrying values used throughout the model: `Option` stands for a
    TypeScript value that may be `null`, `Result` for an operation that either
    produces a value or is refused with a reason. */
module Wrappers {

  datatype Option<+T> = None | Some(value: T)

  datatype Result<+T, +E> = Success(value: T) | Failure(error: E)

  function Min(a: int, b: int): int
  {
    if a <= b then a else b
  }
}
