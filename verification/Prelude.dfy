/** Datatypes shared by every module of the model. */
module Prelude {

  /** A value that the modelled code may leave undefined. */
  datatype Option<+T> = None | Some(value: T)

  /** The result of an operation that the modelled code may leave by an exception. */
  datatype Result<+T, +E> = Ok(value: T) | Err(error: E)

  function Max(a: int, b: int): int { if a >= b then a else b }

  function Min(a: int, b: int): int { if a <= b then a else b }
}
