/** Small result types shared by every module of the model. */
module Wrappers {

  datatype Option<+T> = None | Some(value: T)

  datatype Result<+T, +E> = Ok(value: T) | Err(error: E)

  /**
   * The outcome of a Go call that may abort with a panic instead of
   * returning: either the value it returned, or the fact that it panicked.
   */
  datatype Run<+T> = Returned(value: T) | Panicked

  function Min(a: int, b: int): int
  {
    if a < b then a else b
  }
}
