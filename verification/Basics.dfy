/** Shared vocabulary of the model. */
module Basics {
  datatype Option<+T> = None | Some(value: T)

  /** The first of two optional failures, in order. */
  function OrElse<T>(a: Option<T>, b: Option<T>): Option<T> {
    if a.Some? then a else b
  }

  function Max(a: int, b: int): int {
    if a < b then b else a
  }

  function Min(a: int, b: int): int {
    if a < b then a else b
  }
}
