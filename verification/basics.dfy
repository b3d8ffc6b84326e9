/** Small definitions shared by the backend and the frontend models. */
module Basics {

  datatype Option<T> = None | Some(value: T)

  function Min(a: int, b: int): int
  {
    if a < b then a else b
  }

  /** `Math.max` on two integers. */
  function Max(a: int, b: int): int
  {
    if a < b then b else a
  }
}
