// Types and small functions shared by the models.
module Wrappers {
  datatype Option<+T> = None | Some(value: T)

  datatype Result<+T, +E> = Ok(value: T) | Err(error: E)

  function Min(a: int, b: int): int { if a <= b then a else b }

  function Max(a: int, b: int): int { if a >= b then a else b }

  /** The first `count` elements, or all when there are fewer. */
  function Take<T>(items: seq<T>, count: nat): seq<T> {
    if |items| <= count then items else items[..count]
  }
}
