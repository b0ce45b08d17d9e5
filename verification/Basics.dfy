/** Small building blocks the other modules share. */
module Basics {
  datatype Option<+T> = None | Some(value: T)

  type Bytes = seq<bv8>

  function Max(a: int, b: int): int { if a < b then b else a }

  function Min(a: int, b: int): int { if a < b then a else b }
}
