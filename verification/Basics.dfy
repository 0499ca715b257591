/** Types and functions used throughout. */
module Basics {

  /** A 256-bit hash, as a number: a map key, and in the stake modifier also compared and shifted. */
  type Hash = nat

  datatype Option<+T> = None | Some(value: T)

  function Min(a: int, b: int): int { if a <= b then a else b }

  function Max(a: int, b: int): int { if a <= b then b else a }
}
