/** `Math.max` and `Math.min` on whole numbers. */
module Integers {
  function Max(a: int, b: int): int { if a > b then a else b }

  function Min(a: int, b: int): int { if a < b then a else b }
}
