/** Stock result shapes and the integer limits every other module shares. */
module Wrappers {
  datatype Option<+T> = None | Some(value: T)

  /** The largest integer a JavaScript number holds exactly: 2^53 - 1. */
  const MAX_SAFE: nat := 9_007_199_254_740_991

  /** What `Number.isSafeInteger(value) && value >= 0` accepts among the integers. */
  predicate IsSafeNat(value: int) {
    0 <= value <= MAX_SAFE
  }

  function Max(a: int, b: int): int {
    if a < b then b else a
  }
}
