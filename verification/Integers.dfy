/** Integer bounds. */
module Integers {
  function Max(a: int, b: int): (m: int)
    ensures a <= m && b <= m && m in {a, b}
  {
    if a < b then b else a
  }

  function Min(a: int, b: int): (m: int)
    ensures m <= a && m <= b && m in {a, b}
  {
    if b < a then b else a
  }

  /** The number between the bounds that is nearest to `x`. */
  function Clamp(low: int, high: int, x: int): (y: int)
    ensures low <= high ==> low <= y <= high && (low <= x <= high ==> y == x) && (x < y ==> y == low)
    ensures low <= high && x > y ==> y == high
  {
    Max(low, Min(high, x))
  }
}
