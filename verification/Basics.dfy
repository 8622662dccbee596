/** Optional values, results with an error, and shares of a whole. */
module Basics {

  datatype Option<+T> = None | Some(value: T)

  datatype Result<+T, +E> = Ok(value: T) | Err(error: E)

  /** Part of a whole: a fraction, at its ends exactly for none and all. */
  lemma Ratio(x: real, n: real)
    requires 0.0 <= x <= n && n > 0.0
    ensures 0.0 <= x / n <= 1.0
    ensures x / n == 0.0 <==> x == 0.0
    ensures x / n == 1.0 <==> x == n
  {
  }
}
