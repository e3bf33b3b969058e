/** Optional values: JavaScript's null/undefined and Java's null. */
module Wrappers {

  datatype Option<+T> = None | Some(value: T)

  /** JavaScript's `Number(x)` after coercion: a finite number, or NaN. */
  datatype Numeric = Finite(value: real) | NaN

  /** `Number(x) || 0`: NaN reads as 0 (and 0 stays 0). */
  function OrZero(n: Numeric): real
  {
    if n.Finite? then n.value else 0.0
  }
}
