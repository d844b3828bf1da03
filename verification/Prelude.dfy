/** Shared vocabulary: optional values, results and the real-number clamps the program uses. */
module Prelude {

  datatype Option<+T> = None | Some(value: T)

  datatype Result<+T, +E> = Success(value: T) | Failure(error: E)

  function Min(a: real, b: real): real {
    if b < a then b else a
  }

  function Max(a: real, b: real): real {
    if b > a then b else a
  }

  function MinNat(a: nat, b: nat): nat {
    if b < a then b else a
  }

  /** Scaling by a non-negative factor keeps an inequality. */
  lemma ScaleLe(a: real, b: real, k: real)
    requires a <= b && 0.0 <= k
    ensures a * k <= b * k && k * a <= k * b
  {
  }

  /** Products of non-negative factors are ordered factor by factor. */
  lemma MulLe(a: real, b: real, c: real, d: real)
    requires 0.0 <= a <= b && 0.0 <= c <= d
    ensures a * c <= b * d
  {
  }

  /** Scaling by a positive factor keeps a strict inequality. */
  lemma ScaleLt(a: real, b: real, k: real)
    requires a < b && 0.0 < k
    ensures a * k < b * k && k * a < k * b
  {
  }

  /** Division by a positive number, stated as multiplication. */
  lemma DivLe(a: real, b: real, c: real)
    requires c > 0.0
    ensures (a / c) * c == a
    ensures a / c <= b <==> a <= b * c
    ensures b <= a / c <==> b * c <= a
  {
  }
}
