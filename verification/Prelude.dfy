/** What every other module shares: a nullable column or reference, and the smaller and larger of two. */
module Prelude {
  datatype Option<+T> = None | Some(value: T)

  function Min(a: int, b: int): int { if b < a then b else a }
  function Max(a: int, b: int): int { if a < b then b else a }

  function MinR(a: real, b: real): real { if b < a then b else a }
  function MaxR(a: real, b: real): real { if a < b then b else a }

  /** A positive factor keeps the order. */
  lemma Scales(x: real, y: real, f: real)
    requires f > 0.0
    ensures x <= y <==> x * f <= y * f
  {
    if x <= y { assert (y - x) * f >= 0.0; } else { assert (x - y) * f > 0.0; }
  }
}
