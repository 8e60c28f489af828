/**
 Exponential backoff with jitter. Delays are exact reals, the jitter any value of [0, 1).
 */
module Backoff {
  import opened Prelude

  const MAX_EXPONENT: nat := 32

  function Pow2(n: nat): (r: nat)
    ensures r > 0
  {
    if n == 0 then 1 else 2 * Pow2(n - 1)
  }

  predicate IsJitter(j: real) { 0.0 <= j < 1.0 }

  function Exponent(attempt: int): nat { Min(if attempt < 0 then 0 else attempt, MAX_EXPONENT) }

  /** What the jitter is spread around. */
  function Centre(attempt: int, cap: int): int { Min(Pow2(Exponent(attempt)), cap) }

  function Spread(centre: int, jitter: real): real { centre as real * (0.5 + jitter) }

  function ComputeBackoff(attempt: int, cap: int, jitter: real): real { Spread(Centre(attempt, cap), jitter) }

  /** The documented formula, with no clamp on the exponent. */
  function Documented(attempt: nat, cap: int, jitter: real): real { Spread(Min(Pow2(attempt), cap), jitter) }

  lemma {:induction false} Pow2Monotone(m: nat, n: nat)
    requires m <= n
    ensures Pow2(m) <= Pow2(n) && (m < n ==> Pow2(m) < Pow2(n))
  {
    if m < n { Pow2Monotone(m, n - 1); }
  }

  lemma SpreadStrict(x: int, y: int, jitter: real)
    requires IsJitter(jitter)
    ensures Spread(x, jitter) < Spread(y, jitter) <==> x < y
  {
    var d, f := (y - x) as real, 0.5 + jitter;
    assert Spread(y, jitter) - Spread(x, jitter) == d * f;
    if d > 0.0 { assert d * f > 0.0; } else { assert -d * f >= 0.0; }
  }

  lemma SpreadRange(x: int, jitter: real)
    requires IsJitter(jitter) && x > 0
    ensures 0.0 < 0.5 * x as real <= Spread(x, jitter) < 1.5 * x as real
  {
    assert x as real * jitter >= 0.0;
    assert x as real * (1.0 - jitter) > 0.0;
  }

  /** Clamping the exponent is invisible exactly when the attempt or the cap is small enough. */
  lemma ClampIsUnobservableWhen(attempt: nat, cap: int, jitter: real)
    requires IsJitter(jitter)
    ensures ComputeBackoff(attempt, cap, jitter) == Documented(attempt, cap, jitter)
            <==> attempt <= MAX_EXPONENT || cap <= Pow2(MAX_EXPONENT)
  {
    ClampMatters(attempt, cap, MAX_EXPONENT);
    var x, y := Centre(attempt, cap), Min(Pow2(attempt), cap);
    SpreadStrict(x, y, jitter);
    SpreadStrict(y, x, jitter);
  }

  lemma ClampMatters(attempt: nat, cap: int, top: nat)
    ensures Min(Pow2(Min(attempt, top)), cap) == Min(Pow2(attempt), cap) <==> attempt <= top || cap <= Pow2(top)
  {
    if attempt > top { Pow2Monotone(top, attempt); }
  }

  /** The delay stays within half of min(2^attempt, cap) on either side of it, and is positive for a positive cap. */
  lemma DelayRange(attempt: int, cap: int, jitter: real)
    requires IsJitter(jitter) && cap > 0
    ensures var centre := Centre(attempt, cap) as real;
            0.0 < 0.5 * centre <= ComputeBackoff(attempt, cap, jitter) < 1.5 * centre
  {
    SpreadRange(Centre(attempt, cap), jitter);
  }

  /** With the same jitter a later attempt never waits less. */
  lemma LaterWaitsLonger(a: int, b: int, cap: int, jitter: real)
    requires IsJitter(jitter) && a <= b
    ensures ComputeBackoff(a, cap, jitter) <= ComputeBackoff(b, cap, jitter)
  {
    Pow2Monotone(Exponent(a), Exponent(b));
    SpreadStrict(Centre(b, cap), Centre(a, cap), jitter);
  }

  /** The jitter spreads the delay evenly: from half the centre, by the centre for a whole unit of jitter. */
  lemma JitterSpreadsEvenly(attempt: int, cap: int, j: real, k: real)
    ensures var centre := Centre(attempt, cap) as real;
            ComputeBackoff(attempt, cap, j) - ComputeBackoff(attempt, cap, k) == centre * (j - k)
    ensures ComputeBackoff(attempt, cap, 0.5) == Centre(attempt, cap) as real
  {
    Distribute(Centre(attempt, cap) as real, j, k);
  }

  lemma Distribute(c: real, j: real, k: real)
    ensures c * (0.5 + j) - c * (0.5 + k) == c * (j - k) && c * (0.5 + 0.5) == c
  {
  }

  /** Every delay of the range is taken, by one jitter and no other. */
  lemma EachDelayHasOneJitter(attempt: int, cap: int, delay: real) returns (j: real)
    requires cap > 0
    requires var centre := Centre(attempt, cap) as real; 0.5 * centre <= delay < 1.5 * centre
    ensures IsJitter(j) && ComputeBackoff(attempt, cap, j) == delay
    ensures forall k :: ComputeBackoff(attempt, cap, k) == delay ==> k == j
  {
    j := JitterFor(Centre(attempt, cap), delay);
    forall k | ComputeBackoff(attempt, cap, k) == delay ensures k == j {
      OneJitter(attempt, cap, j, k);
    }
  }

  lemma OneJitter(attempt: int, cap: int, j: real, k: real)
    requires cap > 0 && ComputeBackoff(attempt, cap, j) == ComputeBackoff(attempt, cap, k)
    ensures j == k
  {
    var centre := Centre(attempt, cap) as real;
    JitterSpreadsEvenly(attempt, cap, j, k);
    NoZero(j - k, centre);
  }

  lemma JitterFor(centre: int, delay: real) returns (j: real)
    requires centre > 0 && 0.5 * centre as real <= delay < 1.5 * centre as real
    ensures IsJitter(j) && Spread(centre, j) == delay
  {
    j := delay / centre as real - 0.5;
    Inverse(centre as real, delay, j);
  }

  lemma Inverse(c: real, d: real, j: real)
    requires c > 0.0 && j == d / c - 0.5 && 0.5 * c <= d < 1.5 * c
    ensures c * (0.5 + j) == d && 0.0 <= j < 1.0
  {
    var q := d / c;
    assert q * c == d;
    Scales(0.5, q, c);
    Scales(1.5, q, c);
  }

  lemma NoZero(x: real, c: real)
    requires c > 0.0 && c * x == 0.0
    ensures x == 0.0
  {
    Scales(0.0, x, c);
    Scales(x, 0.0, c);
  }
}
