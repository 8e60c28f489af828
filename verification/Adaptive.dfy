/**
 The gradient limiter that decides what to resize the pool to. Times are exact reals; the square root
 of the limit is a parameter, constrained by its square.
 */
module Adaptive {
  import opened Prelude
  import opened ResizablePool

  function Clamp(v: real, low: real, high: real): real { MaxR(low, MinR(high, v)) }

  function Least(xs: seq<real>): real
    requires xs != []
  {
    if |xs| == 1 then xs[0] else MinR(Least(xs[..|xs| - 1]), xs[|xs| - 1])
  }

  function Sum(xs: seq<real>): real {
    if xs == [] then 0.0 else Sum(xs[..|xs| - 1]) + xs[|xs| - 1]
  }

  function Mean(xs: seq<real>): real
    requires xs != []
  {
    Sum(xs) / |xs| as real
  }

  /** A lower minimum is adopted at once; a higher one pulls the baseline up by a fraction of the gap. */
  function NextBaseline(prior: Option<real>, windowMin: real, decay: real): real {
    if prior == None || windowMin < prior.value then windowMin
    else prior.value + decay * (windowMin - prior.value)
  }

  function Gradient(baseline: real, mean: real): real {
    if mean <= 0.0 then 1.0 else Clamp(baseline / mean, 0.5, 1.0)
  }

  datatype Bounds = Bounds(low: nat, high: nat)

  predicate BoundsOk(b: Bounds) { 0 < b.low <= b.high }

  /** `root` is the square root of `limit`. */
  predicate IsRoot(root: real, limit: nat) { root >= 0.0 && root * root == limit as real }

  function Unclamped(limit: nat, gradient: real, root: real): real { limit as real * gradient + root }

  function NextLimit(b: Bounds, limit: nat, gradient: real, root: real): int {
    Clamp(Unclamped(limit, gradient, root), b.low as real, b.high as real).Floor
  }

  datatype Control = Control(limit: nat, baseline: Option<real>)

  /** One closed window over the samples `xs`. */
  ghost predicate Closed(b: Bounds, decay: real, c: Control, xs: seq<real>, root: real, c': Control)
    requires xs != []
  {
    var b' := NextBaseline(c.baseline, Least(xs), decay);
    && c'.baseline == Some(b')
    && c'.limit as int == NextLimit(b, c.limit, Gradient(b', Mean(xs)), root)
  }

  class AdaptiveConcurrencyLimiter {
    const bounds: Bounds
    const window: real
    const decay: real
    const pool: ResizableSemaphore
    var limit: nat
    var baseline: Option<real>
    var samples: seq<real>
    var windowStart: real
    ghost var controls: seq<Control>      // the values between the windows closed so far
    ghost var closed: seq<seq<real>>      // their samples

    ghost predicate Valid()
      reads this, pool
    {
      && BoundsOk(bounds) && bounds.low <= limit <= bounds.high
      && 0.0 < window
      && Trajectory(bounds, decay, controls, closed) && controls[|closed|] == Abstract()
      && pool.Valid() && pool.target == limit
    }

    ghost function Abstract(): Control
      reads this
    {
      Control(limit, baseline)
    }

    constructor (b: Bounds, initial: nat, window: real, decay: real, now: real)
      requires BoundsOk(b) && b.low <= initial <= b.high && 0.0 < window && 0.0 < decay <= 1.0
      ensures Valid() && fresh(pool) && limit == initial && baseline == None && samples == []
      ensures controls == [Control(initial, None)] && closed == []
      ensures bounds == b && this.window == window && this.decay == decay && windowStart == now
    {
      bounds, this.window, this.decay := b, window, decay;
      pool := new ResizableSemaphore(initial);
      limit, baseline, samples, windowStart := initial, None, [], now;
      controls, closed := [Control(initial, None)], [];
    }

    /** `record_rtt`. */
    method RecordRtt(rtt: real, now: real, root: real)
      requires Valid() && IsRoot(root, limit)
      modifies this, pool
      ensures Valid() && pool.held == old(pool.held)
      ensures now - old(windowStart) < window ==>
                && samples == old(samples) + [rtt]
                && Abstract() == old(Abstract()) && closed == old(closed) && controls == old(controls)
      ensures now - old(windowStart) >= window ==>
                && samples == [] && windowStart == now
                && Closed(bounds, decay, old(Abstract()), old(samples) + [rtt], root, Abstract())
                && closed == old(closed) + [old(samples) + [rtt]] && controls == old(controls) + [Abstract()]
    {
      samples := samples + [rtt];
      if now - windowStart >= window { CloseWindow(now, root); }
    }

    /** `_admit` for a LOW caller; the queue of HIGH callers is `Admission`. */
    method Admit() returns (admitted: bool)
      requires Valid()
      modifies pool
      ensures Valid() && Abstract() == old(Abstract())
      ensures admitted == (old(pool.value) > 0)
      ensures pool.held == old(pool.held) + if admitted then 1 else 0
      ensures pool.Abstract() == Apply(old(pool.Abstract()), Op.Acquire)
    {
      admitted := !pool.Locked();
      if admitted { pool.Acquire(); }
    }

    /** The `_rtt_min` branch of `_close_window`. */
    method AdjustBaseline(windowMin: real) returns (b: real)
      modifies this`baseline
      ensures b == NextBaseline(old(baseline), windowMin, decay) && baseline == Some(b)
    {
      if baseline == None || windowMin < baseline.value {
        b := windowMin;
      } else {
        b := baseline.value + decay * (windowMin - baseline.value);
      }
      baseline := Some(b);
    }

    /** `_close_window`: an empty window changes nothing but its start. */
    method CloseWindow(now: real, root: real)
      requires Valid() && IsRoot(root, limit)
      modifies this, pool
      ensures Valid() && pool.held == old(pool.held)
      ensures samples == [] && windowStart == now
      ensures old(samples) == [] ==> Abstract() == old(Abstract()) && closed == old(closed) && controls == old(controls)
      ensures old(samples) != [] ==>
                && Closed(bounds, decay, old(Abstract()), old(samples), root, Abstract())
                && closed == old(closed) + [old(samples)] && controls == old(controls) + [Abstract()]
    {
      if samples != [] {
        var windowMin := Least(samples);
        var mean := Mean(samples);
        var b := AdjustBaseline(windowMin);
        var gradient := Gradient(b, mean);
        LimitStaysInBounds(bounds, limit, gradient, root);
        limit := NextLimit(bounds, limit, gradient, root);
        var _ := pool.Resize(limit);
        TrajectoryExtends(bounds, decay, controls, closed, samples, root, Abstract());
        controls, closed := controls + [Abstract()], closed + [samples];
      }
      samples := [];
      windowStart := now;
    }
  }

  // ----- the limit law -------------------------------------------------------------------------

  lemma LimitStaysInBounds(b: Bounds, limit: nat, gradient: real, root: real)
    requires BoundsOk(b)
    ensures b.low <= NextLimit(b, limit, gradient, root) <= b.high
  {
  }

  /** `v.Floor >= n` exactly when `v >= n`. */
  lemma FloorAtLeast(v: real, n: int)
    ensures v.Floor >= n <==> v >= n as real
  {
  }

  lemma UnclampedAtLeast(limit: nat, gradient: real, root: real)
    requires IsRoot(root, limit) && limit > 0
    ensures root > 0.0
    ensures Unclamped(limit, gradient, root) >= limit as real <==> (1.0 - gradient) * root <= 1.0
  {
    var d := 1.0 - gradient;
    assert Unclamped(limit, gradient, root) - limit as real == root * (1.0 - d * root);
    if d * root <= 1.0 {
      assert root * (1.0 - d * root) >= 0.0;
    } else {
      assert root * (1.0 - d * root) < 0.0;
    }
  }

  /**
   The equilibrium, exactly: from a limit inside its bounds the next one is lower if and only if the
   limit is not already the minimum and (1 - gradient) times its square root exceeds one.
   */
  lemma FallsExactlyWhen(b: Bounds, limit: nat, gradient: real, root: real)
    requires BoundsOk(b) && b.low <= limit <= b.high && IsRoot(root, limit)
    ensures NextLimit(b, limit, gradient, root) < limit <==> b.low < limit && (1.0 - gradient) * root > 1.0
  {
    UnclampedAtLeast(limit, gradient, root);
    FloorAtLeast(Clamp(Unclamped(limit, gradient, root), b.low as real, b.high as real), limit);
  }

  /** ... and it is higher exactly when there is room and the same slack is worth a whole permit. */
  lemma RisesExactlyWhen(b: Bounds, limit: nat, gradient: real, root: real)
    requires BoundsOk(b) && b.low <= limit <= b.high && IsRoot(root, limit)
    ensures NextLimit(b, limit, gradient, root) > limit
            <==> limit < b.high && root * (1.0 - (1.0 - gradient) * root) >= 1.0
  {
    assert Unclamped(limit, gradient, root) - limit as real == root * (1.0 - (1.0 - gradient) * root);
    FloorAtLeast(Clamp(Unclamped(limit, gradient, root), b.low as real, b.high as real), limit + 1);
  }

  /**
   The law itself, permit by permit: within its bounds the next limit reaches n exactly when
   limit * gradient + sqrt(limit) does.
   */
  lemma NextLimitReachesExactly(b: Bounds, limit: nat, gradient: real, root: real, n: int)
    requires BoundsOk(b) && b.low < n <= b.high
    ensures NextLimit(b, limit, gradient, root) >= n <==> limit as real * gradient + root >= n as real
    ensures b.low <= NextLimit(b, limit, gradient, root) <= b.high
  {
    FloorAtLeast(Clamp(Unclamped(limit, gradient, root), b.low as real, b.high as real), n);
  }

  /** The baseline's share of the mean, kept between a half and one; one for a mean that is not positive. */
  lemma GradientExactly(baseline: real, mean: real)
    ensures mean <= 0.0 ==> Gradient(baseline, mean) == 1.0
    ensures mean > 0.0 ==>
              && (Gradient(baseline, mean) == 1.0 <==> baseline >= mean)
              && (Gradient(baseline, mean) == 0.5 <==> 2.0 * baseline <= mean)
              && (mean < 2.0 * baseline && baseline < mean ==> Gradient(baseline, mean) * mean == baseline)
  {
    if mean > 0.0 { QuotientAgainst(baseline, mean); }
  }

  lemma QuotientAgainst(a: real, m: real)
    requires m > 0.0
    ensures a / m * m == a && (a / m >= 1.0 <==> a >= m) && (a / m <= 0.5 <==> 2.0 * a <= m)
  {
    QuotientOrder(a / m, a, m);
  }

  lemma QuotientOrder(q: real, a: real, m: real)
    requires m > 0.0 && q * m == a
    ensures (q >= 1.0 <==> a >= m) && (q <= 0.5 <==> 2.0 * a <= m)
  {
    OneOrder(q, a, m);
    HalfOrder(q, a, m);
  }

  lemma OneOrder(q: real, a: real, m: real)
    requires m > 0.0 && q * m == a
    ensures q >= 1.0 <==> a >= m
  {
    assert (q - 1.0) * m == a - m;
    if q >= 1.0 { NonNegative(q - 1.0, m); } else { Positive(1.0 - q, m); }
  }

  lemma HalfOrder(q: real, a: real, m: real)
    requires m > 0.0 && q * m == a
    ensures q <= 0.5 <==> 2.0 * a <= m
  {
    var h := m / 2.0;
    assert (q - 0.5) * m == a - h;
    if q <= 0.5 { NonNegative(0.5 - q, m); } else { Positive(q - 0.5, m); }
  }

  lemma GradientInRange(baseline: real, mean: real)
    ensures 0.5 <= Gradient(baseline, mean) <= 1.0
  {
  }

  lemma ProductMonotone(a: real, b: real, c: real, d: real)
    requires 0.0 <= a <= c && 0.0 <= b <= d
    ensures 0.0 <= a * b <= c * d
  {
    assert c * d - a * b == c * (d - b) + (c - a) * b;
    NonNegative(c, d - b);
    NonNegative(c - a, b);
    NonNegative(a, b);
  }

  lemma NonNegative(a: real, b: real)
    requires 0.0 <= a && 0.0 <= b
    ensures 0.0 <= a * b
  {
  }

  lemma SquareNonNegative(a: real)
    ensures a * a >= 0.0
  {
  }

  lemma Positive(a: real, b: real)
    requires 0.0 < a && 0.0 < b
    ensures 0.0 < a * b
  {
  }

  lemma SquareStrict(a: real, b: real)
    requires 0.0 <= a < b
    ensures a * a < b * b
  {
    Positive(b - a, b + a);
    assert b * b - a * a == (b - a) * (b + a);
  }

  lemma RootAgainst(root: real, limit: nat, t: nat)
    requires IsRoot(root, limit)
    ensures root <= t as real <==> limit <= t * t
  {
    var r := t as real;
    assert r * r == (t * t) as real;
    if root <= r { ProductMonotone(root, root, r, r); } else { SquareStrict(r, root); }
  }

  lemma AtLeastHalf(l: real, gradient: real)
    requires 0.0 <= l && 0.5 <= gradient
    ensures l * gradient >= l / 2.0
  {
    NonNegative(l, gradient - 0.5);
  }

  lemma HalfBelowRoot(root: real, l: real)
    requires 0.0 <= root <= 2.0 && root * root == l
    ensures root >= l / 2.0
  {
    NonNegative(root, 2.0 - root);
  }

  lemma HalfPlusRoot(l: real, gradient: real, root: real)
    requires 0.0 <= l && 0.5 <= gradient && 0.0 <= root && root * root == l
    ensures l * gradient + root >= MinR(4.0, l)
  {
    AtLeastHalf(l, gradient);
    if root <= 2.0 { HalfBelowRoot(root, l); } else { SquareStrict(2.0, root); }
  }

  /** Nothing at or below four can be pushed down, and nothing above can be pushed past it. */
  lemma FloorOfFour(b: Bounds, limit: nat, gradient: real, root: real, m: nat)
    requires BoundsOk(b) && b.low <= limit <= b.high && IsRoot(root, limit)
    requires 0.5 <= gradient && m <= limit && m <= 4
    ensures NextLimit(b, limit, gradient, root) >= m
  {
    HalfPlusRoot(limit as real, gradient, root);
    ClampedAtLeast(b, Unclamped(limit, gradient, root), m);
  }

  lemma ClampedAtLeast(b: Bounds, v: real, m: nat)
    requires BoundsOk(b) && m <= b.high && v >= m as real
    ensures Clamp(v, b.low as real, b.high as real).Floor >= m
  {
    FloorAtLeast(Clamp(v, b.low as real, b.high as real), m);
  }

  // ----- windows in a row ----------------------------------------------------------------------

  /** `cs` are the values between consecutive windows. */
  ghost predicate Trajectory(b: Bounds, decay: real, cs: seq<Control>, windows: seq<seq<real>>) {
    && BoundsOk(b) && 0.0 < decay <= 1.0
    && |cs| == |windows| + 1 && b.low <= cs[0].limit <= b.high
    && (forall k | 0 <= k < |windows| :: windows[k] != [])
    && (forall k | 0 <= k < |windows| :: Follows(b, decay, cs[k], windows[k], cs[k + 1]))
  }

  ghost predicate Follows(b: Bounds, decay: real, c: Control, xs: seq<real>, c': Control)
    requires xs != []
  {
    exists root :: IsRoot(root, c.limit) && Closed(b, decay, c, xs, root, c')
  }

  lemma TrajectoryExtends(
    b: Bounds, decay: real, cs: seq<Control>, windows: seq<seq<real>>, xs: seq<real>, root: real, c: Control)
    requires Trajectory(b, decay, cs, windows) && xs != []
    requires IsRoot(root, cs[|windows|].limit) && Closed(b, decay, cs[|windows|], xs, root, c)
    ensures Trajectory(b, decay, cs + [c], windows + [xs])
  {
    var cs', windows' := cs + [c], windows + [xs];
    forall k | 0 <= k < |windows'| ensures windows'[k] != [] && Follows(b, decay, cs'[k], windows'[k], cs'[k + 1]) {
      if k < |windows| { assert Follows(b, decay, cs[k], windows[k], cs[k + 1]); }
    }
  }

  /** The gradient the k-th window was closed with. */
  function GradientAt(cs: seq<Control>, windows: seq<seq<real>>, k: nat): real
    requires |cs| == |windows| + 1 && k < |windows| && windows[k] != []
    requires cs[k + 1].baseline.Some?
  {
    Gradient(cs[k + 1].baseline.value, Mean(windows[k]))
  }

  ghost predicate AlwaysAt(cs: seq<Control>, windows: seq<seq<real>>, g: real)
    requires |cs| == |windows| + 1 && forall k | 0 <= k < |windows| :: windows[k] != []
  {
    forall k | 0 <= k < |windows| :: cs[k + 1].baseline.Some? && GradientAt(cs, windows, k) == g
  }

  lemma {:induction false} LimitsInBounds(b: Bounds, decay: real, cs: seq<Control>, windows: seq<seq<real>>, k: nat)
    requires Trajectory(b, decay, cs, windows) && k < |cs|
    ensures b.low <= cs[k].limit <= b.high
  {
    if k > 0 { assert Follows(b, decay, cs[k - 1], windows[k - 1], cs[k]); }
  }

  /** No latencies whatever, not even negative ones, drive the limit below the smaller of four and its start. */
  lemma {:induction false} NeverBelowFour(b: Bounds, decay: real, cs: seq<Control>, windows: seq<seq<real>>, k: nat)
    requires Trajectory(b, decay, cs, windows) && k < |cs|
    ensures cs[k].limit >= (if cs[0].limit < 4 then cs[0].limit else 4)
  {
    if k > 0 {
      NeverBelowFour(b, decay, cs, windows, k - 1);
      LimitsInBounds(b, decay, cs, windows, k - 1);
      assert Follows(b, decay, cs[k - 1], windows[k - 1], cs[k]);
      var root :| IsRoot(root, cs[k - 1].limit) && Closed(b, decay, cs[k - 1], windows[k - 1], root, cs[k]);
      var g := GradientAt(cs, windows, k - 1);
      GradientInRange(cs[k].baseline.value, Mean(windows[k - 1]));
      FloorOfFour(b, cs[k - 1].limit, g, root, if cs[0].limit < 4 then cs[0].limit else 4);
    }
  }

  function Resting(b: Bounds): nat { if b.low < 4 then 4 else b.low }

  /** Latency at least doubled: one window, exactly. */
  lemma HalvedStep(b: Bounds, limit: nat, root: real)
    requires BoundsOk(b) && b.low <= limit <= b.high && IsRoot(root, limit)
    ensures var next := NextLimit(b, limit, 0.5, root);
            if limit > Resting(b) then Resting(b) <= next < limit else next == limit
  {
    FallsExactlyWhen(b, limit, 0.5, root);
    RisesExactlyWhen(b, limit, 0.5, root);
    RootAgainst(root, limit, 2);
    FloorOfFour(b, limit, 0.5, root, if limit < 4 then limit else 4);
    LimitStaysInBounds(b, limit, 0.5, root);
    if limit <= 4 {
      RootAgainst(root, limit, 1);
      assert root * (1.0 - 0.5 * root) - 1.0 == -0.5 * ((root - 1.0) * (root - 1.0) + 1.0);
      SquareNonNegative(root - 1.0);
    }
  }

  /**
   While every window halves, the limit falls strictly to max(4, low) and stays there; a limit that is
   already no higher never moves.
   */
  lemma {:induction false} HalvedFallsToRest(
    b: Bounds, decay: real, cs: seq<Control>, windows: seq<seq<real>>, k: nat)
    requires Trajectory(b, decay, cs, windows) && AlwaysAt(cs, windows, 0.5) && k < |cs|
    ensures cs[0].limit > Resting(b) ==>
              && Resting(b) <= cs[k].limit <= Max(Resting(b), cs[0].limit - k)
              && (k > 0 && cs[k - 1].limit > Resting(b) ==> cs[k].limit < cs[k - 1].limit)
              && (k >= cs[0].limit - Resting(b) ==> cs[k].limit == Resting(b))
    ensures cs[0].limit <= Resting(b) ==> cs[k].limit == cs[0].limit
  {
    if k > 0 {
      HalvedFallsToRest(b, decay, cs, windows, k - 1);
      LimitsInBounds(b, decay, cs, windows, k - 1);
      assert Follows(b, decay, cs[k - 1], windows[k - 1], cs[k]);
      var root :| IsRoot(root, cs[k - 1].limit) && Closed(b, decay, cs[k - 1], windows[k - 1], root, cs[k]);
      assert GradientAt(cs, windows, k - 1) == 0.5;
      HalvedStep(b, cs[k - 1].limit, root);
    }
  }

  lemma FullStep(b: Bounds, limit: nat, root: real)
    requires BoundsOk(b) && b.low <= limit <= b.high && IsRoot(root, limit)
    ensures var next := NextLimit(b, limit, 1.0, root);
            if limit < b.high then limit < next <= b.high else next == limit
  {
    RisesExactlyWhen(b, limit, 1.0, root);
    RootAgainst(root, limit, 1);
    LimitStaysInBounds(b, limit, 1.0, root);
    if root < 1.0 { SquareStrict(root, 1.0); }
  }

  /** While every window finds the baseline latency, the limit rises strictly to its maximum and stays there. */
  lemma {:induction false} FullRisesToTop(
    b: Bounds, decay: real, cs: seq<Control>, windows: seq<seq<real>>, k: nat)
    requires Trajectory(b, decay, cs, windows) && AlwaysAt(cs, windows, 1.0) && k < |cs|
    ensures cs[k].limit >= (if cs[0].limit + k < b.high then cs[0].limit + k else b.high)
    ensures k > 0 && cs[k - 1].limit < b.high ==> cs[k].limit > cs[k - 1].limit
    ensures k >= b.high - cs[0].limit ==> cs[k].limit == b.high
  {
    LimitsInBounds(b, decay, cs, windows, k);
    if k > 0 {
      FullRisesToTop(b, decay, cs, windows, k - 1);
      LimitsInBounds(b, decay, cs, windows, k - 1);
      assert Follows(b, decay, cs[k - 1], windows[k - 1], cs[k]);
      var root :| IsRoot(root, cs[k - 1].limit) && Closed(b, decay, cs[k - 1], windows[k - 1], root, cs[k]);
      assert GradientAt(cs, windows, k - 1) == 1.0;
      FullStep(b, cs[k - 1].limit, root);
    }
  }

  // ----- the baseline --------------------------------------------------------------------------

  ghost predicate Within(xs: seq<real>, lo: real, hi: real) { forall x :: x in xs ==> lo <= x <= hi }

  lemma {:induction false} LeastIsLeast(xs: seq<real>)
    requires xs != []
    ensures Least(xs) in xs && forall x :: x in xs ==> Least(xs) <= x
  {
    if |xs| > 1 {
      var init := xs[..|xs| - 1];
      LeastIsLeast(init);
      assert xs == init + [xs[|xs| - 1]];
    }
  }

  function Times(n: nat, m: real): real { if n == 0 then 0.0 else Times(n - 1, m) + m }

  lemma {:induction false} TimesIsProduct(n: nat, m: real)
    ensures Times(n, m) == n as real * m
  {
    if n > 0 { TimesIsProduct(n - 1, m); }
  }

  /** A sum of numbers none below `m` is at least |xs| times m, and meets it only when all are `m`. */
  lemma {:induction false} SumAtLeast(xs: seq<real>, m: real)
    requires forall x :: x in xs ==> m <= x
    ensures Sum(xs) >= Times(|xs|, m)
    ensures Sum(xs) == Times(|xs|, m) <==> forall x :: x in xs ==> x == m
  {
    if xs != [] {
      var init, x := xs[..|xs| - 1], xs[|xs| - 1];
      assert xs == init + [x];
      assert x in xs && forall y :: y in init ==> y in xs;
      SumAtLeast(init, m);
    }
  }

  /** Sums add up, of one sample or of many. */
  lemma {:induction false} SumAdds(xs: seq<real>, ys: seq<real>)
    ensures Sum(xs + ys) == Sum(xs) + Sum(ys)
    ensures forall x :: Sum([x]) == x
  {
    forall x ensures Sum([x]) == x { assert [x][..0] == []; }
    if ys == [] {
      assert xs + ys == xs;
    } else {
      var init := ys[..|ys| - 1];
      SumAdds(xs, init);
      assert (xs + ys)[..|xs + ys| - 1] == xs + init;
    }
  }

  /** The mean, times the count, is the sum of the samples. */
  lemma MeanTimesCount(xs: seq<real>)
    requires xs != []
    ensures Mean(xs) * |xs| as real == Sum(xs)
  {
  }

  lemma MeanAboveLeast(xs: seq<real>)
    requires xs != []
    ensures Least(xs) <= Mean(xs)
    ensures Least(xs) == Mean(xs) <==> forall x :: x in xs ==> x == Least(xs)
  {
    var m := Least(xs);
    LeastIsLeast(xs);
    SumAtLeast(xs, m);
    TimesOverCount(Sum(xs), |xs|, m);
  }

  lemma TimesOverCount(total: real, n: nat, m: real)
    requires n > 0 && total >= Times(n, m)
    ensures m <= total / n as real && (m == total / n as real <==> total == Times(n, m))
  {
    TimesIsProduct(n, m);
    QuotientAtLeast(total, n as real, m);
  }

  lemma QuotientAtLeast(total: real, n: real, m: real)
    requires n > 0.0 && total >= n * m
    ensures m <= total / n && (m == total / n <==> total == n * m)
  {
    var q := total / n;
    assert q * n == total;
    assert (q - m) * n >= 0.0;
  }

  lemma BaselineBelowWindow(prior: Option<real>, m: real, decay: real)
    requires 0.0 < decay <= 1.0
    ensures NextBaseline(prior, m, decay) <= m
    ensures prior.Some? && prior.value <= m ==> prior.value <= NextBaseline(prior, m, decay)
  {
    if prior.Some? && prior.value <= m {
      NonNegative(1.0 - decay, m - prior.value);
      NonNegative(decay, m - prior.value);
      assert m - NextBaseline(prior, m, decay) == (1.0 - decay) * (m - prior.value);
    }
  }

  /**
   With positive latencies the baseline is positive and no higher than the window's minimum or mean,
   so the upper clamp of the gradient never binds; and the gradient is one exactly when every sample of
   the window equals the new baseline.
   */
  lemma UpperClampNeverBinds(prior: Option<real>, xs: seq<real>, decay: real)
    requires 0.0 < decay <= 1.0 && xs != [] && (forall x :: x in xs ==> x > 0.0)
    requires prior.Some? ==> prior.value > 0.0
    ensures var b' := NextBaseline(prior, Least(xs), decay);
            && 0.0 < b' <= Least(xs) <= Mean(xs)
            && Gradient(b', Mean(xs)) == MaxR(0.5, b' / Mean(xs))
            && (Gradient(b', Mean(xs)) == 1.0 <==> forall x :: x in xs ==> x == b')
  {
    var b' := NextBaseline(prior, Least(xs), decay);
    var mean := Mean(xs);
    LeastIsLeast(xs);
    MeanAboveLeast(xs);
    BaselineBelowWindow(prior, Least(xs), decay);
    Quotient(b', mean);
  }

  lemma Quotient(a: real, m: real)
    requires 0.0 < a <= m
    ensures a / m <= 1.0 && (a / m == 1.0 <==> a == m)
  {
    var q := a / m;
    assert q * m == a;
    assert (1.0 - q) * m >= 0.0;
  }

  /** The baseline never leaves the range of the samples seen. */
  lemma {:induction false} BaselineWithinSamples(
    b: Bounds, decay: real, cs: seq<Control>, windows: seq<seq<real>>, lo: real, hi: real, k: nat)
    requires Trajectory(b, decay, cs, windows) && 0 < k < |cs| && cs[0].baseline == None
    requires forall j | 0 <= j < k :: Within(windows[j], lo, hi)
    ensures cs[k].baseline.Some? && lo <= cs[k].baseline.value <= hi
    ensures cs[k].baseline.value <= Least(windows[k - 1])
  {
    if k > 1 { BaselineWithinSamples(b, decay, cs, windows, lo, hi, k - 1); }
    assert Follows(b, decay, cs[k - 1], windows[k - 1], cs[k]);
    assert Within(windows[k - 1], lo, hi);
    LeastIsLeast(windows[k - 1]);
    BaselineBelowWindow(cs[k - 1].baseline, Least(windows[k - 1]), decay);
  }

  function Power(x: real, n: nat): real { if n == 0 then 1.0 else x * Power(x, n - 1) }

  /** Every sample of every window is `r`. */
  ghost predicate Steady(windows: seq<seq<real>>, r: real) {
    forall k | 0 <= k < |windows| :: Within(windows[k], r, r)
  }

  /** A lasting shift to latency r is learned geometrically, from below; a drop to r is learned at once. */
  lemma {:induction false} SteadyGap(
    b: Bounds, decay: real, cs: seq<Control>, windows: seq<seq<real>>, r: real, k: nat)
    requires Trajectory(b, decay, cs, windows) && Steady(windows, r) && k < |cs|
    requires cs[0].baseline.Some?
    ensures cs[k].baseline.Some?
    ensures cs[0].baseline.value <= r ==>
              r - cs[k].baseline.value == Remaining(decay, k, r - cs[0].baseline.value)
    ensures cs[0].baseline.value > r && k > 0 ==> cs[k].baseline.value == r
  {
    if k > 0 {
      SteadyGap(b, decay, cs, windows, r, k - 1);
      assert Follows(b, decay, cs[k - 1], windows[k - 1], cs[k]);
      assert Within(windows[k - 1], r, r);
      LeastIsLeast(windows[k - 1]);
      assert Least(windows[k - 1]) == r;
      var p := cs[k - 1].baseline.value;
      if cs[0].baseline.value <= r { Learn(p, r, decay, k - 1, r - cs[0].baseline.value); }
    }
  }

  /** What is left of a gap after n windows. */
  function Remaining(decay: real, n: nat, gap: real): real { Power(1.0 - decay, n) * gap }

  /** One window at latency r, from a baseline below it. */
  lemma Learn(p: real, r: real, decay: real, n: nat, gap: real)
    requires 0.0 < decay <= 1.0 && gap >= 0.0 && r - p == Remaining(decay, n, gap)
    ensures r - NextBaseline(Some(p), r, decay) == Remaining(decay, n + 1, gap)
  {
    PowerNonNegative(1.0 - decay, n);
    NonNegative(Power(1.0 - decay, n), gap);
    Share(1.0 - decay, Power(1.0 - decay, n), gap);
    assert NextBaseline(Some(p), r, decay) == p + decay * (r - p);
    OneMinus(decay, r - p);
  }

  lemma Share(a: real, b: real, c: real)
    ensures a * (b * c) == a * b * c
  {
  }

  lemma OneMinus(decay: real, x: real)
    ensures x - decay * x == (1.0 - decay) * x
  {
  }

  lemma {:induction false} PowerNonNegative(x: real, n: nat)
    requires x >= 0.0
    ensures Power(x, n) >= 0.0
  {
    if n > 0 { PowerNonNegative(x, n - 1); }
  }

  /** End to end: under constant positive latency a fresh limiter opens up to its maximum, window by window. */
  lemma SteadyLatencyOpensUp(b: Bounds, decay: real, cs: seq<Control>, windows: seq<seq<real>>, r: real, k: nat)
    requires Trajectory(b, decay, cs, windows) && Steady(windows, r) && 0.0 < r && k < |cs|
    requires cs[0].baseline == None
    ensures cs[k].limit >= (if cs[0].limit + k < b.high then cs[0].limit + k else b.high)
    ensures k >= b.high - cs[0].limit ==> cs[k].limit == b.high
  {
    forall j | 0 <= j < |windows|
      ensures cs[j + 1].baseline.Some? && GradientAt(cs, windows, j) == 1.0
    {
      BaselineWithinSamples(b, decay, cs, windows, r, r, j + 1);
      if j > 0 { BaselineWithinSamples(b, decay, cs, windows, r, r, j); }
      assert Follows(b, decay, cs[j], windows[j], cs[j + 1]);
      assert Within(windows[j], r, r);
      UpperClampNeverBinds(cs[j].baseline, windows[j], decay);
    }
    FullRisesToTop(b, decay, cs, windows, k);
  }
}
