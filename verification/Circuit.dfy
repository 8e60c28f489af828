/**
 The circuit breaker, and what it promises whatever the order of admissions and reports.
 */
module Circuit {
  import opened Prelude
  import opened Backoff

  const GROWTH_CAP: nat := 8

  datatype Mode = Closed | Open | HalfOpen

  datatype Limits = Limits(threshold: nat, base: real)

  predicate LimitsOk(c: Limits) { c.threshold >= 1 && c.base > 0.0 }

  datatype Breaker = Breaker(mode: Mode, failures: nat, opens: nat, openedAt: real, cooldown: real)

  /** Reports carry no identity: a late one is indistinguishable from the probe's own. */
  datatype Event = Allow(now: real) | Success(now: real) | Failure(now: real, jitter: real)

  function Fresh(c: Limits): Breaker { Breaker(Closed, 0, 0, 0.0, c.base) }

  function Admits(b: Breaker, now: real): bool {
    b.mode == Closed || (b.mode == Open && now - b.openedAt >= b.cooldown)
  }

  /** `times` base cooldowns. */
  function Bases(c: Limits, times: real): real { c.base * times }

  function Trip(c: Limits, b: Breaker, now: real, jitter: real): Breaker {
    Breaker(Open, 0, b.opens + 1, now, Bases(c, ComputeBackoff(b.opens, GROWTH_CAP, jitter)))
  }

  function Step(c: Limits, b: Breaker, e: Event): Breaker {
    match e
    case Allow(now) => if b.mode == Open && Admits(b, now) then b.(mode := HalfOpen) else b
    case Success(_) => b.(mode := Closed, failures := 0, opens := 0)
    case Failure(now, jitter) =>
      if b.mode == HalfOpen || b.failures + 1 >= c.threshold then Trip(c, b, now, jitter)
      else b.(failures := b.failures + 1)
  }

  function Run(c: Limits, b: Breaker, es: seq<Event>): Breaker {
    if es == [] then b else Step(c, Run(c, b, es[..|es| - 1]), es[|es| - 1])
  }

  // ----- the code ------------------------------------------------------------------------------

  class CircuitBreaker {
    const limits: Limits
    var mode: Mode
    var failures: nat
    var opens: nat
    var openedAt: real
    var cooldown: real

    function Abstract(): Breaker
      reads this
    {
      Breaker(mode, failures, opens, openedAt, cooldown)
    }

    constructor (c: Limits)
      requires LimitsOk(c)
      ensures limits == c && Abstract() == Fresh(c)
    {
      limits := c;
      mode, failures, opens, openedAt, cooldown := Closed, 0, 0, 0.0, c.base;
    }

    method Allow(now: real) returns (admitted: bool)
      modifies this
      ensures admitted == Admits(old(Abstract()), now)
      ensures Abstract() == Step(limits, old(Abstract()), Event.Allow(now))
    {
      if mode == Closed { return true; }
      if mode == Open {
        if now - openedAt < cooldown { return false; }
        mode := HalfOpen;
        return true;
      }
      return false;
    }

    method RecordSuccess(ghost now: real)
      modifies this
      ensures Abstract() == Step(limits, old(Abstract()), Success(now))
    {
      mode, failures, opens := Closed, 0, 0;
    }

    method RecordFailure(now: real, jitter: real)
      modifies this
      ensures Abstract() == Step(limits, old(Abstract()), Failure(now, jitter))
    {
      if mode == HalfOpen {
        OpenUp(now, jitter);
        return;
      }
      failures := failures + 1;
      if failures >= limits.threshold { OpenUp(now, jitter); }
    }

    method OpenUp(now: real, jitter: real)
      modifies this
      ensures Abstract() == Trip(limits, old(Abstract()), now, jitter)
    {
      mode := Open;
      failures := 0;
      opens := opens + 1;
      openedAt := now;
      cooldown := limits.base * ComputeBackoff(opens - 1, GROWTH_CAP, jitter);
    }
  }

  // ----- every history -------------------------------------------------------------------------

  /** The clock never goes back, starting from `t0`, and jitters are jitters. */
  ghost predicate Timely(es: seq<Event>, t0: real) {
    && (forall e :: e in es ==> t0 <= e.now && (e.Failure? ==> IsJitter(e.jitter)))
    && (forall i, j | 0 <= i < j < |es| :: es[i].now <= es[j].now)
  }

  function Clock(es: seq<Event>, t0: real): real { if es == [] then t0 else es[|es| - 1].now }

  /** The factor of the k-th open in a row, jitter aside. */
  function Growth(k: nat): nat
    requires k >= 1
  {
    Min(Pow2(k - 1), GROWTH_CAP)
  }

  ghost predicate CooldownOk(c: Limits, b: Breaker) {
    b.opens >= 1 ==>
      Bases(c, 0.5 * Growth(b.opens) as real) <= b.cooldown < Bases(c, 1.5 * Growth(b.opens) as real)
  }

  ghost predicate Sound(c: Limits, b: Breaker) {
    && LimitsOk(c) && b.failures < c.threshold
    && (b.mode == Closed <==> b.opens == 0)
    && CooldownOk(c, b)
  }

  lemma TripCooldown(c: Limits, b: Breaker, now: real, jitter: real)
    requires LimitsOk(c) && IsJitter(jitter)
    ensures CooldownOk(c, Trip(c, b, now, jitter))
  {
    GrowthIsCentre(b.opens);
    DelayRange(b.opens, GROWTH_CAP, jitter);
    CooldownFrom(c, Trip(c, b, now, jitter), Centre(b.opens, GROWTH_CAP), ComputeBackoff(b.opens, GROWTH_CAP, jitter));
  }

  lemma GrowthIsCentre(opens: nat)
    ensures Centre(opens, GROWTH_CAP) == Growth(opens + 1)
  {
    assert Pow2(MAX_EXPONENT) > GROWTH_CAP;
    ClampMatters(opens, GROWTH_CAP, MAX_EXPONENT);
  }

  lemma CooldownFrom(c: Limits, b: Breaker, centre: nat, factor: real)
    requires LimitsOk(c) && b.opens >= 1 && centre == Growth(b.opens) && b.cooldown == Bases(c, factor)
    requires 0.5 * centre as real <= factor < 1.5 * centre as real
    ensures CooldownOk(c, b)
  {
    BasesBetween(c, 0.5 * centre as real, factor, 1.5 * centre as real);
  }

  lemma BasesBetween(c: Limits, lo: real, x: real, hi: real)
    requires LimitsOk(c)
    ensures lo <= x ==> Bases(c, lo) <= Bases(c, x)
    ensures x < hi ==> Bases(c, x) < Bases(c, hi)
  {
    if lo <= x { assert c.base * (x - lo) >= 0.0; }
    if x < hi { assert c.base * (hi - x) > 0.0; }
  }

  /** The k-th open in a row waits between half and one and a half times base * min(2^(k-1), 8). */
  lemma {:induction false} RunSound(c: Limits, b: Breaker, es: seq<Event>, t0: real)
    requires Sound(c, b) && Timely(es, t0)
    ensures Sound(c, Run(c, b, es))
  {
    if es != [] {
      var init, e := es[..|es| - 1], es[|es| - 1];
      RunSound(c, b, init, t0);
      assert e in es;
      if e.Failure? { TripCooldown(c, Run(c, b, init), e.now, e.jitter); }
    }
  }

  /** Failures reported since the last success. */
  function Streak(es: seq<Event>): nat {
    if es == [] then 0
    else
      match es[|es| - 1]
      case Allow(_) => Streak(es[..|es| - 1])
      case Success(_) => 0
      case Failure(_, _) => Streak(es[..|es| - 1]) + 1
  }

  /** Closed means exactly: fewer failures since the last success than the threshold. */
  lemma {:induction false} ClosedExactlyBelowThreshold(c: Limits, es: seq<Event>)
    requires LimitsOk(c)
    ensures var b := Run(c, Fresh(c), es);
            && (b.mode == Closed <==> Streak(es) < c.threshold)
            && (b.mode == Closed ==> b.failures == Streak(es))
  {
    if es != [] { ClosedExactlyBelowThreshold(c, es[..|es| - 1]); }
  }

  /** Admissions outside CLOSED: the probes. */
  function Probes(c: Limits, b: Breaker, es: seq<Event>): nat {
    if es == [] then 0
    else
      var before := Run(c, b, es[..|es| - 1]);
      var e := es[|es| - 1];
      Probes(c, b, es[..|es| - 1])
      + if e.Allow? && before.mode != Closed && Admits(before, e.now) then 1 else 0
  }

  ghost predicate NoSuccess(es: seq<Event>) { forall e :: e in es ==> !e.Success? }

  lemma GrowthAtLeastTwo(k: nat)
    requires k >= 2
    ensures Growth(k) >= 2
  {
    Pow2Monotone(1, k - 1);
  }

  /** One, two, four, and eight from the fourth open in a row on. */
  lemma GrowthTable(k: nat)
    requires k >= 1
    ensures Growth(k) == if k == 1 then 1 else if k == 2 then 2 else if k == 3 then 4 else 8
  {
    if k >= 4 { Pow2Monotone(3, k - 1); }
  }

  /** What a probe count says about the clock and the running cooldown. */
  ghost predicate Spaced(c: Limits, b: Breaker, p: nat, opens0: nat, now: real, t0: real) {
    p > 0 ==>
      && now >= t0 + Bases(c, (p - 1) as real)
      && b.opens >= opens0
      && (b.mode == Open ==> b.opens > opens0 && b.openedAt + b.cooldown >= t0 + Bases(c, p as real))
  }

  /**
   From any sound state that is not CLOSED, with no success reported, p probes need at least p - 1
   whole base cooldowns, however the failure reports arrive.
   */
  lemma {:induction false} ProbesAreSparse(c: Limits, b: Breaker, es: seq<Event>, t0: real)
    requires Sound(c, b) && b.mode != Closed && Timely(es, t0) && NoSuccess(es)
    ensures Run(c, b, es).mode != Closed
    ensures Spaced(c, Run(c, b, es), Probes(c, b, es), b.opens, Clock(es, t0), t0)
    ensures Run(c, b, es).opens >= b.opens
  {
    if es != [] {
      var init, e := es[..|es| - 1], es[|es| - 1];
      assert e in es;
      ProbesAreSparse(c, b, init, t0);
      RunSound(c, b, init, t0);
      RunSound(c, b, es, t0);
      if init != [] { assert init[|init| - 1].now <= e.now; }
      var before, after := Run(c, b, init), Run(c, b, es);
      var p := Probes(c, b, init);
      SparseStep(c, before, e, p, b.opens, Clock(init, t0), t0);
    }
  }

  lemma SparseStep(c: Limits, b: Breaker, e: Event, p: nat, opens0: nat, now: real, t0: real)
    requires Sound(c, b) && b.mode != Closed && !e.Success? && now <= e.now && t0 <= e.now
    requires e.Failure? ==> IsJitter(e.jitter)
    requires Spaced(c, b, p, opens0, now, t0) && b.opens >= opens0 >= 1
    ensures var p' := p + if e.Allow? && Admits(b, e.now) then 1 else 0;
            Spaced(c, Step(c, b, e), p', opens0, e.now, t0)
  {
    match e
    case Failure(now', jitter) =>
      TripCooldown(c, b, now', jitter);
      TripIsLater(c, Trip(c, b, now', jitter), p, now, t0);
    case Allow(now') =>
      if p > 0 && Admits(b, now') { OneMoreBase(c, t0, p, b.openedAt + b.cooldown, now'); }
      if p == 0 { assert Bases(c, 0.0) == 0.0; }
    case _ =>
  }

  /** A reopening in a row cools down for a whole base at least, from no earlier than the last probe. */
  lemma TripIsLater(c: Limits, b: Breaker, p: nat, now: real, t0: real)
    requires LimitsOk(c) && CooldownOk(c, b) && b.opens >= 2 && now <= b.openedAt
    requires p > 0 ==> now >= t0 + Bases(c, (p - 1) as real)
    ensures p > 0 ==> b.openedAt + b.cooldown >= t0 + Bases(c, p as real)
    ensures p > 0 ==> b.openedAt >= t0 + Bases(c, (p - 1) as real)
  {
    GrowthAtLeastTwo(b.opens);
    BasesBetween(c, 1.0, 0.5 * Growth(b.opens) as real, 100.0);
    if p > 0 { BasesAdd(c, (p - 1) as real); }
  }

  lemma BasesAdd(c: Limits, n: real)
    ensures Bases(c, n + 1.0) == Bases(c, n) + Bases(c, 1.0)
  {
  }

  lemma OneMoreBase(c: Limits, t0: real, p: nat, ready: real, now: real)
    requires ready >= t0 + Bases(c, p as real) && now >= ready
    ensures now >= t0 + Bases(c, ((p + 1) - 1) as real)
  {
  }

  /** Two probes with no success between them are at least a base cooldown apart: here, of the first and last event. */
  lemma TwoProbesApart(c: Limits, b: Breaker, es: seq<Event>)
    requires Sound(c, b) && b.mode == Open && |es| >= 2 && Timely(es, es[0].now) && NoSuccess(es)
    requires es[0].Allow? && Admits(b, es[0].now)
    requires var before := Run(c, b, es[..|es| - 1]); es[|es| - 1].Allow? && Admits(before, es[|es| - 1].now)
    ensures es[|es| - 1].now - es[0].now >= c.base
  {
    var init := es[..|es| - 1];
    var t0 := es[0].now;
    forall e | e in init ensures e in es && !e.Success? {}
    ProbesAreSparse(c, b, init, t0);
    ProbesAreSparse(c, b, es, t0);
    FirstIsAProbe(c, b, init);
    FurtherProbes(c, b, es, t0);
  }

  lemma {:induction false} FirstIsAProbe(c: Limits, b: Breaker, es: seq<Event>)
    requires b.mode == Open && es != [] && es[0].Allow? && Admits(b, es[0].now)
    ensures Probes(c, b, es) >= 1
  {
    if |es| > 1 {
      FirstIsAProbe(c, b, es[..|es| - 1]);
    } else {
      assert es[..0] == [];
    }
  }

  lemma FurtherProbes(c: Limits, b: Breaker, es: seq<Event>, t0: real)
    requires Spaced(c, Run(c, b, es), Probes(c, b, es), b.opens, Clock(es, t0), t0)
    requires Probes(c, b, es) >= 2 && LimitsOk(c) && es != []
    ensures es[|es| - 1].now >= t0 + c.base
  {
    BasesBetween(c, 1.0, (Probes(c, b, es) - 1) as real, 1.0);
  }

  /** A probe that never reports: HALF_OPEN refuses every later caller, for ever. */
  lemma {:induction false} UnreportedProbeRefusesForever(c: Limits, b: Breaker, es: seq<Event>, now: real)
    requires b.mode == HalfOpen && forall e :: e in es ==> e.Allow?
    ensures Run(c, b, es) == b && !Admits(Run(c, b, es), now)
  {
    if es != [] { UnreportedProbeRefusesForever(c, b, es[..|es| - 1], now); }
  }

  /** ... and any report ends it: a success closes, a failure reopens with a fresh cooldown. */
  lemma ReportEndsTheProbe(c: Limits, b: Breaker, e: Event)
    requires LimitsOk(c) && b.mode == HalfOpen && !e.Allow? && (e.Failure? ==> IsJitter(e.jitter))
    ensures var b' := Step(c, b, e);
            && b'.mode == (if e.Success? then Closed else Open)
            && (e.Success? ==> Admits(b', e.now))
            && (e.Failure? ==> forall t :: Admits(b', t) <==> t >= e.now + b'.cooldown)
            && (e.Failure? ==> b'.cooldown < Bases(c, 12.0))
  {
    if e.Failure? {
      TripCooldown(c, b, e.now, e.jitter);
      BasesBetween(c, 1.5 * Growth(b.opens + 1) as real, 12.0, 12.0);
    }
  }

  /** Below the threshold everyone is admitted; at or above it nobody is, but for the probe of an elapsed cooldown. */
  lemma AdmissionExactly(c: Limits, es: seq<Event>, now: real)
    requires LimitsOk(c)
    ensures var b := Run(c, Fresh(c), es);
            && (Streak(es) < c.threshold ==> Admits(b, now))
            && (Streak(es) >= c.threshold ==> (Admits(b, now) <==> b.mode == Open && now >= b.openedAt + b.cooldown))
  {
    ClosedExactlyBelowThreshold(c, es);
  }

  /**
   A failure that trips the breaker keeps it shut for its cooldown from that moment: the first caller after it
   is the probe, and everyone else is refused until somebody reports.
   */
  lemma TripShutsForTheCooldown(c: Limits, b: Breaker, e: Event, asks: seq<Event>, now: real)
    requires e.Failure? && Step(c, b, e).mode == Open && Step(c, b, e).opens > b.opens
    requires forall a :: a in asks ==> a.Allow?
    ensures var w := c.base * ComputeBackoff(b.opens, GROWTH_CAP, e.jitter);
            Admits(Run(c, Step(c, b, e), asks), now)
            <==> now >= e.now + w && forall a :: a in asks ==> a.now < e.now + w
  {
    assert Step(c, b, e) == Trip(c, b, e.now, e.jitter);
    ShutUntil(c, Trip(c, b, e.now, e.jitter), asks, now);
  }

  lemma ShutUntil(c: Limits, b: Breaker, asks: seq<Event>, now: real)
    requires b.mode == Open && forall a :: a in asks ==> a.Allow?
    ensures Admits(Run(c, b, asks), now)
            <==> now >= b.openedAt + b.cooldown && forall a :: a in asks ==> a.now < b.openedAt + b.cooldown
  {
    AsksAfterTrip(c, b, asks);
  }

  lemma {:induction false} AsksAfterTrip(c: Limits, b: Breaker, asks: seq<Event>)
    requires b.mode == Open && forall a :: a in asks ==> a.Allow?
    ensures Run(c, b, asks)
            == if forall a :: a in asks ==> a.now < b.openedAt + b.cooldown then b else b.(mode := HalfOpen)
  {
    if asks != [] {
      var init, last := asks[..|asks| - 1], asks[|asks| - 1];
      AsksAfterTrip(c, b, init);
      assert asks == init + [last];
    }
  }

  /** Late failures count towards the next opening: every `threshold` of them starts the cooldown again. */
  lemma {:induction false} LateFailuresReopen(c: Limits, b: Breaker, es: seq<Event>)
    requires LimitsOk(c) && b.mode == Open && b.failures < c.threshold && forall e :: e in es ==> e.Failure?
    ensures var b' := Run(c, b, es);
            && b'.mode == Open
            && (b'.opens - b.opens) * c.threshold + b'.failures == b.failures + |es| && b'.failures < c.threshold
            && b'.opens >= b.opens
  {
    if es != [] {
      assert es[|es| - 1] in es;
      var b1 := Run(c, b, es[..|es| - 1]);
      LateFailuresReopen(c, b, es[..|es| - 1]);
      OneMoreTime(b1.opens - b.opens, c.threshold);
    }
  }

  lemma OneMoreTime(n: int, k: int)
    ensures (n + 1) * k == n * k + k
  {
  }
}
