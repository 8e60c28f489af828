/**
 The check around the token bucket: fail open on any trouble, and tell the breaker only about some of it.
 A ResponseError, whatever Redis meant by it, and a cancelled call are told to nobody.
 */
module FailOpen {
  import opened Prelude
  import opened RateLimit
  import opened Circuit

  datatype Decision = Decision(admitted: bool, enforced: bool, retryAfterSeconds: int)

  const FAIL_OPEN: Decision := Decision(true, false, 0)

  /**
   What becomes of a call to Redis. `ErrorReply` is a ResponseError other than the script's own, such as
   READONLY or WRONGTYPE; `Lost` a transport failure or a timeout; `Cancelled` a caller that went away. Where
   the reply did not say, `ran` tells whether the bucket was written.
   */
  datatype Wire = Answered | ErrorReply(ran: bool) | Lost(ran: bool) | Cancelled(ran: bool)

  /** The breaker hears of it. */
  predicate Reports(p: Policy, w: Wire) { w.Lost? || (w.Answered? && p.refill > 0.0) }

  /** What the breaker is told when a call it admitted ends. */
  function Told(c: Limits, p: Policy, b: Breaker, now: real, jitter: real, w: Wire): Breaker {
    if !Reports(p, w) then b
    else if w.Lost? then Step(c, b, Failure(now, jitter))
    else Step(c, b, Success(now))
  }

  // ----- one check -----------------------------------------------------------------------------

  /** The breaker's clock when asked and when told, and what the network did. */
  datatype Check = Check(asked: real, told: real, jitter: real, wire: Wire)

  function AfterCheck(c: Limits, p: Policy, b: Breaker, k: Check): Breaker {
    var b' := Step(c, b, Allow(k.asked));
    if Admits(b, k.asked) then Told(c, p, b', k.told, k.jitter, k.wire) else b'
  }

  class TokenBucketLimiter {
    const policy: Policy
    const breaker: CircuitBreaker
    const key: BucketKey

    constructor (p: Policy, breaker: CircuitBreaker)
      ensures policy == p && this.breaker == breaker && fresh(key) && key.stored == None
    {
      policy, this.breaker := p, breaker;
      key := new BucketKey();
    }

    /**
     `check`, uninterrupted. It denies only when the bucket answered, and refused; nothing is returned only
     when the caller was cancelled while waiting for Redis.
     */
    method DoCheck(k: Check, nowMs: int, cost: nat) returns (d: Option<Decision>)
      requires InRange(policy, key.stored)
      modifies breaker, key
      ensures InRange(policy, key.stored)
      ensures breaker.Abstract() == AfterCheck(breaker.limits, policy, old(breaker.Abstract()), k)
      ensures var asked := Admits(old(breaker.Abstract()), k.asked);
              && key.stored == (if asked && policy.refill > 0.0 && (k.wire.Answered? || k.wire.ran)
                                then Some(After(policy, old(key.stored), nowMs, cost)) else old(key.stored))
              && (d == None <==> asked && k.wire.Cancelled?)
              && (d.Some? ==>
                    && d.value.enforced == (asked && k.wire.Answered? && policy.refill > 0.0)
                    && (!d.value.enforced ==> d.value.admitted && d.value.retryAfterSeconds == 0)
                    && (d.value.enforced ==>
                          && d.value.admitted == Allows(policy, old(key.stored), nowMs, cost)
                          && d.value.retryAfterSeconds
                             == if d.value.admitted then 0
                                else RetryAfterSeconds(Answer(policy, old(key.stored), nowMs, cost).retryAfterMs)))
    {
      var open := breaker.Allow(k.asked);
      if !open { return Some(FAIL_OPEN); }
      match k.wire
      case Answered =>
        var reply := key.Eval(policy, nowMs, cost);
        if reply == None { return Some(FAIL_OPEN); }
        breaker.RecordSuccess(k.told);
        var r := reply.value;
        return Some(Decision(r.allowed, true, if r.allowed then 0 else RetryAfterSeconds(r.retryAfterMs)));
      case ErrorReply(ran) =>
        if ran { var _ := key.Eval(policy, nowMs, cost); }
        return Some(FAIL_OPEN);
      case Lost(ran) =>
        if ran { var _ := key.Eval(policy, nowMs, cost); }
        breaker.RecordFailure(k.told, k.jitter);
        return Some(FAIL_OPEN);
      case Cancelled(ran) =>
        if ran { var _ := key.Eval(policy, nowMs, cost); }
        return None;
    }
  }

  function AfterChecks(c: Limits, p: Policy, b: Breaker, ks: seq<Check>): Breaker {
    if ks == [] then b else AfterCheck(c, p, AfterChecks(c, p, b, ks[..|ks| - 1]), ks[|ks| - 1])
  }

  /** The i-th check was a probe, and nobody was told how it ended. */
  ghost predicate SilentProbe(c: Limits, p: Policy, b: Breaker, ks: seq<Check>, i: nat) {
    && i < |ks|
    && AfterChecks(c, p, b, ks[..i]).mode == Open
    && Admits(AfterChecks(c, p, b, ks[..i]), ks[i].asked)
    && !Reports(p, ks[i].wire)
  }

  /**
   One check after another: the breaker is left HALF_OPEN, and then refuses every later caller, if and only
   if some probe's outcome was one that nobody reports -- whatever the policy.
   */
  lemma {:induction false} HalfOpenExactlyAfterASilentProbe(c: Limits, p: Policy, ks: seq<Check>)
    ensures AfterChecks(c, p, Fresh(c), ks).mode == HalfOpen <==> exists i: nat :: SilentProbe(c, p, Fresh(c), ks, i)
  {
    if ks != [] {
      var init, k := ks[..|ks| - 1], ks[|ks| - 1];
      HalfOpenExactlyAfterASilentProbe(c, p, init);
      if i: nat :| SilentProbe(c, p, Fresh(c), init, i) {
        assert ks[..i] == init[..i];
        assert SilentProbe(c, p, Fresh(c), ks, i);
      }
      if i: nat :| SilentProbe(c, p, Fresh(c), ks, i) {
        assert i < |init| ==> ks[..i] == init[..i];
        assert i < |init| ==> SilentProbe(c, p, Fresh(c), init, i);
      }
      if AfterChecks(c, p, Fresh(c), init).mode == Open && AfterChecks(c, p, Fresh(c), ks).mode == HalfOpen {
        assert SilentProbe(c, p, Fresh(c), ks, |init|);
      }
    }
  }

  // ----- checks in flight together -------------------------------------------------------------

  /** The breaker, and how many calls it has admitted that have not ended. */
  datatype Traffic = Traffic(breaker: Breaker, inFlight: nat)

  datatype Moment = Ask(now: real) | Done(now: real, jitter: real, wire: Wire)

  function Moved(c: Limits, p: Policy, t: Traffic, m: Moment): Traffic {
    match m
    case Ask(now) =>
      Traffic(Step(c, t.breaker, Allow(now)), t.inFlight + if Admits(t.breaker, now) then 1 else 0)
    case Done(now, jitter, w) =>
      if t.inFlight == 0 then t else Traffic(Told(c, p, t.breaker, now, jitter, w), t.inFlight - 1)
  }

  function Flow(c: Limits, p: Policy, t: Traffic, ms: seq<Moment>): Traffic {
    if ms == [] then t else Moved(c, p, Flow(c, p, t, ms[..|ms| - 1]), ms[|ms| - 1])
  }

  /** The i-th moment is the end of a call that is in flight, and it reports. */
  ghost predicate ReportAt(c: Limits, p: Policy, t: Traffic, ms: seq<Moment>, i: nat) {
    i < |ms| && ms[i].Done? && Reports(p, ms[i].wire) && Flow(c, p, t, ms[..i]).inFlight > 0
  }

  lemma {:induction false} WithoutReports(c: Limits, p: Policy, t: Traffic, ms: seq<Moment>)
    requires t.breaker.mode == HalfOpen && forall i: nat :: !ReportAt(c, p, t, ms, i)
    ensures Flow(c, p, t, ms).breaker == t.breaker
  {
    if ms != [] {
      var init := ms[..|ms| - 1];
      forall i: nat ensures !ReportAt(c, p, t, init, i) {
        assert i < |init| ==> init[..i] == ms[..i];
        assert !ReportAt(c, p, t, ms, i);
      }
      WithoutReports(c, p, t, init);
      assert !ReportAt(c, p, t, ms, |init|);
    }
  }

  /** HALF_OPEN ends if and only if some call in flight reports, the probe or an older one. */
  lemma HalfOpenEndsExactlyByAReport(c: Limits, p: Policy, t: Traffic, ms: seq<Moment>)
    requires t.breaker.mode == HalfOpen
    ensures (exists k: nat :: k <= |ms| && Flow(c, p, t, ms[..k]).breaker.mode != HalfOpen)
            <==> exists i: nat :: ReportAt(c, p, t, ms, i)
  {
    if i: nat :| ReportAt(c, p, t, ms, i) {
      assert ms[..i + 1][..i] == ms[..i];
      var k := if Flow(c, p, t, ms[..i]).breaker.mode != HalfOpen then i else i + 1;
      assert k <= |ms| && Flow(c, p, t, ms[..k]).breaker.mode != HalfOpen;
    }
    if k: nat :| k <= |ms| && Flow(c, p, t, ms[..k]).breaker.mode != HalfOpen {
      if forall i: nat :: !ReportAt(c, p, t, ms[..k], i) {
        WithoutReports(c, p, t, ms[..k]);
      } else {
        var i: nat :| ReportAt(c, p, t, ms[..k], i);
        assert ms[..k][..i] == ms[..i];
        assert ReportAt(c, p, t, ms, i);
      }
    }
  }

  /** So HALF_OPEN is for ever exactly when nothing is in flight any more. */
  lemma HalfOpenCanEndExactlyWhileInFlight(c: Limits, p: Policy, t: Traffic)
    requires t.breaker.mode == HalfOpen
    ensures (exists ms: seq<Moment> :: Flow(c, p, t, ms).breaker.mode != HalfOpen) <==> t.inFlight > 0
  {
    if t.inFlight > 0 {
      var ms := [Done(0.0, 0.0, Lost(false))];
      assert ms[..0] == [];
      assert Flow(c, p, t, ms).breaker.mode != HalfOpen;
    } else {
      forall ms: seq<Moment> ensures Flow(c, p, t, ms).breaker.mode == HalfOpen {
        NothingInFlight(c, p, t, ms);
      }
    }
  }

  lemma {:induction false} NothingInFlight(c: Limits, p: Policy, t: Traffic, ms: seq<Moment>)
    requires t.breaker.mode == HalfOpen && t.inFlight == 0
    ensures Flow(c, p, t, ms) == t
  {
    if ms != [] { NothingInFlight(c, p, t, ms[..|ms| - 1]); }
  }

  /** In every history where each admitted check reports, HALF_OPEN never outlives the checks in flight. */
  lemma {:induction false} ReportingTrafficNeverWedges(c: Limits, p: Policy, ms: seq<Moment>)
    requires forall m :: m in ms && m.Done? ==> Reports(p, m.wire)
    ensures var t := Flow(c, p, Traffic(Fresh(c), 0), ms); t.breaker.mode == HalfOpen ==> t.inFlight > 0
  {
    if ms != [] {
      assert ms[|ms| - 1] in ms;
      ReportingTrafficNeverWedges(c, p, ms[..|ms| - 1]);
    }
  }

  /**
   A silent probe -- a script error of any kind, READONLY after a failover included, or a caller that was
   cancelled -- leaves a breaker that no later check gets past, however healthy Redis is.
   */
  lemma {:induction false} SilentProbeWedges(c: Limits, p: Policy, b: Breaker, probe: Check, ks: seq<Check>)
    requires b.mode == Open && Admits(b, probe.asked) && !Reports(p, probe.wire)
    ensures var b' := AfterChecks(c, p, AfterCheck(c, p, b, probe), ks);
            b'.mode == HalfOpen && forall t :: !Admits(b', t)
  {
    if ks != [] { SilentProbeWedges(c, p, b, probe, ks[..|ks| - 1]); }
  }

  // ----- what the network did, and what the breaker makes of it --------------------------------

  /** Calls lost since the last one that was answered, of those that were let through to Redis. */
  function Losses(c: Limits, p: Policy, ks: seq<Check>): nat {
    if ks == [] then 0
    else
      var before, k := AfterChecks(c, p, Fresh(c), ks[..|ks| - 1]), ks[|ks| - 1];
      if !Admits(before, k.asked) then Losses(c, p, ks[..|ks| - 1])
      else
        match k.wire
        case Lost(_) => Losses(c, p, ks[..|ks| - 1]) + 1
        case Answered => if p.refill > 0.0 then 0 else Losses(c, p, ks[..|ks| - 1])
        case _ => Losses(c, p, ks[..|ks| - 1])
  }

  /** The breaker is closed exactly while fewer calls than the threshold were lost since the last answer. */
  lemma {:induction false} ClosedExactlyWhileFewAreLost(c: Limits, p: Policy, ks: seq<Check>)
    requires LimitsOk(c)
    ensures var b := AfterChecks(c, p, Fresh(c), ks);
            && (b.mode == Closed <==> Losses(c, p, ks) < c.threshold)
            && (b.mode == Closed ==> b.failures == Losses(c, p, ks))
  {
    if ks != [] { ClosedExactlyWhileFewAreLost(c, p, ks[..|ks| - 1]); }
  }

  /** In an outage: lost calls open a fresh breaker at the threshold, and not before. */
  lemma {:induction false} OutageOpensAtTheThreshold(c: Limits, p: Policy, ks: seq<Check>)
    requires LimitsOk(c) && |ks| <= c.threshold && forall k :: k in ks ==> k.wire.Lost?
    ensures Losses(c, p, ks) == |ks|
    ensures AfterChecks(c, p, Fresh(c), ks).mode == (if |ks| == c.threshold then Open else Closed)
  {
    if ks != [] {
      var front := ks[..|ks| - 1];
      assert ks[|ks| - 1] in ks;
      OutageOpensAtTheThreshold(c, p, front);
      ClosedExactlyWhileFewAreLost(c, p, front);
    }
  }

  /** In health: with no call lost the breaker stays closed, and every check gets through to Redis. */
  lemma {:induction false} HealthKeepsItClosed(c: Limits, p: Policy, ks: seq<Check>, now: real)
    requires LimitsOk(c) && forall k :: k in ks ==> !k.wire.Lost?
    ensures AfterChecks(c, p, Fresh(c), ks).mode == Closed && Admits(AfterChecks(c, p, Fresh(c), ks), now)
    ensures Losses(c, p, ks) == 0
  {
    if ks != [] {
      assert ks[|ks| - 1] in ks;
      HealthKeepsItClosed(c, p, ks[..|ks| - 1], now);
    }
  }

  /** The same count with calls in flight together, by when they end. */
  function LossesInFlow(c: Limits, p: Policy, t: Traffic, ms: seq<Moment>): nat {
    if ms == [] then 0
    else
      var front, m := ms[..|ms| - 1], ms[|ms| - 1];
      if m.Ask? || Flow(c, p, t, front).inFlight == 0 then LossesInFlow(c, p, t, front)
      else
        match m.wire
        case Lost(_) => LossesInFlow(c, p, t, front) + 1
        case Answered => if p.refill > 0.0 then 0 else LossesInFlow(c, p, t, front)
        case _ => LossesInFlow(c, p, t, front)
  }

  lemma {:induction false} FlowClosedExactlyWhileFewAreLost(c: Limits, p: Policy, ms: seq<Moment>)
    requires LimitsOk(c)
    ensures var b, losses := Flow(c, p, Traffic(Fresh(c), 0), ms).breaker, LossesInFlow(c, p, Traffic(Fresh(c), 0), ms);
            (b.mode == Closed <==> losses < c.threshold) && (b.mode == Closed ==> b.failures == losses)
  {
    if ms != [] { FlowClosedExactlyWhileFewAreLost(c, p, ms[..|ms| - 1]); }
  }
}
