/**
 The token bucket script, run by callers whose clocks need not agree. Token counts are exact reals; times
 are whole milliseconds, as the callers send them.
 */
module RateLimit {
  import opened Prelude

  datatype Policy = Policy(capacity: nat, refill: real)

  datatype Bucket = Bucket(tokens: real, ts: int)

  datatype Reply = Reply(allowed: bool, tokens: int, retryAfterMs: int)

  function Ceil(x: real): int { -((-x).Floor) }

  /** Tokens that `ms` milliseconds bring. */
  function Inflow(p: Policy, ms: int): real { ms as real / 1000.0 * p.refill }

  /** Milliseconds the stored clock moves forward: none when the caller's clock lags it. */
  function Forward(stored: Option<Bucket>, now: int): nat {
    match stored
    case None => 0
    case Some(b) => if now > b.ts then now - b.ts else 0
  }

  function Credit(p: Policy, stored: Option<Bucket>): real {
    match stored
    case None => p.capacity as real
    case Some(b) => b.tokens
  }

  /** What the call finds after refilling. */
  function Level(p: Policy, stored: Option<Bucket>, now: int): real {
    MinR(p.capacity as real, Credit(p, stored) + Inflow(p, Forward(stored, now)))
  }

  function Allows(p: Policy, stored: Option<Bucket>, now: int, cost: nat): bool {
    Level(p, stored, now) >= cost as real
  }

  function After(p: Policy, stored: Option<Bucket>, now: int, cost: nat): Bucket {
    Bucket(Level(p, stored, now) - (if Allows(p, stored, now, cost) then cost as real else 0.0), now)
  }

  function Wait(p: Policy, deficit: real): int
    requires p.refill > 0.0
  {
    Ceil(deficit / p.refill * 1000.0)
  }

  function Answer(p: Policy, stored: Option<Bucket>, now: int, cost: nat): Reply
    requires p.refill > 0.0
  {
    var b := After(p, stored, now, cost);
    var allowed := Allows(p, stored, now, cost);
    Reply(allowed, b.tokens.Floor, if allowed then 0 else Wait(p, cost as real - b.tokens))
  }

  /** How long the key outlives a write, in milliseconds. */
  function Ttl(p: Policy): int
    requires p.refill > 0.0
  {
    Ceil(p.capacity as real / p.refill * 1000.0 * 2.0)
  }

  predicate InRange(p: Policy, stored: Option<Bucket>) {
    stored.Some? ==> 0.0 <= stored.value.tokens <= p.capacity as real
  }

  // ----- the code ------------------------------------------------------------------------------

  /** One bucket key. */
  class BucketKey {
    var stored: Option<Bucket>
    var expiresIn: int

    constructor ()
      ensures stored == None
    {
      stored, expiresIn := None, 0;
    }

    /** One run of the script; None is the script's own error reply. */
    method Eval(p: Policy, now: int, cost: nat) returns (reply: Option<Reply>)
      requires InRange(p, stored)
      modifies this
      ensures p.refill <= 0.0 ==> reply == None && stored == old(stored) && expiresIn == old(expiresIn)
      ensures p.refill > 0.0 ==>
                && reply == Some(Answer(p, old(stored), now, cost))
                && stored == Some(After(p, old(stored), now, cost))
                && InRange(p, stored) && expiresIn == Ttl(p)
    {
      if p.refill <= 0.0 { return None; }
      var tokens: real, lastTs: int;
      if stored == None {
        tokens, lastTs := p.capacity as real, now;
      } else {
        tokens, lastTs := stored.value.tokens, stored.value.ts;
      }
      LevelInRange(p, stored, now);
      var elapsed := if now - lastTs > 0 then now - lastTs else 0;
      tokens := MinR(p.capacity as real, tokens + Inflow(p, elapsed));
      var allowed := false;
      if tokens >= cost as real {
        tokens := tokens - cost as real;
        allowed := true;
      }
      stored := Some(Bucket(tokens, now));
      expiresIn := Ttl(p);
      var retryAfterMs := 0;
      if !allowed { retryAfterMs := Wait(p, cost as real - tokens); }
      return Some(Reply(allowed, tokens.Floor, retryAfterMs));
    }
  }

  // ----- arithmetic of the refill --------------------------------------------------------------

  lemma InflowMonotone(p: Policy, a: int, b: int)
    requires p.refill > 0.0 && a <= b
    ensures Inflow(p, a) <= Inflow(p, b)
  {
    assert (b - a) as real / 1000.0 * p.refill >= 0.0;
    InflowAdds(p, a, b - a);
  }

  lemma InflowAdds(p: Policy, a: int, b: int)
    ensures Inflow(p, a + b) == Inflow(p, a) + Inflow(p, b) && Inflow(p, 0) == 0.0
  {
    assert (a + b) as real == a as real + b as real;
  }

  lemma LevelInRange(p: Policy, stored: Option<Bucket>, now: int)
    requires p.refill > 0.0 && InRange(p, stored)
    ensures 0.0 <= Level(p, stored, now) <= p.capacity as real
  {
    InflowMonotone(p, 0, Forward(stored, now));
    InflowAdds(p, 0, 0);
  }

  lemma CeilIsLeast(x: real, n: int)
    ensures Ceil(x) <= n <==> x <= n as real
  {
  }

  /** `Wait` is the least whole number of milliseconds that brings the deficit. */
  lemma WaitIsLeast(p: Policy, deficit: real, ms: int)
    requires p.refill > 0.0
    ensures Wait(p, deficit) <= ms <==> Inflow(p, ms) >= deficit
  {
    var x := deficit / p.refill;
    assert x * p.refill == deficit;
    var y := ms as real / 1000.0;
    CeilIsLeast(x * 1000.0, ms);
    assert x * 1000.0 <= ms as real <==> x <= y;
    Scales(x, y, p.refill);
  }

  // ----- any calls, any clocks -----------------------------------------------------------------

  datatype Call = Call(now: int, cost: nat)

  /** The key after `calls`, when nothing deletes it. */
  function Final(p: Policy, stored: Option<Bucket>, calls: seq<Call>): Option<Bucket> {
    if calls == [] then stored
    else
      var c := calls[|calls| - 1];
      Some(After(p, Final(p, stored, calls[..|calls| - 1]), c.now, c.cost))
  }

  function Spent(p: Policy, stored: Option<Bucket>, calls: seq<Call>): nat {
    if calls == [] then 0
    else
      var c := calls[|calls| - 1];
      Spent(p, stored, calls[..|calls| - 1])
      + if Allows(p, Final(p, stored, calls[..|calls| - 1]), c.now, c.cost) then c.cost else 0
  }

  /** Refill that found the bucket full. */
  function Spilled(p: Policy, stored: Option<Bucket>, calls: seq<Call>): real {
    if calls == [] then 0.0
    else
      var before, now := Final(p, stored, calls[..|calls| - 1]), calls[|calls| - 1].now;
      Spilled(p, stored, calls[..|calls| - 1])
      + (Credit(p, before) + Inflow(p, Forward(before, now)) - Level(p, before, now))
  }

  function ForwardTotal(p: Policy, stored: Option<Bucket>, calls: seq<Call>): nat {
    if calls == [] then 0
    else
      ForwardTotal(p, stored, calls[..|calls| - 1])
      + Forward(Final(p, stored, calls[..|calls| - 1]), calls[|calls| - 1].now)
  }

  /** Every token is accounted for: held, spent or spilled, out of the first credit and the refill. */
  lemma {:induction false} TokensAreConserved(p: Policy, stored: Option<Bucket>, calls: seq<Call>)
    requires p.refill > 0.0 && InRange(p, stored)
    ensures InRange(p, Final(p, stored, calls)) && Spilled(p, stored, calls) >= 0.0
    ensures Credit(p, Final(p, stored, calls)) + Spent(p, stored, calls) as real + Spilled(p, stored, calls)
            == Credit(p, stored) + Inflow(p, ForwardTotal(p, stored, calls))
  {
    if calls == [] {
      InflowAdds(p, 0, 0);
    } else {
      var init, now := calls[..|calls| - 1], calls[|calls| - 1].now;
      var before := Final(p, stored, init);
      TokensAreConserved(p, stored, init);
      LevelInRange(p, before, now);
      InflowAdds(p, ForwardTotal(p, stored, init), Forward(before, now));
    }
  }

  /** The rate bound, whatever the callers' clocks do: the first credit plus the refill of the forward movements. */
  lemma RateBound(p: Policy, stored: Option<Bucket>, calls: seq<Call>)
    requires p.refill > 0.0 && InRange(p, stored)
    ensures Spent(p, stored, calls) as real
            <= Credit(p, stored) + Inflow(p, ForwardTotal(p, stored, calls))
    ensures Spent(p, stored, calls) as real
            <= p.capacity as real + Inflow(p, ForwardTotal(p, stored, calls))
  {
    TokensAreConserved(p, stored, calls);
  }

  // ----- which clocks keep the promised rate ---------------------------------------------------

  function Readings(calls: seq<Call>): (ts: seq<int>)
    ensures |ts| == |calls|
  {
    seq(|calls|, k requires 0 <= k < |calls| => calls[k].now)
  }

  ghost predicate Monotone(ts: seq<int>) { forall i, j | 0 <= i < j < |ts| :: ts[i] <= ts[j] }

  /** The forward movements of a clock that shows `ts`. */
  function ForwardOf(ts: seq<int>): nat {
    if |ts| <= 1 then 0
    else ForwardOf(ts[..|ts| - 1]) + Max(0, ts[|ts| - 1] - ts[|ts| - 2])
  }

  /** What counts as forward movement depends on the readings alone. */
  lemma {:induction false} ForwardDependsOnReadings(p: Policy, calls: seq<Call>)
    requires calls != []
    ensures ForwardTotal(p, None, calls) == ForwardOf(Readings(calls))
    ensures Final(p, None, calls).Some? && Final(p, None, calls).value.ts == calls[|calls| - 1].now
  {
    var init := calls[..|calls| - 1];
    if init != [] {
      ForwardDependsOnReadings(p, init);
      assert Readings(calls)[..|calls| - 1] == Readings(init);
    } else {
      assert Final(p, None, init) == None;
    }
  }

  /** Forward movement covers the time between first and last reading, and is no more only if nothing moved back. */
  lemma {:induction false} ForwardCoversTheSpan(ts: seq<int>)
    requires ts != []
    ensures ForwardOf(ts) >= ts[|ts| - 1] - ts[0]
    ensures ForwardOf(ts) == ts[|ts| - 1] - ts[0] <==> Monotone(ts)
  {
    if |ts| > 1 {
      var init := ts[..|ts| - 1];
      ForwardCoversTheSpan(init);
      assert Monotone(ts) ==> Monotone(init) && ts[|ts| - 2] <= ts[|ts| - 1];
      assert Monotone(init) && ts[|ts| - 2] <= ts[|ts| - 1] ==> Monotone(ts) by {
        assert forall i | 0 <= i < |init| :: Monotone(init) ==> init[i] <= init[|init| - 1];
      }
    }
  }

  lemma RateBoundOnOneClock(p: Policy, calls: seq<Call>)
    requires p.refill > 0.0 && calls != [] && Monotone(Readings(calls))
    ensures KeepsTheRate(p, calls)
  {
    RateBound(p, None, calls);
    ForwardDependsOnReadings(p, calls);
    ForwardCoversTheSpan(Readings(calls));
  }

  /** At most the capacity, and the refill of the time between the first and the last reading. */
  predicate KeepsTheRate(p: Policy, calls: seq<Call>)
    requires calls != []
  {
    Spent(p, None, calls) as real <= p.capacity as real + Inflow(p, calls[|calls| - 1].now - calls[0].now)
  }

  /** One token a millisecond, and room for all of them. */
  function Roomy(ts: seq<int>): Policy { Policy(ForwardOf(ts), 1000.0) }

  /** Callers that show `ts` and always ask for exactly what has come in: at first, the whole bucket. */
  function Greedy(ts: seq<int>, capacity: nat): (calls: seq<Call>)
    ensures |calls| == |ts| && Readings(calls) == ts
  {
    if ts == [] then []
    else
      var init := Greedy(ts[..|ts| - 1], capacity);
      assert ts == ts[..|ts| - 1] + [ts[|ts| - 1]];
      init + [Call(ts[|ts| - 1], if |ts| == 1 then capacity else Max(0, ts[|ts| - 1] - ts[|ts| - 2]))]
  }

  /** Greedy callers find the bucket empty behind them every time, so each is served in full. */
  lemma {:induction false} GreedySpendsEverything(ts: seq<int>, p: Policy)
    requires ts != [] && p.refill == 1000.0 && p.capacity >= ForwardOf(ts)
    ensures var calls := Greedy(ts, p.capacity);
            && Final(p, None, calls) == Some(Bucket(0.0, ts[|ts| - 1]))
            && Spent(p, None, calls) == p.capacity + ForwardOf(ts)
  {
    var calls, init := Greedy(ts, p.capacity), ts[..|ts| - 1];
    assert calls[..|calls| - 1] == Greedy(init, p.capacity);
    if init == [] {
      InflowAdds(p, 0, 0);
      assert Final(p, None, calls[..0]) == None;
    } else {
      GreedySpendsEverything(init, p);
      var step := Max(0, ts[|ts| - 1] - ts[|ts| - 2]);
      assert Inflow(p, step) == step as real;
    }
  }

  /** The rate bound is tight: for any readings whatever, some policy and some costs meet it exactly. */
  lemma RateBoundIsTight(ts: seq<int>) returns (p: Policy, calls: seq<Call>)
    requires ts != []
    ensures p.refill > 0.0 && Readings(calls) == ts
    ensures Spent(p, None, calls) as real == p.capacity as real + Inflow(p, ForwardTotal(p, None, calls))
  {
    p, calls := Roomy(ts), Greedy(ts, ForwardOf(ts));
    GreedySpendsEverything(ts, p);
    ForwardDependsOnReadings(p, calls);
    assert Inflow(p, ForwardOf(ts)) == ForwardOf(ts) as real;
  }

  /**
   The promised rate, capacity plus refill times elapsed, holds for every policy and whatever the callers
   ask for if and only if the readings the bucket is shown never move back.
   */
  lemma RateKeptExactlyOnOneClock(ts: seq<int>)
    requires ts != []
    ensures (forall p: Policy, calls: seq<Call> :: p.refill > 0.0 && Readings(calls) == ts ==> KeepsTheRate(p, calls))
            <==> Monotone(ts)
  {
    if Monotone(ts) {
      forall p: Policy, calls: seq<Call> | p.refill > 0.0 && Readings(calls) == ts ensures KeepsTheRate(p, calls) {
        RateBoundOnOneClock(p, calls);
      }
    } else {
      var p, calls := RateBoundIsTight(ts);
      ForwardDependsOnReadings(p, calls);
      ForwardCoversTheSpan(ts);
      assert calls[0].now == ts[0] && calls[|calls| - 1].now == ts[|ts| - 1];
      InflowStrict(p, ts[|ts| - 1] - ts[0], ForwardOf(ts));
      assert !KeepsTheRate(p, calls);
    }
  }

  lemma InflowStrict(p: Policy, a: int, b: int)
    requires p.refill > 0.0 && a < b
    ensures Inflow(p, a) < Inflow(p, b)
  {
    assert (b - a) as real / 1000.0 * p.refill > 0.0;
    InflowAdds(p, a, b - a);
  }

  /** Two callers, one a second ahead, taking turns `n` times. */
  function Turns(n: nat): seq<Call> { if n == 0 then [] else Turns(n - 1) + [Call(1000, 1), Call(0, 1)] }

  /**
   Skew is not a one-time burst: the stored time moves back with the slow caller, so every turn refills
   again. All clock readings stay within one second, and n of the 2n calls are admitted.
   */
  lemma {:induction false} SkewRefillsEveryTurn(n: nat)
    ensures var p := Policy(1, 1.0);
            && (forall c :: c in Turns(n) ==> 0 <= c.now <= 1000)
            && Spent(p, None, Turns(n)) == n
            && (n > 0 ==> Final(p, None, Turns(n)) == Some(Bucket(0.0, 0)))
  {
    if n > 0 {
      SkewRefillsEveryTurn(n - 1);
      var p, calls, a, b := Policy(1, 1.0), Turns(n - 1), Call(1000, 1), Call(0, 1);
      assert (calls + [a, b])[..|calls| + 1] == calls + [a];
      assert (calls + [a])[..|calls|] == calls;
      assert Inflow(p, 1000) == 1.0 && Inflow(p, 0) == 0.0;
      assert Final(p, None, calls + [a]) == Some(Bucket(0.0, 1000));
      assert Spent(p, None, calls + [a]) == n;
      assert !Allows(p, Final(p, None, calls + [a]), 0, 1);
    }
  }

  // ----- expiry --------------------------------------------------------------------------------

  /** Deleting a key that has outlived its time to live changes neither reply nor bucket. */
  lemma DeletionIsUnobservable(p: Policy, b: Bucket, now: int, cost: nat)
    requires p.refill > 0.0 && InRange(p, Some(b)) && now - b.ts >= Ttl(p)
    ensures After(p, None, now, cost) == After(p, Some(b), now, cost)
    ensures Answer(p, None, now, cost) == Answer(p, Some(b), now, cost)
  {
    var half := p.capacity as real / p.refill * 1000.0;
    assert half >= 0.0;
    CeilIsLeast(half * 2.0, Ttl(p));
    CeilIsLeast(half, Ttl(p));
    assert Wait(p, p.capacity as real) <= now - b.ts;
    WaitIsLeast(p, p.capacity as real, now - b.ts);
    InflowAdds(p, 0, 0);
    if now <= b.ts { InflowMonotone(p, now - b.ts, 0); }
    assert Level(p, None, now) == p.capacity as real == Level(p, Some(b), now);
  }

  /** `gone[k]`: the key was found deleted by the k-th call. */
  function FinalWithExpiry(p: Policy, calls: seq<Call>, gone: seq<bool>): Option<Bucket>
    requires |gone| == |calls|
  {
    if calls == [] then None
    else
      var k := |calls| - 1;
      var before := FinalWithExpiry(p, calls[..k], gone[..k]);
      Some(After(p, if gone[k] then None else before, calls[k].now, calls[k].cost))
  }

  /** Deletions happen no earlier than the time to live after the last write. */
  ghost predicate OnlyExpired(p: Policy, calls: seq<Call>, gone: seq<bool>)
    requires |gone| == |calls| && p.refill > 0.0
  {
    forall k | 0 < k < |calls| && gone[k] :: calls[k].now - calls[k - 1].now >= Ttl(p)
  }

  lemma {:induction false} ExpiryIsUnobservable(p: Policy, calls: seq<Call>, gone: seq<bool>)
    requires p.refill > 0.0 && |gone| == |calls| && OnlyExpired(p, calls, gone)
    ensures FinalWithExpiry(p, calls, gone) == Final(p, None, calls)
    ensures calls != [] ==>
              var k := |calls| - 1;
              var before := FinalWithExpiry(p, calls[..k], gone[..k]);
              Answer(p, if gone[k] then None else before, calls[k].now, calls[k].cost)
              == Answer(p, Final(p, None, calls[..k]), calls[k].now, calls[k].cost)
  {
    if calls != [] {
      var k := |calls| - 1;
      ExpiryIsUnobservable(p, calls[..k], gone[..k]);
      TokensAreConserved(p, None, calls[..k]);
      if gone[k] && k > 0 {
        var before := Final(p, None, calls[..k]);
        assert before.value.ts == calls[k - 1].now;
        DeletionIsUnobservable(p, before.value, calls[k].now, calls[k].cost);
      }
    }
  }

  /** The time to live is the least whole number of milliseconds in which the bucket could fill twice. */
  lemma TtlIsTwiceTheFill(p: Policy, ms: int)
    requires p.refill > 0.0
    ensures Ttl(p) <= ms <==> Inflow(p, ms) >= 2.0 * p.capacity as real
  {
    var fill := p.capacity as real / p.refill;
    assert 2.0 * p.capacity as real / p.refill == 2.0 * fill;
    WaitIsLeast(p, 2.0 * p.capacity as real, ms);
  }

  /** The count in the reply is what the bucket holds afterwards, in whole tokens. */
  lemma ReportedTokens(p: Policy, stored: Option<Bucket>, now: int, cost: nat)
    requires p.refill > 0.0
    ensures var left, told := After(p, stored, now, cost).tokens, Answer(p, stored, now, cost).tokens;
            told as real <= left < (told + 1) as real
  {
  }

  // ----- the retry hint ------------------------------------------------------------------------

  /**
   A denied call that could ever be served is told the least whole number of milliseconds after which
   the same call, alone, is admitted.
   */
  lemma RetryHintIsLeast(p: Policy, stored: Option<Bucket>, now: int, cost: nat, wait: nat)
    requires p.refill > 0.0 && InRange(p, stored) && cost <= p.capacity
    requires !Allows(p, stored, now, cost)
    ensures var retry := Answer(p, stored, now, cost).retryAfterMs;
            && retry > 0
            && (Allows(p, Some(After(p, stored, now, cost)), now + wait, cost) <==> wait >= retry)
  {
    var b := After(p, stored, now, cost);
    WaitIsLeast(p, cost as real - b.tokens, wait);
    WaitIsLeast(p, cost as real - b.tokens, 0);
    InflowAdds(p, 0, 0);
  }

  /** A call that costs more than the bucket holds is never admitted, however long it waits. */
  lemma TooDearIsNeverAdmitted(p: Policy, stored: Option<Bucket>, now: int, cost: nat)
    requires cost > p.capacity
    ensures !Allows(p, stored, now, cost)
  {
  }

  /** The header's whole seconds: rounded up, and at least one. */
  function RetryAfterSeconds(ms: int): int { Max(1, -(-ms / 1000)) }

  /** Rounding up is sufficient, least, and makes the floor of one redundant. */
  lemma SecondsHintIsLeast(p: Policy, stored: Option<Bucket>, now: int, cost: nat, seconds: nat)
    requires p.refill > 0.0 && InRange(p, stored) && cost <= p.capacity
    requires !Allows(p, stored, now, cost)
    ensures var ms := Answer(p, stored, now, cost).retryAfterMs;
            && RetryAfterSeconds(ms) == -(-ms / 1000)
            && (Allows(p, Some(After(p, stored, now, cost)), now + 1000 * seconds, cost)
                <==> seconds >= RetryAfterSeconds(ms))
  {
    RetryHintIsLeast(p, stored, now, cost, 1000 * seconds);
  }
}
