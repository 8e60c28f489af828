/**
 An accepted API cancel and the one way around it: `schedule_retry` has no status guard, so the
 claim that was live at the cancel can still put the row back to PENDING.
 */
module SagaCancel {
  import opened Prelude
  import opened Storage
  import opened Saga
  import opened SagaInvariant
  import SagaSafety

  /** At the i-th action of `after`, claim `t` takes `schedule_retry` and its guard matches. */
  ghost predicate RetriesAt(cfg: Config, s: State, after: seq<Action>, t: nat, i: nat) {
    && i < |after|
    && after[i].Retry? && after[i].t == t
    && Enabled(cfg, Run(cfg, s, after[..i]), after[i])
    && Holds(Run(cfg, s, after[..i]), t)
  }

  ghost predicate Retries(cfg: Config, s: State, after: seq<Action>, t: nat) {
    exists i: nat :: RetriesAt(cfg, s, after, t, i)
  }

  /** The cancel still stands: the row unwinds, and every claim newer than `t` was granted as an unwind. */
  ghost predicate Standing(s: State, t: nat) {
    && InUnwind(s.db.row.status)
    && t <= s.db.row.token
    && (t < s.db.row.token ==> Unwound(s))
  }

  lemma StandingStep(cfg: Config, s: State, t: nat, a: Action)
    requires Inv(cfg, s) && Standing(s, t)
    requires !(a.Retry? && a.t == t && Enabled(cfg, s, a) && Holds(s, t))
    ensures Standing(Next(cfg, s, a), t)
  {
    NextInv(cfg, s, a);
    if Enabled(cfg, s, a) && OfClaim(a) {
      IdentityKept(cfg, s.now, s.db, a.t, s.sessions[a.t], a);
      if a.t != s.db.row.token { StaleKeeps(cfg, s, a); } else { HolderOutcome(cfg, s, a); }
    }
  }

  lemma RetriesMonotone(cfg: Config, s: State, after: seq<Action>, a: Action, t: nat)
    requires Retries(cfg, s, after, t)
    ensures Retries(cfg, s, after + [a], t)
  {
    var i: nat :| RetriesAt(cfg, s, after, t, i);
    assert (after + [a])[..i] == after[..i];
    assert RetriesAt(cfg, s, after + [a], t, i);
  }

  lemma {:induction false} StandingRun(cfg: Config, s: State, t: nat, after: seq<Action>)
    requires Inv(cfg, s) && Standing(s, t)
    ensures Retries(cfg, s, after, t) || Standing(Run(cfg, s, after), t)
  {
    if after != [] {
      var front, a := after[..|after| - 1], after[|after| - 1];
      assert after == front + [a];
      StandingRun(cfg, s, t, front);
      RunInv(cfg, s, front);
      if Retries(cfg, s, front, t) {
        RetriesMonotone(cfg, s, front, a, t);
      } else if a.Retry? && a.t == t && Enabled(cfg, Run(cfg, s, front), a) && Holds(Run(cfg, s, front), t) {
        assert RetriesAt(cfg, s, after, t, |front|);
      } else {
        StandingStep(cfg, Run(cfg, s, front), t, a);
      }
    }
  }

  /** A retry leaves the unwind. */
  lemma RetryLeaves(cfg: Config, s: State, after: seq<Action>, t: nat, i: nat)
    requires RetriesAt(cfg, s, after, t, i)
    ensures !InUnwind(Run(cfg, s, after[..i + 1]).db.row.status)
  {
    assert after[..i + 1][..i] == after[..i];
  }

  /** Leaving the unwind takes a retry. */
  lemma LeavingRetries(cfg: Config, s: State, after: seq<Action>, t: nat, i: nat)
    requires Inv(cfg, s) && Standing(s, t)
    requires i <= |after| && !InUnwind(Run(cfg, s, after[..i]).db.row.status)
    ensures Retries(cfg, s, after, t)
  {
    StandingRun(cfg, s, t, after[..i]);
    var k: nat :| RetriesAt(cfg, s, after[..i], t, k);
    assert after[..i][..k] == after[..k];
    assert RetriesAt(cfg, s, after, t, k);
  }

  /** The API's statement is accepted exactly for a PENDING or RUNNING row, and then does what its SQL says. */
  lemma CancelAcceptedExactlyWhen(cfg: Config, s: State)
    ensures Enabled(cfg, s, CancelRequest) <==> s.db.row.status in {Pending, Running}
    ensures Enabled(cfg, s, CancelRequest) ==>
              && Next(cfg, s, CancelRequest).db == Cancel(s.db, s.now).0 && Cancel(s.db, s.now).1
              && Next(cfg, s, CancelRequest).sessions == s.sessions
              && Next(cfg, s, CancelRequest).db.row.owner == s.db.row.owner
  {
  }

  /** An accepted cancel puts the row in the unwind. */
  lemma CancelStands(cfg: Config, s: State)
    requires Inv(cfg, s) && Enabled(cfg, s, CancelRequest)
    ensures Standing(Next(cfg, s, CancelRequest), s.db.row.token)
    ensures Next(cfg, s, CancelRequest).db.row.token == s.db.row.token
  {
  }

  /**
   The only escape. After an accepted cancel the row leaves the unwind at some later point exactly
   when the claim that was newest at the cancel later takes `schedule_retry` while still holding it.
   */
  lemma CancelEscapesOnlyByRetry(cfg: Config, now: int, before: seq<Action>, after: seq<Action>)
    requires Enabled(cfg, Run(cfg, Init(now), before), CancelRequest)
    ensures var s := Next(cfg, Run(cfg, Init(now), before), CancelRequest);
            Retries(cfg, s, after, s.db.row.token) <==>
            exists i: nat :: i <= |after| && !InUnwind(Run(cfg, s, after[..i]).db.row.status)
  {
    InitInv(cfg, now);
    RunInv(cfg, Init(now), before);
    CancelStands(cfg, Run(cfg, Init(now), before));
    NextInv(cfg, Run(cfg, Init(now), before), CancelRequest);
    var s := Next(cfg, Run(cfg, Init(now), before), CancelRequest);
    EscapeIff(cfg, s, s.db.row.token, after);
  }

  lemma EscapeIff(cfg: Config, s: State, t: nat, after: seq<Action>)
    requires Inv(cfg, s) && Standing(s, t)
    ensures Retries(cfg, s, after, t) <==>
            exists i: nat :: i <= |after| && !InUnwind(Run(cfg, s, after[..i]).db.row.status)
  {
    if Retries(cfg, s, after, t) {
      var i: nat :| RetriesAt(cfg, s, after, t, i);
      RetryLeaves(cfg, s, after, t, i);
      var k := i + 1;
      assert k <= |after| && !InUnwind(Run(cfg, s, after[..k]).db.row.status);
    }
    if k: nat :| k <= |after| && !InUnwind(Run(cfg, s, after[..k]).db.row.status) {
      LeavingRetries(cfg, s, after, t, k);
    }
  }

  /** So a cancelled saga that never retries that way can only end COMPENSATED or FAILED_DIRTY. */
  lemma CancelledEndsUnwound(cfg: Config, now: int, before: seq<Action>, after: seq<Action>)
    requires Enabled(cfg, Run(cfg, Init(now), before), CancelRequest)
    requires var s := Next(cfg, Run(cfg, Init(now), before), CancelRequest);
             !Retries(cfg, s, after, s.db.row.token) && Terminal(Run(cfg, s, after).db.row.status)
    ensures var s := Next(cfg, Run(cfg, Init(now), before), CancelRequest);
            Run(cfg, s, after).db.row.status in {Compensated, FailedDirty}
  {
    CancelEscapesOnlyByRetry(cfg, now, before, after);
    assert after[..|after|] == after;
  }

  // ----- when the escape is open ---------------------------------------------------------------

  /** Some step from i on is not among the checkpoints. */
  predicate Missing(cfg: Config, m: map<nat, Value>, i: nat) {
    exists j :: i <= j <= Count(cfg) && j !in m
  }

  /** The worker of a forward claim can still come to fail retryably, with an attempt left. */
  predicate CanRetry(cfg: Config, forward: map<nat, Value>, x: Session) {
    match x.pc
    case Failing(retry) => retry
    case AtLoad => x.attempt < cfg.maxAttempts && !x.unwinding && Missing(cfg, forward, 1)
    case AtStep(i) => x.attempt < cfg.maxAttempts && (x.started || Missing(cfg, x.completed, i))
    case InStep(_) => x.attempt < cfg.maxAttempts
    case Ran(_, _) => x.attempt < cfg.maxAttempts
    case _ => false
  }

  /** What the position of any worker, stale or not, says about its history. */
  predicate Consistent(cfg: Config, x: Session) {
    && (x.pc.InStep? || x.pc.Ran? ==> x.started)
    && (x.pc == Failing(true) ==> x.attempt < cfg.maxAttempts)
    && (x.pc.AtLoad? ==> !x.started)
  }

  ghost predicate AllConsistent(cfg: Config, s: State) {
    forall t :: t in s.sessions ==> Consistent(cfg, s.sessions[t])
  }

  lemma ConsistentAct(cfg: Config, now: int, db: Db, t: nat, x: Session, a: Action)
    requires OfClaim(a) && Ready(cfg, x, a) && Consistent(cfg, x)
    ensures Consistent(cfg, Act(cfg, now, db, t, x, a).1)
  {
  }

  lemma {:induction false} ConsistentRun(cfg: Config, now: int, acts: seq<Action>)
    ensures AllConsistent(cfg, Run(cfg, Init(now), acts))
  {
    if acts != [] {
      var front, a := acts[..|acts| - 1], acts[|acts| - 1];
      ConsistentRun(cfg, now, front);
      ConsistentNext(cfg, Run(cfg, Init(now), front), a);
    }
  }

  lemma ConsistentNext(cfg: Config, s: State, a: Action)
    requires AllConsistent(cfg, s)
    ensures AllConsistent(cfg, Next(cfg, s, a))
  {
    if Enabled(cfg, s, a) && OfClaim(a) { ConsistentAct(cfg, s.now, s.db, a.t, s.sessions[a.t], a); }
  }

  /** The claim holds the row and its worker can still retry. */
  predicate Open(cfg: Config, s: State, t: nat) {
    t in s.sessions && Holds(s, t) && CanRetry(cfg, s.db.forward, s.sessions[t])
  }

  lemma ClosedAct(cfg: Config, now: int, db: Db, t: nat, x: Session, a: Action)
    requires OfClaim(a) && Ready(cfg, x, a) && Consistent(cfg, x) && !CanRetry(cfg, db.forward, x)
    ensures var (db', x') := Act(cfg, now, db, t, x, a); !CanRetry(cfg, db'.forward, x')
  {
    if a.Replay? { assert Missing(cfg, x.completed, x.pc.i + 1) ==> Missing(cfg, x.completed, x.pc.i); }
    if a.Begin? { assert Missing(cfg, x.completed, a.i); }
    if a.Raise? && a.retryable && x.pc.AtStep? && !x.started { assert Missing(cfg, x.completed, x.pc.i); }
  }

  /** Once closed, the escape never opens again. */
  lemma ClosedStep(cfg: Config, s: State, t: nat, a: Action)
    requires Inv(cfg, s) && AllConsistent(cfg, s) && t in s.sessions && !Open(cfg, s, t)
    ensures t in Next(cfg, s, a).sessions && !Open(cfg, Next(cfg, s, a), t)
  {
    if !Holds(s, t) {
      SagaSafety.LostStep(cfg, s, t, a);
    } else if Enabled(cfg, s, a) && OfClaim(a) {
      if a.t == t { ClosedAct(cfg, s.now, s.db, t, s.sessions[t], a); } else { StaleKeeps(cfg, s, a); }
    }
  }

  lemma {:induction false} ClosedRun(cfg: Config, s: State, t: nat, after: seq<Action>)
    requires Inv(cfg, s) && AllConsistent(cfg, s) && t in s.sessions && !Open(cfg, s, t)
    ensures var s' := Run(cfg, s, after); t in s'.sessions && !Open(cfg, s', t) && AllConsistent(cfg, s')
  {
    if after != [] {
      var front, a := after[..|after| - 1], after[|after| - 1];
      ClosedRun(cfg, s, t, front);
      RunInv(cfg, s, front);
      ClosedStep(cfg, Run(cfg, s, front), t, a);
      ConsistentNext(cfg, Run(cfg, s, front), a);
    }
  }

  /** How far the worker is from its retry. */
  function Distance(cfg: Config, pc: Pc): nat {
    match pc
    case AtLoad => Count(cfg) + 4
    case AtStep(i) => if i <= Count(cfg) + 1 then Count(cfg) + 3 - i else 2
    case Failing(_) => 0
    case _ => 1
  }

  /** Its next step towards it. */
  function Towards(t: nat, x: Session): Action {
    if x.pc.AtLoad? then Load(t)
    else if x.pc.AtStep? && !x.started && x.pc.i in x.completed then Replay(t)
    else Raise(t, true)
  }

  lemma StepTowards(cfg: Config, s: State, t: nat)
    requires Inv(cfg, s) && AllConsistent(cfg, s) && Open(cfg, s, t) && !s.sessions[t].pc.Failing?
    ensures var a := Towards(t, s.sessions[t]);
            var s' := Next(cfg, s, a);
            && Enabled(cfg, s, a) && Open(cfg, s', t)
            && Distance(cfg, s'.sessions[t].pc) < Distance(cfg, s.sessions[t].pc)
  {
    var x := s.sessions[t];
    if x.pc.AtStep? && !x.started && x.pc.i in x.completed {
      var j :| x.pc.i <= j <= Count(cfg) && j !in x.completed;
      assert x.pc.i + 1 <= j;
      assert Missing(cfg, x.completed, x.pc.i + 1);
    }
  }

  /** An open escape can be taken: load and replay what is left to, fail retryably, retry. */
  lemma {:induction false} Escape(cfg: Config, s: State, t: nat) returns (after: seq<Action>)
    requires Inv(cfg, s) && AllConsistent(cfg, s) && Open(cfg, s, t)
    ensures Retries(cfg, s, after, t)
    decreases Distance(cfg, s.sessions[t].pc)
  {
    if s.sessions[t].pc.Failing? {
      after := [Retry(t, 0)];
      assert after[..0] == [];
      assert RetriesAt(cfg, s, after, t, 0);
    } else {
      var a := Towards(t, s.sessions[t]);
      StepTowards(cfg, s, t);
      NextInv(cfg, s, a);
      ConsistentNext(cfg, s, a);
      var rest := Escape(cfg, Next(cfg, s, a), t);
      after := [a] + rest;
      RetriesLater(cfg, s, a, rest, t);
    }
  }

  lemma RetriesLater(cfg: Config, s: State, a: Action, rest: seq<Action>, t: nat)
    requires Retries(cfg, Next(cfg, s, a), rest, t)
    ensures Retries(cfg, s, [a] + rest, t)
  {
    var i: nat :| RetriesAt(cfg, Next(cfg, s, a), rest, t, i);
    assert [a][..0] == [];
    assert Run(cfg, s, [a]) == Next(cfg, s, a);
    RunConcat(cfg, s, [a], rest[..i]);
    assert ([a] + rest)[..i + 1] == [a] + rest[..i];
    assert RetriesAt(cfg, s, [a] + rest, t, i + 1);
  }

  /**
   The state at the cancel decides: some continuation leaves the unwind if and only if the newest claim
   still holds the row, has an attempt left, and its worker is where it can still fail retryably.
   */
  lemma EscapeOpenExactlyWhen(cfg: Config, now: int, before: seq<Action>)
    requires Enabled(cfg, Run(cfg, Init(now), before), CancelRequest)
    ensures var s0 := Run(cfg, Init(now), before);
            var s := Next(cfg, s0, CancelRequest);
            (exists after: seq<Action> :: !InUnwind(Run(cfg, s, after).db.row.status))
            <==> Open(cfg, s0, s0.db.row.token)
  {
    var s0 := Run(cfg, Init(now), before);
    var s, t := Next(cfg, s0, CancelRequest), s0.db.row.token;
    InitInv(cfg, now);
    RunInv(cfg, Init(now), before);
    ConsistentRun(cfg, now, before);
    CancelStands(cfg, s0);
    NextInv(cfg, s0, CancelRequest);
    ConsistentNext(cfg, s0, CancelRequest);
    OpenAcrossCancel(cfg, s0);
    OpenAfterCancel(cfg, s, t);
  }

  /** The same from the cancelled state on. */
  lemma OpenAfterCancel(cfg: Config, s: State, t: nat)
    requires Inv(cfg, s) && AllConsistent(cfg, s) && Standing(s, t) && t == s.db.row.token
    ensures (exists after: seq<Action> :: !InUnwind(Run(cfg, s, after).db.row.status)) <==> Open(cfg, s, t)
  {
    if Open(cfg, s, t) {
      var after := Escape(cfg, s, t);
      EscapeIff(cfg, s, t, after);
      var i: nat :| i <= |after| && !InUnwind(Run(cfg, s, after[..i]).db.row.status);
      assert !InUnwind(Run(cfg, s, after[..i]).db.row.status);
    } else {
      forall after: seq<Action> ensures InUnwind(Run(cfg, s, after).db.row.status) {
        NoEscape(cfg, s, t, after);
      }
    }
  }

  lemma OpenAcrossCancel(cfg: Config, s: State)
    requires Enabled(cfg, s, CancelRequest)
    ensures Open(cfg, Next(cfg, s, CancelRequest), s.db.row.token) <==> Open(cfg, s, s.db.row.token)
  {
  }

  lemma NoEscape(cfg: Config, s: State, t: nat, after: seq<Action>)
    requires Inv(cfg, s) && AllConsistent(cfg, s) && Standing(s, t) && t == s.db.row.token && !Open(cfg, s, t)
    ensures InUnwind(Run(cfg, s, after).db.row.status)
  {
    StandingRun(cfg, s, t, after);
    forall i: nat ensures !RetriesAt(cfg, s, after, t, i) {
      if i < |after| {
        RunInv(cfg, s, after[..i]);
        if t in s.sessions { ClosedRun(cfg, s, t, after[..i]); }
      }
    }
  }

  /** So a caller can tell: cancelling a row that nobody owns, or on its last attempt, is final. */
  lemma CancelIsFinal(cfg: Config, now: int, before: seq<Action>, after: seq<Action>)
    requires var s0 := Run(cfg, Init(now), before);
             && Enabled(cfg, s0, CancelRequest)
             && (s0.db.row.owner == None || s0.db.row.attempt >= cfg.maxAttempts)
    ensures InUnwind(Run(cfg, Next(cfg, Run(cfg, Init(now), before), CancelRequest), after).db.row.status)
  {
    var s0 := Run(cfg, Init(now), before);
    InitInv(cfg, now);
    RunInv(cfg, Init(now), before);
    ConsistentRun(cfg, now, before);
    EscapeOpenExactlyWhen(cfg, now, before);
    assert !Open(cfg, s0, s0.db.row.token);
  }
}
