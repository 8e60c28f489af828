/**
 Concrete runs that mark where the guarantees end.
 */
module SagaWitness {
  import opened Storage
  import opened Saga

  lemma Run2(cfg: Config, s: State, a: Action, b: Action)
    ensures Run(cfg, s, [a, b]) == Next(cfg, Next(cfg, s, a), b)
  {
    assert [a, b][..1] == [a];
    assert [a][..0] == [];
    assert Run(cfg, s, [a]) == Next(cfg, s, a);
  }

  lemma Run3(cfg: Config, s: State, a: Action, b: Action, c: Action)
    ensures Run(cfg, s, [a, b, c]) == Next(cfg, Next(cfg, Next(cfg, s, a), b), c)
  {
    assert [a, b, c][..2] == [a, b];
    Run2(cfg, s, a, b);
  }

  function Worker(attempt: nat, pc: Pc, outputs: map<nat, Value>): Session {
    Session("w", false, attempt, pc, map[], {}, outputs, [], true, false)
  }

  /** Claim, load, begin step 1. */
  lemma Started(cfg: Config, s: State, t: nat)
    requires Count(cfg) >= 1 && Claimable(s.db.row, s.now) && s.db.row.status != Compensating
    requires t == s.db.row.token + 1 && s.db.forward == map[]
    ensures Run(cfg, s, [Claim("w", 30), Load(t), Begin(t, 1)])
            == s.(db := s.db.(row := ClaimRow(s.db.row, "w", s.now + 30)),
                  sessions := s.sessions[t := Worker(s.db.row.attempt + 1, InStep(1), map[])])
  {
    Run3(cfg, s, Claim("w", 30), Load(t), Begin(t, 1));
    var s1 := Next(cfg, s, Claim("w", 30));
    var s2 := Next(cfg, s1, Load(t));
    assert s2.sessions[t].pc == AtStep(1);
  }

  /** Step 1 returns and is checkpointed. */
  lemma Checkpointed(cfg: Config, s: State, t: nat, attempt: nat)
    requires Count(cfg) == 1 && t in s.sessions && s.sessions[t] == Worker(attempt, InStep(1), map[])
    requires Holds(s, t) && s.db.forward == map[]
    ensures Run(cfg, s, [Return(t, "ok"), Commit(t)])
            == s.(db := s.db.(forward := map[1 := "ok"]),
                  sessions := s.sessions[t := Worker(attempt, AtStep(2), map[1 := "ok"])])
  {
    Run2(cfg, s, Return(t, "ok"), Commit(t));
    var s1 := Next(cfg, s, Return(t, "ok"));
    assert s1.sessions[t] == Worker(attempt, Ran(1, "ok"), map[]);
    assert s.db.outbox + [] == s.db.outbox;
  }

  lemma Chain(cfg: Config, s: State, a: seq<Action>, s1: State, b: seq<Action>, s2: State)
    requires Run(cfg, s, a) == s1 && Run(cfg, s1, b) == s2
    ensures Run(cfg, s, a + b) == s2
  {
    RunConcat(cfg, s, a, b);
  }

  /** A forward claim that fails retryably after an API cancel puts the saga back in the queue. */
  lemma RetriedAfterCancel(cfg: Config, s: State, t: nat)
    requires t in s.sessions && s.sessions[t] == Worker(t, InStep(1), map[]) && Holds(s, t)
    requires t < cfg.maxAttempts && s.db.row.status == Running && s.db.row.fault == NoFault
    ensures Enabled(cfg, s, CancelRequest)
    ensures Run(cfg, Next(cfg, s, CancelRequest), [Raise(t, true), Retry(t, 0)])
            == s.(db := s.db.(row := Released(s.db.row, Pending).(runAfter := s.now, fault := StepFault)),
                  sessions := s.sessions[t := Worker(t, Over, map[])])
  {
    var c := Next(cfg, s, CancelRequest);
    Run2(cfg, c, Raise(t, true), Retry(t, 0));
    var s1 := Next(cfg, c, Raise(t, true));
    assert s1.sessions[t] == Worker(t, Failing(true), map[]);
    assert s1.db == c.db;
  }

  /** The cancel escape: a cancelled saga that its retry carries all the way to SUCCESS. */
  lemma CancelledSagaCanSucceed() returns (cfg: Config, before: seq<Action>, after: seq<Action>)
    ensures var s := Run(cfg, Init(0), before);
            && Enabled(cfg, s, CancelRequest)
            && Run(cfg, Next(cfg, s, CancelRequest), after).db.row.status == Success
  {
    cfg := Config([true], 2, 3);
    before := [Claim("w", 30), Load(1), Begin(1, 1)];
    Started(cfg, Init(0), 1);
    var s := Run(cfg, Init(0), before);
    RetriedAfterCancel(cfg, s, 1);
    var c := Next(cfg, s, CancelRequest);
    var r := [Raise(1, true), Retry(1, 0)];
    var s1 := Run(cfg, c, r);
    var b := [Claim("w", 30), Load(2), Begin(2, 1)];
    Started(cfg, s1, 2);
    var s2 := Run(cfg, s1, b);
    var k := [Return(2, "ok"), Commit(2)];
    Checkpointed(cfg, s2, 2, 2);
    var s3 := Run(cfg, s2, k);
    var s4 := Next(cfg, s3, Finish(2));
    FinishSucceeds(cfg, s3, 2);
    Chain(cfg, c, r, s1, b, s2);
    Chain(cfg, c, r + b, s2, k, s3);
    assert [Finish(2)][..0] == [];
    Chain(cfg, c, r + b + k, s3, [Finish(2)], s4);
    after := r + b + k + [Finish(2)];
  }

  lemma FinishSucceeds(cfg: Config, s: State, t: nat)
    requires Count(cfg) == 1 && Holds(s, t) && s.db.row.status == Running && s.sessions[t].pc == AtStep(2)
    ensures Run(cfg, s, [Finish(t)]).db.row.status == Success
  {
    assert [Finish(t)][..0] == [];
  }

  /** A claim that has loaded and then stalls past its lease. */
  lemma Stalled(cfg: Config, s: State, t: nat)
    requires Count(cfg) == 1 && Claimable(s.db.row, s.now) && s.db.row.status != Compensating
    requires t == s.db.row.token + 1 && s.db.forward == map[]
    ensures Run(cfg, s, [Claim("stalled", 30), Load(t), Tick(31)])
            == State(s.now + 31, s.db.(row := ClaimRow(s.db.row, "stalled", s.now + 30)),
                     s.sessions[t := Session("stalled", false, s.db.row.attempt + 1, AtStep(1),
                                             map[], {}, map[], [], false, false)])
  {
    Run3(cfg, s, Claim("stalled", 30), Load(t), Tick(31));
    var s1 := Next(cfg, s, Claim("stalled", 30));
    var s2 := Next(cfg, s1, Load(t));
    assert s2.sessions[t].pc == AtStep(1);
  }

  function Idle(attempt: nat, pc: Pc): Session {
    Session("w", true, attempt, pc, map[], {}, map[], [], false, false)
  }

  /** An unwinding claim that finds nothing committed. */
  lemma UnwindLoaded(cfg: Config, s: State, u: nat)
    requires Claimable(s.db.row, s.now) && s.db.row.status == Compensating
    requires u == s.db.row.token + 1 && s.db.forward == map[] && s.db.undone == {}
    ensures Run(cfg, s, [Claim("w", 30), Load(u)])
            == s.(db := s.db.(row := ClaimRow(s.db.row, "w", s.now + 30)),
                  sessions := s.sessions[u := Idle(s.db.row.attempt + 1, AtUndo(Count(cfg)))])
  {
    Run2(cfg, s, Claim("w", 30), Load(u));
  }

  lemma UnwindFinished(cfg: Config, s: State, u: nat, attempt: nat)
    requires u in s.sessions && s.sessions[u] == Idle(attempt, AtUndo(2))
    requires Holds(s, u) && s.db.row.status == Compensating
    ensures Run(cfg, s, [Pass(u), Pass(u), FinishUndone(u)])
            == s.(db := s.db.(row := Released(s.db.row, Compensated)), sessions := s.sessions[u := Idle(attempt, Over)])
  {
    Run3(cfg, s, Pass(u), Pass(u), FinishUndone(u));
    Passed(cfg, s, u, attempt, 2);
    Passed(cfg, Next(cfg, s, Pass(u)), u, attempt, 1);
  }

  lemma Passed(cfg: Config, s: State, u: nat, attempt: nat, j: nat)
    requires u in s.sessions && s.sessions[u] == Idle(attempt, AtUndo(j)) && j > 0
    ensures Next(cfg, s, Pass(u)) == s.(sessions := s.sessions[u := Idle(attempt, AtUndo(j - 1))])
  {
  }

  /** Unwinding a two-step saga with nothing committed ends COMPENSATED and disturbs nobody. */
  lemma UnwoundEmpty(cfg: Config, s: State, u: nat)
    requires Count(cfg) == 2 && Claimable(s.db.row, s.now) && s.db.row.status == Compensating
    requires u == s.db.row.token + 1 && s.db.forward == map[] && s.db.undone == {}
    ensures var s' := Run(cfg, s, [Claim("w", 30), Load(u)] + [Pass(u), Pass(u), FinishUndone(u)]);
            && s'.db.row.status == Compensated
            && forall t :: t in s.sessions && t != u ==> t in s'.sessions && s'.sessions[t] == s.sessions[t]
  {
    UnwindLoaded(cfg, s, u);
    UnwindFinished(cfg, Run(cfg, s, [Claim("w", 30), Load(u)]), u, s.db.row.attempt + 1);
    RunConcat(cfg, s, [Claim("w", 30), Load(u)], [Pass(u), Pass(u), FinishUndone(u)]);
  }

  /** A forward claim fails for good and hands the saga to the unwind. */
  lemma GivenUp(cfg: Config, s: State, t: nat)
    requires t in s.sessions && s.sessions[t] == Worker(t, InStep(1), map[]) && Holds(s, t)
    ensures Run(cfg, s, [Raise(t, false), Compensate(t)])
            == s.(db := s.db.(row := Released(s.db.row, Compensating).(runAfter := s.now, fault := StepFault)),
                  sessions := s.sessions[t := Worker(t, Over, map[])])
  {
    Run2(cfg, s, Raise(t, false), Compensate(t));
    var s1 := Next(cfg, s, Raise(t, false));
    assert s1.sessions[t] == Worker(t, Failing(false), map[]);
  }

  /** A stalled worker can still invoke a step that is already checkpointed; only its writes are fenced. */
  lemma StaleWorkerCanReinvoke() returns (cfg: Config, acts: seq<Action>, t: nat, i: nat)
    ensures var s := Run(cfg, Init(0), acts);
            && i in s.db.forward && Enabled(cfg, s, Begin(t, i)) && !Holds(s, t)
  {
    cfg, t, i := Config([true], 2, 3), 1, 1;
    var a := [Claim("stalled", 30), Load(1), Tick(31)];
    Stalled(cfg, Init(0), 1);
    var s1 := Run(cfg, Init(0), a);
    var b := [Claim("w", 30), Load(2), Begin(2, 1)];
    Started(cfg, s1, 2);
    var s2 := Run(cfg, s1, b);
    var k := [Return(2, "ok"), Commit(2)];
    Checkpointed(cfg, s2, 2, 2);
    var s3 := Run(cfg, s2, k);
    Chain(cfg, Init(0), a, s1, b, s2);
    Chain(cfg, Init(0), a + b, s2, k, s3);
    acts := a + b + k;
  }
}
