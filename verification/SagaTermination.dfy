/**
 Fault-free runs end, and how much work they do. Fault-free means: no crash, no API cancel, no claim
 taken over from an expired lease, no database error, every type registered. Steps and compensations
 may still fail, as often as they like.
 */
module SagaTermination {
  import opened Prelude
  import opened Storage
  import opened Saga
  import opened SagaInvariant

  predicate Calm(s: State, a: Action) {
    match a
    case CancelRequest => false
    case Drop(_) => false
    case Defer(_, _) => false
    case Claim(_, _) => s.db.row.owner == None
    case Raise(t, _) => t in s.sessions && (s.sessions[t].pc.InStep? || s.sessions[t].pc.Ran?)
    case _ => true
  }

  ghost predicate CalmRun(cfg: Config, s: State, acts: seq<Action>) {
    acts != [] ==>
      var before := Run(cfg, s, acts[..|acts| - 1]);
      CalmRun(cfg, s, acts[..|acts| - 1]) && Enabled(cfg, before, acts[|acts| - 1]) && Calm(before, acts[|acts| - 1])
  }

  /** Forward claims fit the budget; the unwind takes one more. */
  predicate Budget(cfg: Config, s: State) {
    var row := s.db.row;
    match row.status
    case Pending => row.owner == None && !Unwound(s) && row.token < cfg.maxAttempts
    case Running => row.owner.Some? && !Unwound(s) && 1 <= row.token <= cfg.maxAttempts
    case Compensating =>
      if Unwound(s) then row.owner.Some? && row.token <= cfg.maxAttempts + 1
      else row.owner == None && 1 <= row.token <= cfg.maxAttempts
    case Success => 1 <= row.token <= cfg.maxAttempts
    case _ => row.token <= cfg.maxAttempts + 1
  }

  /** Only the owner is active, and it knows it is. */
  ghost predicate Quiet(cfg: Config, s: State) {
    && Budget(cfg, s)
    && (forall t :: t in s.sessions && t != s.db.row.token ==> s.sessions[t].pc.Over?)
    && (s.db.row.token in s.sessions ==>
          var x := s.sessions[s.db.row.token];
          && (x.pc.Over? <==> s.db.row.owner == None)
          && !x.lost
          && (x.pc == Failing(true) ==> x.attempt < cfg.maxAttempts))
  }

  lemma QuietClaim(cfg: Config, s: State, a: Action)
    requires Inv(cfg, s) && Quiet(cfg, s) && a.Claim? && Enabled(cfg, s, a) && Calm(s, a)
    ensures Quiet(cfg, Next(cfg, s, a))
  {
  }

  lemma QuietWorker(cfg: Config, s: State, a: Action)
    requires Inv(cfg, s) && Quiet(cfg, s) && OfClaim(a) && Enabled(cfg, s, a) && Calm(s, a)
    ensures a.t == s.db.row.token && Holds(s, a.t)
    ensures Quiet(cfg, Next(cfg, s, a))
  {
    var x := s.sessions[a.t];
    IdentityKept(cfg, s.now, s.db, a.t, x, a);
    if a.Commit? {
      CommitKeeps(cfg, s.now, s.db, a.t, x, a);
    } else if a.CommitUndone? {
      CommitUndoneKeeps(cfg, s.now, s.db, a.t, x, a);
    } else {
      QuietOther(cfg, s.now, s.db, a.t, x, a);
    }
  }

  /** Where a holder that neither crashes nor commits goes. */
  lemma QuietOther(cfg: Config, now: int, db: Db, t: nat, x: Session, a: Action)
    requires OfClaim(a) && Ready(cfg, x, a) && !a.Commit? && !a.CommitUndone? && !a.Drop? && !a.Defer?
    requires Held(db.row, Own(t, x)) && HolderOk(cfg, db, x)
    requires x.unwinding ==> db.row.status == Compensating
    requires !x.unwinding ==> db.row.status == Running
    requires !x.lost && !x.pc.Over? && (x.pc == Failing(true) ==> x.attempt < cfg.maxAttempts)
    ensures var (db', x') := Act(cfg, now, db, t, x, a);
            && !x'.lost && db'.row.token == db.row.token
            && (x'.pc.Over? <==> db'.row.owner == None)
            && (!x'.pc.Over? ==> db'.row.owner == db.row.owner && db'.row.status == db.row.status)
            && (x'.pc == Failing(true) ==> x'.attempt < cfg.maxAttempts)
            && (x'.pc.Over? ==> if x.unwinding then db'.row.status == Compensated || db'.row.status == FailedDirty
                                else db'.row.status == Success || db'.row.status == Compensating
                                     || (db'.row.status == Pending && x.attempt < cfg.maxAttempts))
  {
  }

  lemma QuietStep(cfg: Config, s: State, a: Action)
    requires Inv(cfg, s) && Quiet(cfg, s) && Enabled(cfg, s, a) && Calm(s, a)
    ensures Quiet(cfg, Next(cfg, s, a))
  {
    if a.Claim? { QuietClaim(cfg, s, a); } else if OfClaim(a) { QuietWorker(cfg, s, a); }
  }

  lemma {:induction false} QuietRun(cfg: Config, now: int, acts: seq<Action>)
    requires CalmRun(cfg, Init(now), acts) && cfg.maxAttempts > 0
    ensures Inv(cfg, Run(cfg, Init(now), acts)) && Quiet(cfg, Run(cfg, Init(now), acts))
  {
    InitInv(cfg, now);
    RunInv(cfg, Init(now), acts);
    if acts != [] {
      QuietRun(cfg, now, acts[..|acts| - 1]);
      QuietStep(cfg, Run(cfg, Init(now), acts[..|acts| - 1]), acts[|acts| - 1]);
    }
  }

  // ----- the measure ---------------------------------------------------------------------------

  /** Everything but the passing of time, a step's emissions and lease renewals. */
  predicate Progress(a: Action) { !a.Tick? && !a.Emit? && !a.Renew? }

  function PerUndo(cfg: Config): nat { cfg.undoAttempts + 5 }

  function UndoWork(cfg: Config): nat { Count(cfg) * PerUndo(cfg) + 3 }

  function PassWork(cfg: Config): nat { 4 * Count(cfg) + 8 }

  function Minus(a: nat, b: nat): nat { if a < b then 0 else a - b }

  function Left(cfg: Config, pc: Pc, unwinding: bool): nat {
    match pc
    case AtLoad => if unwinding then UndoWork(cfg) - 1 else PassWork(cfg)
    case AtStep(i) => 4 * Minus(Count(cfg) + 1, i) + 3
    case InStep(i) => 4 * Minus(Count(cfg) + 1, i) + 2
    case Ran(i, _) => 4 * Minus(Count(cfg) + 1, i) + 1
    case Failing(_) => 2
    case AtUndo(j) => j * PerUndo(cfg) + 1
    case InUndo(j, tries) => Minus(j, 1) * PerUndo(cfg) + 4 + Minus(cfg.undoAttempts, tries)
    case Undid(j) => Minus(j, 1) * PerUndo(cfg) + 3
    case Stuck(j) => Minus(j, 1) * PerUndo(cfg) + 2
    case Over => 0
  }

  /** An upper bound on the progress still to be made. */
  function Measure(cfg: Config, s: State): nat {
    var row := s.db.row;
    if Terminal(row.status) then 0
    else if row.token in s.sessions && row.owner.Some? then
      var x := s.sessions[row.token];
      if x.unwinding then Left(cfg, x.pc, true)
      else Minus(cfg.maxAttempts, row.token) * (PassWork(cfg) + 1) + UndoWork(cfg) + Left(cfg, x.pc, false)
    else if row.status == Compensating then UndoWork(cfg)
    else Minus(cfg.maxAttempts, row.token) * (PassWork(cfg) + 1) + UndoWork(cfg)
  }

  lemma TimesMinus(a: nat, k: nat)
    requires a > 0
    ensures a * k == (a - 1) * k + k
  {
  }

  /** A holder's local step, or its commit, moves it closer to the end. */
  lemma LeftFalls(cfg: Config, now: int, db: Db, t: nat, x: Session, a: Action)
    requires OfClaim(a) && Ready(cfg, x, a) && Progress(a) && !a.Drop? && !a.Defer?
    requires a.Raise? ==> x.pc.InStep? || x.pc.Ran?
    requires Held(db.row, Own(t, x)) && Shape(cfg, db) && HolderOk(cfg, db, x)
    requires x.unwinding ==> db.row.status == Compensating
    requires !x.unwinding ==> db.undone == {}
    ensures var x' := Act(cfg, now, db, t, x, a).1;
            x'.unwinding == x.unwinding && Left(cfg, x'.pc, x.unwinding) < Left(cfg, x.pc, x.unwinding)
  {
    if x.unwinding {
      LeftFallsUnwinding(cfg, now, db, t, x, a);
    } else {
      LeftFallsForward(cfg, now, db, t, x, a);
    }
  }

  lemma LeftFallsForward(cfg: Config, now: int, db: Db, t: nat, x: Session, a: Action)
    requires OfClaim(a) && Ready(cfg, x, a) && Progress(a) && !a.Drop? && !a.Defer?
    requires a.Raise? ==> x.pc.InStep? || x.pc.Ran?
    requires HolderOk(cfg, db, x) && !x.unwinding
    ensures var x' := Act(cfg, now, db, t, x, a).1;
            x'.unwinding == x.unwinding && Left(cfg, x'.pc, false) < Left(cfg, x.pc, false)
  {
  }

  lemma LeftFallsUnwinding(cfg: Config, now: int, db: Db, t: nat, x: Session, a: Action)
    requires OfClaim(a) && Ready(cfg, x, a) && Progress(a) && !a.Drop? && !a.Defer?
    requires HolderOk(cfg, db, x) && x.unwinding
    ensures var x' := Act(cfg, now, db, t, x, a).1;
            x'.unwinding == x.unwinding && Left(cfg, x'.pc, true) < Left(cfg, x.pc, true)
  {
    if x.pc.AtUndo? && x.pc.j > 0 { TimesMinus(x.pc.j, PerUndo(cfg)); }
  }

  lemma ClaimMeasure(cfg: Config, s: State, a: Action)
    requires Inv(cfg, s) && Quiet(cfg, s) && a.Claim? && Enabled(cfg, s, a) && Calm(s, a)
    ensures Measure(cfg, Next(cfg, s, a)) < Measure(cfg, s)
  {
    TimesMinusClaim(cfg, s);
  }

  /** What the owner's step means for the measure, given where it and the row went. */
  lemma OwnerMeasure(cfg: Config, s: State, db': Db, x': Session)
    requires Inv(cfg, s) && Quiet(cfg, s) && s.db.row.owner.Some?
    requires var x := s.sessions[s.db.row.token];
             && x'.unwinding == x.unwinding && x'.attempt == x.attempt
             && Left(cfg, x'.pc, x.unwinding) < Left(cfg, x.pc, x.unwinding)
             && db'.row.token == s.db.row.token
             && (x'.pc.Over? <==> db'.row.owner == None)
             && (!x'.pc.Over? ==> db'.row.owner == s.db.row.owner && db'.row.status == s.db.row.status)
             && (x'.pc.Over? ==>
                   || Terminal(db'.row.status)
                   || (!x.unwinding && (db'.row.status == Compensating || db'.row.status == Pending)))
    ensures Measure(cfg, s.(db := db', sessions := s.sessions[s.db.row.token := x'])) < Measure(cfg, s)
  {
  }

  lemma MeasureFalls(cfg: Config, s: State, a: Action)
    requires Inv(cfg, s) && Quiet(cfg, s) && Enabled(cfg, s, a) && Calm(s, a) && Progress(a)
    ensures Measure(cfg, Next(cfg, s, a)) < Measure(cfg, s)
  {
    if a.Claim? {
      ClaimMeasure(cfg, s, a);
    } else {
      WorkerMeasure(cfg, s, a);
    }
  }

  lemma WorkerMeasure(cfg: Config, s: State, a: Action)
    requires Inv(cfg, s) && Quiet(cfg, s) && OfClaim(a) && Enabled(cfg, s, a) && Calm(s, a) && Progress(a)
    ensures Measure(cfg, Next(cfg, s, a)) < Measure(cfg, s)
  {
    QuietWorker(cfg, s, a);
    var x := s.sessions[a.t];
    LeftFalls(cfg, s.now, s.db, a.t, x, a);
    IdentityKept(cfg, s.now, s.db, a.t, x, a);
    var (db', x') := Act(cfg, s.now, s.db, a.t, x, a);
    if a.Commit? {
      CommitKeeps(cfg, s.now, s.db, a.t, x, a);
    } else if a.CommitUndone? {
      CommitUndoneKeeps(cfg, s.now, s.db, a.t, x, a);
    } else {
      QuietOther(cfg, s.now, s.db, a.t, x, a);
    }
    OwnerMeasure(cfg, s, db', x');
  }

  lemma TimesMinusClaim(cfg: Config, s: State)
    requires s.db.row.status == Pending ==> s.db.row.token < cfg.maxAttempts
    ensures s.db.row.status == Pending ==>
              Minus(cfg.maxAttempts, s.db.row.token) * (PassWork(cfg) + 1)
              == Minus(cfg.maxAttempts, s.db.row.token + 1) * (PassWork(cfg) + 1) + PassWork(cfg) + 1
  {
    if s.db.row.status == Pending {
      TimesMinus(cfg.maxAttempts - s.db.row.token, PassWork(cfg) + 1);
    }
  }

  lemma MeasureStays(cfg: Config, s: State, a: Action)
    requires Inv(cfg, s) && Quiet(cfg, s) && Enabled(cfg, s, a) && Calm(s, a) && !Progress(a)
    ensures Measure(cfg, Next(cfg, s, a)) <= Measure(cfg, s)
  {
    if OfClaim(a) { QuietWorker(cfg, s, a); }
  }

  function ProgressMade(acts: seq<Action>): nat {
    if acts == [] then 0
    else ProgressMade(acts[..|acts| - 1]) + if Progress(acts[|acts| - 1]) then 1 else 0
  }

  /** No fault-free run makes more progress than a bound fixed by the definition and the two budgets. */
  lemma {:induction false} FaultFreeRunsAreBounded(cfg: Config, now: int, acts: seq<Action>)
    requires CalmRun(cfg, Init(now), acts) && cfg.maxAttempts > 0
    ensures ProgressMade(acts) + Measure(cfg, Run(cfg, Init(now), acts))
            <= cfg.maxAttempts * (4 * Count(cfg) + 9) + Count(cfg) * (cfg.undoAttempts + 5) + 3
  {
    if acts != [] {
      var front, a := acts[..|acts| - 1], acts[|acts| - 1];
      FaultFreeRunsAreBounded(cfg, now, front);
      QuietRun(cfg, now, front);
      if Progress(a) {
        MeasureFalls(cfg, Run(cfg, Init(now), front), a);
      } else {
        MeasureStays(cfg, Run(cfg, Init(now), front), a);
      }
    }
  }

  /** And none of them gets stuck: until the row is terminal, after some wait, something can move. */
  lemma NeverStuck(cfg: Config, s: State) returns (wait: nat, a: Action)
    requires Inv(cfg, s) && Quiet(cfg, s) && !Terminal(s.db.row.status)
    ensures Progress(a) && Enabled(cfg, Next(cfg, s, Tick(wait)), a) && Calm(Next(cfg, s, Tick(wait)), a)
  {
    if s.db.row.owner == None {
      wait, a := Minus0(s.db.row.runAfter - s.now), Claim("w", 30);
    } else {
      wait := 0;
      var t := s.db.row.token;
      var x := s.sessions[t];
      match x.pc
      case AtLoad => a := Load(t);
      case AtStep(i) => a := if i > Count(cfg) then Finish(t) else if i in x.completed then Replay(t) else Begin(t, i);
      case InStep(_) => a := Return(t, "");
      case Ran(_, _) => a := Commit(t);
      case Failing(retry) => a := if retry then Retry(t, 0) else Compensate(t);
      case AtUndo(j) =>
        a := if j == 0 then FinishUndone(t)
             else if j in x.completed && j !in x.compensated && Compensable(cfg, j) then BeginUndo(t, j)
             else Pass(t);
      case InUndo(_, _) => a := UndoReturn(t);
      case Undid(_) => a := CommitUndone(t);
      case Stuck(_) => a := Dirty(t);
    }
  }

  function Minus0(a: int): nat { if a < 0 then 0 else a }

  /** Wait and move once: still fault-free, and closer to the end. */
  lemma OneMove(cfg: Config, s: State) returns (acts: seq<Action>)
    requires Inv(cfg, s) && Quiet(cfg, s) && !Terminal(s.db.row.status)
    ensures CalmRun(cfg, s, acts)
    ensures var s' := Run(cfg, s, acts); Inv(cfg, s') && Quiet(cfg, s') && Measure(cfg, s') < Measure(cfg, s)
  {
    var wait, a := NeverStuck(cfg, s);
    acts := [Tick(wait), a];
    NextInv(cfg, s, Tick(wait));
    QuietStep(cfg, s, Tick(wait));
    MeasureStays(cfg, s, Tick(wait));
    MovedOnce(cfg, s, Tick(wait), Next(cfg, s, Tick(wait)), a);
  }

  lemma MovedOnce(cfg: Config, s: State, tick: Action, s1: State, a: Action)
    requires Enabled(cfg, s, tick) && Calm(s, tick) && s1 == Next(cfg, s, tick)
    requires Inv(cfg, s1) && Quiet(cfg, s1) && Progress(a) && Enabled(cfg, s1, a) && Calm(s1, a)
    ensures CalmRun(cfg, s, [tick, a])
    ensures var s' := Run(cfg, s, [tick, a]); Inv(cfg, s') && Quiet(cfg, s') && Measure(cfg, s') < Measure(cfg, s1)
  {
    MeasureFalls(cfg, s1, a);
    NextInv(cfg, s1, a);
    QuietStep(cfg, s1, a);
    assert [tick, a][..1] == [tick] && [tick][..0] == [];
    assert Run(cfg, s, [tick]) == s1;
    assert CalmRun(cfg, s, [tick]);
  }

  /** From every state of a fault-free run a terminal status can be reached. */
  lemma {:induction false} FaultFreeSagasEnd(cfg: Config, s: State) returns (acts: seq<Action>)
    requires Inv(cfg, s) && Quiet(cfg, s)
    ensures CalmRun(cfg, s, acts) && Terminal(Run(cfg, s, acts).db.row.status)
    decreases Measure(cfg, s)
  {
    if Terminal(s.db.row.status) {
      acts := [];
    } else {
      var move := OneMove(cfg, s);
      var rest := FaultFreeSagasEnd(cfg, Run(cfg, s, move));
      CalmConcat(cfg, s, move, rest);
      acts := move + rest;
    }
  }

  lemma {:induction false} CalmConcat(cfg: Config, s: State, a: seq<Action>, b: seq<Action>)
    requires CalmRun(cfg, s, a) && CalmRun(cfg, Run(cfg, s, a), b)
    ensures CalmRun(cfg, s, a + b) && Run(cfg, s, a + b) == Run(cfg, Run(cfg, s, a), b)
  {
    RunConcat(cfg, s, a, b);
    if b == [] {
      assert a + b == a;
    } else {
      assert (a + b)[..|a + b| - 1] == a + b[..|b| - 1];
      CalmConcat(cfg, s, a, b[..|b| - 1]);
    }
  }

  // ----- how much work ------------------------------------------------------------------------

  /** Invocations of step bodies, over all steps. */
  function Invoked(acts: seq<Action>): nat {
    if acts == [] then 0
    else Invoked(acts[..|acts| - 1]) + if acts[|acts| - 1].Begin? then 1 else 0
  }

  /** Invocations of compensations: the first try, and each try in place after a failed one. */
  function UndosInvoked(cfg: Config, s: State, acts: seq<Action>): nat {
    if acts == [] then 0
    else UndosInvoked(cfg, s, acts[..|acts| - 1])
         + UndoCalls(cfg, Run(cfg, s, acts[..|acts| - 1]), acts[|acts| - 1])
  }

  function UndoCalls(cfg: Config, s: State, a: Action): nat {
    if OfClaim(a) && a.t in s.sessions && TriesUndo(cfg, s.sessions[a.t], a) then 1 else 0
  }

  /** `a` calls a compensation: the first time, or again after a failure that leaves tries. */
  predicate TriesUndo(cfg: Config, x: Session, a: Action) {
    a.BeginUndo? || (a.UndoRaise? && x.pc.InUndo? && !a.terminal && x.pc.tries < cfg.undoAttempts)
  }

  /** Invocations so far, against the checkpoints they left and the claims that failed. */
  ghost predicate WorkOk(cfg: Config, s: State, invoked: nat, undos: nat) {
    var row := s.db.row;
    && invoked <= Count(cfg) + cfg.maxAttempts - 1
    && undos <= Count(cfg) * cfg.undoAttempts
    && (row.status == Pending ==> invoked <= |s.db.forward| + row.token)
    && (row.token in s.sessions && !s.sessions[row.token].pc.Over? ==>
          var pc := s.sessions[row.token].pc;
          if Unwound(s) then undos <= UndoBudget(cfg, pc)
          else invoked + 1 <= |s.db.forward| + row.token + Busy(pc))
    && (!Unwound(s) ==> undos == 0)
  }

  /** One more invocation than checkpoints and failed claims account for. */
  function Busy(pc: Pc): nat {
    if pc.InStep? || pc.Ran? || pc.Failing? then 1 else 0
  }

  function UndoBudget(cfg: Config, pc: Pc): nat {
    match pc
    case AtUndo(j) => Minus(Count(cfg), j) * cfg.undoAttempts
    case InUndo(j, tries) => Minus(Count(cfg), j) * cfg.undoAttempts + tries
    case Undid(j) => Minus(Count(cfg) + 1, j) * cfg.undoAttempts
    case Stuck(j) => Minus(Count(cfg) + 1, j) * cfg.undoAttempts
    case _ => 0
  }

  lemma {:induction false} SizeBound(keys: set<nat>, n: nat)
    requires forall k :: k in keys ==> 1 <= k <= n
    ensures |keys| <= n
  {
    if n == 0 {
      assert keys == {};
    } else {
      SizeBound(keys - {n}, n - 1);
    }
  }

  lemma {:induction false} TimesMono(a: nat, b: nat, k: nat)
    requires a <= b
    ensures a * k <= b * k
  {
  }

  /** A forward owner's step: at most one invocation for each checkpoint and each failed claim. */
  lemma ForwardWork(cfg: Config, now: int, db: Db, t: nat, x: Session, a: Action, invoked: nat)
    requires OfClaim(a) && Ready(cfg, x, a) && !a.Drop? && !a.Defer?
    requires a.Raise? ==> x.pc.InStep? || x.pc.Ran?
    requires !x.unwinding && !x.pc.Over? && Held(db.row, Own(t, x)) && Shape(cfg, db) && HolderOk(cfg, db, x)
              && db.undone == {}
    requires 1 <= t <= cfg.maxAttempts
    requires invoked + 1 <= |db.forward| + t + Busy(x.pc) && invoked <= Count(cfg) + cfg.maxAttempts - 1
    ensures var (db', x') := Act(cfg, now, db, t, x, a);
            var invoked' := invoked + if a.Begin? then 1 else 0;
            && !TriesUndo(cfg, x, a)
            && invoked' <= Count(cfg) + cfg.maxAttempts - 1
            && invoked' <= |db'.forward| + t
            && (!x'.pc.Over? ==> invoked' + 1 <= |db'.forward| + t + Busy(x'.pc))
  {
    if a.Begin? {
      assert forall k :: k in db.forward.Keys ==> 1 <= k <= a.i - 1;
      SizeBound(db.forward.Keys, a.i - 1);
    } else if a.Commit? {
      CommitKeeps(cfg, now, db, t, x, a);
    } else {
      SameWork(cfg, now, db, t, x, a);
    }
  }

  /** Any other step of a forward owner leaves the rows alone and is not less busy unless it ends the claim. */
  lemma SameWork(cfg: Config, now: int, db: Db, t: nat, x: Session, a: Action)
    requires OfClaim(a) && Ready(cfg, x, a) && !a.Drop? && !a.Defer? && !a.Begin? && !a.Commit?
    requires a.Raise? ==> x.pc.InStep? || x.pc.Ran?
    requires !x.unwinding && !x.pc.Over? && HolderOk(cfg, db, x)
    ensures var (db', x') := Act(cfg, now, db, t, x, a);
            db'.forward == db.forward && !TriesUndo(cfg, x, a) && (!x'.pc.Over? ==> Busy(x'.pc) >= Busy(x.pc))
  {
  }

  /** An unwinding owner's step: at most `undoAttempts` calls for each compensation. */
  lemma UnwindWork(cfg: Config, now: int, db: Db, t: nat, x: Session, a: Action, undos: nat)
    requires OfClaim(a) && Ready(cfg, x, a) && !a.Drop? && !a.Defer?
    requires x.unwinding && !x.pc.Over? && HolderOk(cfg, db, x)
    requires Held(db.row, Own(t, x)) && db.row.status == Compensating && cfg.undoAttempts > 0
    requires undos <= UndoBudget(cfg, x.pc) && undos <= Count(cfg) * cfg.undoAttempts
    ensures var x' := Act(cfg, now, db, t, x, a).1;
            var undos' := undos + if TriesUndo(cfg, x, a) then 1 else 0;
            && !a.Begin?
            && undos' <= Count(cfg) * cfg.undoAttempts
            && (!x'.pc.Over? ==> undos' <= UndoBudget(cfg, x'.pc))
  {
    if x.pc.InUndo? {
      TimesMono(Minus(Count(cfg) + 1, x.pc.j), Count(cfg), cfg.undoAttempts);
      TimesMinus(Minus(Count(cfg) + 1, x.pc.j), cfg.undoAttempts);
    } else if a.BeginUndo? {
      TimesMono(Minus(Count(cfg) + 1, a.j), Count(cfg), cfg.undoAttempts);
      TimesMinus(Minus(Count(cfg) + 1, a.j), cfg.undoAttempts);
    } else if a.Pass? {
      TimesMono(Minus(Count(cfg), x.pc.j), Minus(Count(cfg), x.pc.j - 1), cfg.undoAttempts);
    }
  }

  lemma WorkStep(cfg: Config, s: State, a: Action, invoked: nat, undos: nat)
    requires Inv(cfg, s) && Quiet(cfg, s) && Enabled(cfg, s, a) && Calm(s, a) && cfg.undoAttempts > 0
    requires WorkOk(cfg, s, invoked, undos)
    ensures WorkOk(cfg, Next(cfg, s, a), invoked + if a.Begin? then 1 else 0, undos + UndoCalls(cfg, s, a))
  {
    if OfClaim(a) {
      WorkerWork(cfg, s, a, invoked, undos);
    }
  }

  lemma WorkerWork(cfg: Config, s: State, a: Action, invoked: nat, undos: nat)
    requires Inv(cfg, s) && Quiet(cfg, s) && OfClaim(a) && Enabled(cfg, s, a) && Calm(s, a) && cfg.undoAttempts > 0
    requires WorkOk(cfg, s, invoked, undos)
    ensures WorkOk(cfg, Next(cfg, s, a), invoked + if a.Begin? then 1 else 0, undos + UndoCalls(cfg, s, a))
  {
    QuietWorker(cfg, s, a);
    var x := s.sessions[a.t];
    IdentityKept(cfg, s.now, s.db, a.t, x, a);
    if x.unwinding {
      UnwindWork(cfg, s.now, s.db, a.t, x, a, undos);
    } else {
      ForwardWork(cfg, s.now, s.db, a.t, x, a, invoked);
    }
  }

  lemma {:induction false} WorkRun(cfg: Config, now: int, acts: seq<Action>)
    requires CalmRun(cfg, Init(now), acts) && cfg.maxAttempts > 0 && cfg.undoAttempts > 0
    ensures WorkOk(cfg, Run(cfg, Init(now), acts), Invoked(acts), UndosInvoked(cfg, Init(now), acts))
  {
    if acts != [] {
      var front, a := acts[..|acts| - 1], acts[|acts| - 1];
      WorkRun(cfg, now, front);
      QuietRun(cfg, now, front);
      WorkStep(cfg, Run(cfg, Init(now), front), a, Invoked(front), UndosInvoked(cfg, Init(now), front));
    }
  }

  /**
   The work of a fault-free saga of n steps: at most `maxAttempts` forward claims and one to unwind,
   n + maxAttempts - 1 step invocations, and n * undoAttempts compensation invocations.
   */
  lemma FaultFreeWork(cfg: Config, now: int, acts: seq<Action>)
    requires CalmRun(cfg, Init(now), acts) && cfg.maxAttempts > 0 && cfg.undoAttempts > 0
    ensures var s := Run(cfg, Init(now), acts);
            && s.db.row.token <= cfg.maxAttempts + 1
            && (!Unwound(s) ==> s.db.row.token <= cfg.maxAttempts)
            && Invoked(acts) <= Count(cfg) + cfg.maxAttempts - 1
            && UndosInvoked(cfg, Init(now), acts) <= Count(cfg) * cfg.undoAttempts
  {
    QuietRun(cfg, now, acts);
    WorkRun(cfg, now, acts);
  }
}
