/**
 What holds after every run: of claims, loads, commits, retries, crashes, woken stale workers,
 lease expiries and API cancels, in any order.
 */
module SagaSafety {
  import opened Prelude
  import opened Storage
  import opened Saga
  import opened SagaInvariant

  /** `keys` is 1..k. */
  ghost predicate IsSegment(keys: set<nat>, k: nat) {
    forall i: nat :: i in keys <==> 1 <= i <= k
  }

  // ----- one way -------------------------------------------------------------------------------

  lemma UnwoundStep(cfg: Config, s: State, a: Action)
    requires Inv(cfg, s) && Unwound(s)
    ensures Unwound(Next(cfg, s, a)) && Next(cfg, s, a).db.forward == s.db.forward
  {
    NextInv(cfg, s, a);
    if Enabled(cfg, s, a) && OfClaim(a) {
      IdentityKept(cfg, s.now, s.db, a.t, s.sessions[a.t], a);
      if a.t != s.db.row.token { StaleKeeps(cfg, s, a); } else { HolderOutcome(cfg, s, a); }
    }
  }

  lemma {:induction false} UnwoundRun(cfg: Config, s: State, acts: seq<Action>)
    requires Inv(cfg, s) && Unwound(s)
    ensures Inv(cfg, Run(cfg, s, acts)) && Unwound(Run(cfg, s, acts))
    ensures Run(cfg, s, acts).db.forward == s.db.forward
  {
    if acts != [] {
      UnwoundRun(cfg, s, acts[..|acts| - 1]);
      UnwoundStep(cfg, Run(cfg, s, acts[..|acts| - 1]), acts[|acts| - 1]);
      NextInv(cfg, Run(cfg, s, acts[..|acts| - 1]), acts[|acts| - 1]);
    }
  }

  /**
   Once a claim has been granted on a COMPENSATING row, no FORWARD row is ever added, whoever else
   is still running, and the row never becomes PENDING, RUNNING or SUCCESS again.
   */
  lemma UnwindIsOneWay(cfg: Config, now: int, before: seq<Action>, owner: string, duration: nat, after: seq<Action>)
    requires var s := Run(cfg, Init(now), before);
             Enabled(cfg, s, Claim(owner, duration)) && s.db.row.status == Compensating
    ensures var s := Run(cfg, Init(now), before);
            var s' := Run(cfg, Init(now), before + [Claim(owner, duration)] + after);
            && s'.db.forward == s.db.forward
            && s'.db.row.status in {Compensating, Compensated, FailedDirty}
  {
    InitInv(cfg, now);
    RunInv(cfg, Init(now), before);
    var s := Run(cfg, Init(now), before);
    var granted := Next(cfg, s, Claim(owner, duration));
    NextInv(cfg, s, Claim(owner, duration));
    RunConcat(cfg, Init(now), before, [Claim(owner, duration)]);
    assert Run(cfg, s, []) == s;
    assert Run(cfg, s, [Claim(owner, duration)]) == granted;
    RunConcat(cfg, Init(now), before + [Claim(owner, duration)], after);
    UnwoundRun(cfg, granted, after);
  }

  // ----- what the terminal statuses mean -------------------------------------------------------

  /** SUCCESS: a FORWARD row for every step, their outputs as the workflow's, and nothing undone. */
  lemma SuccessIsComplete(cfg: Config, now: int, acts: seq<Action>)
    requires Run(cfg, Init(now), acts).db.row.status == Success
    ensures var s := Run(cfg, Init(now), acts);
            && IsSegment(s.db.forward.Keys, Count(cfg))
            && s.db.undone == {}
            && s.db.row.output == Some(s.db.forward)
            && forall t :: t in s.sessions ==> !s.sessions[t].unwinding
  {
    InitInv(cfg, now);
    RunInv(cfg, Init(now), acts);
  }

  /** COMPENSATED: exactly the compensable committed steps are undone. */
  lemma CompensatedIsUndone(cfg: Config, now: int, acts: seq<Action>)
    requires Run(cfg, Init(now), acts).db.row.status == Compensated
    ensures var db := Run(cfg, Init(now), acts).db;
            db.undone == (set k | k in db.forward && Compensable(cfg, k))
  {
    InitInv(cfg, now);
    RunInv(cfg, Init(now), acts);
  }

  lemma StoppedIsACut(cfg: Config, db: Db, j: nat)
    requires Shape(cfg, db) && StoppedAt(cfg, db, j)
    ensures db.undone == (set k | k in db.forward && j < k && Compensable(cfg, k))
  {
    forall k | k in db.undone
      ensures j < k
    {
      assert k < j ==> j in db.undone;
    }
  }

  /** FAILED_DIRTY names the step it stopped at; everything compensable above is undone, nothing else is. */
  lemma DirtyIsACut(cfg: Config, now: int, acts: seq<Action>)
    requires Run(cfg, Init(now), acts).db.row.status == FailedDirty
    ensures var db := Run(cfg, Init(now), acts).db;
            && db.row.fault.UndoFault?
            && db.row.fault.step in db.forward && Compensable(cfg, db.row.fault.step)
            && db.undone == (set k | k in db.forward && db.row.fault.step < k && Compensable(cfg, k))
  {
    InitInv(cfg, now);
    RunInv(cfg, Init(now), acts);
    var db := Run(cfg, Init(now), acts).db;
    StoppedIsACut(cfg, db, db.row.fault.step);
  }

  /** The end of an initial segment of the naturals. */
  lemma {:induction false} Segment(keys: set<nat>, n: nat) returns (k: nat)
    requires forall i :: i in keys ==> 1 <= i <= n
    requires forall i, m :: i in keys && 1 <= m < i ==> m in keys
    ensures k <= n && IsSegment(keys, k)
  {
    if n == 0 || n in keys {
      k := n;
    } else {
      k := Segment(keys, n - 1);
    }
  }

  /** The lowest point above which every compensable step is undone. */
  lemma {:induction false} Cut(cfg: Config, db: Db, n: nat) returns (c: nat)
    requires Shape(cfg, db) && UndoneAbove(cfg, db, n)
    ensures c <= n && UndoneAbove(cfg, db, c)
    ensures forall k :: k in db.undone && k <= n ==> c < k
  {
    if n == 0 || (n in db.forward && Compensable(cfg, n) && n !in db.undone) {
      c := n;
    } else {
      c := Cut(cfg, db, n - 1);
    }
  }

  /**
   In every reachable state, through any number of crashes in mid-unwind, FORWARD rows are exactly
   seq 1..k and COMPENSATION rows exactly the compensable steps of 1..k above some cut.
   */
  lemma RowsAreASegmentAndACut(cfg: Config, now: int, acts: seq<Action>) returns (k: nat, cut: nat)
    ensures var db := Run(cfg, Init(now), acts).db;
            && k <= Count(cfg)
            && IsSegment(db.forward.Keys, k)
            && db.undone == (set i | cut < i <= k && Compensable(cfg, i))
  {
    InitInv(cfg, now);
    RunInv(cfg, Init(now), acts);
    var db := Run(cfg, Init(now), acts).db;
    k := Segment(db.forward.Keys, Count(cfg));
    cut := Cut(cfg, db, Count(cfg));
    assert forall i :: i in db.forward <==> i in db.forward.Keys;
    forall i ensures i in db.undone <==> cut < i <= k && Compensable(cfg, i) {
    }
  }

  lemma TerminalStep(cfg: Config, s: State, a: Action)
    requires Inv(cfg, s) && Terminal(s.db.row.status)
    ensures Next(cfg, s, a).db == s.db
  {
    if Enabled(cfg, s, a) && OfClaim(a) {
      NotHeldWritesNothing(cfg, s.now, s.db, a.t, s.sessions[a.t], a);
    }
  }

  /** A terminal row, its checkpoints and its events never change again. */
  lemma {:induction false} TerminalIsFinal(cfg: Config, s: State, acts: seq<Action>)
    requires Inv(cfg, s) && Terminal(s.db.row.status)
    ensures Run(cfg, s, acts).db == s.db
  {
    if acts != [] {
      TerminalIsFinal(cfg, s, acts[..|acts| - 1]);
      RunInv(cfg, s, acts[..|acts| - 1]);
      TerminalStep(cfg, Run(cfg, s, acts[..|acts| - 1]), acts[|acts| - 1]);
    }
  }

  // ----- fencing -------------------------------------------------------------------------------

  lemma LostStep(cfg: Config, s: State, t: nat, a: Action)
    requires Inv(cfg, s) && t in s.sessions && !Holds(s, t)
    ensures t in Next(cfg, s, a).sessions && !Holds(Next(cfg, s, a), t)
  {
    if Enabled(cfg, s, a) && OfClaim(a) {
      var x := s.sessions[a.t];
      IdentityKept(cfg, s.now, s.db, a.t, x, a);
      if a.t == s.db.row.token { HolderOutcome(cfg, s, a); } else { StaleKeeps(cfg, s, a); }
    }
  }

  /** A claim whose guard has failed once fails it forever, so each later write of it changes nothing. */
  lemma {:induction false} LostIsForever(cfg: Config, s: State, t: nat, acts: seq<Action>, a: Action)
    requires Inv(cfg, s) && t in s.sessions && !Holds(s, t)
    ensures var s' := Run(cfg, s, acts);
            && t in s'.sessions && !Holds(s', t)
            && (OfClaim(a) && a.t == t ==> Next(cfg, s', a).db == s'.db)
    decreases acts
  {
    RunInv(cfg, s, acts);
    if acts != [] {
      LostIsForever(cfg, s, t, acts[..|acts| - 1], a);
      RunInv(cfg, s, acts[..|acts| - 1]);
      LostStep(cfg, Run(cfg, s, acts[..|acts| - 1]), t, acts[|acts| - 1]);
    }
    var s' := Run(cfg, s, acts);
    if OfClaim(a) && a.t == t && Enabled(cfg, s', a) {
      NotHeldWritesNothing(cfg, s'.now, s'.db, t, s'.sessions[t], a);
    }
  }

  /** At any instant at most one claim can pass the guard, and it is the newest. */
  lemma OneHolder(cfg: Config, now: int, acts: seq<Action>, t: nat, u: nat)
    requires var s := Run(cfg, Init(now), acts); Holds(s, t) && Holds(s, u)
    ensures t == u && forall v :: v in Run(cfg, Init(now), acts).sessions ==> v <= t
  {
    InitInv(cfg, now);
    RunInv(cfg, Init(now), acts);
  }

  ghost predicate LostIsTrue(s: State) {
    forall t :: t in s.sessions && s.sessions[t].lost ==> !Holds(s, t)
  }

  lemma LostIsTrueStep(cfg: Config, s: State, a: Action)
    requires Inv(cfg, s) && LostIsTrue(s)
    ensures LostIsTrue(Next(cfg, s, a))
  {
    var s' := Next(cfg, s, a);
    forall t | t in s'.sessions && s'.sessions[t].lost
      ensures !Holds(s', t)
    {
      if t in s.sessions && !Holds(s, t) { LostStep(cfg, s, t, a); } else { FreshLoss(cfg, s, t, a); }
    }
  }

  /** The flag is only raised by a renewal whose guard failed. */
  lemma FreshLoss(cfg: Config, s: State, t: nat, a: Action)
    requires Inv(cfg, s) && (t in s.sessions ==> !s.sessions[t].lost)
    requires t in Next(cfg, s, a).sessions && Next(cfg, s, a).sessions[t].lost
    ensures t in s.sessions && !Holds(s, t) && !Holds(Next(cfg, s, a), t)
  {
    if Enabled(cfg, s, a) && OfClaim(a) && a.t == t {
      OnlyRenewalLoses(cfg, s.now, s.db, t, s.sessions[t], a);
      LostStep(cfg, s, t, a);
    }
  }

  lemma OnlyRenewalLoses(cfg: Config, now: int, db: Db, t: nat, x: Session, a: Action)
    requires OfClaim(a) && Ready(cfg, x, a) && !x.lost && Act(cfg, now, db, t, x, a).1.lost
    ensures a.Renew? && !Held(db.row, Own(t, x))
  {
  }

  /** A lease that believes itself lost is lost: its worker may stop without asking again. */
  lemma {:induction false} LostFlagIsSound(cfg: Config, now: int, acts: seq<Action>)
    ensures LostIsTrue(Run(cfg, Init(now), acts))
  {
    if acts != [] {
      var front := acts[..|acts| - 1];
      LostFlagIsSound(cfg, now, front);
      InitInv(cfg, now);
      RunInv(cfg, Init(now), front);
      LostIsTrueStep(cfg, Run(cfg, Init(now), front), acts[|acts| - 1]);
    }
  }

  /** And a renewal always tells the truth: it raises the flag exactly when the row is no longer its claim's. */
  lemma RenewalTellsTheTruth(cfg: Config, now: int, acts: seq<Action>, t: nat, duration: nat)
    requires Enabled(cfg, Run(cfg, Init(now), acts), Renew(t, duration))
    ensures var s := Run(cfg, Init(now), acts);
            Next(cfg, s, Renew(t, duration)).sessions[t].lost <==> !Holds(s, t)
  {
  }

  /** No checkpoint insert reachable by any worker, stale or not, collides on the primary key. */
  lemma NoDuplicateKey(cfg: Config, now: int, acts: seq<Action>, t: nat)
    requires t in Run(cfg, Init(now), acts).sessions
    ensures var s := Run(cfg, Init(now), acts);
            var x := s.sessions[t];
            && (x.pc.Ran? ==> CommitStep(s.db, Own(t, x), x.pc.i, x.pc.result, x.buffer).1 != DuplicateKey)
            && (x.pc.Undid? ==> CommitUndo(s.db, Own(t, x), x.pc.j, x.buffer).1 != DuplicateKey)
  {
    InitInv(cfg, now);
    RunInv(cfg, Init(now), acts);
  }

  /** A live lease excludes every other claim, forward and unwinding alike. */
  lemma LiveLeaseExcludes(cfg: Config, now: int, acts: seq<Action>, t: nat, owner: string, duration: nat)
    requires var s := Run(cfg, Init(now), acts); Holds(s, t) && Enabled(cfg, s, Claim(owner, duration))
    ensures var s := Run(cfg, Init(now), acts); s.db.row.lease.Some? && s.db.row.lease.value < s.now
  {
    InitInv(cfg, now);
    RunInv(cfg, Init(now), acts);
  }
}
