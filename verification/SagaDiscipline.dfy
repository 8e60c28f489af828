/**
 How often a step can be executed, counting every worker that ever ran it.
 */
module SagaDiscipline {
  import opened Storage
  import opened Saga
  import opened SagaInvariant

  /** Claim `x` is at or past its one chance to begin step i. */
  predicate Past(x: Session, i: nat) {
    match x.pc
    case AtLoad => false
    case AtStep(k) => i < k
    case InStep(k) => i <= k
    case Ran(k, _) => i <= k
    case _ => true
  }

  /** Claim `x` is at or past its one chance to begin undoing step j. */
  predicate PastUndo(x: Session, j: nat) {
    match x.pc
    case AtLoad => false
    case AtUndo(k) => k < j
    case InUndo(k, _) => k <= j
    case Undid(k) => k <= j
    case _ => true
  }

  /** The local state of any claim, stale or not, is of the kind its loop visits. */
  predicate LoopOk(x: Session) {
    match x.pc
    case AtStep(_) => !x.unwinding
    case InStep(_) => !x.unwinding
    case Ran(_, _) => !x.unwinding
    case Failing(_) => !x.unwinding
    case AtUndo(_) => x.unwinding
    case InUndo(j, _) => x.unwinding && j > 0
    case Undid(j) => x.unwinding && j > 0
    case Stuck(_) => x.unwinding
    case _ => true
  }

  lemma PastStep(cfg: Config, now: int, db: Db, t: nat, x: Session, a: Action, i: nat)
    requires OfClaim(a) && Ready(cfg, x, a) && LoopOk(x)
    ensures var x' := Act(cfg, now, db, t, x, a).1;
            && LoopOk(x')
            && (Past(x, i) && !x.unwinding ==> Past(x', i))
            && (PastUndo(x, i) && x.unwinding ==> PastUndo(x', i))
  {
  }

  /** Step i was begun under claim t somewhere in the run. */
  ghost predicate Begun(acts: seq<Action>, t: nat, i: nat) { Begin(t, i) in acts }
  ghost predicate UndoBegun(acts: seq<Action>, t: nat, j: nat) { BeginUndo(t, j) in acts }

  ghost predicate Accounted(s: State, acts: seq<Action>) {
    && (forall t :: t in s.sessions ==> LoopOk(s.sessions[t]))
    && (forall t, i :: Begun(acts, t, i) ==> t in s.sessions && !s.sessions[t].unwinding && Past(s.sessions[t], i))
    && (forall t, j :: UndoBegun(acts, t, j) ==>
          t in s.sessions && s.sessions[t].unwinding && PastUndo(s.sessions[t], j))
  }

  lemma AccountedStep(cfg: Config, s: State, front: seq<Action>, a: Action)
    requires Inv(cfg, s) && Accounted(s, front) && Enabled(cfg, s, a)
    ensures Accounted(Next(cfg, s, a), front + [a])
    ensures a.Begin? || a.BeginUndo? ==> a !in front
  {
    if a.Begin? { assert Begun(front, a.t, a.i) ==> Past(s.sessions[a.t], a.i); }
    if a.BeginUndo? { assert UndoBegun(front, a.t, a.j) ==> PastUndo(s.sessions[a.t], a.j); }
    var s', acts := Next(cfg, s, a), front + [a];
    if OfClaim(a) {
      IdentityKept(cfg, s.now, s.db, a.t, s.sessions[a.t], a);
      PastStep(cfg, s.now, s.db, a.t, s.sessions[a.t], a, 0);
    }
    forall t, i | Begun(acts, t, i)
      ensures t in s'.sessions && !s'.sessions[t].unwinding && Past(s'.sessions[t], i)
    {
      assert Begun(front, t, i) || a == Begin(t, i);
      if OfClaim(a) && a.t == t { PastStep(cfg, s.now, s.db, t, s.sessions[t], a, i); }
    }
    forall t, j | UndoBegun(acts, t, j)
      ensures t in s'.sessions && s'.sessions[t].unwinding && PastUndo(s'.sessions[t], j)
    {
      assert UndoBegun(front, t, j) || a == BeginUndo(t, j);
      if OfClaim(a) && a.t == t { PastStep(cfg, s.now, s.db, t, s.sessions[t], a, j); }
    }
  }

  lemma {:induction false} AccountedRun(cfg: Config, now: int, acts: seq<Action>)
    requires Valid(cfg, Init(now), acts)
    ensures Accounted(Run(cfg, Init(now), acts), acts)
  {
    if acts != [] {
      var front, a := acts[..|acts| - 1], acts[|acts| - 1];
      assert acts == front + [a];
      AccountedRun(cfg, now, front);
      InitInv(cfg, now);
      RunInv(cfg, Init(now), front);
      AccountedStep(cfg, Run(cfg, Init(now), front), front, a);
    }
  }

  /** No claim begins the same step, or the undo of the same step, twice. */
  lemma {:induction false} EachClaimBeginsAStepOnce(cfg: Config, now: int, acts: seq<Action>, p: nat, q: nat)
    requires Valid(cfg, Init(now), acts)
    requires p < q < |acts| && (acts[p].Begin? || acts[p].BeginUndo?)
    ensures acts[p] != acts[q]
  {
    var front, a := acts[..|acts| - 1], acts[|acts| - 1];
    if q < |front| {
      EachClaimBeginsAStepOnce(cfg, now, front, p, q);
    } else {
      AccountedRun(cfg, now, front);
      InitInv(cfg, now);
      RunInv(cfg, Init(now), front);
      AccountedStep(cfg, Run(cfg, Init(now), front), front, a);
      assert acts[p] == front[p];
    }
  }

  /** How many times step i's body was invoked, by anyone. */
  function Invocations(acts: seq<Action>, i: nat): nat {
    if acts == [] then 0
    else Invocations(acts[..|acts| - 1], i)
         + if acts[|acts| - 1].Begin? && acts[|acts| - 1].i == i then 1 else 0
  }

  /** How many claims were granted to run forward. */
  function ForwardClaims(cfg: Config, s: State, acts: seq<Action>): nat {
    if acts == [] then 0
    else
      ForwardClaims(cfg, s, acts[..|acts| - 1])
      + if acts[|acts| - 1].Claim? && Run(cfg, s, acts[..|acts| - 1]).db.row.status != Compensating then 1 else 0
  }

  function Forward(sessions: map<nat, Session>): set<nat> {
    set t | t in sessions && !sessions[t].unwinding
  }

  function ForwardTokens(s: State): set<nat> { Forward(s.sessions) }

  function BegunBy(acts: seq<Action>, i: nat): set<nat> {
    set a | a in acts && a.Begin? && a.i == i :: a.t
  }

  lemma BegunByStep(front: seq<Action>, a: Action, i: nat)
    requires a.Begin? ==> a !in front
    ensures |BegunBy(front + [a], i)| == |BegunBy(front, i)| + if a.Begin? && a.i == i then 1 else 0
  {
    if a.Begin? && a.i == i {
      assert a.t !in BegunBy(front, i);
      assert BegunBy(front + [a], i) == BegunBy(front, i) + {a.t};
    } else {
      assert BegunBy(front + [a], i) == BegunBy(front, i);
    }
  }

  /** A worker's step grants nothing and turns no claim around. */
  lemma ClaimsKept(cfg: Config, s: State, a: Action)
    requires OfClaim(a) && Enabled(cfg, s, a)
    ensures ForwardTokens(Next(cfg, s, a)) == ForwardTokens(s)
  {
    IdentityKept(cfg, s.now, s.db, a.t, s.sessions[a.t], a);
    var x' := Act(cfg, s.now, s.db, a.t, s.sessions[a.t], a).1;
    assert Next(cfg, s, a).sessions == s.sessions[a.t := x'];
    SameTokens(s.sessions, a.t, x');
  }

  lemma SameTokens(sessions: map<nat, Session>, t: nat, x: Session)
    requires t in sessions && x.unwinding == sessions[t].unwinding
    ensures Forward(sessions[t := x]) == Forward(sessions)
  {
  }

  lemma ForwardTokensStep(cfg: Config, s: State, a: Action)
    requires Claims(s) && Enabled(cfg, s, a)
    ensures |ForwardTokens(Next(cfg, s, a))|
            == |ForwardTokens(s)| + if a.Claim? && s.db.row.status != Compensating then 1 else 0
  {
    if OfClaim(a) {
      ClaimsKept(cfg, s, a);
    } else if a.Claim? {
      ClaimAdds(cfg, s, a);
    } else {
      assert Next(cfg, s, a).sessions == s.sessions;
    }
  }

  lemma ClaimAdds(cfg: Config, s: State, a: Action)
    requires Claims(s) && a.Claim? && Enabled(cfg, s, a)
    ensures |ForwardTokens(Next(cfg, s, a))|
            == |ForwardTokens(s)| + if s.db.row.status != Compensating then 1 else 0
  {
    var t, x := s.db.row.token + 1, Granted(s.db.row, a.owner);
    assert Next(cfg, s, a).sessions == s.sessions[t := x];
    NewToken(s.sessions, t, x);
  }

  /** A token never seen before counts if its claim runs forward. */
  lemma NewToken(sessions: map<nat, Session>, t: nat, x: Session)
    requires t !in sessions
    ensures |Forward(sessions[t := x])| == |Forward(sessions)| + if x.unwinding then 0 else 1
  {
    assert t !in Forward(sessions);
    if x.unwinding {
      assert Forward(sessions[t := x]) == Forward(sessions);
    } else {
      assert Forward(sessions[t := x]) == Forward(sessions) + {t};
    }
  }

  lemma {:induction false} Counting(cfg: Config, now: int, acts: seq<Action>, i: nat)
    requires Valid(cfg, Init(now), acts)
    ensures Invocations(acts, i) == |BegunBy(acts, i)|
    ensures ForwardClaims(cfg, Init(now), acts) == |ForwardTokens(Run(cfg, Init(now), acts))|
  {
    if acts != [] {
      var front, a := acts[..|acts| - 1], acts[|acts| - 1];
      assert acts == front + [a];
      Counting(cfg, now, front, i);
      AccountedRun(cfg, now, front);
      InitInv(cfg, now);
      RunInv(cfg, Init(now), front);
      AccountedStep(cfg, Run(cfg, Init(now), front), front, a);
      BegunByStep(front, a, i);
      ForwardTokensStep(cfg, Run(cfg, Init(now), front), a);
    } else {
      assert BegunBy(acts, i) == {};
      assert ForwardTokens(Init(now)) == {};
    }
  }

  /** Under any faults, a step's body is invoked at most once per claim granted to run forward. */
  lemma InvocationsBoundedByClaims(cfg: Config, now: int, acts: seq<Action>, i: nat)
    requires Valid(cfg, Init(now), acts)
    ensures Invocations(acts, i) <= ForwardClaims(cfg, Init(now), acts)
  {
    Counting(cfg, now, acts, i);
    AccountedRun(cfg, now, acts);
    var s := Run(cfg, Init(now), acts);
    forall t | t in BegunBy(acts, i)
      ensures t in ForwardTokens(s)
    {
      assert Begun(acts, t, i);
    }
    SubsetSize(BegunBy(acts, i), ForwardTokens(s));
  }

  lemma {:induction false} SubsetSize(a: set<nat>, b: set<nat>)
    requires a <= b
    ensures |a| <= |b|
  {
    if a != {} {
      var x :| x in a;
      SubsetSize(a - {x}, b - {x});
    }
  }

  /** The holder never invokes a step that is checkpointed, nor an undo that is. */
  lemma HolderNeverRepeats(cfg: Config, now: int, acts: seq<Action>, a: Action)
    requires var s := Run(cfg, Init(now), acts); Enabled(cfg, s, a) && OfClaim(a) && Holds(s, a.t)
    ensures var s := Run(cfg, Init(now), acts);
            && (a.Begin? ==> a.i !in s.db.forward)
            && (a.BeginUndo? ==> a.j in s.db.forward && a.j !in s.db.undone)
  {
    InitInv(cfg, now);
    RunInv(cfg, Init(now), acts);
  }
}
