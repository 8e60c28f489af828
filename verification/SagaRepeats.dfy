/**
 When a worker is about to do again what has been done: the exact condition, for any worker, and one that
 it could check by reading the checkpoints once more.
 */
module SagaRepeats {
  import opened Storage
  import opened Saga
  import opened SagaInvariant

  /** `m` is what `forward` holds below step i, and has nothing missing there. */
  ghost predicate Prefix(m: map<nat, Value>, forward: map<nat, Value>, i: nat) {
    && (forall k: nat :: k in m <==> 1 <= k < i)
    && (forall k :: k in m ==> k in forward && m[k] == forward[k])
  }

  ghost predicate Resumes(cfg: Config, db: Db, x: Session, j: nat) {
    && x.unwinding && x.completed == db.forward
    && x.compensated <= db.undone && UndoneAbove(cfg, db, j)
  }

  /** What any worker knows of the tables, however long ago it lost the row. */
  ghost predicate Knows(cfg: Config, db: Db, x: Session) {
    && (forall k :: k in x.completed ==> k in db.forward && x.completed[k] == db.forward[k])
    && match x.pc
       case AtStep(i) => !x.unwinding && i >= 1 && Prefix(x.outputs, db.forward, i)
       case InStep(i) => !x.unwinding && i >= 1 && Prefix(x.outputs, db.forward, i)
       case Ran(i, _) => !x.unwinding && i >= 1 && Prefix(x.outputs, db.forward, i)
       case AtUndo(j) => Resumes(cfg, db, x, j)
       case InUndo(j, _) => Resumes(cfg, db, x, j)
       case Undid(j) => Resumes(cfg, db, x, j)
       case _ => true
  }

  lemma OwnForwardStepKnows(cfg: Config, now: int, db: Db, t: nat, x: Session, a: Action)
    requires OfClaim(a) && Ready(cfg, x, a) && Knows(cfg, db, x) && !x.unwinding
    requires a.Commit? && Held(db.row, Own(t, x)) ==> x.pc.i !in db.forward
    ensures var (db', x') := Act(cfg, now, db, t, x, a); Knows(cfg, db', x')
  {
  }

  lemma OwnUnwindStepKnows(cfg: Config, now: int, db: Db, t: nat, x: Session, a: Action)
    requires OfClaim(a) && Ready(cfg, x, a) && Knows(cfg, db, x) && x.unwinding
    ensures var (db', x') := Act(cfg, now, db, t, x, a); Knows(cfg, db', x')
  {
    match a
    case Load(_) =>
    case Pass(_) =>
    case CommitUndone(_) =>
    case _ =>
  }

  /** Knowledge survives tables that grow, and do not grow forward under an unwind. */
  lemma OthersStepKnows(cfg: Config, db: Db, db': Db, x: Session)
    requires Knows(cfg, db, x)
    requires forall k :: k in db.forward ==> k in db'.forward && db'.forward[k] == db.forward[k]
    requires db.undone <= db'.undone && (x.unwinding ==> db'.forward == db.forward)
    ensures Knows(cfg, db', x)
  {
  }

  ghost predicate AllKnow(cfg: Config, s: State) {
    forall t :: t in s.sessions ==> Knows(cfg, s.db, s.sessions[t])
  }

  lemma WorkerAllKnow(cfg: Config, s: State, a: Action)
    requires Inv(cfg, s) && AllKnow(cfg, s) && OfClaim(a) && Enabled(cfg, s, a)
    ensures AllKnow(cfg, Next(cfg, s, a))
  {
    var s', x := Next(cfg, s, a), s.sessions[a.t];
    TablesGrow(cfg, s, a);
    forall t | t in s'.sessions ensures Knows(cfg, s'.db, s'.sessions[t]) {
      if t != a.t {
        assert s.sessions[t].unwinding ==> Unwound(s);
        OthersStepKnows(cfg, s.db, s'.db, s.sessions[t]);
      } else if x.unwinding {
        OwnUnwindStepKnows(cfg, s.now, s.db, t, x, a);
      } else {
        OwnForwardStepKnows(cfg, s.now, s.db, t, x, a);
      }
    }
  }

  lemma {:induction false} RunAllKnow(cfg: Config, now: int, acts: seq<Action>)
    ensures Inv(cfg, Run(cfg, Init(now), acts)) && AllKnow(cfg, Run(cfg, Init(now), acts))
  {
    InitInv(cfg, now);
    RunInv(cfg, Init(now), acts);
    if acts != [] {
      var front, a := acts[..|acts| - 1], acts[|acts| - 1];
      RunAllKnow(cfg, now, front);
      NextAllKnow(cfg, Run(cfg, Init(now), front), a);
    }
  }

  lemma NextAllKnow(cfg: Config, s: State, a: Action)
    requires Inv(cfg, s) && AllKnow(cfg, s)
    ensures AllKnow(cfg, Next(cfg, s, a))
  {
    if Enabled(cfg, s, a) && OfClaim(a) { WorkerAllKnow(cfg, s, a); }
  }

  /**
   A worker about to invoke step i, holder or not, repeats a checkpointed step if and only if the outputs it
   goes by are not the FORWARD rows of the moment: it has been overtaken.
   */
  lemma RepeatsExactlyWhenBehind(cfg: Config, now: int, acts: seq<Action>, t: nat, i: nat)
    requires Enabled(cfg, Run(cfg, Init(now), acts), Begin(t, i))
    ensures var s := Run(cfg, Init(now), acts);
            i in s.db.forward <==> s.sessions[t].outputs != s.db.forward
  {
    RunAllKnow(cfg, now, acts);
    BehindAt(cfg, Run(cfg, Init(now), acts), t, i);
  }

  lemma BehindAt(cfg: Config, s: State, t: nat, i: nat)
    requires Inv(cfg, s) && AllKnow(cfg, s) && Enabled(cfg, s, Begin(t, i))
    ensures i in s.db.forward <==> s.sessions[t].outputs != s.db.forward
  {
    var x := s.sessions[t];
    if i !in s.db.forward {
      forall k: nat ensures k in x.outputs <==> k in s.db.forward {
        assert k in s.db.forward && i <= k ==> i in s.db.forward;
      }
      assert x.outputs == s.db.forward;
    }
  }

  /** The compensable steps of `completed` above j: what an unwind has behind it when it gets to j. */
  function Above(cfg: Config, completed: map<nat, Value>, j: nat): set<nat> {
    set k | k in completed && j < k && Compensable(cfg, k)
  }

  /**
   A worker about to invoke the undo of step j, holder or not, repeats one that is recorded if and only if
   there is a COMPENSATION row at or below j: the rows are not just those above it.
   */
  lemma UndoRepeatsExactlyWhenBehind(cfg: Config, now: int, acts: seq<Action>, t: nat, j: nat)
    requires Enabled(cfg, Run(cfg, Init(now), acts), BeginUndo(t, j))
    ensures var s := Run(cfg, Init(now), acts);
            && (j in s.db.undone <==> exists k :: k in s.db.undone && k <= j)
            && (j in s.db.undone <==> s.db.undone != Above(cfg, s.sessions[t].completed, j))
  {
    RunAllKnow(cfg, now, acts);
    UndoBehindAt(cfg, Run(cfg, Init(now), acts), t, j);
  }

  lemma UndoBehindAt(cfg: Config, s: State, t: nat, j: nat)
    requires Inv(cfg, s) && AllKnow(cfg, s) && Enabled(cfg, s, BeginUndo(t, j))
    ensures j in s.db.undone <==> exists k :: k in s.db.undone && k <= j
    ensures j in s.db.undone <==> s.db.undone != Above(cfg, s.sessions[t].completed, j)
  {
    var x := s.sessions[t];
    assert Knows(cfg, s.db, x);
    if k :| k in s.db.undone && k <= j { assert k < j ==> j in s.db.undone; }
    assert j !in Above(cfg, x.completed, j);
    if j !in s.db.undone {
      assert forall k :: k in s.db.undone ==> j < k;
      assert s.db.undone == Above(cfg, x.completed, j);
    }
  }
}
