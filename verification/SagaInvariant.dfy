/**
 What every action keeps. The tables' own shape comes first; then what the local state of the claim
 holding the newest token says about them. Nothing is said about older claims, and nothing has to
 be: the ownership guard makes their writes change nothing.
 */
module SagaInvariant {
  import opened Prelude
  import opened Storage
  import opened Saga

  /** Some claim was granted on a COMPENSATING row. */
  predicate Unwound(s: State) {
    s.db.row.token in s.sessions && s.sessions[s.db.row.token].unwinding
  }

  /** FORWARD rows are an initial segment; COMPENSATION rows are the compensable ones above a cut. */
  ghost predicate Shape(cfg: Config, db: Db) {
    && (forall k :: k in db.forward ==> 1 <= k <= Count(cfg))
    && (forall k, m :: k in db.forward && 1 <= m < k ==> m in db.forward)
    && (forall k :: k in db.undone ==> k in db.forward && Compensable(cfg, k))
    && (forall k, m :: k in db.undone && k < m && m in db.forward && Compensable(cfg, m) ==> m in db.undone)
  }

  /** Every compensable committed step above `j` is undone. */
  ghost predicate UndoneAbove(cfg: Config, db: Db, j: int) {
    forall k :: k in db.forward && j < k && Compensable(cfg, k) ==> k in db.undone
  }

  /** Step `j` is committed, compensable and not undone, and everything above it is. */
  ghost predicate StoppedAt(cfg: Config, db: Db, j: nat) {
    j in db.forward && Compensable(cfg, j) && j !in db.undone && UndoneAbove(cfg, db, j)
  }

  ghost predicate Settled(cfg: Config, db: Db) {
    match db.row.status
    case Success =>
      && (forall k :: 1 <= k <= Count(cfg) ==> k in db.forward)
      && db.row.output == Some(db.forward)
    case Compensated => UndoneAbove(cfg, db, 0)
    case FailedDirty => db.row.fault.UndoFault? && StoppedAt(cfg, db, db.row.fault.step)
    case _ => true
  }

  function Below(m: map<nat, Value>, i: int): map<nat, Value> {
    map k | k in m && k < i :: m[k]
  }

  ghost predicate ReplayOk(cfg: Config, db: Db, x: Session, i: nat) {
    && 1 <= i <= Count(cfg) + 1
    && !x.unwinding
    && (forall k :: 1 <= k < i ==> k in db.forward)
    && (forall k :: k in db.forward && i <= k ==> k in x.completed)
    && (forall k :: k in x.completed ==> k in db.forward && x.completed[k] == db.forward[k])
    && x.outputs == Below(db.forward, i)
  }

  ghost predicate UnwindOk(cfg: Config, db: Db, x: Session, j: nat) {
    && j <= Count(cfg)
    && x.unwinding
    && x.completed == db.forward
    && x.outputs == db.forward
    && x.compensated <= db.undone
    && UndoneAbove(cfg, db, j)
    && (forall k :: k in db.undone && k <= j ==> k in x.compensated)
  }

  /** What the newest claim's worker knows about the tables. */
  ghost predicate HolderOk(cfg: Config, db: Db, x: Session) {
    match x.pc
    case AtLoad => true
    case AtStep(i) => ReplayOk(cfg, db, x, i)
    case InStep(i) => ReplayOk(cfg, db, x, i) && i <= Count(cfg) && i !in x.completed
    case Ran(i, _) => ReplayOk(cfg, db, x, i) && i <= Count(cfg) && i !in x.completed
    case Failing(_) => !x.unwinding
    case AtUndo(j) => UnwindOk(cfg, db, x, j)
    case InUndo(j, tries) =>
      UnwindOk(cfg, db, x, j) && StoppedAt(cfg, db, j) && (tries <= 1 || tries <= cfg.undoAttempts)
    case Undid(j) => UnwindOk(cfg, db, x, j) && StoppedAt(cfg, db, j)
    case Stuck(j) => UnwindOk(cfg, db, x, j) && StoppedAt(cfg, db, j)
    case Over => true
  }

  ghost predicate Claims(s: State) {
    && (forall t :: t in s.sessions ==> 1 <= t <= s.db.row.token)
    && (s.db.row.token > 0 ==> s.db.row.token in s.sessions)
    && s.db.row.attempt == s.db.row.token
    && (s.db.row.owner.Some? <==> s.db.row.lease.Some?)
    && (forall t :: t in s.sessions ==> s.sessions[t].attempt == t)
    && (s.db.row.owner.Some? ==>
          && s.db.row.token in s.sessions
          && s.db.row.owner.value == s.sessions[s.db.row.token].owner
          && (s.db.row.status == Running || s.db.row.status == Compensating))
  }

  /** Once an unwinding claim exists, the newest claim is one, and the row stays in the unwind. */
  ghost predicate OneWay(s: State) {
    && (forall t :: t in s.sessions && s.sessions[t].unwinding ==> Unwound(s))
    && (Unwound(s) ==> InUnwind(s.db.row.status))
    && (s.db.undone != {} || s.db.row.status == Compensated || s.db.row.status == FailedDirty ==> Unwound(s))
  }

  ghost predicate Inv(cfg: Config, s: State) {
    && Claims(s)
    && OneWay(s)
    && Shape(cfg, s.db)
    && Settled(cfg, s.db)
    && (s.db.row.token in s.sessions ==> HolderOk(cfg, s.db, s.sessions[s.db.row.token]))
  }

  lemma InitInv(cfg: Config, now: int)
    ensures Inv(cfg, Init(now))
  {
  }

  /** A worker whose guard does not match changes no table. */
  lemma NotHeldWritesNothing(cfg: Config, now: int, db: Db, t: nat, x: Session, a: Action)
    requires OfClaim(a) && Ready(cfg, x, a)
    requires !Held(db.row, Own(t, x))
    ensures Act(cfg, now, db, t, x, a).0 == db
  {
  }

  /** No worker changes who it is. */
  lemma IdentityKept(cfg: Config, now: int, db: Db, t: nat, x: Session, a: Action)
    requires OfClaim(a) && Ready(cfg, x, a)
    ensures var x' := Act(cfg, now, db, t, x, a).1;
            x'.owner == x.owner && x'.unwinding == x.unwinding && x'.attempt == x.attempt
  {
    match a
    case Load(_) =>
    case Commit(_) =>
    case CommitUndone(_) =>
    case Renew(_, _) =>
    case _ =>
  }

  predicate Moves(a: Action) {
    a.Load? || a.Replay? || a.Begin? || a.Emit? || a.Return? || a.Raise? || a.Pass? || a.BeginUndo?
    || a.UndoReturn? || a.UndoRaise? || a.Drop?
  }

  /** Local steps of the newest claim, running forward. */
  lemma ForwardMoveKeeps(cfg: Config, now: int, db: Db, t: nat, x: Session, a: Action)
    requires Moves(a) && Ready(cfg, x, a) && !x.unwinding
    requires Shape(cfg, db) && HolderOk(cfg, db, x)
    ensures HolderOk(cfg, db, Act(cfg, now, db, t, x, a).1)
  {
    if a.Replay? {
      var x' := Act(cfg, now, db, t, x, a).1;
      assert x'.outputs == Below(db.forward, x.pc.i + 1);
    } else if a.Load? {
      assert map[] == Below(db.forward, 1);
    }
  }

  /** Local steps of the newest claim, unwinding. */
  lemma UnwindMoveKeeps(cfg: Config, now: int, db: Db, t: nat, x: Session, a: Action)
    requires Moves(a) && Ready(cfg, x, a) && x.unwinding
    requires Shape(cfg, db) && HolderOk(cfg, db, x)
    ensures HolderOk(cfg, db, Act(cfg, now, db, t, x, a).1)
  {
  }

  lemma MoveKeeps(cfg: Config, now: int, db: Db, t: nat, x: Session, a: Action)
    requires Moves(a) && Ready(cfg, x, a)
    requires Shape(cfg, db) && HolderOk(cfg, db, x)
    ensures var (db', x') := Act(cfg, now, db, t, x, a); db' == db && HolderOk(cfg, db, x')
  {
    if x.unwinding {
      UnwindMoveKeeps(cfg, now, db, t, x, a);
    } else {
      ForwardMoveKeeps(cfg, now, db, t, x, a);
    }
  }

  lemma CommitKeeps(cfg: Config, now: int, db: Db, t: nat, x: Session, a: Action)
    requires a.Commit? && Ready(cfg, x, a)
    requires Shape(cfg, db) && HolderOk(cfg, db, x) && Held(db.row, Own(t, x))
    requires db.undone == {}
    ensures var (db', x') := Act(cfg, now, db, t, x, a);
            && db' == db.(forward := db.forward[x.pc.i := x.pc.result], outbox := db.outbox + x.buffer)
            && x.pc.i !in db.forward
            && Shape(cfg, db') && HolderOk(cfg, db', x') && x'.pc == AtStep(x.pc.i + 1)
  {
    var (db', x') := Act(cfg, now, db, t, x, a);
    assert x'.outputs == Below(db'.forward, x.pc.i + 1);
  }

  lemma CommitUndoneKeeps(cfg: Config, now: int, db: Db, t: nat, x: Session, a: Action)
    requires a.CommitUndone? && Ready(cfg, x, a)
    requires Shape(cfg, db) && HolderOk(cfg, db, x) && Held(db.row, Own(t, x)) && db.row.status == Compensating
    ensures var (db', x') := Act(cfg, now, db, t, x, a);
            && db' == db.(undone := db.undone + {x.pc.j}, outbox := db.outbox + x.buffer)
            && x.pc.j !in db.undone
            && Shape(cfg, db') && HolderOk(cfg, db', x') && x.pc.j > 0 && x'.pc == AtUndo(x.pc.j - 1)
  {
  }

  /** A holder's write either gives the row up or leaves owner and status as they were. */
  predicate SameHold(row: Row, row': Row) {
    || (row'.owner == None && row'.lease == None)
    || (row'.owner == row.owner && row'.status == row.status && (row'.owner.Some? <==> row'.lease.Some?))
  }

  /** What a write of the newest claim leaves, besides the checkpoints. */
  ghost predicate WriteOk(cfg: Config, db: Db, x: Session, db': Db, x': Session) {
    && db'.forward == db.forward && db'.undone == db.undone
    && db'.row.token == db.row.token && db'.row.attempt == db.row.attempt
    && SameHold(db.row, db'.row)
    && Settled(cfg, db') && HolderOk(cfg, db', x')
    && (x.unwinding ==> InUnwind(db'.row.status))
    && (!x.unwinding ==> db'.row.status != Compensated && db'.row.status != FailedDirty)
  }

  /** Finish, retry and begin compensating: the ends of a forward claim. */
  lemma ForwardWriteKeeps(cfg: Config, now: int, db: Db, t: nat, x: Session, a: Action)
    requires (a.Finish? || a.Retry? || a.Compensate?) && Ready(cfg, x, a)
    requires Shape(cfg, db) && HolderOk(cfg, db, x) && Held(db.row, Own(t, x))
    requires (db.row.status == Running || db.row.status == Compensating) && db.row.lease.Some?
    ensures var (db', x') := Act(cfg, now, db, t, x, a); WriteOk(cfg, db, x, db', x')
  {
    if a.Finish? {
      assert Below(db.forward, Count(cfg) + 1) == db.forward;
    }
  }

  /** Finish, stop or hand back: the ends of an unwinding claim. */
  lemma UnwindWriteKeeps(cfg: Config, now: int, db: Db, t: nat, x: Session, a: Action)
    requires (a.FinishUndone? || a.Dirty? || a.Defer?) && Ready(cfg, x, a)
    requires HolderOk(cfg, db, x) && Held(db.row, Own(t, x))
    requires db.row.status == Compensating && db.row.lease.Some?
    ensures var (db', x') := Act(cfg, now, db, t, x, a); WriteOk(cfg, db, x, db', x')
  {
  }

  lemma RenewKeeps(cfg: Config, now: int, db: Db, t: nat, x: Session, a: Action)
    requires a.Renew? && Ready(cfg, x, a)
    requires HolderOk(cfg, db, x) && Settled(cfg, db)
    requires db.row.status == Running || db.row.status == Compensating
    requires db.row.owner.Some? <==> db.row.lease.Some?
    requires x.unwinding ==> db.row.status == Compensating
    requires Held(db.row, Own(t, x))
    ensures var (db', x') := Act(cfg, now, db, t, x, a); WriteOk(cfg, db, x, db', x')
  {
    var (db', x') := Act(cfg, now, db, t, x, a);
    SameTables(cfg, db, db', x, x');
  }

  /** The holder's view depends on the checkpoints alone. */
  lemma SameTables(cfg: Config, db: Db, db': Db, x: Session, x': Session)
    requires db'.forward == db.forward && db'.undone == db.undone
    requires x' == x.(lost := x'.lost)
    requires HolderOk(cfg, db, x)
    ensures HolderOk(cfg, db', x')
  {
  }

  lemma WriteKeeps(cfg: Config, now: int, db: Db, t: nat, x: Session, a: Action)
    requires OfClaim(a) && !Moves(a) && !a.Commit? && !a.CommitUndone? && Ready(cfg, x, a)
    requires Shape(cfg, db) && Settled(cfg, db) && HolderOk(cfg, db, x) && Held(db.row, Own(t, x))
    requires db.row.status == Running || db.row.status == Compensating
    requires db.row.lease.Some?
    requires x.unwinding ==> db.row.status == Compensating
    ensures var (db', x') := Act(cfg, now, db, t, x, a); WriteOk(cfg, db, x, db', x')
  {
    if a.Renew? {
      RenewKeeps(cfg, now, db, t, x, a);
    } else if x.unwinding {
      UnwindWriteKeeps(cfg, now, db, t, x, a);
    } else {
      ForwardWriteKeeps(cfg, now, db, t, x, a);
    }
  }

  /** Puts one claim's new local state and the new tables back together. */
  lemma Assemble(cfg: Config, s: State, db': Db, x': Session)
    requires Inv(cfg, s) && s.db.row.token in s.sessions
    requires var x := s.sessions[s.db.row.token];
             x'.owner == x.owner && x'.unwinding == x.unwinding && x'.attempt == x.attempt
    requires db'.row.token == s.db.row.token && db'.row.attempt == s.db.row.attempt
    requires SameHold(s.db.row, db'.row)
    requires x'.unwinding ==> InUnwind(db'.row.status)
    requires !x'.unwinding ==> db'.undone == {} && db'.row.status != Compensated && db'.row.status != FailedDirty
    requires Shape(cfg, db') && Settled(cfg, db') && HolderOk(cfg, db', x')
    ensures Inv(cfg, s.(db := db', sessions := s.sessions[s.db.row.token := x']))
  {
  }

  /** The newest claim's worker keeps everything. */
  lemma HolderKeeps(cfg: Config, s: State, a: Action)
    requires Inv(cfg, s) && OfClaim(a) && Enabled(cfg, s, a) && a.t == s.db.row.token
    ensures Inv(cfg, Next(cfg, s, a))
  {
    var t, x := a.t, s.sessions[a.t];
    var (db', x') := Act(cfg, s.now, s.db, t, x, a);
    IdentityKept(cfg, s.now, s.db, t, x, a);
    HolderOutcome(cfg, s, a);
    Assemble(cfg, s, db', x');
  }

  lemma HolderOutcome(cfg: Config, s: State, a: Action)
    requires Inv(cfg, s) && OfClaim(a) && Enabled(cfg, s, a) && a.t == s.db.row.token
    ensures var x := s.sessions[a.t];
            var (db', x') := Act(cfg, s.now, s.db, a.t, x, a);
            && db'.row.token == s.db.row.token && db'.row.attempt == s.db.row.attempt
            && Shape(cfg, db') && Settled(cfg, db') && HolderOk(cfg, db', x')
            && SameHold(s.db.row, db'.row)
            && (x.unwinding ==> InUnwind(db'.row.status))
            && (!x.unwinding ==> db'.undone == {} && db'.row.status != Compensated && db'.row.status != FailedDirty)
  {
    var t, x := a.t, s.sessions[a.t];
    if Moves(a) {
      MoveKeeps(cfg, s.now, s.db, t, x, a);
    } else if !Held(s.db.row, Own(t, x)) {
      NotHeldWritesNothing(cfg, s.now, s.db, t, x, a);
      NotHeldKeeps(cfg, s.now, s.db, t, x, a);
    } else if a.Commit? {
      CommitKeeps(cfg, s.now, s.db, t, x, a);
    } else if a.CommitUndone? {
      CommitUndoneKeeps(cfg, s.now, s.db, t, x, a);
    } else {
      WriteKeeps(cfg, s.now, s.db, t, x, a);
    }
  }

  lemma NotHeldKeeps(cfg: Config, now: int, db: Db, t: nat, x: Session, a: Action)
    requires OfClaim(a) && !Moves(a) && Ready(cfg, x, a)
    requires HolderOk(cfg, db, x) && !Held(db.row, Own(t, x))
    ensures HolderOk(cfg, db, Act(cfg, now, db, t, x, a).1)
  {
  }

  /** Any other claim's worker changes nothing the invariant speaks about. */
  lemma StaleKeeps(cfg: Config, s: State, a: Action)
    requires Inv(cfg, s) && OfClaim(a) && Enabled(cfg, s, a) && a.t != s.db.row.token
    ensures Next(cfg, s, a).db == s.db
    ensures Inv(cfg, Next(cfg, s, a))
  {
    var t, x := a.t, s.sessions[a.t];
    IdentityKept(cfg, s.now, s.db, t, x, a);
    NotHeldWritesNothing(cfg, s.now, s.db, t, x, a);
  }

  lemma ClaimKeeps(cfg: Config, s: State, a: Action)
    requires Inv(cfg, s) && a.Claim? && Enabled(cfg, s, a)
    ensures Inv(cfg, Next(cfg, s, a))
  {
  }

  lemma CancelKeeps(cfg: Config, s: State, a: Action)
    requires Inv(cfg, s) && a.CancelRequest? && Enabled(cfg, s, a)
    ensures Inv(cfg, Next(cfg, s, a))
  {
    var s' := Next(cfg, s, a);
    if s.db.row.token in s.sessions {
      var x := s.sessions[s.db.row.token];
      SameTables(cfg, s.db, s'.db, x, x);
    }
  }

  lemma NextInv(cfg: Config, s: State, a: Action)
    requires Inv(cfg, s)
    ensures Inv(cfg, Next(cfg, s, a))
  {
    if Enabled(cfg, s, a) {
      if a.Claim? { ClaimKeeps(cfg, s, a); }
      else if a.CancelRequest? { CancelKeeps(cfg, s, a); }
      else if OfClaim(a) {
        if a.t == s.db.row.token { HolderKeeps(cfg, s, a); } else { StaleKeeps(cfg, s, a); }
      }
    }
  }

  /** The invariant holds after every run from every submitted saga. */
  lemma {:induction false} RunInv(cfg: Config, s: State, acts: seq<Action>)
    requires Inv(cfg, s)
    ensures Inv(cfg, Run(cfg, s, acts))
  {
    if acts != [] {
      RunInv(cfg, s, acts[..|acts| - 1]);
      NextInv(cfg, Run(cfg, s, acts[..|acts| - 1]), acts[|acts| - 1]);
    }
  }

  /** How a worker's step can change the checkpoints. */
  lemma TablesGrow(cfg: Config, s: State, a: Action)
    requires Inv(cfg, s) && OfClaim(a) && Enabled(cfg, s, a)
    ensures var x, db' := s.sessions[a.t], Next(cfg, s, a).db;
            || (db'.forward == s.db.forward && db'.undone == s.db.undone)
            || (x.pc.Ran? && !Unwound(s) && x.pc.i !in s.db.forward
                && db'.forward == s.db.forward[x.pc.i := x.pc.result] && db'.undone == s.db.undone)
            || (x.pc.Undid? && db'.forward == s.db.forward && db'.undone == s.db.undone + {x.pc.j})
    ensures Unwound(s) ==> Unwound(Next(cfg, s, a))
    ensures a.Commit? && Holds(s, a.t) ==> s.sessions[a.t].pc.i !in s.db.forward
  {
    var x := s.sessions[a.t];
    IdentityKept(cfg, s.now, s.db, a.t, x, a);
    if a.t != s.db.row.token {
      StaleKeeps(cfg, s, a);
    } else if a.Commit? && Held(s.db.row, Own(a.t, x)) {
      CommitKeeps(cfg, s.now, s.db, a.t, x, a);
    } else if a.CommitUndone? && Held(s.db.row, Own(a.t, x)) {
      CommitUndoneKeeps(cfg, s.now, s.db, a.t, x, a);
    } else {
      OnlyCommitsGrow(cfg, s.now, s.db, a.t, x, a);
    }
  }

  lemma OnlyCommitsGrow(cfg: Config, now: int, db: Db, t: nat, x: Session, a: Action)
    requires OfClaim(a) && Ready(cfg, x, a)
    requires !((a.Commit? || a.CommitUndone?) && Held(db.row, Own(t, x)))
    ensures var db' := Act(cfg, now, db, t, x, a).0;
            db'.forward == db.forward && db'.undone == db.undone && db'.row.token == db.row.token
  {
  }
}
