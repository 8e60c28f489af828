/**
 The saga protocol as a transition system: one saga's tables, a clock, and every claim ever granted.

 A claim is identified by its fencing token, because each claim increments it. Each keeps the local
 state of the worker that made it -- its snapshot, its loop position, its event buffer -- for as long
 as that worker may still act on it, long after another claim has superseded it. A step of the
 system is one SQL statement or transaction, or one local step of one worker. An action carries
 everything nondeterministic about it, so a run is a sequence of actions; an action that is not
 enabled changes nothing.
 */
module Saga {
  import opened Storage

  /** A validated definition: step i (1-based) is `steps[i-1]`; the flag says it has a compensation. */
  datatype Config = Config(steps: seq<bool>, maxAttempts: nat, undoAttempts: nat)

  function Count(cfg: Config): nat { |cfg.steps| }

  predicate Compensable(cfg: Config, i: nat) {
    1 <= i <= |cfg.steps| && cfg.steps[i - 1]
  }

  /** Where a claim's worker is. Positions in the forward loop count up, in the unwind down. */
  datatype Pc =
    | AtLoad                      // claimed, checkpoints not read yet
    | AtStep(i: nat)              // forward loop, about to look at step i
    | InStep(i: nat)              // step i's body is running
    | Ran(i: nat, result: Value)  // step i returned, not checkpointed yet
    | Failing(retry: bool)        // the failure branch, before its write
    | AtUndo(j: nat)              // unwind loop, about to look at step j
    | InUndo(j: nat, tries: nat)  // step j's compensation is running for the tries-th time
    | Undid(j: nat)               // it returned, not checkpointed yet
    | Stuck(j: nat)               // it cannot be made to succeed
    | Over                        // finished, preempted, crashed or cancelled

  datatype Session = Session(
    owner: string,
    unwinding: bool,              // the status the claim returned was COMPENSATING
    attempt: nat,
    pc: Pc,
    completed: map<nat, Value>,   // FORWARD rows as loaded
    compensated: set<nat>,        // COMPENSATION rows as loaded
    outputs: map<nat, Value>,     // what a step may read
    buffer: seq<Event>,           // events of the current attempt
    started: bool,                // some step has been invoked under this claim
    lost: bool)                   // a renewal came back empty-handed

  datatype State = State(now: int, db: Db, sessions: map<nat, Session>)

  datatype Action =
    | Tick(elapsed: nat)
    | CancelRequest
    | Claim(owner: string, duration: nat)
    | Load(t: nat)
    | Replay(t: nat)
    | Begin(t: nat, i: nat)
    | Emit(t: nat, event: Event)
    | Return(t: nat, result: Value)
    | Raise(t: nat, retryable: bool)
    | Commit(t: nat)
    | Finish(t: nat)
    | Retry(t: nat, delay: nat)
    | Compensate(t: nat)
    | Pass(t: nat)
    | BeginUndo(t: nat, j: nat)
    | UndoReturn(t: nat)
    | UndoRaise(t: nat, terminal: bool)
    | CommitUndone(t: nat)
    | FinishUndone(t: nat)
    | Dirty(t: nat)
    | Defer(t: nat, delay: nat)
    | Renew(t: nat, duration: nat)
    | Drop(t: nat)

  /** True of the actions a worker takes under its claim `a.t`. */
  predicate OfClaim(a: Action) {
    !a.Tick? && !a.CancelRequest? && !a.Claim?
  }

  function Own(t: nat, x: Session): Ownership { Ownership(x.owner, t) }

  /** The ownership guard would match for claim `t`. */
  predicate Holds(s: State, t: nat) {
    t in s.sessions && Held(s.db.row, Own(t, s.sessions[t]))
  }

  function Init(now: int): State { State(now, Submitted(now), map[]) }

  // ----- one claim's own steps -----------------------------------------------------------------

  /** Whether a worker whose local state is `x` can take `a` next. */
  predicate Ready(cfg: Config, x: Session, a: Action)
    requires OfClaim(a)
  {
    match a
    case Load(_) => x.pc.AtLoad?
    case Replay(_) => x.pc.AtStep? && 1 <= x.pc.i <= Count(cfg) && x.pc.i in x.completed
    case Begin(_, i) => x.pc == AtStep(i) && 1 <= i <= Count(cfg) && i !in x.completed && !x.lost
    case Emit(_, _) => x.pc.InStep? || x.pc.InUndo?
    case Return(_, _) => x.pc.InStep?
    case Raise(_, retryable) =>
      && (x.pc.AtStep? || x.pc.InStep? || x.pc.Ran?)
      && (retryable ==> x.started || (x.pc.AtStep? && x.pc.i <= Count(cfg) && x.pc.i !in x.completed))
    case Commit(_) => x.pc.Ran?
    case Finish(_) => x.pc == AtStep(Count(cfg) + 1)
    case Retry(_, _) => x.pc == Failing(true)
    case Compensate(_) => x.pc == Failing(false)
    case Pass(_) =>
      x.pc.AtUndo? && x.pc.j > 0
      && (x.pc.j !in x.completed || x.pc.j in x.compensated || !Compensable(cfg, x.pc.j))
    case BeginUndo(_, j) =>
      x.pc == AtUndo(j) && j in x.completed && j !in x.compensated && Compensable(cfg, j) && !x.lost
    case UndoReturn(_) => x.pc.InUndo?
    case UndoRaise(_, terminal) =>
      x.pc.InUndo? && (terminal || x.pc.tries >= cfg.undoAttempts || !x.lost)
    case CommitUndone(_) => x.pc.Undid?
    case FinishUndone(_) => x.pc == AtUndo(0)
    case Dirty(_) => x.pc.Stuck?
    case Defer(_, _) => x.pc.AtLoad? && x.unwinding
    case Renew(_, _) => !x.pc.Over? && !x.lost
    case Drop(_) => !x.pc.Over?
  }

  /** The transaction's verdict decides where the worker goes next. */
  function After(x: Session, w: Written, onDone: Pc): Pc {
    match w
    case Done => onDone
    case Preempted => Over
    case DuplicateKey => if x.unwinding then Over else Failing(false)
  }

  function Act(cfg: Config, now: int, db: Db, t: nat, x: Session, a: Action): (Db, Session)
    requires OfClaim(a) && Ready(cfg, x, a)
  {
    match a
    case Load(_) =>
      if x.unwinding
      then (db, x.(completed := db.forward, compensated := db.undone, outputs := db.forward, pc := AtUndo(Count(cfg))))
      else (db, x.(completed := db.forward, outputs := map[], pc := AtStep(1)))
    case Replay(_) =>
      (db, x.(outputs := x.outputs[x.pc.i := x.completed[x.pc.i]], pc := AtStep(x.pc.i + 1)))
    case Begin(_, i) => (db, x.(pc := InStep(i), buffer := [], started := true))
    case Emit(_, e) => (db, x.(buffer := x.buffer + [e]))
    case Return(_, v) => (db, x.(pc := Ran(x.pc.i, v)))
    case Raise(_, retryable) => (db, x.(pc := Failing(retryable && x.attempt < cfg.maxAttempts)))
    case Commit(_) =>
      var (db', w) := CommitStep(db, Own(t, x), x.pc.i, x.pc.result, x.buffer);
      (db', x.(pc := After(x, w, AtStep(x.pc.i + 1)), buffer := [],
               outputs := if w == Done then x.outputs[x.pc.i := x.pc.result] else x.outputs))
    case Finish(_) => (FinishSuccess(db, Own(t, x), x.outputs).0, x.(pc := Over))
    case Retry(_, delay) => (ScheduleRetry(db, Own(t, x), now + delay).0, x.(pc := Over))
    case Compensate(_) => (BeginCompensation(db, Own(t, x), now).0, x.(pc := Over))
    case Pass(_) => (db, x.(pc := AtUndo(x.pc.j - 1)))
    case BeginUndo(_, j) => (db, x.(pc := InUndo(j, 1), buffer := []))
    case UndoReturn(_) => (db, x.(pc := Undid(x.pc.j)))
    case UndoRaise(_, terminal) =>
      if terminal || x.pc.tries >= cfg.undoAttempts then (db, x.(pc := Stuck(x.pc.j)))
      else (db, x.(pc := InUndo(x.pc.j, x.pc.tries + 1), buffer := []))
    case CommitUndone(_) =>
      var (db', w) := CommitUndo(db, Own(t, x), x.pc.j, x.buffer);
      (db', x.(pc := After(x, w, AtUndo(if x.pc.j > 0 then x.pc.j - 1 else 0)), buffer := []))
    case FinishUndone(_) => (FinishCompensated(db, Own(t, x)).0, x.(pc := Over))
    case Dirty(_) => (FailDirty(db, Own(t, x), x.pc.j).0, x.(pc := Over))
    case Defer(_, delay) => (DeferCompensation(db, Own(t, x), now + delay).0, x.(pc := Over))
    case Renew(_, duration) =>
      var (db', ok) := RenewLease(db, Own(t, x), now + duration);
      (db', x.(lost := !ok))
    case Drop(_) => (db, x.(pc := Over))
  }

  // ----- the whole system ----------------------------------------------------------------------

  predicate Enabled(cfg: Config, s: State, a: Action) {
    match a
    case Tick(_) => true
    case CancelRequest => s.db.row.status == Pending || s.db.row.status == Running
    case Claim(_, _) => Claimable(s.db.row, s.now)
    case _ => a.t in s.sessions && Ready(cfg, s.sessions[a.t], a)
  }

  function Granted(row: Row, owner: string): Session {
    Session(owner, row.status == Compensating, row.attempt + 1, AtLoad, map[], {}, map[], [], false, false)
  }

  function Next(cfg: Config, s: State, a: Action): State {
    if !Enabled(cfg, s, a) then s
    else
      match a
      case Tick(d) => s.(now := s.now + d)
      case CancelRequest => s.(db := Cancel(s.db, s.now).0)
      case Claim(owner, duration) =>
        var row := ClaimRow(s.db.row, owner, s.now + duration);
        s.(db := s.db.(row := row), sessions := s.sessions[row.token := Granted(s.db.row, owner)])
      case _ =>
        var (db', x') := Act(cfg, s.now, s.db, a.t, s.sessions[a.t], a);
        s.(db := db', sessions := s.sessions[a.t := x'])
  }

  function Run(cfg: Config, s: State, acts: seq<Action>): State {
    if acts == [] then s else Next(cfg, Run(cfg, s, acts[..|acts| - 1]), acts[|acts| - 1])
  }

  /** Every action of the run was enabled when it was taken. */
  predicate Valid(cfg: Config, s: State, acts: seq<Action>) {
    acts == [] ||
    (Valid(cfg, s, acts[..|acts| - 1]) && Enabled(cfg, Run(cfg, s, acts[..|acts| - 1]), acts[|acts| - 1]))
  }

  lemma {:induction false} RunConcat(cfg: Config, s: State, a: seq<Action>, b: seq<Action>)
    ensures Run(cfg, s, a + b) == Run(cfg, Run(cfg, s, a), b)
  {
    if b == [] {
      assert a + b == a;
    } else {
      assert (a + b)[..|a + b| - 1] == a + b[..|b| - 1];
      RunConcat(cfg, s, a, b[..|b| - 1]);
    }
  }
}
