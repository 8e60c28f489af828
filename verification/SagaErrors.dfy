/**
 What the `error` column tells: told from the history alone, which of its causes happened.
 */
module SagaErrors {
  import opened Storage
  import opened Saga
  import opened SagaInvariant

  /** Some forward owner recorded a failure. */
  predicate Failed(cfg: Config, s: State, acts: seq<Action>) {
    acts != [] &&
    var front, a := acts[..|acts| - 1], acts[|acts| - 1];
    Failed(cfg, s, front) || ((a.Retry? || a.Compensate?) && Matches(cfg, Run(cfg, s, front), a))
  }

  predicate Matches(cfg: Config, s: State, a: Action) { OfClaim(a) && Enabled(cfg, s, a) && Holds(s, a.t) }

  /** Some cancel was accepted. */
  predicate Cancelled(cfg: Config, s: State, acts: seq<Action>) {
    acts != [] &&
    var front, a := acts[..|acts| - 1], acts[|acts| - 1];
    Cancelled(cfg, s, front) || (a == CancelRequest && Enabled(cfg, Run(cfg, s, front), a))
  }

  /** The column, given the status and what has happened. */
  predicate Tells(row: Row, failed: bool, cancelled: bool) {
    match row.status
    case Success => row.fault == NoFault
    case FailedDirty => row.fault.UndoFault?
    case _ => row.fault == if failed then StepFault else if cancelled then CancelledByUser else NoFault
  }

  lemma FaultByWorker(cfg: Config, now: int, db: Db, t: nat, x: Session, a: Action)
    requires OfClaim(a) && Ready(cfg, x, a)
    ensures var row := Act(cfg, now, db, t, x, a).0.row;
            if (a.Retry? || a.Compensate?) && Held(db.row, Own(t, x))
            then row.fault == StepFault && (row.status == Pending || row.status == Compensating)
            else || (row.fault == db.row.fault && (row.status == db.row.status || row.status == Compensated))
                 || (a.Finish? && row.status == Success && row.fault == NoFault)
                 || (a.Dirty? && row.status == FailedDirty && row.fault.UndoFault?)
  {
    match a
    case Commit(_) =>
    case CommitUndone(_) =>
    case FinishUndone(_) =>
    case _ =>
  }

  lemma TerminalWorker(cfg: Config, s: State, a: Action)
    requires Inv(cfg, s) && Terminal(s.db.row.status) && OfClaim(a) && Enabled(cfg, s, a)
    ensures Next(cfg, s, a).db == s.db && !Holds(s, a.t)
  {
    NotHeldWritesNothing(cfg, s.now, s.db, a.t, s.sessions[a.t], a);
  }

  lemma TellsNext(cfg: Config, s: State, a: Action, failed: bool, cancelled: bool)
    requires Inv(cfg, s) && Tells(s.db.row, failed, cancelled)
    ensures Tells(Next(cfg, s, a).db.row,
                  failed || ((a.Retry? || a.Compensate?) && Matches(cfg, s, a)),
                  cancelled || (a == CancelRequest && Enabled(cfg, s, a)))
  {
    if Enabled(cfg, s, a) && OfClaim(a) {
      if Terminal(s.db.row.status) {
        TerminalWorker(cfg, s, a);
      } else {
        FaultByWorker(cfg, s.now, s.db, a.t, s.sessions[a.t], a);
      }
    }
  }

  /**
   In every state short of SUCCESS and FAILED_DIRTY the column names a step's failure if any owner recorded
   one, else the cancel if one was accepted, else nothing: a cancel never hides a failure, and no later
   unwind or deferral erases either. SUCCESS clears it; FAILED_DIRTY names the undo that failed.
   */
  lemma {:induction false} ErrorTellsWhy(cfg: Config, now: int, acts: seq<Action>)
    ensures Inv(cfg, Run(cfg, Init(now), acts))
    ensures Tells(Run(cfg, Init(now), acts).db.row, Failed(cfg, Init(now), acts), Cancelled(cfg, Init(now), acts))
  {
    InitInv(cfg, now);
    RunInv(cfg, Init(now), acts);
    if acts != [] {
      var front, a := acts[..|acts| - 1], acts[|acts| - 1];
      ErrorTellsWhy(cfg, now, front);
      TellsNext(cfg, Run(cfg, Init(now), front), a, Failed(cfg, Init(now), front), Cancelled(cfg, Init(now), front));
    }
  }
}
