/**
 `execute_workflow` and `_compensate`, as loops that write to the store while everyone else does too.

 Between any two statements of a worker the rest of the system may take any number of steps: time
 passes, other claims are granted, other workers write, the API cancels, this claim's own background
 renewer ticks. A step body or compensation may do anything it can: emit, return, raise, be
 preempted, or never come back. Whatever happens, the worker's history is a run of the transition
 system, so every theorem about runs is a theorem about these loops.
 */
module Executor {
  import opened Prelude
  import opened Storage
  import opened Tables
  import opened Saga
  import opened SagaInvariant
  import SagaSafety

  datatype ExecutionResult =
    | SuccessResult
    | RetryScheduled
    | CompensatingResult
    | CompensatedResult
    | FailedDirtyResult
    | PreemptedResult
    | CompensationDeferred
    | Abandoned            // an exception or a cancellation left the row to its lease

  /** How a body ends; `NeverReturns` also stands for an exception that nothing here handles. */
  datatype Outcome =
    | Returns(result: Value)
    | Raises(retryable: bool)
    | RaisesPreempted
    | NeverReturns

  /** How a renewal ends: the lease is held, it is gone for good, or the database did not say. */
  datatype Renewal = StillHeld | Gone | Broke

  /** How the write that ends a claim ends: its guard matched, or did not, or an exception came back. */
  datatype Close = Matched | Missed | Failed

  /** `acts` is a run from the submission of the saga, and `s` is where it leads. */
  ghost predicate Leads(cfg: Config, start: int, acts: seq<Action>, s: Saga.State) {
    s == Run(cfg, Init(start), acts) && Saga.Valid(cfg, Init(start), acts)
  }

  /** `s'` is what `a` makes of `s`; the bound variable again keeps it folded. */
  ghost predicate Stepped(cfg: Config, s: Saga.State, a: Action, s': Saga.State) {
    forall b :: b == a ==> s' == Next(cfg, s, b)
  }

  /** The ends of compensations that claim `t` booked, in order. */
  function UndoEnds(acts: seq<Action>, t: nat): seq<Action> {
    if acts == [] then []
    else
      var rest, a := UndoEnds(acts[..|acts| - 1], t), acts[|acts| - 1];
      if EndsUndo(a, t) then rest + [a] else rest
  }

  predicate EndsUndo(a: Action, t: nat) { (a.UndoReturn? || a.UndoRaise?) && a.t == t }

  lemma UndoEndsMore(acts: seq<Action>, a: Action, t: nat)
    ensures UndoEnds(acts + [a], t) == UndoEnds(acts, t) + if EndsUndo(a, t) then [a] else []
  {
    assert (acts + [a])[..|acts|] == acts;
  }

  /** How a try that came to an end is booked. */
  function End(t: nat, tried: Outcome): Action {
    if tried.Returns? then UndoReturn(t) else UndoRaise(t, tried == Raises(false))
  }

  function Ends(t: nat, tries: seq<Outcome>): seq<Action> {
    if tries == [] then [] else Ends(t, tries[..|tries| - 1]) + [End(t, tries[|tries| - 1])]
  }

  function Raised(tries: seq<Outcome>): nat {
    if tries == [] then 0 else Raised(tries[..|tries| - 1]) + if tries[|tries| - 1].Raises? then 1 else 0
  }

  class Cluster {
    const cfg: Config
    const store: Store
    const start: int
    var now: int
    var sessions: map<nat, Session>
    ghost var history: seq<Action>
    ghost var mishaps: nat   // times anyone else did more than let time pass, or anything broke
    ghost var raises: nat    // times a step body or a compensation raised
    ghost var endings: seq<Outcome>   // how each call of one ended, in order

    constructor (cfg: Config, now: int)
      ensures Valid() && this.cfg == cfg && history == []
    {
      this.cfg, this.start, this.now, this.sessions := cfg, now, now, map[];
      store := new Store(now);
      history, mishaps, raises, endings := [], 0, 0, [];
      new;
      assert Leads(cfg, now, [], Init(now));
    }

    function State(): Saga.State
      reads this, store
    {
      Saga.State(now, store.Contents(), sessions)
    }

    /**
     The tables and every worker's local state are what `history` leaves, from the submission on. The
     bound variables are only there to keep the verifier from unrolling the run at every mention.
     */
    ghost predicate Valid()
      reads this, store
    {
      forall acts, s :: acts == history && s == State() ==> Leads(cfg, start, acts, s)
    }

    lemma Reached()
      requires Valid()
      ensures Inv(cfg, State())
    {
      assert Leads(cfg, start, history, State());
      InitInv(cfg, start);
      RunInv(cfg, Init(start), history);
    }

    lemma Extend(acts: seq<Action>, s: Saga.State, a: Action)
      requires Leads(cfg, start, acts, s) && Enabled(cfg, s, a)
      ensures Leads(cfg, start, acts + [a], Next(cfg, s, a))
    {
      assert (acts + [a])[..|acts|] == acts;
    }

    /** Anyone's step. */
    method Play(a: Action)
      requires Valid() && Enabled(cfg, State(), a)
      modifies this`now, this`sessions, this`history, store
      ensures Valid() && Stepped(cfg, old(State()), a, State()) && history == old(history) + [a]
    {
      Extend(history, State(), a);
      var s := Next(cfg, State(), a);
      now, sessions := s.now, s.sessions;
      store.Become(s.db);
      history := history + [a];
    }

    /** Not a step of the worker holding claim t; its background renewer is not that worker. */
    predicate Foreign(a: Action, t: nat) {
      OfClaim(a) && a.t == t ==> a.Renew?
    }

    lemma ForeignKeeps(s: Saga.State, a: Action, t: nat)
      requires Inv(cfg, s) && t in s.sessions && Foreign(a, t) && Enabled(cfg, s, a)
      ensures var s' := Next(cfg, s, a);
              && t in s'.sessions && s'.sessions[t] == s.sessions[t].(lost := s'.sessions[t].lost)
              && (a.Tick? ==> s'.sessions == s.sessions && s'.db == s.db)
    {
    }

    method PlayForeign(t: nat, a: Action)
      requires Valid() && t in sessions && Foreign(a, t) && Enabled(cfg, State(), a)
      modifies this`now, this`sessions, this`history, this`mishaps, store
      ensures Valid() && history == old(history) + [a]
      ensures t in sessions && sessions[t] == old(sessions[t]).(lost := sessions[t].lost)
      ensures mishaps == old(mishaps) + if a.Tick? then 0 else 1
      ensures a.Tick? ==> sessions == old(sessions) && store.Contents() == old(store.Contents())
      ensures UndoEnds(history, t) == UndoEnds(old(history), t)
    {
      ghost var before := State();
      UndoEndsMore(history, a, t);
      Reached();
      ForeignKeeps(before, a, t);
      Play(a);
      assert State() == Next(cfg, before, a);
      if !a.Tick? { mishaps := mishaps + 1; }
    }

    /** Everyone else runs for a while. */
    method Others(t: nat)
      requires Valid() && t in sessions
      modifies this`now, this`sessions, this`history, this`mishaps, store
      ensures Valid() && old(history) <= history
      ensures forall k :: |old(history)| <= k < |history| ==> Foreign(history[k], t)
      ensures t in sessions && sessions[t] == old(sessions[t]).(lost := sessions[t].lost)
      ensures mishaps >= old(mishaps)
      ensures mishaps == old(mishaps) ==> sessions == old(sessions) && store.Contents() == old(store.Contents())
      ensures mishaps == old(mishaps) && old(Sure(t)) ==> Sure(t)
      ensures UndoEnds(history, t) == UndoEnds(old(history), t)
    {
      var batch: seq<Action> := *;
      for k := 0 to |batch|
        invariant Valid() && old(history) <= history
        invariant forall k :: |old(history)| <= k < |history| ==> Foreign(history[k], t)
        invariant t in sessions && sessions[t] == old(sessions[t]).(lost := sessions[t].lost)
        invariant mishaps >= old(mishaps)
        invariant mishaps == old(mishaps) ==> sessions == old(sessions) && store.Contents() == old(store.Contents())
        invariant UndoEnds(history, t) == UndoEnds(old(history), t)
      {
        if Foreign(batch[k], t) && Enabled(cfg, State(), batch[k]) {
          PlayForeign(t, batch[k]);
        }
      }
    }

    /** Something outside the code's control may go wrong here. */
    method Trouble() returns (b: bool)
      modifies this`mishaps
      ensures mishaps == if b then old(mishaps) + 1 else old(mishaps)
    {
      b := *;
      if b { mishaps := mishaps + 1; }
    }

    /** The ownership guard would match for claim `t`. */
    predicate Owns(t: nat)
      reads this, store
      requires t in sessions
    {
      Held(store.row, Own(t, sessions[t]))
    }

    /** The claim is good: the guard matches, no renewal has failed, and the row has the status it came with. */
    ghost predicate Sure(t: nat)
      reads this, store
    {
      && t in sessions && Owns(t) && !sessions[t].lost
      && store.row.status == if sessions[t].unwinding then Compensating else Running
    }

    // ----- this worker's statements ------------------------------------------------------------

    /** The renewal statement itself. */
    method IssueRenewal(t: nat, duration: nat) returns (held: bool)
      requires Valid() && t in sessions && !sessions[t].pc.Over? && !sessions[t].lost
      modifies this`sessions, this`history, store
      ensures Valid() && old(history) <= history
      ensures t in sessions && sessions[t] == old(sessions[t]).(lost := !held)
      ensures (store.Contents(), held) == RenewLease(old(store.Contents()), Own(t, old(sessions[t])), now + duration)
      ensures UndoEnds(history, t) == UndoEnds(old(history), t)
    {
      ghost var before := State();
      assert Leads(cfg, start, history, before);
      var x := sessions[t];
      held := store.Renew(Own(t, x), now + duration);
      UndoEndsMore(history, Saga.Renew(t, duration), t);
      Record(t, Saga.Renew(t, duration), x.(lost := !held), before);
    }

    /**
     `Lease.renew`: once it has failed, no statement is issued again. A renewal that breaks may have been
     carried out or not.
     */
    method Renew(t: nat, duration: nat) returns (r: Renewal)
      requires Valid() && t in sessions && !sessions[t].pc.Over?
      modifies this`sessions, this`history, this`mishaps, store
      ensures Valid() && old(history) <= history
      ensures t in sessions && sessions[t] == old(sessions[t]).(lost := r == Gone)
      ensures old(sessions[t].lost) ==>
                r == Gone && store.Contents() == old(store.Contents()) && history == old(history)
      ensures !old(sessions[t].lost) && r != Broke ==>
                (store.Contents(), r == StillHeld)
                == RenewLease(old(store.Contents()), Own(t, old(sessions[t])), now + duration)
      ensures r == StillHeld ==> old(Owns(t)) && store.row == old(store.row).(lease := Some(now + duration))
      ensures r == Gone ==> store.row == old(store.row) && (!old(sessions[t].lost) ==> !old(Owns(t)))
      ensures r == Broke ==>
                || store.Contents() == old(store.Contents())
                || store.Contents() == RenewLease(old(store.Contents()), Own(t, old(sessions[t])), now + duration).0
      ensures mishaps == old(mishaps) + if r == Broke then 1 else 0
      ensures old(Sure(t)) ==> r != Gone && Sure(t)
      ensures UndoEnds(history, t) == UndoEnds(old(history), t)
    {
      if sessions[t].lost { return Gone; }
      var early := Trouble();
      if early { return Broke; }
      var held := IssueRenewal(t, duration);
      r := if held then StillHeld else Gone;
      if held {
        var late := Trouble();
        if late { r := Broke; }
      }
    }

    /** `Lease.renew_if_needed`: whether the local deadline is near is not the database's to say. */
    method RenewIfNeeded(t: nat, duration: nat) returns (r: Renewal)
      requires Valid() && t in sessions && !sessions[t].pc.Over?
      modifies this`sessions, this`history, this`mishaps, store
      ensures Valid() && old(history) <= history
      ensures t in sessions && sessions[t] == old(sessions[t]).(lost := r == Gone)
      ensures mishaps == old(mishaps) + if r == Broke then 1 else 0
      ensures old(Sure(t)) ==> r != Gone && Sure(t)
      ensures UndoEnds(history, t) == UndoEnds(old(history), t)
    {
      if sessions[t].lost { return Gone; }
      var runningLow: bool := *;
      if !runningLow { return StillHeld; }
      r := Renew(t, duration);
    }

    /** Books a statement that has just been issued: the tables are already as it left them. */
    method Record(t: nat, a: Action, x': Session, ghost before: Saga.State)
      requires Leads(cfg, start, history, before)
      requires OfClaim(a) && a.t == t && Enabled(cfg, before, a)
      requires now == before.now && sessions == before.sessions
      requires Act(cfg, before.now, before.db, t, before.sessions[t], a) == (store.Contents(), x')
      modifies this`sessions, this`history
      ensures Valid() && State() == Next(cfg, before, a) && history == old(history) + [a]
      ensures sessions == before.sessions[t := x']
    {
      Extend(history, before, a);
      sessions := sessions[t := x'];
      history := history + [a];
    }

    lemma NoCollision(t: nat)
      requires Valid() && t in sessions
      ensures var x := sessions[t];
              && (x.pc.Ran? ==>
                    CommitStep(store.Contents(), Own(t, x), x.pc.i, x.pc.result, x.buffer).1 != DuplicateKey)
              && (x.pc.Undid? ==> CommitUndo(store.Contents(), Own(t, x), x.pc.j, x.buffer).1 != DuplicateKey)
    {
      assert Leads(cfg, start, history, State());
      SagaSafety.NoDuplicateKey(cfg, start, history, t);
    }

    /** `_commit_finished_step`: the events are taken from the buffer, which is left empty. */
    method CommitFinishedStep(t: nat) returns (ok: bool)
      requires Valid() && t in sessions && sessions[t].pc.Ran?
      modifies this`sessions, this`history, store
      ensures Valid() && history == old(history) + [Commit(t)]
      ensures Stepped(cfg, old(State()), Commit(t), State())
      ensures t in sessions && sessions[t].unwinding == old(sessions[t].unwinding)
      ensures if ok then sessions[t].pc == AtStep(old(sessions[t].pc.i) + 1) else sessions[t].pc.Over?
      ensures ok ==> sessions[t].started == old(sessions[t].started)
      ensures !ok ==> !Owns(t)
      ensures old(Sure(t)) ==> ok && Sure(t)
    {
      NoCollision(t);
      ghost var before := State();
      assert Leads(cfg, start, history, before);
      var x := sessions[t];
      var w := store.CommitStepOutput(Own(t, x), x.pc.i, x.pc.result, x.buffer);
      ok := w == Done;
      Record(t, Commit(t),
             x.(pc := After(x, w, AtStep(x.pc.i + 1)), buffer := [],
                outputs := if ok then x.outputs[x.pc.i := x.pc.result] else x.outputs), before);
    }

    /** `_commit_compensation`. */
    method CommitCompensation(t: nat) returns (ok: bool)
      requires Valid() && t in sessions && sessions[t].pc.Undid? && sessions[t].pc.j > 0
      modifies this`sessions, this`history, store
      ensures Valid() && history == old(history) + [CommitUndone(t)]
      ensures Stepped(cfg, old(State()), CommitUndone(t), State())
      ensures t in sessions && sessions[t].unwinding == old(sessions[t].unwinding)
      ensures if ok then sessions[t].pc == AtUndo(old(sessions[t].pc.j) - 1) else sessions[t].pc.Over?
      ensures !ok ==> !(Owns(t) && store.row.status == Compensating)
      ensures old(Sure(t) && sessions[t].unwinding) ==> ok && Sure(t)
    {
      NoCollision(t);
      ghost var before := State();
      assert Leads(cfg, start, history, before);
      var x := sessions[t];
      var w := store.CommitCompensationOutput(Own(t, x), x.pc.j, x.buffer);
      ok := w == Done;
      Record(t, CommitUndone(t), x.(pc := After(x, w, AtUndo(x.pc.j - 1)), buffer := []), before);
    }

    /** The single UPDATE that ends a claim; afterwards this worker is done with the row. */
    method EndClaim(t: nat, a: Action) returns (ok: bool)
      requires Valid() && t in sessions
      requires a.Finish? || a.Retry? || a.Compensate? || a.FinishUndone? || a.Dirty? || a.Defer?
      requires a.t == t && Enabled(cfg, State(), a)
      modifies this`sessions, this`history, store
      ensures Valid() && history == old(history) + [a]
      ensures Stepped(cfg, old(State()), a, State())
      ensures t in sessions && sessions[t] == old(sessions[t]).(pc := Over)
      ensures (store.Contents(), ok) == Closing(old(store.Contents()), t, old(sessions[t]), now, a)
    {
      ghost var before := State();
      assert Leads(cfg, start, history, before);
      var x := sessions[t];
      match a {
        case Finish(_) => ok := store.Finish(Own(t, x), x.outputs);
        case Retry(_, delay) => ok := store.Retry(Own(t, x), now + delay);
        case Compensate(_) => ok := store.Compensate(Own(t, x), now);
        case FinishUndone(_) => ok := store.FinishUnwind(Own(t, x));
        case Dirty(_) => ok := store.Dirty(Own(t, x), x.pc.j);
        case Defer(_, delay) => ok := store.Defer(Own(t, x), now + delay);
      }
      Record(t, a, x.(pc := Over), before);
    }

    /** The statement each of them is. */
    function Closing(db: Db, t: nat, x: Session, now: int, a: Action): (Db, bool) {
      match a
      case Finish(_) => FinishSuccess(db, Own(t, x), x.outputs)
      case Retry(_, delay) => ScheduleRetry(db, Own(t, x), now + delay)
      case Compensate(_) => BeginCompensation(db, Own(t, x), now)
      case FinishUndone(_) => FinishCompensated(db, Own(t, x))
      case Dirty(_) => if x.pc.Stuck? then Storage.FailDirty(db, Own(t, x), x.pc.j) else (db, false)
      case Defer(_, delay) => Storage.DeferCompensation(db, Own(t, x), now + delay)
      case _ => (db, false)
    }

    /** The same when the database may fail before it, or its reply get lost after it. */
    method TryClose(t: nat, a: Action) returns (w: Close)
      requires Valid() && t in sessions && !sessions[t].pc.Over?
      requires a.Finish? || a.Retry? || a.Compensate? || a.FinishUndone? || a.Dirty? || a.Defer?
      requires a.t == t && Enabled(cfg, State(), a)
      modifies this`sessions, this`history, this`mishaps, store
      ensures Valid() && old(history) <= history
      ensures t in sessions && sessions[t] == old(sessions[t]).(pc := Over)
      ensures w != Failed ==>
                (store.Contents(), w == Matched) == Closing(old(store.Contents()), t, old(sessions[t]), now, a)
      ensures mishaps == old(mishaps) + if w == Failed then 1 else 0
    {
      var early := Trouble();
      if early {
        GiveUp(t);
        return Failed;
      }
      var ok := EndClaim(t, a);
      var late := Trouble();
      w := if late then Failed else if ok then Matched else Missed;
    }

    // ----- this worker's local steps -----------------------------------------------------------

    /** A step of the loop itself: `x'` is the worker's local state after it. */
    method Move(t: nat, a: Action, x': Session)
      requires Valid() && t in sessions && OfClaim(a) && a.t == t && Moves(a) && Ready(cfg, sessions[t], a)
      requires Act(cfg, now, store.Contents(), t, sessions[t], a) == (store.Contents(), x')
      modifies this`sessions, this`history
      ensures Valid() && history == old(history) + [a]
      ensures t in sessions && sessions[t] == x'
    {
      assert Leads(cfg, start, history, State());
      Record(t, a, x', State());
    }

    /** `load_forward_outputs`, or `load_unwind_state`. */
    method LoadRows(t: nat)
      requires Valid() && t in sessions && sessions[t].pc == AtLoad
      modifies this`sessions, this`history
      ensures Valid() && old(history) <= history
      ensures var x := old(sessions[t]);
              t in sessions && sessions[t] ==
                if x.unwinding
                then x.(completed := store.forward, compensated := store.undone, outputs := store.forward,
                        pc := AtUndo(Count(cfg)))
                else x.(completed := store.forward, outputs := map[], pc := AtStep(1))
    {
      var x := sessions[t];
      Move(t, Load(t),
           if x.unwinding
           then x.(completed := store.forward, compensated := store.undone, outputs := store.forward,
                   pc := AtUndo(Count(cfg)))
           else x.(completed := store.forward, outputs := map[], pc := AtStep(1)));
    }

    method ReplayStep(t: nat, i: nat)
      requires Valid() && t in sessions && sessions[t].pc == AtStep(i)
      requires 1 <= i <= Count(cfg) && i in sessions[t].completed
      modifies this`sessions, this`history
      ensures Valid() && old(history) <= history
      ensures var x := old(sessions[t]);
              t in sessions && sessions[t] == x.(outputs := x.outputs[i := x.completed[i]], pc := AtStep(i + 1))
    {
      var x := sessions[t];
      Move(t, Replay(t), x.(outputs := x.outputs[i := x.completed[i]], pc := AtStep(i + 1)));
    }

    method PassStep(t: nat, j: nat)
      requires Valid() && t in sessions && sessions[t].pc == AtUndo(j) && j > 0
      requires j !in sessions[t].completed || j in sessions[t].compensated || !Compensable(cfg, j)
      modifies this`sessions, this`history
      ensures Valid() && old(history) <= history
      ensures t in sessions && sessions[t] == old(sessions[t]).(pc := AtUndo(j - 1))
    {
      Move(t, Pass(t), sessions[t].(pc := AtUndo(j - 1)));
    }

    method EmitEvent(t: nat, e: Event)
      requires Valid() && t in sessions && (sessions[t].pc.InStep? || sessions[t].pc.InUndo?)
      modifies this`sessions, this`history
      ensures Valid() && old(history) <= history
      ensures t in sessions && sessions[t] == old(sessions[t]).(buffer := old(sessions[t]).buffer + [e])
      ensures UndoEnds(history, t) == UndoEnds(old(history), t)
    {
      UndoEndsMore(history, Emit(t, e), t);
      Move(t, Emit(t, e), sessions[t].(buffer := sessions[t].buffer + [e]));
    }

    /** Only a step that has begun, or a renewal before one, can fail retryably. */
    predicate MayRaise(x: Session, retryable: bool) {
      && (x.pc.AtStep? || x.pc.InStep? || x.pc.Ran?)
      && (retryable ==> x.started || (x.pc.AtStep? && x.pc.i <= Count(cfg) && x.pc.i !in x.completed))
    }

    method Fail(t: nat, retryable: bool)
      requires Valid() && t in sessions && MayRaise(sessions[t], retryable)
      modifies this`sessions, this`history
      ensures Valid() && old(history) <= history
      ensures var x := old(sessions[t]);
              t in sessions && sessions[t] == x.(pc := Failing(retryable && x.attempt < cfg.maxAttempts))
    {
      var x := sessions[t];
      Move(t, Raise(t, retryable), x.(pc := Failing(retryable && x.attempt < cfg.maxAttempts)));
    }

    method GiveUp(t: nat)
      requires Valid() && t in sessions && !sessions[t].pc.Over?
      modifies this`sessions, this`history
      ensures Valid() && old(history) <= history
      ensures t in sessions && sessions[t] == old(sessions[t]).(pc := Over)
    {
      Move(t, Drop(t), sessions[t].(pc := Over));
    }

    method BeginStep(t: nat, i: nat)
      requires Valid() && t in sessions && sessions[t].pc == AtStep(i) && !sessions[t].lost
      requires 1 <= i <= Count(cfg) && i !in sessions[t].completed
      modifies this`sessions, this`history
      ensures Valid() && old(history) <= history
      ensures t in sessions && sessions[t] == old(sessions[t]).(pc := InStep(i), buffer := [], started := true)
    {
      Move(t, Begin(t, i), sessions[t].(pc := InStep(i), buffer := [], started := true));
    }

    method StepReturned(t: nat, v: Value)
      requires Valid() && t in sessions && sessions[t].pc.InStep?
      modifies this`sessions, this`history
      ensures Valid() && old(history) <= history
      ensures t in sessions && sessions[t] == old(sessions[t]).(pc := Ran(old(sessions[t]).pc.i, v))
    {
      Move(t, Return(t, v), sessions[t].(pc := Ran(sessions[t].pc.i, v)));
    }

    method StartUndo(t: nat, j: nat)
      requires Valid() && t in sessions && sessions[t].pc == AtUndo(j) && !sessions[t].lost
      requires j in sessions[t].completed && j !in sessions[t].compensated && Compensable(cfg, j)
      modifies this`sessions, this`history
      ensures Valid() && old(history) <= history
      ensures t in sessions && sessions[t] == old(sessions[t]).(pc := InUndo(j, 1), buffer := [])
      ensures UndoEnds(history, t) == UndoEnds(old(history), t)
    {
      UndoEndsMore(history, BeginUndo(t, j), t);
      Move(t, BeginUndo(t, j), sessions[t].(pc := InUndo(j, 1), buffer := []));
    }

    /** A compensation ended: it worked, it gets another try with an empty buffer, or it is stuck. */
    method UndoEnded(t: nat, worked: bool, terminal: bool)
      requires Valid() && t in sessions && sessions[t].pc.InUndo?
      requires worked || terminal || sessions[t].pc.tries >= cfg.undoAttempts || !sessions[t].lost
      modifies this`sessions, this`history
      ensures Valid() && old(history) <= history
      ensures var x := old(sessions[t]);
              t in sessions && sessions[t] ==
                if worked then x.(pc := Undid(x.pc.j))
                else if terminal || x.pc.tries >= cfg.undoAttempts then x.(pc := Stuck(x.pc.j))
                else x.(pc := InUndo(x.pc.j, x.pc.tries + 1), buffer := [])
      ensures UndoEnds(history, t)
              == UndoEnds(old(history), t) + [if worked then UndoReturn(t) else UndoRaise(t, terminal)]
    {
      UndoEndsMore(history, if worked then UndoReturn(t) else UndoRaise(t, terminal), t);
      var x := sessions[t];
      if worked {
        Move(t, UndoReturn(t), x.(pc := Undid(x.pc.j)));
      } else if terminal || x.pc.tries >= cfg.undoAttempts {
        Move(t, UndoRaise(t, terminal), x.(pc := Stuck(x.pc.j)));
      } else {
        Move(t, UndoRaise(t, terminal), x.(pc := InUndo(x.pc.j, x.pc.tries + 1), buffer := []));
      }
    }

    // ----- bodies ------------------------------------------------------------------------------

    method AnyOutcome() returns (out: Outcome)
    {
      var finishes, fails, retryable, preempted: bool := *, *, *, *;
      var v: Value := *;
      out := if finishes then Returns(v) else if fails then Raises(retryable)
             else if preempted then RaisesPreempted else NeverReturns;
    }

    /** Events, with everyone else running in between. */
    method EmitSome(t: nat)
      requires Valid() && t in sessions && (sessions[t].pc.InStep? || sessions[t].pc.InUndo?)
      modifies this`now, this`sessions, this`history, this`mishaps, store
      ensures Valid() && old(history) <= history
      ensures t in sessions && sessions[t] == old(sessions[t]).(lost := sessions[t].lost, buffer := sessions[t].buffer)
      ensures mishaps >= old(mishaps)
      ensures mishaps == old(mishaps) && old(Sure(t)) ==> Sure(t)
      ensures UndoEnds(history, t) == UndoEnds(old(history), t)
    {
      var emits: seq<Event> := *;
      for k := 0 to |emits|
        invariant Valid() && old(history) <= history
        invariant t in sessions
                  && sessions[t] == old(sessions[t]).(lost := sessions[t].lost, buffer := sessions[t].buffer)
        invariant mishaps >= old(mishaps)
        invariant mishaps == old(mishaps) && old(Sure(t)) ==> Sure(t)
        invariant UndoEnds(history, t) == UndoEnds(old(history), t)
      {
        Others(t);
        EmitEvent(t, emits[k]);
      }
    }

    /**
     A step body or a compensation runs: it emits what it likes, may renew the lease, and ends how it
     likes. It is told it was preempted only by a renewal that failed.
     */
    method RunBody(t: nat, lease: nat) returns (out: Outcome)
      requires Valid() && t in sessions && (sessions[t].pc.InStep? || sessions[t].pc.InUndo?)
      modifies this, store
      ensures Valid() && old(history) <= history
      ensures t in sessions && sessions[t] == old(sessions[t]).(lost := sessions[t].lost, buffer := sessions[t].buffer)
      ensures out.RaisesPreempted? ==> sessions[t].lost
      ensures mishaps >= old(mishaps) && raises == old(raises) + if out.Raises? then 1 else 0
      ensures mishaps == old(mishaps) && old(Sure(t)) ==> Sure(t) && (out.Returns? || out.Raises?)
      ensures endings == old(endings) + [out] && UndoEnds(history, t) == UndoEnds(old(history), t)
    {
      EmitSome(t);
      Others(t);
      out := BodyEnds(t, lease);
    }

    /** How the body ends is its own affair, except that only a failed renewal can tell it that it was preempted. */
    method BodyEnds(t: nat, lease: nat) returns (out: Outcome)
      requires Valid() && t in sessions && (sessions[t].pc.InStep? || sessions[t].pc.InUndo?)
      modifies this`sessions, this`history, this`mishaps, this`raises, this`endings, store
      ensures Valid() && old(history) <= history
      ensures t in sessions && sessions[t] == old(sessions[t]).(lost := sessions[t].lost)
      ensures out.RaisesPreempted? ==> sessions[t].lost
      ensures mishaps >= old(mishaps) && raises == old(raises) + if out.Raises? then 1 else 0
      ensures mishaps == old(mishaps) && old(Sure(t)) ==> Sure(t) && (out.Returns? || out.Raises?)
      ensures endings == old(endings) + [out] && UndoEnds(history, t) == UndoEnds(old(history), t)
    {
      out := AnyOutcome();
      if out.RaisesPreempted? {
        var renewal := Renew(t, lease);
        if renewal != Gone { out := NeverReturns; }
      }
      if out.Raises? { raises := raises + 1; }
      if out.NeverReturns? { mishaps := mishaps + 1; }
      endings := endings + [out];
    }

    // ----- the forward loop --------------------------------------------------------------------

    /** What the caller may conclude from a result. */
    ghost predicate Reported(t: nat, r: ExecutionResult)
      reads this, store
    {
      forall u :: u == t ==> Backed(u, r)
    }

    ghost predicate Backed(t: nat, r: ExecutionResult)
      reads this, store
    {
      && t in sessions && sessions[t].pc.Over?
      && match r
         case SuccessResult =>
           store.row.status == Success && store.undone == {} && forall k :: 1 <= k <= Count(cfg) ==> k in store.forward
         case RetryScheduled =>
           store.row.status == Pending && store.row.owner == None && sessions[t].attempt < cfg.maxAttempts
         case CompensatingResult => store.row.status == Compensating && store.row.owner == None
             && store.row.runAfter <= now
         case CompensatedResult => store.row.status == Compensated && UndoneAbove(cfg, store.Contents(), 0)
         case FailedDirtyResult =>
           && store.row.status == FailedDirty && store.row.fault.UndoFault?
           && StoppedAt(cfg, store.Contents(), store.row.fault.step)
         case CompensationDeferred => store.row.status == Compensating && store.row.owner == None
         case PreemptedResult => !Owns(t) || store.row.status == Compensating
         case Abandoned => true
    }

    /** The write that ends a failed forward claim. */
    method FailureWrite(t: nat, delay: nat) returns (r: ExecutionResult)
      requires Valid() && t in sessions && sessions[t].pc.Failing?
      requires sessions[t].pc.retry ==> sessions[t].attempt < cfg.maxAttempts
      modifies this`sessions, this`history, this`mishaps, store
      ensures Valid() && old(history) <= history
      ensures Reported(t, r)
      ensures r in {RetryScheduled, CompensatingResult, PreemptedResult, Abandoned}
      ensures mishaps >= old(mishaps)
      ensures mishaps == old(mishaps) && old(Sure(t)) ==>
                r == if old(sessions[t].pc.retry) then RetryScheduled else CompensatingResult
      ensures r == RetryScheduled ==> store.row.runAfter == now + delay
    {
      var retry := sessions[t].pc.retry;
      var w := TryClose(t, if retry then Retry(t, delay) else Compensate(t));
      match w
      case Matched => r := if retry then RetryScheduled else CompensatingResult;
      case Missed => r := PreemptedResult;
      case Failed => r := Abandoned;
    }

    /** `_handle_step_failure`. If its own write fails, the row is left to its lease. */
    method HandleStepFailure(t: nat, retryable: bool, delay: nat) returns (r: ExecutionResult)
      requires Valid() && t in sessions && MayRaise(sessions[t], retryable)
      modifies this`now, this`sessions, this`history, this`mishaps, store
      ensures Valid() && old(history) <= history
      ensures Reported(t, r)
      ensures r in {RetryScheduled, CompensatingResult, PreemptedResult, Abandoned}
      ensures mishaps >= old(mishaps)
      ensures mishaps == old(mishaps) && old(Sure(t)) ==>
                r == if retryable && old(sessions[t].attempt) < cfg.maxAttempts then RetryScheduled
                     else CompensatingResult
      ensures r == RetryScheduled ==> store.row.runAfter == now + delay
    {
      Fail(t, retryable);
      Others(t);
      r := FailureWrite(t, delay);
    }

    /** The worker stops here and writes nothing more. */
    method Stop(t: nat, r: ExecutionResult)
      requires Valid() && t in sessions && !sessions[t].pc.Over?
      requires r == Abandoned || (r == PreemptedResult && sessions[t].lost)
      modifies this`sessions, this`history
      ensures Valid() && old(history) <= history
      ensures Reported(t, r)
    {
      assert Leads(cfg, start, history, State());
      SagaSafety.LostFlagIsSound(cfg, start, history);
      GiveUp(t);
    }

    /** Renew if the lease runs low, then call the body. */
    method InvokeStep(t: nat, i: nat, lease: nat) returns (out: Outcome)
      requires Valid() && t in sessions && sessions[t].pc == AtStep(i) && !sessions[t].unwinding
      requires 1 <= i <= Count(cfg) && i !in sessions[t].completed
      modifies this, store
      ensures Valid() && old(history) <= history
      ensures t in sessions && !sessions[t].unwinding && !sessions[t].pc.Over?
      ensures out.Returns? ==> sessions[t].pc == InStep(i) && sessions[t].started
      ensures out.Raises? ==> MayRaise(sessions[t], out.retryable)
      ensures out.RaisesPreempted? ==> sessions[t].lost
      ensures mishaps >= old(mishaps) && raises >= old(raises)
      ensures mishaps == old(mishaps) && old(Sure(t)) ==>
                Sure(t) && (out.Returns? || (out.Raises? && raises > old(raises)))
    {
      Others(t);
      var renewal := RenewIfNeeded(t, lease);
      if renewal == Gone { return RaisesPreempted; }
      if renewal == Broke {
        // The step's own policy classifies what the database driver raised.
        var retryable: bool := *;
        return Raises(retryable);
      }
      BeginStep(t, i);
      out := RunBody(t, lease);
    }

    /** The body returned: its checkpoint, which may fail before it is written. */
    method CheckpointStep(t: nat, i: nat, v: Value, delay: nat) returns (next: bool, r: ExecutionResult)
      requires Valid() && t in sessions && sessions[t].pc == InStep(i) && sessions[t].started && !sessions[t].unwinding
      modifies this`now, this`sessions, this`history, this`mishaps, store
      ensures Valid() && old(history) <= history
      ensures if next then t in sessions && sessions[t].pc == AtStep(i + 1) && sessions[t].started
                && !sessions[t].unwinding
              else Reported(t, r)
      ensures !next ==> r in {RetryScheduled, CompensatingResult, PreemptedResult, Abandoned}
      ensures mishaps >= old(mishaps)
      ensures mishaps == old(mishaps) && old(Sure(t)) ==> next && Sure(t)
    {
      next := false;
      StepReturned(t, v);
      Others(t);
      var unwritten := Trouble();
      if unwritten {
        var retryable: bool := *;
        r := HandleStepFailure(t, retryable, delay);
      } else {
        next := CommitFinishedStep(t);
        r := PreemptedResult;
      }
    }

    /** One iteration of the forward loop for a step that is not checkpointed. `next` says to go on. */
    method RunStep(t: nat, i: nat, delay: nat, lease: nat) returns (next: bool, r: ExecutionResult)
      requires Valid() && t in sessions && sessions[t].pc == AtStep(i) && !sessions[t].unwinding
      requires 1 <= i <= Count(cfg) && i !in sessions[t].completed
      modifies this, store
      ensures Valid() && old(history) <= history
      ensures if next then t in sessions && sessions[t].pc == AtStep(i + 1) && sessions[t].started
                && !sessions[t].unwinding
              else Reported(t, r)
      ensures !next ==> r in {RetryScheduled, CompensatingResult, PreemptedResult, Abandoned}
      ensures mishaps >= old(mishaps) && raises >= old(raises)
      ensures mishaps == old(mishaps) && old(Sure(t)) ==>
                if next then Sure(t) else r in {RetryScheduled, CompensatingResult} && raises > old(raises)
    {
      next, r := false, Abandoned;
      var out := InvokeStep(t, i, lease);
      match out {
        case Returns(v) => next, r := CheckpointStep(t, i, v, delay);
        case Raises(retryable) => r := HandleStepFailure(t, retryable, delay);
        case RaisesPreempted =>
          r := PreemptedResult;
          Stop(t, r);
        case NeverReturns => Stop(t, Abandoned);
      }
    }

    /** A step whose checkpoint is committed may still fail: the reply can be lost on the way back. */
    method OneStep(t: nat, i: nat, delay: nat, lease: nat) returns (next: bool, r: ExecutionResult)
      requires Valid() && t in sessions && sessions[t].pc == AtStep(i) && !sessions[t].unwinding
      requires 1 <= i <= Count(cfg) && i !in sessions[t].completed
      modifies this, store
      ensures Valid() && old(history) <= history
      ensures if next then t in sessions && sessions[t].pc == AtStep(i + 1) && !sessions[t].unwinding
              else Reported(t, r)
      ensures !next ==> r in {RetryScheduled, CompensatingResult, PreemptedResult, Abandoned}
      ensures mishaps >= old(mishaps) && raises >= old(raises)
      ensures mishaps == old(mishaps) && old(Sure(t)) ==>
                if next then Sure(t) else r in {RetryScheduled, CompensatingResult} && raises > old(raises)
    {
      next, r := RunStep(t, i, delay, lease);
      if !next { return; }
      var replyLost := Trouble();
      if replyLost {
        var retryable: bool := *;
        r := HandleStepFailure(t, retryable, delay);
        next := false;
      }
    }

    /** The forward half of `execute_workflow`. The database may fail at any statement. */
    method ExecuteForward(t: nat, delay: nat, lease: nat) returns (r: ExecutionResult)
      requires Valid() && t in sessions && sessions[t].pc == AtLoad && !sessions[t].unwinding
      modifies this, store
      ensures Valid() && old(history) <= history
      ensures Reported(t, r)
      ensures r in {SuccessResult, RetryScheduled, CompensatingResult, PreemptedResult, Abandoned}
      ensures mishaps >= old(mishaps) && raises >= old(raises)
      ensures mishaps == old(mishaps) && old(Sure(t)) ==>
                && r in {SuccessResult, RetryScheduled, CompensatingResult}
                && (raises == old(raises) ==> r == SuccessResult)
    {
      Others(t);
      var unreadable := Trouble();
      if unreadable {
        r := Abandoned;
        Stop(t, r);
        return;
      }
      LoadRows(t);
      var i := 1;
      while i <= Count(cfg)
        invariant Valid() && old(history) <= history
        invariant 1 <= i <= Count(cfg) + 1
        invariant t in sessions && sessions[t].pc == AtStep(i) && !sessions[t].unwinding
        invariant mishaps >= old(mishaps) && raises >= old(raises)
        invariant mishaps == old(mishaps) && old(Sure(t)) ==> Sure(t)
        decreases Count(cfg) - i
      {
        if i in sessions[t].completed {
          ReplayStep(t, i);
        } else {
          var next: bool;
          next, r := OneStep(t, i, delay, lease);
          if !next { return; }
        }
        i := i + 1;
      }
      r := FinishForward(t, delay);
    }

    method FinishForward(t: nat, delay: nat) returns (r: ExecutionResult)
      requires Valid() && t in sessions && sessions[t].pc == AtStep(Count(cfg) + 1) && !sessions[t].unwinding
      modifies this, store
      ensures Valid() && old(history) <= history
      ensures Reported(t, r)
      ensures r in {SuccessResult, RetryScheduled, CompensatingResult, PreemptedResult, Abandoned}
      ensures mishaps >= old(mishaps) && raises == old(raises)
      ensures mishaps == old(mishaps) && old(Sure(t)) ==> r == SuccessResult
    {
      Others(t);
      var broken := Trouble();
      if broken {
        // Classified by the last step this claim began; retryable only if there was one.
        var asIfByStep: bool := *;
        r := HandleStepFailure(t, asIfByStep && sessions[t].started, delay);
        return;
      }
      OwnerStatus(t);
      var ok := EndClaim(t, Finish(t));
      r := PreemptedResult;
      if ok {
        // A finish that matched released the row, so after a lost reply the failure branch matches nothing.
        // One that missed and lost its reply changed nothing: that is the failure above.
        var replyLost := Trouble();
        if !replyLost {
          BackedBySuccess(t);
          r := SuccessResult;
        }
      }
    }

    // ----- the unwind --------------------------------------------------------------------------

    /** `_run_compensation`: tries in place until it works, is told not to, or the budget is spent. */
    method RunCompensation(t: nat, j: nat, lease: nat) returns (out: Outcome, ghost tries: seq<Outcome>)
      requires Valid() && t in sessions && sessions[t].pc == InUndo(j, 1) && cfg.undoAttempts > 0
      modifies this, store
      ensures Valid() && old(history) <= history
      ensures t in sessions && sessions[t].unwinding == old(sessions[t].unwinding)
      ensures Ended(t, j, out)
      ensures mishaps >= old(mishaps)
      ensures mishaps == old(mishaps) && old(Sure(t)) ==> Sure(t) && (out.Returns? || out.Raises?)
      ensures endings == old(endings) + tries && raises == old(raises) + Raised(tries)
      ensures Follows(tries, out)
      ensures UndoEnds(history, t) == UndoEnds(old(history), t) + Ends(t, Booked(tries, out))
    {
      ghost var log, booked := endings, UndoEnds(history, t);
      var attempt := 1;
      tries := [];
      while true
        invariant Valid() && old(history) <= history
        invariant 1 <= attempt <= cfg.undoAttempts && tries == Again(attempt - 1)
        invariant t in sessions && sessions[t].pc == InUndo(j, attempt)
        invariant sessions[t].unwinding == old(sessions[t].unwinding)
        invariant mishaps >= old(mishaps)
        invariant mishaps == old(mishaps) && old(Sure(t)) ==> Sure(t)
        invariant endings == log + tries && raises == old(raises) + Raised(tries)
        invariant UndoEnds(history, t) == booked + Ends(t, tries)
        decreases cfg.undoAttempts - attempt
      {
        var tried, again;
        tried, out, again := TryUndo(t, j, attempt, lease);
        TriesMore(t, log, booked, tries, tried);
        tries := tries + [tried];
        if !again {
          FollowsSoFar(attempt, tried, out);
          return;
        }
        attempt := attempt + 1;
      }
    }

    /** `n` tries that each raised something that was not terminal. */
    ghost function Again(n: nat): seq<Outcome> { if n == 0 then [] else Again(n - 1) + [Raises(true)] }

    lemma {:induction false} AgainEach(n: nat)
      ensures |Again(n)| == n && forall k :: 0 <= k < n ==> Again(n)[k] == Raises(true)
    {
      if n > 0 { AgainEach(n - 1); }
    }

    lemma FollowsSoFar(attempt: nat, tried: Outcome, out: Outcome)
      requires 1 <= attempt <= cfg.undoAttempts
      requires out.Returns? || out.Raises? ==> out == tried
      requires out == Raises(true) ==> attempt == cfg.undoAttempts
      ensures Follows(Again(attempt - 1) + [tried], out)
    {
      AgainEach(attempt - 1);
    }

    /** Every try is booked, but for one that was cut short. */
    ghost function Booked(tries: seq<Outcome>, out: Outcome): seq<Outcome> {
      if out.Returns? || out.Raises? || tries == [] then tries else tries[..|tries| - 1]
    }

    lemma TriesMore(t: nat, log: seq<Outcome>, booked: seq<Action>, tries: seq<Outcome>, tried: Outcome)
      ensures log + (tries + [tried]) == log + tries + [tried]
      ensures (tries + [tried])[..|tries|] == tries
      ensures Raised(tries + [tried]) == Raised(tries) + if tried.Raises? then 1 else 0
      ensures booked + Ends(t, tries + [tried]) == booked + Ends(t, tries) + [End(t, tried)]
    {
      assert (tries + [tried])[..|tries|] == tries;
      assert Ends(t, tries + [tried]) == Ends(t, tries) + [End(t, tried)];
    }

    /** One try, and what follows from it; `again` says to try once more. */
    method TryUndo(t: nat, j: nat, attempt: nat, lease: nat) returns (tried: Outcome, out: Outcome, again: bool)
      requires Valid() && t in sessions && sessions[t].pc == InUndo(j, attempt) && attempt <= cfg.undoAttempts
      modifies this, store
      ensures Valid() && old(history) <= history
      ensures t in sessions && sessions[t].unwinding == old(sessions[t].unwinding)
      ensures again ==> tried == Raises(true) && attempt < cfg.undoAttempts && sessions[t].pc == InUndo(j, attempt + 1)
      ensures !again ==> Ended(t, j, out)
      ensures !again && (out.Returns? || out.Raises?) ==>
                out == tried && (out == Raises(true) ==> attempt == cfg.undoAttempts)
      ensures mishaps >= old(mishaps) && raises == old(raises) + if tried.Raises? then 1 else 0
      ensures mishaps == old(mishaps) && old(Sure(t)) ==> Sure(t) && (again || out.Returns? || out.Raises?)
      ensures endings == old(endings) + [tried]
      ensures UndoEnds(history, t) == UndoEnds(old(history), t)
                                      + if again || out.Returns? || out.Raises? then [End(t, tried)] else []
    {
      tried := RunBody(t, lease);
      out, again := tried, false;
      match tried {
        case Returns(_) => UndoEnded(t, true, false);
        case Raises(retryable) =>
          // Everything is retried but a TerminalError, here `Raises(false)`.
          if !retryable || attempt == cfg.undoAttempts {
            UndoEnded(t, false, !retryable);
          } else {
            out := BackOff(t, lease);
            again := out.Raises?;
            if again { UndoEnded(t, false, false); }
          }
        case _ =>
      }
    }

    /** Where the end of a compensation leaves its worker. */
    predicate Ended(t: nat, j: nat, out: Outcome)
      reads this
      requires t in sessions
    {
      match out
      case Returns(_) => sessions[t].pc == Undid(j)
      case Raises(_) => sessions[t].pc == Stuck(j)
      case RaisesPreempted => !sessions[t].pc.Over? && sessions[t].lost
      case NeverReturns => !sessions[t].pc.Over?
    }

    /** Between two tries: sleep, then renew if the lease runs low. `Raises` says to go on. */
    method BackOff(t: nat, lease: nat) returns (out: Outcome)
      requires Valid() && t in sessions && !sessions[t].pc.Over?
      modifies this`now, this`sessions, this`history, this`mishaps, store
      ensures Valid() && old(history) <= history
      ensures t in sessions && sessions[t] == old(sessions[t]).(lost := sessions[t].lost)
      ensures match out
              case Returns(_) => false
              case Raises(_) => !sessions[t].lost
              case RaisesPreempted => sessions[t].lost
              case NeverReturns => true
      ensures mishaps >= old(mishaps)
      ensures mishaps == old(mishaps) && old(Sure(t)) ==> Sure(t) && out.Raises?
      ensures UndoEnds(history, t) == UndoEnds(old(history), t)
    {
      Others(t);
      var renewal := RenewIfNeeded(t, lease);
      out := match renewal case StillHeld => Raises(true) case Gone => RaisesPreempted case Broke => NeverReturns;
    }

    /**
     The retry policy: every try but the last raised something that was not terminal, they fit the budget,
     and the outcome is that of the last: one that worked, a terminal one, or the last the budget allows.
     Only losing the lease, or an exception from outside the body, cuts the tries short.
     */
    ghost predicate Follows(tries: seq<Outcome>, out: Outcome) {
      && 1 <= |tries| <= cfg.undoAttempts
      && (forall k :: 0 <= k < |tries| - 1 ==> tries[k] == Raises(true))
      && (out.Returns? || out.Raises? ==> out == tries[|tries| - 1])
      && (out == Raises(true) ==> |tries| == cfg.undoAttempts)
    }

    lemma RaisedAtLast(tries: seq<Outcome>)
      ensures tries != [] && tries[|tries| - 1].Raises? ==> Raised(tries) > 0
    {
    }

    /** Renew if the lease runs low, then run the compensation to its end. */
    method InvokeUndo(t: nat, j: nat, lease: nat) returns (out: Outcome, ghost tries: seq<Outcome>)
      requires Valid() && t in sessions && sessions[t].pc == AtUndo(j) && sessions[t].unwinding && cfg.undoAttempts > 0
      requires j in sessions[t].completed && j !in sessions[t].compensated && Compensable(cfg, j)
      modifies this, store
      ensures Valid() && old(history) <= history
      ensures t in sessions && sessions[t].unwinding
      ensures Ended(t, j, out)
      ensures mishaps >= old(mishaps)
      ensures mishaps == old(mishaps) && old(Sure(t)) ==> Sure(t) && (out.Returns? || out.Raises?)
      ensures endings == old(endings) + tries && raises == old(raises) + Raised(tries)
      ensures if tries == [] then out == RaisesPreempted || out == NeverReturns else Follows(tries, out)
      ensures UndoEnds(history, t) == UndoEnds(old(history), t) + Ends(t, Booked(tries, out))
    {
      tries := [];
      Others(t);
      var renewal := RenewIfNeeded(t, lease);
      if renewal == Gone { return RaisesPreempted, []; }
      if renewal == Broke { return NeverReturns, []; }
      StartUndo(t, j);
      out, tries := RunCompensation(t, j, lease);
    }

    /** The undo's checkpoint. An exception, before the commit or of its reply, leaves the row to its lease. */
    method CheckpointUndo(t: nat) returns (next: bool, r: ExecutionResult)
      requires Valid() && t in sessions && sessions[t].pc.Undid? && sessions[t].pc.j > 0 && sessions[t].unwinding
      modifies this`sessions, this`history, this`mishaps, store
      ensures Valid() && old(history) <= history
      ensures if next then t in sessions && sessions[t].pc == AtUndo(old(sessions[t].pc.j) - 1) && sessions[t].unwinding
              else Reported(t, r) && r in {PreemptedResult, Abandoned}
      ensures mishaps >= old(mishaps)
      ensures mishaps == old(mishaps) && old(Sure(t)) ==> next && Sure(t)
    {
      next, r := false, Abandoned;
      var unwritten := Trouble();
      if unwritten {
        Stop(t, r);
        return;
      }
      next := CommitCompensation(t);
      if next {
        var replyLost := Trouble();
        if replyLost {
          next := false;
          Stop(t, r);
        }
      } else {
        RejectedUnwind(t);
        r := PreemptedResult;
      }
    }

    /** One compensable, committed, not yet undone step of the unwind. */
    method OneUndo(t: nat, j: nat, lease: nat) returns (next: bool, r: ExecutionResult)
      requires Valid() && t in sessions && sessions[t].pc == AtUndo(j) && sessions[t].unwinding && cfg.undoAttempts > 0
      requires j in sessions[t].completed && j !in sessions[t].compensated && Compensable(cfg, j)
      modifies this, store
      ensures Valid() && old(history) <= history
      ensures if next then t in sessions && sessions[t].pc == AtUndo(j - 1) && sessions[t].unwinding else Reported(t, r)
      ensures !next ==> r in {FailedDirtyResult, PreemptedResult, Abandoned}
      ensures mishaps >= old(mishaps) && raises >= old(raises)
      ensures mishaps == old(mishaps) && old(Sure(t)) ==>
                if next then Sure(t) else r == FailedDirtyResult && raises > old(raises)
    {
      next, r := false, Abandoned;
      ghost var tries;
      var out;
      out, tries := InvokeUndo(t, j, lease);
      RaisedAtLast(tries);
      match out {
        case Returns(_) =>
          Others(t);
          next, r := CheckpointUndo(t);
        case Raises(_) =>
          Others(t);
          r := FailDirty(t);
        case RaisesPreempted =>
          r := PreemptedResult;
          Stop(t, r);
        case NeverReturns => Stop(t, r);
      }
    }

    /** What the status of a row tells the claim that holds it. */
    lemma OwnerStatus(t: nat)
      requires Valid() && t in sessions
      ensures Owns(t) ==> store.row.status == Compensating || (store.row.status == Running && !sessions[t].unwinding)
    {
      Reached();
    }

    lemma BackedBySuccess(t: nat)
      requires Valid() && t in sessions && sessions[t].pc.Over? && store.row.status == Success
      ensures Reported(t, SuccessResult)
    {
      Reached();
    }

    lemma BackedByUnwind(t: nat)
      requires Valid() && t in sessions && sessions[t].pc.Over?
      ensures store.row.status == Compensated ==> Reported(t, CompensatedResult)
      ensures store.row.status == FailedDirty ==> Reported(t, FailedDirtyResult)
    {
      Reached();
    }

    /** An unwinding claim whose guarded write failed does not hold the row. */
    lemma RejectedUnwind(t: nat)
      requires Valid() && t in sessions && sessions[t].unwinding
      requires !(Owns(t) && store.row.status == Compensating)
      ensures !Owns(t)
    {
      OwnerStatus(t);
    }

    /** `_fail_dirty`. */
    method FailDirty(t: nat) returns (r: ExecutionResult)
      requires Valid() && t in sessions && sessions[t].pc.Stuck? && sessions[t].unwinding
      modifies this`sessions, this`history, this`mishaps, store
      ensures Valid() && old(history) <= history
      ensures t in sessions && sessions[t].unwinding
      ensures Reported(t, r) && r in {FailedDirtyResult, PreemptedResult, Abandoned}
      ensures mishaps >= old(mishaps)
      ensures mishaps == old(mishaps) && old(Sure(t)) ==> r == FailedDirtyResult
    {
      OwnerStatus(t);
      var w := TryClose(t, Saga.Dirty(t));
      if w == Matched { BackedByUnwind(t); }
      r := match w case Matched => FailedDirtyResult case Missed => PreemptedResult case Failed => Abandoned;
    }

    /** `_compensate`. */
    method CompensateSaga(t: nat, lease: nat) returns (r: ExecutionResult)
      requires Valid() && t in sessions && sessions[t].pc == AtLoad && sessions[t].unwinding && cfg.undoAttempts > 0
      modifies this, store
      ensures Valid() && old(history) <= history
      ensures Reported(t, r)
      ensures r in {CompensatedResult, FailedDirtyResult, PreemptedResult, Abandoned}
      ensures mishaps >= old(mishaps) && raises >= old(raises)
      ensures mishaps == old(mishaps) && old(Sure(t)) ==>
                r in {CompensatedResult, FailedDirtyResult} && (raises == old(raises) ==> r == CompensatedResult)
    {
      Others(t);
      var unreadable := Trouble();
      if unreadable {
        r := Abandoned;
        Stop(t, r);
        return;
      }
      LoadRows(t);
      var j := Count(cfg);
      while j > 0
        invariant Valid() && old(history) <= history
        invariant t in sessions && sessions[t].pc == AtUndo(j) && sessions[t].unwinding
        invariant mishaps >= old(mishaps) && raises >= old(raises)
        invariant mishaps == old(mishaps) && old(Sure(t)) ==> Sure(t)
      {
        if j in sessions[t].completed && j !in sessions[t].compensated && Compensable(cfg, j) {
          var next: bool;
          next, r := OneUndo(t, j, lease);
          if !next { return; }
        } else {
          PassStep(t, j);
        }
        j := j - 1;
      }
      r := FinishUnwind(t);
    }

    method FinishUnwind(t: nat) returns (r: ExecutionResult)
      requires Valid() && t in sessions && sessions[t].pc == AtUndo(0) && sessions[t].unwinding
      modifies this, store
      ensures Valid() && old(history) <= history
      ensures Reported(t, r)
      ensures r in {CompensatedResult, PreemptedResult, Abandoned}
      ensures mishaps >= old(mishaps) && raises == old(raises)
      ensures mishaps == old(mishaps) && old(Sure(t)) ==> r == CompensatedResult
    {
      Others(t);
      OwnerStatus(t);
      var w := TryClose(t, FinishUndone(t));
      if w == Matched { BackedByUnwind(t); }
      r := match w case Matched => CompensatedResult case Missed => PreemptedResult case Failed => Abandoned;
    }

    /** `_defer_compensation`: the type is unknown here, so the row goes back. */
    method DeferCompensation(t: nat, delay: nat) returns (r: ExecutionResult)
      requires Valid() && t in sessions && sessions[t].pc == AtLoad && sessions[t].unwinding
      modifies this`now, this`sessions, this`history, this`mishaps, store
      ensures Valid() && old(history) <= history
      ensures Reported(t, r) && r in {CompensationDeferred, PreemptedResult, Abandoned}
      ensures mishaps >= old(mishaps)
      ensures mishaps == old(mishaps) && old(Sure(t)) ==> r == CompensationDeferred
      ensures r == CompensationDeferred ==> store.row.runAfter == now + delay
    {
      Others(t);
      OwnerStatus(t);
      var w := TryClose(t, Saga.Defer(t, delay));
      r := match w case Matched => CompensationDeferred case Missed => PreemptedResult case Failed => Abandoned;
    }

    /**
     `execute_workflow`: the dispatch on the status the claim returned comes before anything else. A
     worker that cannot resolve the type gives an unwind back, and leaves a forward run to its lease.
     */
    method ExecuteWorkflow(t: nat, typeKnown: bool, delay: nat, lease: nat) returns (r: ExecutionResult)
      requires Valid() && t in sessions && sessions[t].pc == AtLoad && cfg.undoAttempts > 0
      modifies this, store
      ensures Valid() && old(history) <= history
      ensures Reported(t, r)
      ensures old(sessions[t].unwinding) ==> r !in {SuccessResult, RetryScheduled, CompensatingResult}
      ensures !old(sessions[t].unwinding) ==> r !in {CompensatedResult, FailedDirtyResult, CompensationDeferred}
      ensures !typeKnown ==> r in {CompensationDeferred, PreemptedResult, Abandoned}
      ensures mishaps >= old(mishaps) && raises >= old(raises)
      ensures typeKnown && mishaps == old(mishaps) && raises == old(raises) && old(Sure(t)) ==>
                r == if old(sessions[t].unwinding) then CompensatedResult else SuccessResult
      ensures typeKnown && mishaps == old(mishaps) && old(Sure(t)) ==> r !in {PreemptedResult, Abandoned}
      ensures !typeKnown && mishaps == old(mishaps) && old(Sure(t)) && old(sessions[t].unwinding) ==>
                r == CompensationDeferred
    {
      if sessions[t].unwinding {
        if typeKnown {
          r := CompensateSaga(t, lease);
        } else {
          r := DeferCompensation(t, delay);
        }
      } else if typeKnown {
        r := ExecuteForward(t, delay, lease);
      } else {
        r := Abandoned;
        Stop(t, r);
      }
    }
  }
}
