/**
 Whether a cancelled saga can still succeed: exactly while its cancel can be escaped. From any PENDING row
 some continuation reaches SUCCESS, so a retry after the cancel is all it takes.
 */
module SagaRescue {
  import opened Prelude
  import opened Storage
  import opened Saga
  import opened SagaInvariant
  import opened SagaCancel

  /** Claim `t` holds a RUNNING row and its worker is on its way forward. */
  ghost predicate Going(cfg: Config, s: State, t: nat) {
    && Inv(cfg, s) && t in s.sessions && Holds(s, t) && s.db.row.status == Running
    && !s.sessions[t].unwinding && !s.sessions[t].lost
    && (s.sessions[t].pc.AtLoad? || s.sessions[t].pc.AtStep? || s.sessions[t].pc.InStep? || s.sessions[t].pc.Ran?)
  }

  /** Moves until the finish. */
  function Ahead(cfg: Config, pc: Pc): nat {
    match pc
    case AtLoad => 3 * Count(cfg) + 5
    case AtStep(i) => Max(0, 3 * (Count(cfg) + 1 - i) + 1)
    case InStep(i) => Max(0, 3 * (Count(cfg) + 1 - i))
    case Ran(i, _) => Max(0, 3 * (Count(cfg) + 1 - i) - 1)
    case _ => 0
  }

  /** A forward worker's next move when nothing goes wrong. */
  function Onward(t: nat, x: Session): Action {
    match x.pc
    case AtLoad => Load(t)
    case AtStep(i) => if i in x.completed then Replay(t) else Begin(t, i)
    case InStep(_) => Return(t, "")
    case _ => Commit(t)
  }

  lemma OneMoveOn(cfg: Config, s: State, t: nat)
    requires Going(cfg, s, t) && s.sessions[t].pc != AtStep(Count(cfg) + 1)
    ensures var a := Onward(t, s.sessions[t]);
            var s' := Next(cfg, s, a);
            && Enabled(cfg, s, a) && Going(cfg, s', t)
            && Ahead(cfg, s'.sessions[t].pc) < Ahead(cfg, s.sessions[t].pc)
  {
    var x := s.sessions[t];
    var a := Onward(t, x);
    NextInv(cfg, s, a);
    if x.pc.Ran? { CommitKeeps(cfg, s.now, s.db, t, x, a); }
  }

  lemma RunFirst(cfg: Config, s: State, a: Action, rest: seq<Action>)
    ensures Run(cfg, s, [a] + rest) == Run(cfg, Next(cfg, s, a), rest)
  {
    assert [a][..0] == [];
    assert Run(cfg, s, [a]) == Next(cfg, s, a);
    RunConcat(cfg, s, [a], rest);
  }

  lemma {:induction false} GoesToSuccess(cfg: Config, s: State, t: nat) returns (acts: seq<Action>)
    requires Going(cfg, s, t)
    ensures Run(cfg, s, acts).db.row.status == Success
    decreases Ahead(cfg, s.sessions[t].pc)
  {
    if s.sessions[t].pc == AtStep(Count(cfg) + 1) {
      acts := [Finish(t)] + [];
      RunFirst(cfg, s, Finish(t), []);
    } else {
      var a := Onward(t, s.sessions[t]);
      OneMoveOn(cfg, s, t);
      var rest := GoesToSuccess(cfg, Next(cfg, s, a), t);
      acts := [a] + rest;
      RunFirst(cfg, s, a, rest);
    }
  }

  /** A PENDING row can always be claimed, in time, and taken to SUCCESS, whoever else is still about. */
  lemma PendingCanSucceed(cfg: Config, s: State) returns (acts: seq<Action>)
    requires Inv(cfg, s) && s.db.row.status == Pending
    ensures Run(cfg, s, acts).db.row.status == Success
  {
    var wait := Tick(Max(0, s.db.row.runAfter - s.now));
    var due := Next(cfg, s, wait);
    var claim := Claim("w", 1);
    NextInv(cfg, s, wait);
    PendingIsGranted(cfg, due);
    var rest := GoesToSuccess(cfg, Next(cfg, due, claim), due.db.row.token + 1);
    acts := [wait] + ([claim] + rest);
    RunFirst(cfg, s, wait, [claim] + rest);
    RunFirst(cfg, due, claim, rest);
  }

  lemma PendingIsGranted(cfg: Config, s: State)
    requires Inv(cfg, s) && s.db.row.status == Pending && s.db.row.runAfter <= s.now
    ensures Enabled(cfg, s, Claim("w", 1)) && Going(cfg, Next(cfg, s, Claim("w", 1)), s.db.row.token + 1)
  {
    NextInv(cfg, s, Claim("w", 1));
  }

  lemma RetryMakesPending(cfg: Config, s: State, after: seq<Action>, t: nat, i: nat)
    requires RetriesAt(cfg, s, after, t, i)
    ensures Run(cfg, s, after[..i + 1]).db.row.status == Pending
  {
    assert after[..i + 1][..i] == after[..i];
  }

  lemma OpenSucceeds(cfg: Config, s: State, t: nat) returns (after: seq<Action>)
    requires Inv(cfg, s) && AllConsistent(cfg, s) && Open(cfg, s, t)
    ensures Run(cfg, s, after).db.row.status == Success
  {
    var retry := Escape(cfg, s, t);
    var i: nat :| RetriesAt(cfg, s, retry, t, i);
    RetryMakesPending(cfg, s, retry, t, i);
    RunInv(cfg, s, retry[..i + 1]);
    var rest := PendingCanSucceed(cfg, Run(cfg, s, retry[..i + 1]));
    after := retry[..i + 1] + rest;
    RunConcat(cfg, s, retry[..i + 1], rest);
  }

  /**
   After an accepted cancel some continuation reaches SUCCESS if and only if, at the cancel, the newest
   claim holds the row, has an attempt left, and its worker is where it can still fail retryably.
   */
  lemma SuccessOpenExactlyWhen(cfg: Config, now: int, before: seq<Action>)
    requires Enabled(cfg, Run(cfg, Init(now), before), CancelRequest)
    ensures var s0 := Run(cfg, Init(now), before);
            var s := Next(cfg, s0, CancelRequest);
            (exists after: seq<Action> :: Run(cfg, s, after).db.row.status == Success)
            <==> Open(cfg, s0, s0.db.row.token)
  {
    var s0 := Run(cfg, Init(now), before);
    InitInv(cfg, now);
    RunInv(cfg, Init(now), before);
    ConsistentRun(cfg, now, before);
    NextInv(cfg, s0, CancelRequest);
    ConsistentNext(cfg, s0, CancelRequest);
    OpenAcrossCancel(cfg, s0);
    EscapeOpenExactlyWhen(cfg, now, before);
    SuccessAt(cfg, Next(cfg, s0, CancelRequest), s0.db.row.token, Open(cfg, s0, s0.db.row.token));
  }

  lemma SuccessAt(cfg: Config, s: State, t: nat, open: bool)
    requires Inv(cfg, s) && AllConsistent(cfg, s) && open == Open(cfg, s, t)
    requires (exists after: seq<Action> :: !InUnwind(Run(cfg, s, after).db.row.status)) <==> open
    ensures (exists after: seq<Action> :: Run(cfg, s, after).db.row.status == Success) <==> open
  {
    if open {
      var after := OpenSucceeds(cfg, s, t);
    } else {
      forall after: seq<Action> ensures Run(cfg, s, after).db.row.status != Success {
        assert InUnwind(Run(cfg, s, after).db.row.status);
      }
    }
  }
}
