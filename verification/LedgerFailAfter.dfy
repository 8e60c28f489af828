/**
 `fail_after`: what a caller who asks for a failure gets. A usable value drives every run to a compensation,
 any other value moves no money at all, and without one a transfer can succeed.
 */
module LedgerFailAfter {
  import opened Prelude
  import opened Storage
  import opened Saga
  import opened SagaInvariant
  import opened Ledger
  import opened LedgerFuture

  /** No leg of a step that rejects the input is ever posted. */
  ghost predicate Refused(input: Input, w: World) {
    forall i: nat :: 1 <= i <= 2 && Rejects(input, i) ==> !Entered(input, w.ledger, i)
  }

  lemma RefusedNext(cfg: Config, input: Input, w: World, d: Deed)
    requires Transfer(cfg) && WorldOk(cfg, input, w) && Refused(input, w)
    ensures Refused(input, Do(cfg, input, w, d))
  {
    if Allowed(cfg, input, w, d) {
      match d
      case Engine(_) =>
      case PostForward(t) =>
        assert SessionOk(cfg, input, w.saga.db, w.ledger, w.saga.sessions[t]);
        ForwardLeg(input, w.ledger, w.saga.sessions[t].pc.i);
      case PostUndo(t) =>
        UndoFacts(cfg, input, w.saga.db, w.ledger, w.saga.sessions[t]);
        UndoLeg(input, w.ledger, w.saga.sessions[t].pc.j);
    }
  }

  lemma {:induction false} RefusedRun(cfg: Config, input: Input, now: int, ds: seq<Deed>)
    requires Transfer(cfg)
    ensures WorldOk(cfg, input, Play(cfg, input, Start(now), ds)) && Refused(input, Play(cfg, input, Start(now), ds))
  {
    StartOk(cfg, input, now);
    PlayKeeps(cfg, input, Start(now), ds);
    if ds != [] {
      RefusedRun(cfg, input, now, ds[..|ds| - 1]);
      RefusedNext(cfg, input, Play(cfg, input, Start(now), ds[..|ds| - 1]), ds[|ds| - 1]);
    }
  }

  // ----- a transfer nobody asked to fail can succeed -------------------------------------------

  /** Claim `t` holds a RUNNING transfer and its worker is on its way forward. */
  ghost predicate Transfers(cfg: Config, input: Input, w: World, t: nat) {
    && Transfer(cfg) && input.amount > 0 && input.failAfter == None && WorldOk(cfg, input, w)
    && t in w.saga.sessions && Holds(w.saga, t) && w.saga.db.row.status == Running
    && !w.saga.sessions[t].unwinding && !w.saga.sessions[t].lost
    && (w.saga.sessions[t].pc.AtLoad? || w.saga.sessions[t].pc.AtStep?
        || w.saga.sessions[t].pc.InStep? || w.saga.sessions[t].pc.Ran?)
  }

  function Forth(input: Input, w: World, t: nat): Deed
    requires t in w.saga.sessions
  {
    var x := w.saga.sessions[t];
    match x.pc
    case AtLoad => Engine(Load(t))
    case AtStep(i) => if i == 3 then Engine(Finish(t)) else Engine(if i in x.completed then Replay(t) else Begin(t, i))
    case InStep(i) =>
      if Posted(w.ledger, ForwardKey(input, i)) then Engine(Return(t, Account(input, i))) else PostForward(t)
    case _ => Engine(Commit(t))
  }

  function ToSuccess(input: Input, ledger: seq<Entry>, x: Session): nat {
    match x.pc
    case AtLoad => 30
    case AtStep(i) => if i <= 3 then 5 * (4 - i) else 0
    case InStep(i) => if i <= 3 then 5 * (4 - i) - if Posted(ledger, ForwardKey(input, i)) then 2 else 1 else 0
    case Ran(i, _) => if i <= 3 then 5 * (4 - i) - 3 else 0
    case _ => 0
  }

  /** The worker's own step leaves it holding the row, further on. */
  lemma StillTransfers(cfg: Config, input: Input, w: World, t: nat, a: Action, x': Session)
    requires Transfers(cfg, input, w, t) && OfClaim(a) && a.t == t && Allowed(cfg, input, w, Engine(a))
    requires Act(cfg, w.saga.now, w.saga.db, t, w.saga.sessions[t], a).1 == x'
    requires Act(cfg, w.saga.now, w.saga.db, t, w.saga.sessions[t], a).0.row == w.saga.db.row
    requires !x'.lost && (x'.pc.AtStep? || x'.pc.InStep? || x'.pc.Ran?)
    ensures var w' := Do(cfg, input, w, Engine(a));
            Transfers(cfg, input, w', t) && w'.ledger == w.ledger && w'.saga.sessions[t] == x'
  {
    DoKeeps(cfg, input, w, Engine(a));
    IdentityKept(cfg, w.saga.now, w.saga.db, t, w.saga.sessions[t], a);
  }

  /** Loading, replaying, beginning, returning: the worker's own affair. */
  lemma MoveForth(cfg: Config, input: Input, now: int, db: Db, ledger: seq<Entry>, t: nat, x: Session, a: Action)
    requires !x.unwinding && !x.lost && Count(cfg) == 2
    requires match x.pc
             case AtLoad => a == Load(t)
             case AtStep(i) => 1 <= i <= 2 && a == if i in x.completed then Replay(t) else Begin(t, i)
             case InStep(i) => 1 <= i <= 2 && Posted(ledger, ForwardKey(input, i)) && a == Return(t, Account(input, i))
             case _ => false
    ensures Ready(cfg, x, a)
    ensures var (db', x') := Act(cfg, now, db, t, x, a);
            && db' == db && !x'.unwinding && !x'.lost && (x'.pc.AtStep? || x'.pc.InStep? || x'.pc.Ran?)
            && ToSuccess(input, ledger, x') < ToSuccess(input, ledger, x)
  {
  }

  lemma CommitForth(cfg: Config, now: int, db: Db, t: nat, x: Session)
    requires x.pc.Ran? && Held(db.row, Own(t, x)) && x.pc.i !in db.forward
    ensures Ready(cfg, x, Commit(t))
    ensures var (db', x') := Act(cfg, now, db, t, x, Commit(t));
            db'.row == db.row && x'.pc == AtStep(x.pc.i + 1) && x'.lost == x.lost
  {
  }

  lemma HolderPosition(cfg: Config, s: State, t: nat)
    requires Inv(cfg, s) && t in s.sessions && Holds(s, t)
    ensures var pc := s.sessions[t].pc;
            && (pc.AtStep? ==> 1 <= pc.i <= Count(cfg) + 1)
            && (pc.InStep? || pc.Ran? ==> 1 <= pc.i <= Count(cfg) && pc.i !in s.db.forward)
  {
  }

  lemma PostForth(cfg: Config, input: Input, w: World, t: nat)
    requires Transfers(cfg, input, w, t) && w.saga.sessions[t].pc.InStep? && 1 <= w.saga.sessions[t].pc.i <= 2
    ensures var w' := Do(cfg, input, w, PostForward(t));
            && Transfers(cfg, input, w', t) && w'.saga == w.saga
            && Posted(w'.ledger, ForwardKey(input, w.saga.sessions[t].pc.i))
  {
    DoKeeps(cfg, input, w, PostForward(t));
    PostAdds(w.ledger, ForwardKey(input, w.saga.sessions[t].pc.i), input.amount);
  }

  lemma StepForth(cfg: Config, input: Input, w: World, t: nat)
    requires Transfers(cfg, input, w, t) && w.saga.sessions[t].pc != AtStep(3)
    ensures var w' := Do(cfg, input, w, Forth(input, w, t));
            && Transfers(cfg, input, w', t)
            && ToSuccess(input, w'.ledger, w'.saga.sessions[t]) < ToSuccess(input, w.ledger, w.saga.sessions[t])
  {
    var x, d := w.saga.sessions[t], Forth(input, w, t);
    HolderPosition(cfg, w.saga, t);
    if d.PostForward? {
      PostForth(cfg, input, w, t);
    } else if x.pc.Ran? {
      CommitForth(cfg, w.saga.now, w.saga.db, t, x);
      StillTransfers(cfg, input, w, t, d.a, Act(cfg, w.saga.now, w.saga.db, t, x, d.a).1);
    } else {
      MoveForth(cfg, input, w.saga.now, w.saga.db, w.ledger, t, x, d.a);
      StillTransfers(cfg, input, w, t, d.a, Act(cfg, w.saga.now, w.saga.db, t, x, d.a).1);
    }
  }

  lemma {:induction false} GoesToSuccess(cfg: Config, input: Input, w: World, t: nat) returns (ds: seq<Deed>)
    requires Transfers(cfg, input, w, t)
    ensures Play(cfg, input, w, ds).saga.db.row.status == Success
    decreases ToSuccess(input, w.ledger, w.saga.sessions[t])
  {
    var d := Forth(input, w, t);
    if w.saga.sessions[t].pc == AtStep(3) {
      FinishForth(cfg, input, w, t);
      ds := [d] + [];
      PlayFirst(cfg, input, w, d, []);
    } else {
      StepForth(cfg, input, w, t);
      var rest := GoesToSuccess(cfg, input, Do(cfg, input, w, d), t);
      ds := [d] + rest;
      PlayFirst(cfg, input, w, d, rest);
    }
  }

  lemma FinishForth(cfg: Config, input: Input, w: World, t: nat)
    requires Count(cfg) == 2 && t in w.saga.sessions && w.saga.sessions[t].pc == AtStep(3)
    requires Holds(w.saga, t) && w.saga.db.row.status == Running
    ensures Do(cfg, input, w, Engine(Finish(t))).saga.db.row.status == Success
  {
    FinishNow(cfg, w.saga.now, w.saga.db, t, w.saga.sessions[t]);
  }

  lemma FinishNow(cfg: Config, now: int, db: Db, t: nat, x: Session)
    requires x.pc == AtStep(Count(cfg) + 1) && Held(db.row, Own(t, x)) && db.row.status == Running
    ensures Ready(cfg, x, Finish(t)) && Act(cfg, now, db, t, x, Finish(t)).0.row.status == Success
  {
  }

  lemma FirstClaim(cfg: Config, input: Input, now: int)
    requires Transfer(cfg) && input.amount > 0 && input.failAfter == None
    ensures Transfers(cfg, input, Do(cfg, input, Start(now), Engine(Claim("w", 30))), 1)
  {
    StartOk(cfg, input, now);
    DoKeeps(cfg, input, Start(now), Engine(Claim("w", 30)));
  }

  ghost predicate Succeeds(cfg: Config, input: Input, now: int, ds: seq<Deed>) {
    Play(cfg, input, Start(now), ds).saga.db.row.status == Success
  }

  /**
   Some run of a transfer succeeds if and only if no failure was asked for.
   */
  lemma FailAfterDecides(cfg: Config, input: Input, now: int)
    requires Transfer(cfg) && input.amount > 0
    ensures (exists ds: seq<Deed> :: Succeeds(cfg, input, now, ds)) <==> input.failAfter == None
  {
    if input.failAfter == None {
      FirstClaim(cfg, input, now);
      var claim := Engine(Claim("w", 30));
      var rest := GoesToSuccess(cfg, input, Do(cfg, input, Start(now), claim), 1);
      PlayFirst(cfg, input, Start(now), claim, rest);
      assert Succeeds(cfg, input, now, [claim] + rest);
    } else {
      forall ds: seq<Deed> ensures !Succeeds(cfg, input, now, ds) {
        NeverSucceeds(cfg, input, now, ds);
      }
    }
  }

  lemma NeverSucceeds(cfg: Config, input: Input, now: int, ds: seq<Deed>)
    requires Transfer(cfg) && input.failAfter != None
    ensures !Succeeds(cfg, input, now, ds)
  {
    RefusedRun(cfg, input, now, ds);
    NotSuccessAt(cfg, input, Play(cfg, input, Start(now), ds));
  }

  lemma NotSuccessAt(cfg: Config, input: Input, w: World)
    requires Transfer(cfg) && input.failAfter != None && WorldOk(cfg, input, w) && Refused(input, w)
    ensures w.saga.db.row.status != Success
  {
    assert Rejects(input, 1) || Rejects(input, 2);
    assert w.saga.db.row.status == Success ==> 1 in w.saga.db.forward && 2 in w.saga.db.forward;
  }

  /** An unusable value: no leg, no reversal, nothing to reconcile, in any state of any run. */
  lemma UnusableMovesNothing(cfg: Config, input: Input, now: int, ds: seq<Deed>)
    requires Transfer(cfg) && input.failAfter.Some? && input.failAfter.value != "post_debit"
    ensures var w := Play(cfg, input, Start(now), ds);
            && Net(w.ledger) == 0 && w.saga.db.forward == map[]
            && forall i: nat :: 1 <= i <= 2 ==> !Entered(input, w.ledger, i) && !Reversed(input, w.ledger, i)
  {
    RefusedRun(cfg, input, now, ds);
    NothingAt(input, Play(cfg, input, Start(now), ds));
  }

  lemma NothingAt(input: Input, w: World)
    requires LedgerOk(input, w.saga.db, w.ledger) && Refused(input, w) && Rejects(input, 1)
    requires forall k :: k in w.saga.db.forward ==> 1 <= k <= 2 && (k == 2 ==> 1 in w.saga.db.forward)
    ensures Net(w.ledger) == 0 && w.saga.db.forward == map[]
    ensures forall i: nat :: 1 <= i <= 2 ==> !Entered(input, w.ledger, i) && !Reversed(input, w.ledger, i)
  {
    assert !Entered(input, w.ledger, 1);
    assert 1 !in w.saga.db.forward;
    assert forall k :: k !in w.saga.db.forward;
  }

  /** The usable value: the debit may be posted, and reversed; the credit never. */
  lemma UsableNeverCredits(cfg: Config, input: Input, now: int, ds: seq<Deed>)
    requires Transfer(cfg) && input.failAfter == Some("post_debit")
    ensures !Entered(input, Play(cfg, input, Start(now), ds).ledger, 2)
    ensures 2 !in Play(cfg, input, Start(now), ds).saga.db.forward
  {
    RefusedRun(cfg, input, now, ds);
  }
}
