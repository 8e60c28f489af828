/**
 What may still become of a transfer whose unwind has been claimed: whether it can end COMPENSATED and off
 is decided by the ledger, the checkpoints and the stale workers of the moment.
 */
module LedgerFuture {
  import opened Prelude
  import opened Storage
  import opened Saga
  import opened SagaInvariant
  import opened Ledger
  import opened LedgerOrphans

  /** The unwind is under way. */
  ghost predicate UnderWay(cfg: Config, input: Input, w: World) {
    && Transfer(cfg) && input.amount > 0 && WorldOk(cfg, input, w)
    && Unwound(w.saga) && w.saga.db.row.status == Compensating
  }

  /**
   The worker can still run step i's body: it is running it, or step i is the first it will find missing and
   it has not been told that its lease is lost.
   */
  predicate MayRun(forward: map<nat, Value>, x: Session, i: nat) {
    && !x.unwinding && i !in forward
    && match x.pc
       case AtLoad => !x.lost && forall m: nat :: 1 <= m < i ==> m in forward
       case AtStep(k) => !x.lost && 1 <= k <= i && forall m: nat :: k <= m < i ==> m in x.completed
       case InStep(k) => k == i
       case _ => false
  }

  /** A forward worker can still post step i's leg, which is not checkpointed. */
  predicate CanStray(input: Input, w: World, t: nat, i: nat)
    requires t in w.saga.sessions
  {
    1 <= i <= 2 && !Rejects(input, i) && MayRun(w.saga.db.forward, w.saga.sessions[t], i)
  }

  /** Step i's leg is orphaned, or may yet be. */
  ghost predicate Endangered(input: Input, w: World, i: nat) {
    1 <= i <= 2 && (Orphan(input, w, i) || exists t :: t in w.saga.sessions && CanStray(input, w, t, i))
  }

  // ----- nothing endangered stays so -----------------------------------------------------------

  lemma StraysOnlyIfItCan(cfg: Config, input: Input, w: World, d: Deed, i: nat)
    requires Transfer(cfg) && WorldOk(cfg, input, w) && 1 <= i <= 2 && Strays(cfg, input, w, d, i)
    ensures d.t in w.saga.sessions && CanStray(input, w, d.t, i)
  {
    assert SessionOk(cfg, input, w.saga.db, w.ledger, w.saga.sessions[d.t]);
  }

  /** A stale worker that cannot run a step does not come to where it can. */
  lemma MayRunBack(cfg: Config, now: int, db: Db, t: nat, x: Session, a: Action, i: nat)
    requires OfClaim(a) && Ready(cfg, x, a) && !Held(db.row, Own(t, x))
    requires i >= 1 && MayRun(db.forward, Act(cfg, now, db, t, x, a).1, i)
    ensures MayRun(db.forward, x, i)
  {
    match a
    case Load(_) =>
    case Replay(_) =>
    case Begin(_, _) =>
    case Commit(_) =>
    case CommitUndone(_) =>
    case _ =>
  }

  lemma EndangeredBack(cfg: Config, input: Input, w: World, d: Deed, i: nat)
    requires Transfer(cfg) && WorldOk(cfg, input, w) && Unwound(w.saga)
    requires Endangered(input, Do(cfg, input, w, d), i)
    ensures Endangered(input, w, i)
  {
    var w' := Do(cfg, input, w, d);
    OrphanStep(cfg, input, w, d, i);
    if Orphan(input, w', i) {
      if !Orphan(input, w, i) { StraysOnlyIfItCan(cfg, input, w, d, i); }
    } else {
      var t :| t in w'.saga.sessions && CanStray(input, w', t, i);
      StrayerWas(cfg, input, w, d, t, i);
    }
  }

  lemma StrayerWas(cfg: Config, input: Input, w: World, d: Deed, t: nat, i: nat)
    requires Transfer(cfg) && WorldOk(cfg, input, w) && Unwound(w.saga)
    requires var w' := Do(cfg, input, w, d); t in w'.saga.sessions && CanStray(input, w', t, i)
    ensures t in w.saga.sessions && CanStray(input, w, t, i)
  {
    if d.Engine? && Allowed(cfg, input, w, d) {
      SameForward(cfg, w.saga, d.a);
      if OfClaim(d.a) && d.a.t == t {
        var s, x := w.saga, w.saga.sessions[t];
        IdentityKept(cfg, s.now, s.db, t, x, d.a);
        assert !x.unwinding && !Held(s.db.row, Own(t, x));
        MayRunBack(cfg, s.now, s.db, t, x, d.a, i);
      }
    }
  }

  lemma SameForward(cfg: Config, s: State, a: Action)
    requires Inv(cfg, s) && Unwound(s) && Enabled(cfg, s, a)
    ensures Next(cfg, s, a).db.forward == s.db.forward
    ensures a.Claim? ==> s.db.row.status == Compensating
  {
    if OfClaim(a) { TablesGrow(cfg, s, a); }
  }

  lemma {:induction false} EndangeredBefore(cfg: Config, input: Input, w: World, ds: seq<Deed>, i: nat)
    requires Transfer(cfg) && WorldOk(cfg, input, w) && Unwound(w.saga)
    requires 1 <= i <= 2
    ensures Unwound(Play(cfg, input, w, ds).saga) && WorldOk(cfg, input, Play(cfg, input, w, ds))
    ensures Orphan(input, w, i) ==> Orphan(input, Play(cfg, input, w, ds), i)
    ensures Endangered(input, Play(cfg, input, w, ds), i) ==> Endangered(input, w, i)
  {
    PlayKeeps(cfg, input, w, ds);
    if ds != [] {
      var front, d := ds[..|ds| - 1], ds[|ds| - 1];
      EndangeredBefore(cfg, input, w, front, i);
      var before := Play(cfg, input, w, front);
      OrphanStep(cfg, input, before, d, i);
      if Endangered(input, Do(cfg, input, before, d), i) { EndangeredBack(cfg, input, before, d, i); }
    }
  }

  // ----- an endangered leg can be lost ---------------------------------------------------------

  lemma PlayFirst(cfg: Config, input: Input, w: World, d: Deed, rest: seq<Deed>)
    ensures Play(cfg, input, w, [d] + rest) == Play(cfg, input, Do(cfg, input, w, d), rest)
    decreases |rest|
  {
    if rest == [] {
      assert [d] + rest == [d] && [d][..0] == [];
    } else {
      var front := rest[..|rest| - 1];
      PlayFirst(cfg, input, w, d, front);
      assert ([d] + rest)[..|rest|] == [d] + front;
    }
  }

  lemma DoKeeps(cfg: Config, input: Input, w: World, d: Deed)
    requires Transfer(cfg) && WorldOk(cfg, input, w)
    ensures WorldOk(cfg, input, Do(cfg, input, w, d))
  {
    PlayFirst(cfg, input, w, d, []);
    PlayKeeps(cfg, input, w, [d] + []);
  }

  /** Its next move there. */
  function Astray(t: nat, x: Session): Action {
    match x.pc
    case AtLoad => Load(t)
    case AtStep(k) => if k in x.completed then Replay(t) else Begin(t, k)
    case _ => Drop(t)
  }

  function ToPost(pc: Pc): nat {
    match pc
    case AtLoad => 9
    case AtStep(k) => if k <= 2 then 7 - k else 1
    case _ => 0
  }

  lemma MayRunOn(cfg: Config, now: int, db: Db, t: nat, x: Session, i: nat)
    requires MayRun(db.forward, x, i) && !x.pc.InStep? && 1 <= i <= 2 && i <= Count(cfg)
    requires forall k :: k in x.completed ==> k in db.forward
    ensures var a := Astray(t, x);
            && OfClaim(a) && a.t == t && Moves(a) && Ready(cfg, x, a)
            && var (db', x') := Act(cfg, now, db, t, x, a);
               db' == db && MayRun(db.forward, x', i) && ToPost(x'.pc) < ToPost(x.pc)
  {
  }

  lemma StepAstray(cfg: Config, input: Input, w: World, t: nat, i: nat)
    requires UnderWay(cfg, input, w) && t in w.saga.sessions && CanStray(input, w, t, i)
    requires !w.saga.sessions[t].pc.InStep?
    ensures var w' := Do(cfg, input, w, Engine(Astray(t, w.saga.sessions[t])));
            && UnderWay(cfg, input, w') && t in w'.saga.sessions && CanStray(input, w', t, i)
            && ToPost(w'.saga.sessions[t].pc) < ToPost(w.saga.sessions[t].pc)
  {
    var x, a := w.saga.sessions[t], Astray(t, w.saga.sessions[t]);
    assert SessionOk(cfg, input, w.saga.db, w.ledger, x);
    MayRunOn(cfg, w.saga.now, w.saga.db, t, x, i);
    DoKeeps(cfg, input, w, Engine(a));
    assert Allowed(cfg, input, w, Engine(a));
    IdentityKept(cfg, w.saga.now, w.saga.db, t, x, a);
  }

  lemma PostAstray(cfg: Config, input: Input, w: World, t: nat, i: nat)
    requires UnderWay(cfg, input, w) && t in w.saga.sessions && CanStray(input, w, t, i)
    requires w.saga.sessions[t].pc.InStep?
    ensures var w' := Do(cfg, input, w, PostForward(t)); UnderWay(cfg, input, w') && Orphan(input, w', i)
  {
    DoKeeps(cfg, input, w, PostForward(t));
    PostAdds(w.ledger, ForwardKey(input, i), input.amount);
  }

  /** The worker goes on and posts. */
  lemma {:induction false} GoAstray(cfg: Config, input: Input, w: World, t: nat, i: nat) returns (ds: seq<Deed>)
    requires UnderWay(cfg, input, w) && t in w.saga.sessions && CanStray(input, w, t, i)
    ensures UnderWay(cfg, input, Play(cfg, input, w, ds)) && Orphan(input, Play(cfg, input, w, ds), i)
    decreases ToPost(w.saga.sessions[t].pc)
  {
    if w.saga.sessions[t].pc.InStep? {
      PostAstray(cfg, input, w, t, i);
      ds := [PostForward(t)] + [];
      PlayFirst(cfg, input, w, PostForward(t), []);
    } else {
      var d := Engine(Astray(t, w.saga.sessions[t]));
      StepAstray(cfg, input, w, t, i);
      var rest := GoAstray(cfg, input, Do(cfg, input, w, d), t, i);
      ds := [d] + rest;
      PlayFirst(cfg, input, w, d, rest);
    }
  }

  // ----- an unwind can always be finished ------------------------------------------------------

  /** Claim `t` holds the row and its worker is on its way through the unwind. */
  ghost predicate Unwinds(cfg: Config, input: Input, w: World, t: nat) {
    && UnderWay(cfg, input, w) && t in w.saga.sessions && Holds(w.saga, t)
    && w.saga.sessions[t].unwinding && !w.saga.sessions[t].lost
    && (w.saga.sessions[t].pc.AtLoad? || w.saga.sessions[t].pc.AtUndo?
        || w.saga.sessions[t].pc.InUndo? || w.saga.sessions[t].pc.Undid?)
  }

  /** What it does next: each compensation posts its reversal and returns. */
  function Onward(cfg: Config, w: World, t: nat): Deed
    requires t in w.saga.sessions
  {
    var x := w.saga.sessions[t];
    match x.pc
    case AtLoad => Engine(Load(t))
    case AtUndo(j) =>
      if j == 0 then Engine(FinishUndone(t))
      else if j in x.completed && j !in x.compensated && Compensable(cfg, j) then Engine(BeginUndo(t, j))
      else Engine(Pass(t))
    case InUndo(j, _) =>
      if j in x.completed && !Posted(w.ledger, UndoKey(j, x.completed[j])) then PostUndo(t) else Engine(UndoReturn(t))
    case _ => Engine(CommitUndone(t))
  }

  function Left(ledger: seq<Entry>, x: Session): nat {
    match x.pc
    case AtLoad => 20
    case AtUndo(j) => 5 * j + 1
    case InUndo(j, _) =>
      5 * j + if j > 0 && j in x.completed && Posted(ledger, UndoKey(j, x.completed[j])) then -1 else 0
    case Undid(j) => if j > 0 then 5 * j - 2 else 0
    case _ => 0
  }

  function ToFinish(w: World, t: nat): nat
    requires t in w.saga.sessions
  {
    Left(w.ledger, w.saga.sessions[t])
  }

  lemma StepOnward(cfg: Config, input: Input, w: World, t: nat)
    requires Unwinds(cfg, input, w, t) && w.saga.sessions[t].pc != AtUndo(0)
    ensures var w' := Do(cfg, input, w, Onward(cfg, w, t));
            Unwinds(cfg, input, w', t) && ToFinish(w', t) < ToFinish(w, t)
  {
    if w.saga.sessions[t].pc.InUndo? {
      StepInUndo(cfg, input, w, t);
    } else if w.saga.sessions[t].pc.Undid? {
      StepUndid(cfg, input, w, t);
    } else {
      StepBetween(cfg, input, w, t);
    }
  }

  /** Loading, passing a step, beginning an undo: the worker's own affair. */
  lemma MoveOn(cfg: Config, now: int, db: Db, ledger: seq<Entry>, t: nat, x: Session, a: Action)
    requires x.unwinding && !x.lost && (x.pc.AtLoad? || (x.pc.AtUndo? && x.pc.j > 0)) && Count(cfg) <= 2
    requires a == if x.pc.AtLoad? then Load(t)
                  else if x.pc.j in x.completed && x.pc.j !in x.compensated && Compensable(cfg, x.pc.j)
                  then BeginUndo(t, x.pc.j) else Pass(t)
    ensures Ready(cfg, x, a)
    ensures var (db', x') := Act(cfg, now, db, t, x, a);
            && db' == db && x'.unwinding && !x'.lost && (x'.pc.AtUndo? || x'.pc.InUndo?)
            && Left(ledger, x') < Left(ledger, x)
  {
  }

  /** The worker's own step leaves it holding the row, further on. */
  lemma StillUnwinds(cfg: Config, input: Input, w: World, t: nat, a: Action, x': Session)
    requires Unwinds(cfg, input, w, t) && OfClaim(a) && a.t == t && Allowed(cfg, input, w, Engine(a))
    requires Act(cfg, w.saga.now, w.saga.db, t, w.saga.sessions[t], a).1 == x'
    requires Act(cfg, w.saga.now, w.saga.db, t, w.saga.sessions[t], a).0.row == w.saga.db.row
    requires x'.unwinding && !x'.lost && (x'.pc.AtUndo? || x'.pc.InUndo? || x'.pc.Undid?)
    ensures var w' := Do(cfg, input, w, Engine(a));
            Unwinds(cfg, input, w', t) && w'.ledger == w.ledger && w'.saga.sessions[t] == x'
  {
    DoKeeps(cfg, input, w, Engine(a));
    IdentityKept(cfg, w.saga.now, w.saga.db, t, w.saga.sessions[t], a);
  }

  lemma StepBetween(cfg: Config, input: Input, w: World, t: nat)
    requires Unwinds(cfg, input, w, t) && (w.saga.sessions[t].pc.AtLoad? || w.saga.sessions[t].pc.AtUndo?)
    requires w.saga.sessions[t].pc != AtUndo(0)
    ensures var w' := Do(cfg, input, w, Onward(cfg, w, t));
            Unwinds(cfg, input, w', t) && ToFinish(w', t) < ToFinish(w, t)
  {
    var x, a := w.saga.sessions[t], Onward(cfg, w, t).a;
    MoveOn(cfg, w.saga.now, w.saga.db, w.ledger, t, x, a);
    StillUnwinds(cfg, input, w, t, a, Act(cfg, w.saga.now, w.saga.db, t, x, a).1);
  }

  lemma StepInUndo(cfg: Config, input: Input, w: World, t: nat)
    requires Unwinds(cfg, input, w, t) && w.saga.sessions[t].pc.InUndo?
    ensures var w' := Do(cfg, input, w, Onward(cfg, w, t));
            Unwinds(cfg, input, w', t) && ToFinish(w', t) < ToFinish(w, t)
  {
    var x := w.saga.sessions[t];
    assert SessionOk(cfg, input, w.saga.db, w.ledger, x);
    var key := UndoKey(x.pc.j, x.completed[x.pc.j]);
    if Posted(w.ledger, key) {
      ReturnOn(cfg, w.saga.now, w.saga.db, t, x);
      StillUnwinds(cfg, input, w, t, UndoReturn(t), x.(pc := Undid(x.pc.j)));
    } else {
      PostAdds(w.ledger, key, input.amount);
      PostOn(cfg, input, w, t);
    }
  }

  lemma ReturnOn(cfg: Config, now: int, db: Db, t: nat, x: Session)
    requires x.pc.InUndo?
    ensures Ready(cfg, x, UndoReturn(t)) && Act(cfg, now, db, t, x, UndoReturn(t)) == (db, x.(pc := Undid(x.pc.j)))
  {
  }

  lemma PostOn(cfg: Config, input: Input, w: World, t: nat)
    requires Unwinds(cfg, input, w, t) && w.saga.sessions[t].pc.InUndo?
    requires w.saga.sessions[t].pc.j in w.saga.sessions[t].completed
    ensures var x, w' := w.saga.sessions[t], Do(cfg, input, w, PostUndo(t));
            && Unwinds(cfg, input, w', t) && w'.saga == w.saga
            && w'.ledger == Post(w.ledger, UndoKey(x.pc.j, x.completed[x.pc.j]), input.amount)
  {
    DoKeeps(cfg, input, w, PostUndo(t));
  }

  lemma CommitOn(cfg: Config, now: int, db: Db, t: nat, x: Session)
    requires x.pc.Undid? && x.pc.j > 0 && Held(db.row, Own(t, x)) && db.row.status == Compensating
    requires x.pc.j !in db.undone
    ensures Ready(cfg, x, CommitUndone(t))
    ensures var (db', x') := Act(cfg, now, db, t, x, CommitUndone(t));
            && db'.row == db.row && x' == x.(pc := AtUndo(x.pc.j - 1), buffer := [])
  {
  }

  lemma StepUndid(cfg: Config, input: Input, w: World, t: nat)
    requires Unwinds(cfg, input, w, t) && w.saga.sessions[t].pc.Undid?
    ensures var w' := Do(cfg, input, w, Onward(cfg, w, t));
            Unwinds(cfg, input, w', t) && ToFinish(w', t) < ToFinish(w, t)
  {
    var x := w.saga.sessions[t];
    assert SessionOk(cfg, input, w.saga.db, w.ledger, x);
    HolderHasNotUndone(cfg, w.saga, t);
    CommitOn(cfg, w.saga.now, w.saga.db, t, x);
    StillUnwinds(cfg, input, w, t, CommitUndone(t), x.(pc := AtUndo(x.pc.j - 1), buffer := []));
  }

  lemma HolderHasNotUndone(cfg: Config, s: State, t: nat)
    requires Inv(cfg, s) && t in s.sessions && Holds(s, t) && s.sessions[t].pc.Undid?
    ensures s.sessions[t].pc.j !in s.db.undone
  {
  }

  /** From a claim that holds the row, compensation by compensation. */
  lemma {:induction false} GoesToCompensated(cfg: Config, input: Input, w: World, t: nat) returns (ds: seq<Deed>)
    requires Unwinds(cfg, input, w, t)
    ensures Play(cfg, input, w, ds).saga.db.row.status == Compensated
    decreases ToFinish(w, t)
  {
    var d := Onward(cfg, w, t);
    if w.saga.sessions[t].pc == AtUndo(0) {
      ds := [d] + [];
      PlayFirst(cfg, input, w, d, []);
    } else {
      StepOnward(cfg, input, w, t);
      var rest := GoesToCompensated(cfg, input, Do(cfg, input, w, d), t);
      ds := [d] + rest;
      PlayFirst(cfg, input, w, d, rest);
    }
  }

  function Wait(s: State): Action {
    Tick(Max(0, Max(s.db.row.runAfter, if s.db.row.lease == None then 0 else s.db.row.lease.value + 1) - s.now))
  }

  /** Whoever holds it now, the row can be claimed again once its lease has run out. */
  lemma TakeOver(cfg: Config, input: Input, w: World) returns (ds: seq<Deed>, taken: World, t: nat)
    requires UnderWay(cfg, input, w)
    ensures taken == Play(cfg, input, w, ds) && Unwinds(cfg, input, taken, t)
  {
    var wait, due := Waited(cfg, input, w);
    var claim;
    claim, taken := Claimed(cfg, input, due);
    t := due.saga.db.row.token + 1;
    ds := [wait, claim];
    TwoDeeds(cfg, input, w, wait, claim, due, taken);
  }

  lemma TwoDeeds(cfg: Config, input: Input, w: World, a: Deed, b: Deed, w1: World, w2: World)
    requires w1 == Do(cfg, input, w, a) && w2 == Do(cfg, input, w1, b)
    ensures Play(cfg, input, w, [a, b]) == w2
  {
    assert [a, b][..1] == [a] && [a][..0] == [];
    assert Play(cfg, input, w, [a]) == w1;
  }

  lemma Waited(cfg: Config, input: Input, w: World) returns (wait: Deed, due: World)
    requires UnderWay(cfg, input, w)
    ensures due == Do(cfg, input, w, wait)
    ensures UnderWay(cfg, input, due) && Claimable(due.saga.db.row, due.saga.now) && due.saga.db == w.saga.db
  {
    wait := Engine(Wait(w.saga));
    due := Do(cfg, input, w, wait);
    DoKeeps(cfg, input, w, wait);
  }

  lemma Claimed(cfg: Config, input: Input, w: World) returns (claim: Deed, taken: World)
    requires UnderWay(cfg, input, w) && Claimable(w.saga.db.row, w.saga.now)
    ensures taken == Do(cfg, input, w, claim) && Unwinds(cfg, input, taken, w.saga.db.row.token + 1)
  {
    claim := Engine(Claim("w", 1));
    taken := Do(cfg, input, w, claim);
    DoKeeps(cfg, input, w, claim);
  }

  lemma CanEndCompensated(cfg: Config, input: Input, w: World) returns (ds: seq<Deed>)
    requires UnderWay(cfg, input, w)
    ensures Play(cfg, input, w, ds).saga.db.row.status == Compensated
  {
    var first, taken, t := TakeOver(cfg, input, w);
    var rest := GoesToCompensated(cfg, input, taken, t);
    ds := first + rest;
    PlayConcat(cfg, input, w, first, rest);
  }

  lemma {:induction false} PlayConcat(cfg: Config, input: Input, w: World, a: seq<Deed>, b: seq<Deed>)
    ensures Play(cfg, input, w, a + b) == Play(cfg, input, Play(cfg, input, w, a), b)
  {
    if b == [] {
      assert a + b == a;
    } else {
      assert (a + b)[..|a + b| - 1] == a + b[..|b| - 1];
      PlayConcat(cfg, input, w, a, b[..|b| - 1]);
    }
  }

  // ----- the verdict ---------------------------------------------------------------------------

  ghost predicate EndsOff(cfg: Config, input: Input, w: World, ds: seq<Deed>) {
    var w' := Play(cfg, input, w, ds);
    w'.saga.db.row.status == Compensated && Net(w'.ledger) != 0
  }

  lemma OrphanEndsOff(cfg: Config, input: Input, w: World, i: nat) returns (ds: seq<Deed>)
    requires UnderWay(cfg, input, w) && 1 <= i <= 2 && Orphan(input, w, i)
    ensures EndsOff(cfg, input, w, ds)
  {
    ds := CanEndCompensated(cfg, input, w);
    EndangeredBefore(cfg, input, w, ds, i);
    CompensatedAt(cfg, input, Play(cfg, input, w, ds));
  }

  lemma EndangeredCanEndOff(cfg: Config, input: Input, w: World, i: nat) returns (ds: seq<Deed>)
    requires UnderWay(cfg, input, w) && Endangered(input, w, i)
    ensures EndsOff(cfg, input, w, ds)
  {
    if Orphan(input, w, i) {
      ds := OrphanEndsOff(cfg, input, w, i);
    } else {
      var t :| t in w.saga.sessions && CanStray(input, w, t, i);
      var first := GoAstray(cfg, input, w, t, i);
      var rest := OrphanEndsOff(cfg, input, Play(cfg, input, w, first), i);
      ds := first + rest;
      PlayConcat(cfg, input, w, first, rest);
    }
  }

  lemma OffWasEndangered(cfg: Config, input: Input, w: World, ds: seq<Deed>)
    requires UnderWay(cfg, input, w) && EndsOff(cfg, input, w, ds)
    ensures Endangered(input, w, 1) || Endangered(input, w, 2)
  {
    EndangeredBefore(cfg, input, w, ds, 1);
    EndangeredBefore(cfg, input, w, ds, 2);
    CompensatedAt(cfg, input, Play(cfg, input, w, ds));
  }

  /**
   The moment decides. From any state of an unwind that has been claimed and has not ended, some continuation
   ends COMPENSATED and off if and only if a leg is orphaned, or some forward worker can still post one that
   is not checkpointed.
   */
  lemma CanEndOffExactlyWhen(cfg: Config, input: Input, w: World)
    requires UnderWay(cfg, input, w)
    ensures (exists ds: seq<Deed> :: EndsOff(cfg, input, w, ds)) <==> Endangered(input, w, 1) || Endangered(input, w, 2)
  {
    if Endangered(input, w, 1) {
      var ds := EndangeredCanEndOff(cfg, input, w, 1);
    } else if Endangered(input, w, 2) {
      var ds := EndangeredCanEndOff(cfg, input, w, 2);
    } else {
      forall ds: seq<Deed> ensures !EndsOff(cfg, input, w, ds) {
        if EndsOff(cfg, input, w, ds) { OffWasEndangered(cfg, input, w, ds); }
      }
    }
  }

  /** In particular right after the unwind is first claimed, in any run. */
  lemma AtTheGrant(cfg: Config, input: Input, now: int, ds: seq<Deed>, p: nat)
    requires Transfer(cfg) && input.amount > 0 && FirstUnwindingClaim(cfg, input, now, ds, p)
    ensures var w := Play(cfg, input, Start(now), ds[..p + 1]);
            (exists more: seq<Deed> :: EndsOff(cfg, input, w, more))
            <==> Endangered(input, w, 1) || Endangered(input, w, 2)
  {
    var before := Play(cfg, input, Start(now), ds[..p]);
    assert ds[..p + 1] == ds[..p] + [ds[p]];
    PlayMore(cfg, input, Start(now), ds[..p], ds[p]);
    Kept(cfg, input, now, ds[..p + 1]);
    GrantIsUnderWay(cfg, before, ds[p], Do(cfg, input, before, ds[p]), input);
    CanEndOffExactlyWhen(cfg, input, Do(cfg, input, before, ds[p]));
  }

  lemma GrantIsUnderWay(cfg: Config, w: World, d: Deed, w': World, input: Input)
    requires GrantsUnwind(cfg, w, d) && w' == Do(cfg, input, w, d)
    ensures Unwound(w'.saga) && w'.saga.db.row.status == Compensating
  {
  }
}
