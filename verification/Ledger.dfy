/**
 `demo_transfer` on top of the protocol: two steps whose bodies append to an append-only ledger, in
 transactions of their own, before the engine checkpoints them.

 Any worker whose body is running may post, including one that lost its claim long ago; the unique
 key makes a repeated posting a no-op. A body returns only once its leg is in the ledger.
 */
module Ledger {
  import opened Prelude
  import opened Storage
  import opened Saga
  import opened SagaInvariant

  datatype Key = Key(step: string, account: string, debit: bool)
  datatype Entry = Entry(key: Key, amount: int)

  datatype Input = Input(source: string, destination: string, amount: int, failAfter: Option<string>)

  function StepName(i: nat): string { if i == 1 then "post_debit" else "post_credit" }

  function CompensationOf(name: string): string { name + ":compensate" }

  /** The account a step posts to, which is also what it returns. */
  function Account(input: Input, i: nat): string { if i == 1 then input.source else input.destination }

  function ForwardKey(input: Input, i: nat): Key { Key(StepName(i), Account(input, i), i == 1) }

  /** The reversal: same account as the committed output says, opposite direction. */
  function UndoKey(i: nat, output: Value): Key { Key(CompensationOf(StepName(i)), output, i != 1) }

  /** `_validate_fail_after` in step 1, `_maybe_fail_before` in both. */
  predicate Rejects(input: Input, i: nat) {
    if i == 1 then input.failAfter.Some? && input.failAfter.value != "post_debit"
    else input.failAfter == Some("post_debit")
  }

  predicate Posted(ledger: seq<Entry>, key: Key) {
    exists e :: e in ledger && e.key == key
  }

  /** INSERT ... ON CONFLICT DO NOTHING. */
  function Post(ledger: seq<Entry>, key: Key, amount: int): seq<Entry> {
    if Posted(ledger, key) then ledger else ledger + [Entry(key, amount)]
  }

  /** Debits minus credits, over every row of the transfer. */
  function Net(ledger: seq<Entry>): int {
    if ledger == [] then 0
    else
      var e := ledger[|ledger| - 1];
      Net(ledger[..|ledger| - 1]) + if e.key.debit then e.amount else -e.amount
  }

  datatype World = World(saga: State, ledger: seq<Entry>)

  datatype Deed = Engine(a: Action) | PostForward(t: nat) | PostUndo(t: nat)

  predicate Allowed(cfg: Config, input: Input, w: World, d: Deed) {
    match d
    case Engine(a) =>
      && Enabled(cfg, w.saga, a)
      && (a.Return? ==>
            var i := w.saga.sessions[a.t].pc.i;
            a.result == Account(input, i) && Posted(w.ledger, ForwardKey(input, i)) && !Rejects(input, i))
      && (a.UndoReturn? ==>
            var x := w.saga.sessions[a.t];
            x.pc.j in x.completed && Posted(w.ledger, UndoKey(x.pc.j, x.completed[x.pc.j])))
    case PostForward(t) =>
      t in w.saga.sessions && w.saga.sessions[t].pc.InStep? && !Rejects(input, w.saga.sessions[t].pc.i)
          && input.amount > 0
    case PostUndo(t) =>
      t in w.saga.sessions && w.saga.sessions[t].pc.InUndo?
          && w.saga.sessions[t].pc.j in w.saga.sessions[t].completed && input.amount > 0
  }

  function Do(cfg: Config, input: Input, w: World, d: Deed): World {
    if !Allowed(cfg, input, w, d) then w
    else
      match d
      case Engine(a) => w.(saga := Next(cfg, w.saga, a))
      case PostForward(t) => w.(ledger := Post(w.ledger, ForwardKey(input, w.saga.sessions[t].pc.i), input.amount))
      case PostUndo(t) =>
        var x := w.saga.sessions[t];
        w.(ledger := Post(w.ledger, UndoKey(x.pc.j, x.completed[x.pc.j]), input.amount))
  }

  function Play(cfg: Config, input: Input, w: World, ds: seq<Deed>): World {
    if ds == [] then w else Do(cfg, input, Play(cfg, input, w, ds[..|ds| - 1]), ds[|ds| - 1])
  }

  function Start(now: int): World { World(Init(now), []) }

  predicate Transfer(cfg: Config) { cfg.steps == [true, true] }

  // ----- what every claim's worker knows, stale or not ----------------------------------------

  ghost predicate SessionOk(cfg: Config, input: Input, db: Db, ledger: seq<Entry>, x: Session) {
    && (forall k :: k in x.completed ==> k in db.forward && x.completed[k] == db.forward[k])
    && match x.pc
       case AtStep(i) => !x.unwinding && i >= 1 && (forall k :: 1 <= k < i ==> k in db.forward)
       case InStep(i) => !x.unwinding && 1 <= i <= 2 && (forall k :: 1 <= k < i ==> k in db.forward)
       case Ran(i, v) =>
         && !x.unwinding && 1 <= i <= 2
         && v == Account(input, i) && Posted(ledger, ForwardKey(input, i))
         && (forall k :: 1 <= k < i ==> k in db.forward)
       case Failing(_) => !x.unwinding
       case AtUndo(j) => Unwinding(cfg, db, x, j)
       case InUndo(j, _) => Unwinding(cfg, db, x, j) && 1 <= j <= 2 && j in x.completed
       case Undid(j) => Unwinding(cfg, db, x, j) && 1 <= j <= 2 && j in x.completed
           && Posted(ledger, UndoKey(j, x.completed[j]))
       case Stuck(j) => Unwinding(cfg, db, x, j)
       case _ => true
  }

  ghost predicate Unwinding(cfg: Config, db: Db, x: Session, j: nat) {
    && x.unwinding && j <= 2
    && x.completed == db.forward
    && x.compensated <= db.undone
    && (forall k :: k in db.forward && j < k && Compensable(cfg, k) ==> k in db.undone)
  }

  // ----- the four legs -------------------------------------------------------------------------

  predicate Entered(input: Input, ledger: seq<Entry>, i: nat) { Posted(ledger, ForwardKey(input, i)) }
  predicate Reversed(input: Input, ledger: seq<Entry>, i: nat) { Posted(ledger, UndoKey(i, Account(input, i))) }

  /** What a leg adds to the net if it is there. */
  function If(b: bool, amount: int): int { if b then amount else 0 }

  /** The net, from which legs are posted. */
  function Legs(input: Input, ledger: seq<Entry>): int {
    If(Entered(input, ledger, 1), input.amount) - If(Entered(input, ledger, 2), input.amount)
    + If(Reversed(input, ledger, 2), input.amount) - If(Reversed(input, ledger, 1), input.amount)
  }

  ghost predicate LedgerOk(input: Input, db: Db, ledger: seq<Entry>) {
    && Net(ledger) == Legs(input, ledger)
    && (forall k :: k in db.forward ==> 1 <= k <= 2 && db.forward[k] == Account(input, k) && Entered(input, ledger, k))
    && (Entered(input, ledger, 2) ==> 1 in db.forward)
    && (forall k :: k in db.undone ==> Reversed(input, ledger, k))
    && (forall k: nat :: 1 <= k <= 2 && Reversed(input, ledger, k) ==> k in db.forward)
    && (Reversed(input, ledger, 1) && 2 in db.forward ==> Reversed(input, ledger, 2))
  }

  ghost predicate WorldOk(cfg: Config, input: Input, w: World) {
    && Inv(cfg, w.saga)
    && LedgerOk(input, w.saga.db, w.ledger)
    && (forall t :: t in w.saga.sessions ==> SessionOk(cfg, input, w.saga.db, w.ledger, w.saga.sessions[t]))
    && (Reversed(input, w.ledger, 1) || Reversed(input, w.ledger, 2) ==> Unwound(w.saga))
  }

  lemma PostAdds(ledger: seq<Entry>, key: Key, amount: int)
    ensures var l' := Post(ledger, key, amount);
            && (forall k :: Posted(l', k) <==> Posted(ledger, k) || k == key)
            && Net(l') == Net(ledger) + (if Posted(ledger, key) then 0 else if key.debit then amount else -amount)
  {
    var l' := Post(ledger, key, amount);
    if !Posted(ledger, key) {
      assert l'[..|ledger|] == ledger;
      assert l'[|ledger|] == Entry(key, amount);
      forall k ensures Posted(l', k) <==> Posted(ledger, k) || k == key {
        assert forall e :: e in ledger ==> e in l';
      }
    }
  }

  lemma FourKeys(input: Input)
    ensures var d, c := ForwardKey(input, 1), ForwardKey(input, 2);
            var rd, rc := UndoKey(1, Account(input, 1)), UndoKey(2, Account(input, 2));
            && d != c && d != rd && d != rc && c != rd && c != rc && rd != rc
            && d.debit && !c.debit && !rd.debit && rc.debit
  {
    assert |ForwardKey(input, 1).step| == 10 && |ForwardKey(input, 2).step| == 11;
    assert |UndoKey(1, "").step| == 21 && |UndoKey(2, "").step| == 22;
  }

  /** More rows in the ledger never invalidate what a worker knows. */
  lemma SessionKeepsLedger(cfg: Config, input: Input, db: Db, ledger: seq<Entry>, ledger': seq<Entry>, x: Session)
    requires SessionOk(cfg, input, db, ledger, x)
    requires forall k :: Posted(ledger, k) ==> Posted(ledger', k)
    ensures SessionOk(cfg, input, db, ledger', x)
  {
  }

  /** Posting step i's leg moves the net by that leg, once. */
  lemma ForwardLeg(input: Input, ledger: seq<Entry>, i: nat)
    requires 1 <= i <= 2 && Net(ledger) == Legs(input, ledger)
    ensures var l' := Post(ledger, ForwardKey(input, i), input.amount);
            && Net(l') == Legs(input, l')
            && (forall k :: Posted(ledger, k) ==> Posted(l', k))
            && (forall k: nat :: 1 <= k <= 2 ==> (Entered(input, l', k) <==> Entered(input, ledger, k) || k == i))
            && (forall k: nat :: 1 <= k <= 2 ==> (Reversed(input, l', k) <==> Reversed(input, ledger, k)))
  {
    PostAdds(ledger, ForwardKey(input, i), input.amount);
    FourKeys(input);
  }

  lemma UndoLeg(input: Input, ledger: seq<Entry>, j: nat)
    requires 1 <= j <= 2 && Net(ledger) == Legs(input, ledger)
    ensures var l' := Post(ledger, UndoKey(j, Account(input, j)), input.amount);
            && Net(l') == Legs(input, l')
            && (forall k :: Posted(ledger, k) ==> Posted(l', k))
            && (forall k: nat :: 1 <= k <= 2 ==> (Entered(input, l', k) <==> Entered(input, ledger, k)))
            && (forall k: nat :: 1 <= k <= 2 ==> (Reversed(input, l', k) <==> Reversed(input, ledger, k) || k == j))
  {
    PostAdds(ledger, UndoKey(j, Account(input, j)), input.amount);
    FourKeys(input);
  }

  /** The ledger invariant after new rows, given which legs they are. */
  lemma LedgerOkAfter(input: Input, db: Db, ledger: seq<Entry>, l': seq<Entry>)
    requires LedgerOk(input, db, ledger) && Net(l') == Legs(input, l')
    requires forall k: nat :: 1 <= k <= 2 && Entered(input, ledger, k) ==> Entered(input, l', k)
    requires forall k: nat :: 1 <= k <= 2 && Reversed(input, ledger, k) ==> Reversed(input, l', k)
    requires Entered(input, l', 2) ==> Entered(input, ledger, 2) || 1 in db.forward
    requires forall k: nat :: 1 <= k <= 2 && Reversed(input, l', k) ==> Reversed(input, ledger, k) || k in db.forward
    requires Reversed(input, l', 1) && 2 in db.forward ==> Reversed(input, ledger, 1) || 2 in db.undone
    requires forall k :: k in db.undone ==> 1 <= k <= 2
    ensures LedgerOk(input, db, l')
  {
  }

  lemma PostForwardKeeps(cfg: Config, input: Input, w: World, t: nat)
    requires Transfer(cfg) && WorldOk(cfg, input, w) && Allowed(cfg, input, w, PostForward(t))
    ensures WorldOk(cfg, input, Do(cfg, input, w, PostForward(t)))
  {
    var x := w.saga.sessions[t];
    assert SessionOk(cfg, input, w.saga.db, w.ledger, x);
    var l' := Post(w.ledger, ForwardKey(input, x.pc.i), input.amount);
    ForwardLeg(input, w.ledger, x.pc.i);
    LedgerOkAfter(input, w.saga.db, w.ledger, l');
    AfterPosting(cfg, input, w, l');
  }

  /** A running compensation belongs to a committed step, and everything above it is undone. */
  lemma UndoFacts(cfg: Config, input: Input, db: Db, ledger: seq<Entry>, x: Session)
    requires Transfer(cfg) && SessionOk(cfg, input, db, ledger, x) && LedgerOk(input, db, ledger) && x.pc.InUndo?
    ensures var j := x.pc.j;
            && x.unwinding && 1 <= j <= 2 && j in db.forward && j in x.completed
            && x.completed[j] == Account(input, j)
            && (j == 1 && 2 in db.forward ==> 2 in db.undone)
  {
    assert Compensable(cfg, 2);
  }

  lemma PostUndoKeeps(cfg: Config, input: Input, w: World, t: nat)
    requires Transfer(cfg) && WorldOk(cfg, input, w) && Allowed(cfg, input, w, PostUndo(t))
    ensures WorldOk(cfg, input, Do(cfg, input, w, PostUndo(t)))
  {
    var x, db := w.saga.sessions[t], w.saga.db;
    UndoFacts(cfg, input, db, w.ledger, x);
    var l' := Post(w.ledger, UndoKey(x.pc.j, Account(input, x.pc.j)), input.amount);
    UndoLeg(input, w.ledger, x.pc.j);
    UndoLegOk(cfg, input, db, w.ledger, l', x.pc.j);
    AfterPosting(cfg, input, w, l');
  }

  lemma UndoLegOk(cfg: Config, input: Input, db: Db, ledger: seq<Entry>, l': seq<Entry>, j: nat)
    requires Transfer(cfg) && LedgerOk(input, db, ledger) && Shape(cfg, db) && Net(l') == Legs(input, l')
    requires 1 <= j <= 2 && j in db.forward && (j == 1 && 2 in db.forward ==> 2 in db.undone)
    requires forall k: nat :: 1 <= k <= 2 ==> (Entered(input, l', k) <==> Entered(input, ledger, k))
    requires forall k: nat :: 1 <= k <= 2 ==> (Reversed(input, l', k) <==> Reversed(input, ledger, k) || k == j)
    ensures LedgerOk(input, db, l')
  {
    LedgerOkAfter(input, db, ledger, l');
  }

  /** A posting leaves the engine alone. */
  lemma AfterPosting(cfg: Config, input: Input, w: World, l': seq<Entry>)
    requires WorldOk(cfg, input, w) && LedgerOk(input, w.saga.db, l')
    requires forall k :: Posted(w.ledger, k) ==> Posted(l', k)
    requires Reversed(input, l', 1) || Reversed(input, l', 2) ==> Unwound(w.saga)
    ensures WorldOk(cfg, input, w.(ledger := l'))
  {
    forall u | u in w.saga.sessions
      ensures SessionOk(cfg, input, w.saga.db, l', w.saga.sessions[u])
    {
      SessionKeepsLedger(cfg, input, w.saga.db, w.ledger, l', w.saga.sessions[u]);
    }
  }

  lemma OwnForwardStep(cfg: Config, input: Input, now: int, db: Db, ledger: seq<Entry>, t: nat, x: Session, a: Action)
    requires Transfer(cfg) && OfClaim(a) && Ready(cfg, x, a) && !x.unwinding
    requires SessionOk(cfg, input, db, ledger, x)
    requires a.Return? ==> a.result == Account(input, x.pc.i) && Posted(ledger, ForwardKey(input, x.pc.i))
    requires a.Commit? && Held(db.row, Own(t, x)) ==> x.pc.i !in db.forward
    ensures var (db', x') := Act(cfg, now, db, t, x, a); SessionOk(cfg, input, db', ledger, x')
  {
  }

  lemma OwnUnwindStep(cfg: Config, input: Input, now: int, db: Db, ledger: seq<Entry>, t: nat, x: Session, a: Action)
    requires Transfer(cfg) && OfClaim(a) && Ready(cfg, x, a) && x.unwinding
    requires SessionOk(cfg, input, db, ledger, x)
    requires a.UndoReturn? ==> Posted(ledger, UndoKey(x.pc.j, x.completed[x.pc.j]))
    ensures var (db', x') := Act(cfg, now, db, t, x, a); SessionOk(cfg, input, db', ledger, x')
  {
    if a.CommitUndone? {
      OwnUndoCommit(cfg, input, now, db, ledger, t, x, a);
    } else if x.pc.AtUndo? {
      OwnUnwindMove(cfg, input, now, db, ledger, t, x, a);
    }
  }

  /** Committing an undo: the compensable steps above the next position are undone. */
  lemma OwnUndoCommit(cfg: Config, input: Input, now: int, db: Db, ledger: seq<Entry>, t: nat, x: Session, a: Action)
    requires Transfer(cfg) && a.CommitUndone? && Ready(cfg, x, a) && x.unwinding
    requires SessionOk(cfg, input, db, ledger, x)
    ensures var (db', x') := Act(cfg, now, db, t, x, a); SessionOk(cfg, input, db', ledger, x')
  {
  }

  /** Passing a step, beginning its undo, or ending the unwind. */
  lemma OwnUnwindMove(cfg: Config, input: Input, now: int, db: Db, ledger: seq<Entry>, t: nat, x: Session, a: Action)
    requires Transfer(cfg) && OfClaim(a) && Ready(cfg, x, a) && x.unwinding && x.pc.AtUndo?
    requires SessionOk(cfg, input, db, ledger, x)
    ensures var (db', x') := Act(cfg, now, db, t, x, a); SessionOk(cfg, input, db', ledger, x')
  {
  }

  /** A worker's own step keeps what it knows, whether or not its write went through. */
  lemma OwnStep(cfg: Config, input: Input, now: int, db: Db, ledger: seq<Entry>, t: nat, x: Session, a: Action)
    requires Transfer(cfg) && OfClaim(a) && Ready(cfg, x, a)
    requires SessionOk(cfg, input, db, ledger, x)
    requires a.Return? ==> a.result == Account(input, x.pc.i) && Posted(ledger, ForwardKey(input, x.pc.i))
    requires a.UndoReturn? ==> Posted(ledger, UndoKey(x.pc.j, x.completed[x.pc.j]))
    requires a.Commit? && Held(db.row, Own(t, x)) ==> x.pc.i !in db.forward
    ensures var (db', x') := Act(cfg, now, db, t, x, a); SessionOk(cfg, input, db', ledger, x')
  {
    if x.unwinding {
      OwnUnwindStep(cfg, input, now, db, ledger, t, x, a);
    } else {
      OwnForwardStep(cfg, input, now, db, ledger, t, x, a);
    }
  }

  /** What other workers know survives tables that only grow, and do not grow forward under an unwind. */
  lemma OtherStep(cfg: Config, input: Input, db: Db, db': Db, ledger: seq<Entry>, x: Session)
    requires SessionOk(cfg, input, db, ledger, x)
    requires forall k :: k in db.forward ==> k in db'.forward && db'.forward[k] == db.forward[k]
    requires db.undone <= db'.undone
    requires x.unwinding ==> db'.forward == db.forward
    ensures SessionOk(cfg, input, db', ledger, x)
  {
  }

  lemma LedgerFollows(cfg: Config, input: Input, db: Db, db': Db, ledger: seq<Entry>, x: Session, unwound: bool)
    requires LedgerOk(input, db, ledger) && SessionOk(cfg, input, db, ledger, x)
    requires Reversed(input, ledger, 1) || Reversed(input, ledger, 2) ==> unwound
    requires
      || (db'.forward == db.forward && db'.undone == db.undone)
      || (x.pc.Ran? && !unwound && db'.forward == db.forward[x.pc.i := x.pc.result] && db'.undone == db.undone)
      || (x.pc.Undid? && db'.forward == db.forward && db'.undone == db.undone + {x.pc.j})
    ensures LedgerOk(input, db', ledger)
  {
  }

  lemma WorkerKeeps(cfg: Config, input: Input, w: World, a: Action)
    requires Transfer(cfg) && WorldOk(cfg, input, w) && OfClaim(a) && Allowed(cfg, input, w, Engine(a))
    ensures WorldOk(cfg, input, Do(cfg, input, w, Engine(a)))
  {
    NextInv(cfg, w.saga, a);
    TablesGrow(cfg, w.saga, a);
    LedgerFollows(cfg, input, w.saga.db, Next(cfg, w.saga, a).db, w.ledger, w.saga.sessions[a.t], Unwound(w.saga));
    WorkersKeep(cfg, input, w, a);
  }

  /** A worker's step leaves every other worker's knowledge true. */
  lemma BystanderKeeps(cfg: Config, input: Input, s: State, ledger: seq<Entry>, a: Action, x: Session)
    requires Inv(cfg, s) && OfClaim(a) && Enabled(cfg, s, a)
    requires SessionOk(cfg, input, s.db, ledger, x) && (x.unwinding ==> Unwound(s))
    ensures SessionOk(cfg, input, Next(cfg, s, a).db, ledger, x)
  {
    TablesGrow(cfg, s, a);
    OtherStep(cfg, input, s.db, Next(cfg, s, a).db, ledger, x);
  }

  lemma WorkersKeep(cfg: Config, input: Input, w: World, a: Action)
    requires Transfer(cfg) && WorldOk(cfg, input, w) && OfClaim(a) && Allowed(cfg, input, w, Engine(a))
    ensures var s' := Next(cfg, w.saga, a);
            forall u :: u in s'.sessions ==> SessionOk(cfg, input, s'.db, w.ledger, s'.sessions[u])
  {
    var s, s' := w.saga, Next(cfg, w.saga, a);
    forall u | u in s'.sessions
      ensures SessionOk(cfg, input, s'.db, w.ledger, s'.sessions[u])
    {
      if u != a.t {
        BystanderKeeps(cfg, input, s, w.ledger, a, s.sessions[u]);
      } else {
        WorkerKnows(cfg, input, w, a);
      }
    }
  }

  lemma WorkerKnows(cfg: Config, input: Input, w: World, a: Action)
    requires Transfer(cfg) && WorldOk(cfg, input, w) && OfClaim(a) && Allowed(cfg, input, w, Engine(a))
    ensures var s' := Next(cfg, w.saga, a);
            a.t in s'.sessions && SessionOk(cfg, input, s'.db, w.ledger, s'.sessions[a.t])
  {
    TablesGrow(cfg, w.saga, a);
    OwnStep(cfg, input, w.saga.now, w.saga.db, w.ledger, a.t, w.saga.sessions[a.t], a);
  }

  lemma EnvironmentKeeps(cfg: Config, input: Input, w: World, a: Action)
    requires WorldOk(cfg, input, w) && !OfClaim(a) && Allowed(cfg, input, w, Engine(a))
    ensures WorldOk(cfg, input, Do(cfg, input, w, Engine(a)))
  {
    var w' := Do(cfg, input, w, Engine(a));
    NextInv(cfg, w.saga, a);
    forall u | u in w'.saga.sessions
      ensures SessionOk(cfg, input, w'.saga.db, w'.ledger, w'.saga.sessions[u])
    {
      if u in w.saga.sessions { OtherStep(cfg, input, w.saga.db, w'.saga.db, w.ledger, w.saga.sessions[u]); }
    }
  }

  lemma {:induction false} PlayKeeps(cfg: Config, input: Input, w: World, ds: seq<Deed>)
    requires Transfer(cfg) && WorldOk(cfg, input, w)
    ensures WorldOk(cfg, input, Play(cfg, input, w, ds))
  {
    if ds != [] {
      var w1, d := Play(cfg, input, w, ds[..|ds| - 1]), ds[|ds| - 1];
      PlayKeeps(cfg, input, w, ds[..|ds| - 1]);
      if Allowed(cfg, input, w1, d) {
        match d
        case Engine(a) =>
          if OfClaim(a) { WorkerKeeps(cfg, input, w1, a); } else { EnvironmentKeeps(cfg, input, w1, a); }
        case PostForward(t) => PostForwardKeeps(cfg, input, w1, t);
        case PostUndo(t) => PostUndoKeeps(cfg, input, w1, t);
      }
    }
  }

  lemma StartOk(cfg: Config, input: Input, now: int)
    ensures WorldOk(cfg, input, Start(now))
  {
    InitInv(cfg, now);
  }

  // ----- reconciliation ------------------------------------------------------------------------

  /** A leg that was posted and never checkpointed. */
  predicate Orphan(input: Input, w: World, i: nat) {
    Entered(input, w.ledger, i) && i !in w.saga.db.forward
  }

  /** Whatever faults, cancels and stale workers there were, a SUCCESS transfer balances. */
  lemma SuccessBalances(cfg: Config, input: Input, now: int, ds: seq<Deed>)
    requires Transfer(cfg) && Play(cfg, input, Start(now), ds).saga.db.row.status == Success
    ensures Net(Play(cfg, input, Start(now), ds).ledger) == 0
  {
    StartOk(cfg, input, now);
    PlayKeeps(cfg, input, Start(now), ds);
    SuccessBalancesAt(cfg, input, Play(cfg, input, Start(now), ds));
  }

  lemma SuccessBalancesAt(cfg: Config, input: Input, w: World)
    requires Transfer(cfg) && WorldOk(cfg, input, w) && w.saga.db.row.status == Success
    ensures Net(w.ledger) == 0
  {
    assert 1 in w.saga.db.forward && 2 in w.saga.db.forward && !Unwound(w.saga);
    BothEntered(input, w.saga.db, w.ledger);
  }

  lemma BothEntered(input: Input, db: Db, ledger: seq<Entry>)
    requires LedgerOk(input, db, ledger) && 1 in db.forward && 2 in db.forward
    requires !Reversed(input, ledger, 1) && !Reversed(input, ledger, 2)
    ensures Net(ledger) == 0
  {
  }

  /**
   A COMPENSATED transfer balances exactly when no leg was left behind: if one was, the imbalance is
   that leg. At most one can be.
   */
  lemma CompensatedBalancesIffNoOrphan(cfg: Config, input: Input, now: int, ds: seq<Deed>)
    requires Transfer(cfg) && input.amount > 0 && Play(cfg, input, Start(now), ds).saga.db.row.status == Compensated
    ensures var w := Play(cfg, input, Start(now), ds);
            && (Net(w.ledger) == 0 <==> !Orphan(input, w, 1) && !Orphan(input, w, 2))
            && (Net(w.ledger) == input.amount <==> Orphan(input, w, 1))
            && (Net(w.ledger) == -input.amount <==> Orphan(input, w, 2))
  {
    StartOk(cfg, input, now);
    PlayKeeps(cfg, input, Start(now), ds);
    CompensatedAt(cfg, input, Play(cfg, input, Start(now), ds));
  }

  lemma CompensatedAt(cfg: Config, input: Input, w: World)
    requires Transfer(cfg) && WorldOk(cfg, input, w) && input.amount > 0 && w.saga.db.row.status == Compensated
    ensures Net(w.ledger) == 0 <==> !Orphan(input, w, 1) && !Orphan(input, w, 2)
    ensures Net(w.ledger) == input.amount <==> Orphan(input, w, 1)
    ensures Net(w.ledger) == -input.amount <==> Orphan(input, w, 2)
  {
    assert forall k: nat :: k in w.saga.db.forward ==> Compensable(cfg, k) && k in w.saga.db.undone;
    AllReversed(input, w);
  }

  /** With everything committed reversed, what is left is the orphan. */
  lemma AllReversed(input: Input, w: World)
    requires LedgerOk(input, w.saga.db, w.ledger)
    requires forall k: nat :: k in w.saga.db.forward ==> k in w.saga.db.undone
    ensures Net(w.ledger) == If(Orphan(input, w, 1), input.amount) - If(Orphan(input, w, 2), input.amount)
    ensures !(Orphan(input, w, 1) && Orphan(input, w, 2))
  {
    assert forall i: nat :: 1 <= i <= 2 ==> (Reversed(input, w.ledger, i) <==> i in w.saga.db.forward);
  }

  /** In every state the imbalance is nothing or one amount; it is negative only over an orphan credit. */
  lemma ImbalanceIsOneLeg(cfg: Config, input: Input, now: int, ds: seq<Deed>)
    requires Transfer(cfg)
    ensures var w := Play(cfg, input, Start(now), ds);
            || Net(w.ledger) == 0
            || Net(w.ledger) == input.amount
            || (Net(w.ledger) == -input.amount && Orphan(input, w, 2) && Reversed(input, w.ledger, 1))
  {
    StartOk(cfg, input, now);
    PlayKeeps(cfg, input, Start(now), ds);
    ImbalanceAt(input, Play(cfg, input, Start(now), ds));
  }

  lemma ImbalanceAt(input: Input, w: World)
    requires LedgerOk(input, w.saga.db, w.ledger)
    ensures || Net(w.ledger) == 0
            || Net(w.ledger) == input.amount
            || (Net(w.ledger) == -input.amount && Orphan(input, w, 2) && Reversed(input, w.ledger, 1))
  {
    var l := w.ledger;
    assert Reversed(input, l, 1) ==> Entered(input, l, 1);
    assert Reversed(input, l, 2) ==> Entered(input, l, 2);
    assert Entered(input, l, 2) ==> Entered(input, l, 1);
  }

  // ----- when it always balances ---------------------------------------------------------------

  /**
   No API cancel; no leg posted by a worker that no longer owns the saga; and nobody gives up, in
   the failure branch, while a posted leg waits for its checkpoint.
   */
  ghost predicate Tidy(input: Input, w: World, d: Deed) {
    match d
    case Engine(a) =>
      !a.CancelRequest? &&
      (a.Compensate? && Holds(w.saga, a.t) ==> !Orphan(input, w, 1) && !Orphan(input, w, 2))
    case PostForward(t) => Holds(w.saga, t)
    case PostUndo(_) => true
  }

  ghost predicate TidyRun(cfg: Config, input: Input, w: World, ds: seq<Deed>) {
    ds != [] ==>
      && TidyRun(cfg, input, w, ds[..|ds| - 1])
      && Tidy(input, Play(cfg, input, w, ds[..|ds| - 1]), ds[|ds| - 1])
  }

  /** The unwind starts with nothing orphaned, and only an unwinding claim owns it. */
  ghost predicate Clean(input: Input, w: World) {
    var row := w.saga.db.row;
    InUnwind(row.status) ==>
      && !Orphan(input, w, 1) && !Orphan(input, w, 2)
      && (row.owner.Some? ==> Unwound(w.saga))
  }

  /** Which of a worker's steps can put the row into the unwind. */
  lemma EntersUnwind(cfg: Config, s: State, a: Action)
    requires Inv(cfg, s) && OfClaim(a) && Enabled(cfg, s, a)
    ensures var s' := Next(cfg, s, a);
            && (s'.db.row.status != s.db.row.status
                && InUnwind(s'.db.row.status)
                ==> (a.Compensate? && Holds(s, a.t) && s'.db.row.owner == None) || Unwound(s))
            && (s'.db.row.owner.Some? ==> s'.db.row.owner == s.db.row.owner && s'.db.row.status == s.db.row.status)
            && (Unwound(s) <==> Unwound(s'))
            && (forall k :: k in s.db.forward ==> k in s'.db.forward)
  {
    IdentityKept(cfg, s.now, s.db, a.t, s.sessions[a.t], a);
    TablesGrow(cfg, s, a);
    if a.t != s.db.row.token { StaleKeeps(cfg, s, a); } else { HolderEntersUnwind(cfg, s, a); }
  }

  lemma HolderEntersUnwind(cfg: Config, s: State, a: Action)
    requires Inv(cfg, s) && OfClaim(a) && Enabled(cfg, s, a) && a.t == s.db.row.token
    ensures var s' := Next(cfg, s, a);
            && (s'.db.row.status != s.db.row.status && InUnwind(s'.db.row.status)
                ==> (a.Compensate? && Holds(s, a.t) && s'.db.row.owner == None) || Unwound(s))
            && (s'.db.row.owner.Some? ==> s'.db.row.owner == s.db.row.owner && s'.db.row.status == s.db.row.status)
            && (Unwound(s) <==> Unwound(s'))
  {
    IdentityKept(cfg, s.now, s.db, a.t, s.sessions[a.t], a);
    HolderOutcome(cfg, s, a);
  }

  lemma CleanStep(cfg: Config, input: Input, w: World, d: Deed)
    requires Transfer(cfg) && WorldOk(cfg, input, w) && Clean(input, w) && Tidy(input, w, d)
    ensures Clean(input, Do(cfg, input, w, d))
  {
    if Allowed(cfg, input, w, d) {
      match d
      case Engine(a) => if OfClaim(a) { EntersUnwind(cfg, w.saga, a); UnwoundIsClean(input, w); }
      case PostForward(t) =>
        assert SessionOk(cfg, input, w.saga.db, w.ledger, w.saga.sessions[t]);
      case PostUndo(t) =>
        UndoFacts(cfg, input, w.saga.db, w.ledger, w.saga.sessions[t]);
        UndoLeg(input, w.ledger, w.saga.sessions[t].pc.j);
    }
  }

  lemma UnwoundIsClean(input: Input, w: World)
    requires Clean(input, w) && OneWay(w.saga)
    ensures Unwound(w.saga) ==> !Orphan(input, w, 1) && !Orphan(input, w, 2)
  {
  }

  lemma {:induction false} TidyRunIsClean(cfg: Config, input: Input, now: int, ds: seq<Deed>)
    requires Transfer(cfg) && TidyRun(cfg, input, Start(now), ds)
    ensures WorldOk(cfg, input, Play(cfg, input, Start(now), ds)) && Clean(input, Play(cfg, input, Start(now), ds))
  {
    StartOk(cfg, input, now);
    PlayKeeps(cfg, input, Start(now), ds);
    if ds != [] {
      TidyRunIsClean(cfg, input, now, ds[..|ds| - 1]);
      CleanStep(cfg, input, Play(cfg, input, Start(now), ds[..|ds| - 1]), ds[|ds| - 1]);
    }
  }

  /**
   Under crashes, lease expiries and retries, a tidy run reconciles: a transfer that ended balances,
   and in between the imbalance is nothing or exactly the amount.
   */
  lemma TidyTransfersReconcile(cfg: Config, input: Input, now: int, ds: seq<Deed>)
    requires Transfer(cfg) && TidyRun(cfg, input, Start(now), ds)
    ensures var w := Play(cfg, input, Start(now), ds);
            && (w.saga.db.row.status == Success || w.saga.db.row.status == Compensated ==> Net(w.ledger) == 0)
            && (Net(w.ledger) == 0 || Net(w.ledger) == input.amount)
  {
    TidyRunIsClean(cfg, input, now, ds);
    TidyAt(cfg, input, Play(cfg, input, Start(now), ds));
  }

  lemma TidyAt(cfg: Config, input: Input, w: World)
    requires Transfer(cfg) && WorldOk(cfg, input, w) && Clean(input, w)
    ensures w.saga.db.row.status == Success || w.saga.db.row.status == Compensated ==> Net(w.ledger) == 0
    ensures Net(w.ledger) == 0 || Net(w.ledger) == input.amount
  {
    UnwoundIsClean(input, w);
    ImbalanceAt(input, w);
    if w.saga.db.row.status == Success {
      SuccessBalancesAt(cfg, input, w);
    } else if w.saga.db.row.status == Compensated {
      assert forall k: nat :: k in w.saga.db.forward ==> Compensable(cfg, k) && k in w.saga.db.undone;
      AllReversed(input, w);
    }
  }
}
