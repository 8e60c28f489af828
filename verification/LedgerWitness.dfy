/**
 Two transfers that end COMPENSATED and do not balance. Each breaks one clause of `Ledger.Tidy`: an
 API cancel between a leg and its checkpoint, and a stalled worker that posts after the unwind.
 */
module LedgerWitness {
  import opened Prelude
  import opened Storage
  import opened Saga
  import opened Ledger
  import W = SagaWitness

  const CFG := Config([true, true], 5, 3)
  const INPUT := Input("acct:source", "acct:destination", 10000, None)

  function Lift(acts: seq<Action>): seq<Deed> {
    if acts == [] then [] else Lift(acts[..|acts| - 1]) + [Engine(acts[|acts| - 1])]
  }

  /** Engine actions that are not a body returning leave the ledger alone. */
  lemma {:induction false} Engines(w: World, acts: seq<Action>)
    requires forall a :: a in acts ==> !a.Return? && !a.UndoReturn?
    ensures Play(CFG, INPUT, w, Lift(acts)) == w.(saga := Run(CFG, w.saga, acts))
  {
    if acts != [] {
      var front := acts[..|acts| - 1];
      Engines(w, front);
      assert Lift(acts)[..|Lift(acts)| - 1] == Lift(front);
    }
  }

  lemma {:induction false} Chain(w: World, a: seq<Deed>, b: seq<Deed>)
    ensures Play(CFG, INPUT, w, a + b) == Play(CFG, INPUT, Play(CFG, INPUT, w, a), b)
  {
    if b == [] {
      assert a + b == a;
    } else {
      assert (a + b)[..|a + b| - 1] == a + b[..|b| - 1];
      Chain(w, a, b[..|b| - 1]);
    }
  }

  /** Step 1's body posts its leg into an empty ledger. */
  lemma Debited(w: World, t: nat)
    requires t in w.saga.sessions && w.saga.sessions[t].pc == InStep(1) && w.ledger == []
    ensures var w' := Play(CFG, INPUT, w, [PostForward(t)]);
            w' == w.(ledger := [Entry(ForwardKey(INPUT, 1), 10000)]) && Net(w'.ledger) == 10000
  {
    var l := [Entry(ForwardKey(INPUT, 1), 10000)];
    assert [PostForward(t)][..0] == [];
    assert Play(CFG, INPUT, w, [PostForward(t)]) == Do(CFG, INPUT, w, PostForward(t));
    assert !Posted(w.ledger, ForwardKey(INPUT, 1));
    assert [] + l == l && l[..0] == [];
    assert Net(l[..0]) == 0;
  }

  function Opening(t: nat): seq<Action> { [Claim("w", 30), Load(t), Begin(t, 1)] }

  function Unwinding(u: nat): seq<Action> { [Claim("w", 30), Load(u)] + [Pass(u), Pass(u), FinishUndone(u)] }

  /** A saga unwound after a stray posting: COMPENSATED, with whatever is in the ledger. */
  lemma ThenUnwound(w: World, u: nat)
    requires Claimable(w.saga.db.row, w.saga.now) && w.saga.db.row.status == Compensating
    requires u == w.saga.db.row.token + 1 && w.saga.db.forward == map[] && w.saga.db.undone == {}
    ensures var w' := Play(CFG, INPUT, w, Lift(Unwinding(u)));
            && w'.saga.db.row.status == Compensated && w'.ledger == w.ledger
            && forall t :: t in w.saga.sessions && t != u ==>
                 t in w'.saga.sessions && w'.saga.sessions[t] == w.saga.sessions[t]
  {
    W.UnwoundEmpty(CFG, w.saga, u);
    Engines(w, Unwinding(u));
  }

  lemma ThenOpened(w: World, t: nat)
    requires Claimable(w.saga.db.row, w.saga.now) && w.saga.db.row.status != Compensating
    requires t == w.saga.db.row.token + 1 && w.saga.db.forward == map[]
    ensures var s := w.saga;
            Play(CFG, INPUT, w, Lift(Opening(t)))
            == w.(saga := s.(db := s.db.(row := ClaimRow(s.db.row, "w", s.now + 30)),
                             sessions := s.sessions[t := W.Worker(s.db.row.attempt + 1, InStep(1), map[])]))
  {
    W.Started(CFG, w.saga, t);
    Engines(w, Opening(t));
  }

  /** A cancel, and then the owner's lease runs out. */
  lemma ThenCancelled(w: World)
    requires w.saga.db.row.status == Running && w.saga.db.row.lease == Some(w.saga.now + 30)
    ensures var w' := Play(CFG, INPUT, w, Lift([CancelRequest, Tick(31)]));
            && w'.ledger == w.ledger && Claimable(w'.saga.db.row, w'.saga.now)
            && w'.saga.db == w.saga.db.(row := w'.saga.db.row)
            && w'.saga.db.row.status == Compensating && w'.saga.db.row.token == w.saga.db.row.token
  {
    W.Run2(CFG, w.saga, CancelRequest, Tick(31));
    Engines(w, [CancelRequest, Tick(31)]);
  }

  /** An API cancel after the debit and before its checkpoint. */
  lemma CancelLeavesADebit() returns (ds: seq<Deed>)
    ensures var w := Play(CFG, INPUT, Start(0), ds); w.saga.db.row.status == Compensated && Net(w.ledger) == 10000
  {
    ThenOpened(Start(0), 1);
    var w1 := Play(CFG, INPUT, Start(0), Lift(Opening(1)));
    Debited(w1, 1);
    var w2 := Play(CFG, INPUT, w1, [PostForward(1)]);
    ThenCancelled(w2);
    var w3 := Play(CFG, INPUT, w2, Lift([CancelRequest, Tick(31)]));
    ThenUnwound(w3, 2);
    Chain(Start(0), Lift(Opening(1)), [PostForward(1)]);
    Chain(Start(0), Lift(Opening(1)) + [PostForward(1)], Lift([CancelRequest, Tick(31)]));
    ds := Lift(Opening(1)) + [PostForward(1)] + Lift([CancelRequest, Tick(31)]);
    Chain(Start(0), ds, Lift(Unwinding(2)));
    ds := ds + Lift(Unwinding(2));
  }

  /** A worker stalls in step 1 before its INSERT, and another takes the saga over. */
  lemma TakenOver() returns (acts: seq<Action>)
    ensures CancelRequest !in acts && forall a :: a in acts ==> !a.Return? && !a.UndoReturn?
    ensures var s := Run(CFG, Init(0), acts);
            && s.db == Submitted(0).(row := s.db.row) && s.db.row.token == 2 && s.db.row.runAfter == 0
            && s.now == 31 && s.db.row.attempt == 2
            && s.sessions.Keys == {1, 2} && s.sessions[1].pc == InStep(1)
            && Holds(s, 2) && s.sessions[2] == W.Worker(2, InStep(1), map[])
  {
    var row := Submitted(0).row;
    W.Started(CFG, Init(0), 1);
    var s1 := State(0, Submitted(0).(row := ClaimRow(row, "w", 30)), map[1 := W.Worker(1, InStep(1), map[])]);
    assert Run(CFG, Init(0), Opening(1)) == s1;
    var s2 := s1.(now := 31);
    Ticked(s1, 31);
    W.Started(CFG, s2, 2);
    var s3 := Run(CFG, s2, Opening(2));
    W.Chain(CFG, Init(0), Opening(1), s1, [Tick(31)], s2);
    W.Chain(CFG, Init(0), Opening(1) + [Tick(31)], s2, Opening(2), s3);
    acts := Opening(1) + [Tick(31)] + Opening(2);
  }

  lemma Ticked(s: State, d: nat)
    ensures Run(CFG, s, [Tick(d)]) == s.(now := s.now + d)
  {
    assert [Tick(d)][..0] == [];
  }

  /** The second worker fails before posting anything, and the saga is unwound. */
  lemma TakenOverAndUnwound() returns (acts: seq<Action>)
    ensures CancelRequest !in acts && forall a :: a in acts ==> !a.Return? && !a.UndoReturn?
    ensures var s := Run(CFG, Init(0), acts);
            s.db.row.status == Compensated && 1 in s.sessions && s.sessions[1].pc == InStep(1)
  {
    acts := TakenOver();
    var s3 := Run(CFG, Init(0), acts);
    W.GivenUp(CFG, s3, 2);
    var s4 := Run(CFG, s3, [Raise(2, false), Compensate(2)]);
    W.UnwoundEmpty(CFG, s4, 3);
    W.Chain(CFG, Init(0), acts, s3, [Raise(2, false), Compensate(2)], s4);
    acts := acts + [Raise(2, false), Compensate(2)];
    W.Chain(CFG, Init(0), acts, s4, Unwinding(3), Run(CFG, s4, Unwinding(3)));
    acts := acts + Unwinding(3);
  }

  lemma {:induction false} LiftHas(acts: seq<Action>, a: Action)
    ensures Engine(a) in Lift(acts) <==> a in acts
  {
    if acts != [] {
      LiftHas(acts[..|acts| - 1], a);
      assert acts == acts[..|acts| - 1] + [acts[|acts| - 1]];
    }
  }

  /** No cancel, and no exception after any posting; the stalled worker simply wakes up too late. */
  lemma StalledWorkerLeavesADebit() returns (ds: seq<Deed>)
    ensures Engine(CancelRequest) !in ds
    ensures var w := Play(CFG, INPUT, Start(0), ds); w.saga.db.row.status == Compensated && Net(w.ledger) == 10000
  {
    var acts := TakenOverAndUnwound();
    Engines(Start(0), acts);
    LiftHas(acts, CancelRequest);
    Debited(Play(CFG, INPUT, Start(0), Lift(acts)), 1);
    Chain(Start(0), Lift(acts), [PostForward(1)]);
    ds := Lift(acts) + [PostForward(1)];
  }
}
