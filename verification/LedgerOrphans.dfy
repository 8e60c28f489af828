/**
 Where the imbalance of a COMPENSATED transfer comes from: not from how it ended, but from what was
 left uncheckpointed when its unwind was first claimed, or was posted by a stale worker after that.
 */
module LedgerOrphans {
  import opened Storage
  import opened Saga
  import opened SagaInvariant
  import opened Ledger

  /** `d` grants the first claim on the COMPENSATING row. */
  ghost predicate GrantsUnwind(cfg: Config, w: World, d: Deed) {
    && d.Engine? && d.a.Claim? && Enabled(cfg, w.saga, d.a)
    && w.saga.db.row.status == Compensating && !Unwound(w.saga)
  }

  ghost predicate FirstUnwindingClaim(cfg: Config, input: Input, now: int, ds: seq<Deed>, p: nat) {
    p < |ds| && GrantsUnwind(cfg, Play(cfg, input, Start(now), ds[..p]), ds[p])
  }

  /** The worker posts step i's leg, and it was not there before. */
  ghost predicate Strays(cfg: Config, input: Input, w: World, d: Deed, i: nat) {
    && d.PostForward? && Allowed(cfg, input, w, d)
    && w.saga.sessions[d.t].pc.i == i && !Entered(input, w.ledger, i)
  }

  ghost predicate StraysAt(cfg: Config, input: Input, now: int, ds: seq<Deed>, q: nat, i: nat) {
    q < |ds| && Strays(cfg, input, Play(cfg, input, Start(now), ds[..q]), ds[q], i)
  }

  /** Under an unwind a leg is orphaned by a stray posting and by nothing else, and for good. */
  lemma OrphanStep(cfg: Config, input: Input, w: World, d: Deed, i: nat)
    requires Transfer(cfg) && WorldOk(cfg, input, w) && Unwound(w.saga) && 1 <= i <= 2
    ensures Orphan(input, Do(cfg, input, w, d), i) <==> Orphan(input, w, i) || Strays(cfg, input, w, d, i)
    ensures Unwound(Do(cfg, input, w, d).saga)
  {
    if Allowed(cfg, input, w, d) {
      match d
      case Engine(a) => if OfClaim(a) { TablesGrow(cfg, w.saga, a); }
      case PostForward(t) =>
        assert SessionOk(cfg, input, w.saga.db, w.ledger, w.saga.sessions[t]);
        ForwardLeg(input, w.ledger, w.saga.sessions[t].pc.i);
      case PostUndo(t) =>
        UndoFacts(cfg, input, w.saga.db, w.ledger, w.saga.sessions[t]);
        UndoLeg(input, w.ledger, w.saga.sessions[t].pc.j);
    }
  }

  /** Right after the p-th deed step i's leg was orphaned already, or a later deed strays. */
  ghost predicate LeftBehind(cfg: Config, input: Input, now: int, ds: seq<Deed>, p: nat, i: nat)
    requires p < |ds|
  {
    || Orphan(input, Play(cfg, input, Start(now), ds[..p + 1]), i)
    || exists q :: p < q < |ds| && StraysAt(cfg, input, now, ds, q, i)
  }

  lemma LeftBehindStep(cfg: Config, input: Input, now: int, front: seq<Deed>, d: Deed, p: nat, i: nat)
    requires p < |front|
    ensures LeftBehind(cfg, input, now, front + [d], p, i)
            <==> || LeftBehind(cfg, input, now, front, p, i)
                 || Strays(cfg, input, Play(cfg, input, Start(now), front), d, i)
  {
    var ds := front + [d];
    assert ds[..p + 1] == front[..p + 1] && ds[..|front|] == front;
    assert StraysAt(cfg, input, now, ds, |front|, i) <==> Strays(cfg, input, Play(cfg, input, Start(now), front), d, i);
    forall q: nat | q < |front|
      ensures StraysAt(cfg, input, now, ds, q, i) <==> StraysAt(cfg, input, now, front, q, i)
    {
      assert front[..q] == ds[..q];
    }
  }

  lemma Kept(cfg: Config, input: Input, now: int, ds: seq<Deed>)
    requires Transfer(cfg)
    ensures WorldOk(cfg, input, Play(cfg, input, Start(now), ds))
  {
    StartOk(cfg, input, now);
    PlayKeeps(cfg, input, Start(now), ds);
  }

  lemma PlayMore(cfg: Config, input: Input, w: World, front: seq<Deed>, d: Deed)
    ensures Play(cfg, input, w, front + [d]) == Do(cfg, input, Play(cfg, input, w, front), d)
  {
    assert (front + [d])[..|front|] == front;
  }

  /** From a claim that unwinds on: orphans are those it found and the stray postings since. */
  lemma {:induction false} OrphansSince(cfg: Config, input: Input, now: int, ds: seq<Deed>, p: nat, i: nat)
    requires Transfer(cfg) && p < |ds| && 1 <= i <= 2
    requires Unwound(Play(cfg, input, Start(now), ds[..p + 1]).saga)
    ensures Unwound(Play(cfg, input, Start(now), ds).saga)
    ensures Orphan(input, Play(cfg, input, Start(now), ds), i) <==> LeftBehind(cfg, input, now, ds, p, i)
  {
    var front, d := ds[..|ds| - 1], ds[|ds| - 1];
    assert ds == front + [d];
    if p == |front| {
      assert ds[..p + 1] == ds;
    } else {
      assert front[..p + 1] == ds[..p + 1];
      OrphansSince(cfg, input, now, front, p, i);
      Kept(cfg, input, now, front);
      PlayMore(cfg, input, Start(now), front, d);
      OrphanStep(cfg, input, Play(cfg, input, Start(now), front), d, i);
      LeftBehindStep(cfg, input, now, front, d, p, i);
    }
  }

  lemma UnwoundByClaim(cfg: Config, input: Input, w: World, d: Deed)
    requires WorldOk(cfg, input, w) && !Unwound(w.saga) && Unwound(Do(cfg, input, w, d).saga)
    ensures GrantsUnwind(cfg, w, d)
  {
    if d.Engine? && OfClaim(d.a) && Allowed(cfg, input, w, d) { EntersUnwind(cfg, w.saga, d.a); }
  }

  lemma {:induction false} FindClaim(cfg: Config, input: Input, now: int, ds: seq<Deed>) returns (p: nat)
    requires Transfer(cfg) && Unwound(Play(cfg, input, Start(now), ds).saga)
    ensures FirstUnwindingClaim(cfg, input, now, ds, p)
    ensures Unwound(Play(cfg, input, Start(now), ds[..p + 1]).saga)
  {
    NotUnwoundYet(now);
    var front, d := ds[..|ds| - 1], ds[|ds| - 1];
    assert ds == front + [d];
    if Unwound(Play(cfg, input, Start(now), front).saga) {
      p := FindClaim(cfg, input, now, front);
      assert front[..p] == ds[..p] && front[..p + 1] == ds[..p + 1];
    } else {
      p := |front|;
      Kept(cfg, input, now, front);
      PlayMore(cfg, input, Start(now), front, d);
      UnwoundByClaim(cfg, input, Play(cfg, input, Start(now), front), d);
      assert ds[..p + 1] == ds && ds[..p] == front;
    }
  }

  lemma NotUnwoundYet(now: int)
    ensures !Unwound(Start(now).saga)
  {
  }

  /**
   A COMPENSATED transfer had its unwind claimed, and it is off if and only if a leg was orphaned when
   that was first granted or a worker strayed after it; each leg accounts for its own sign.
   */
  lemma CompensatedIsOffExactlyWhen(cfg: Config, input: Input, now: int, ds: seq<Deed>) returns (p: nat)
    requires Transfer(cfg) && input.amount > 0 && Play(cfg, input, Start(now), ds).saga.db.row.status == Compensated
    ensures FirstUnwindingClaim(cfg, input, now, ds, p)
    ensures var net := Net(Play(cfg, input, Start(now), ds).ledger);
            && (net != 0 <==> LeftBehind(cfg, input, now, ds, p, 1) || LeftBehind(cfg, input, now, ds, p, 2))
            && (net == input.amount <==> LeftBehind(cfg, input, now, ds, p, 1))
            && (net == -input.amount <==> LeftBehind(cfg, input, now, ds, p, 2))
  {
    Kept(cfg, input, now, ds);
    p := FindClaim(cfg, input, now, ds);
    OrphansSince(cfg, input, now, ds, p, 1);
    OrphansSince(cfg, input, now, ds, p, 2);
    CompensatedBalancesIffNoOrphan(cfg, input, now, ds);
  }
}
