/**
 When a saga can be claimed: a row given back stays out of reach for its delay, and not a moment longer; a
 lease keeps everyone out for as long as it was last granted for, and not a moment longer.
 */
module SagaTiming {
  import opened Prelude
  import opened Storage
  import opened Saga
  import opened SagaInvariant

  /** A row that somebody owns is due. */
  ghost predicate HeldIsDue(s: State) { s.db.row.owner.Some? ==> s.db.row.runAfter <= s.now }

  lemma HeldIsDueNext(cfg: Config, s: State, a: Action)
    requires Inv(cfg, s) && HeldIsDue(s)
    ensures HeldIsDue(Next(cfg, s, a))
  {
    if Enabled(cfg, s, a) && OfClaim(a) { RowByWorker(cfg, s, a); }
  }

  /** What a worker's step does to the row: it gives it up, moves its lease, or leaves it. */
  lemma RowByWorker(cfg: Config, s: State, a: Action)
    requires Inv(cfg, s) && OfClaim(a) && Enabled(cfg, s, a)
    ensures var s' := Next(cfg, s, a);
            && s'.now == s.now && s'.db.row.token == s.db.row.token
            && (s'.db.row == s.db.row
                || (Holds(s, a.t) && Ends(a) && s'.db.row.owner == None)
                || (Holds(s, a.t) && a.Renew? && s'.db.row == s.db.row.(lease := s'.db.row.lease)))
  {
    var x := s.sessions[a.t];
    if !Holds(s, a.t) {
      NotHeldWritesNothing(cfg, s.now, s.db, a.t, x, a);
    } else if Ends(a) {
      RowByEnd(cfg, s.now, s.db, a.t, x, a);
    } else if a.Renew? {
      RowByRenewal(cfg, s.now, s.db, a.t, x, a);
    } else {
      RowByRest(cfg, s.now, s.db, a.t, x, a);
    }
  }

  lemma RowByEnd(cfg: Config, now: int, db: Db, t: nat, x: Session, a: Action)
    requires OfClaim(a) && Ready(cfg, x, a) && Ends(a)
    ensures var row := Act(cfg, now, db, t, x, a).0.row;
            row.token == db.row.token && (row == db.row || row.owner == None)
  {
  }

  lemma RowByRenewal(cfg: Config, now: int, db: Db, t: nat, x: Session, a: Action)
    requires OfClaim(a) && Ready(cfg, x, a) && a.Renew?
    ensures var row := Act(cfg, now, db, t, x, a).0.row; row == db.row.(lease := row.lease)
  {
  }

  lemma RowByRest(cfg: Config, now: int, db: Db, t: nat, x: Session, a: Action)
    requires OfClaim(a) && Ready(cfg, x, a) && !Ends(a) && !a.Renew?
    ensures Act(cfg, now, db, t, x, a).0.row == db.row
  {
    match a
    case Commit(_) =>
    case CommitUndone(_) =>
    case _ =>
  }

  /** The writes with which a claim lets go of the row. */
  predicate Ends(a: Action) {
    a.Finish? || a.Retry? || a.Compensate? || a.FinishUndone? || a.Dirty? || a.Defer?
  }

  lemma {:induction false} RunHeldIsDue(cfg: Config, now: int, acts: seq<Action>)
    ensures Inv(cfg, Run(cfg, Init(now), acts)) && HeldIsDue(Run(cfg, Init(now), acts))
  {
    InitInv(cfg, now);
    RunInv(cfg, Init(now), acts);
    if acts != [] {
      RunHeldIsDue(cfg, now, acts[..|acts| - 1]);
      HeldIsDueNext(cfg, Run(cfg, Init(now), acts[..|acts| - 1]), acts[|acts| - 1]);
    }
  }

  // ----- a row nobody holds --------------------------------------------------------------------

  /** An unowned row is changed by a cancel or a claim, and by no worker, however many still run. */
  lemma UnownedStep(cfg: Config, s: State, a: Action)
    requires Inv(cfg, s) && s.db.row.owner == None && a != CancelRequest
    ensures var s' := Next(cfg, s, a);
            && s'.now >= s.now
            && (s'.db.row == s.db.row || (a.Claim? && Enabled(cfg, s, a) && s'.db.row.token == s.db.row.token + 1))
  {
    if Enabled(cfg, s, a) && OfClaim(a) { RowByWorker(cfg, s, a); }
  }

  lemma TokenNeverFalls(cfg: Config, s: State, a: Action)
    requires Inv(cfg, s)
    ensures Next(cfg, s, a).db.row.token >= s.db.row.token && Next(cfg, s, a).now >= s.now
  {
    if Enabled(cfg, s, a) && OfClaim(a) { RowByWorker(cfg, s, a); }
  }

  lemma {:induction false} UnownedRun(cfg: Config, s: State, after: seq<Action>)
    requires Inv(cfg, s) && s.db.row.owner == None && CancelRequest !in after
    ensures var s' := Run(cfg, s, after);
            && Inv(cfg, s') && s'.now >= s.now && s'.db.row.token >= s.db.row.token
            && (s'.db.row.token == s.db.row.token ==> s'.db.row == s.db.row)
  {
    RunInv(cfg, s, after);
    if after != [] {
      var front, a := after[..|after| - 1], after[|after| - 1];
      assert a in after;
      UnownedRun(cfg, s, front);
      RunInv(cfg, s, front);
      var before := Run(cfg, s, front);
      TokenNeverFalls(cfg, before, a);
      if before.db.row.token == s.db.row.token { UnownedStep(cfg, before, a); }
    }
  }

  /** How long the action keeps the row out of reach. */
  function DelayOf(a: Action): nat {
    match a
    case Retry(_, delay) => delay
    case Defer(_, delay) => delay
    case _ => 0
  }

  lemma GivenBack(cfg: Config, s: State, a: Action)
    requires Inv(cfg, s) && (a.Retry? || a.Defer? || a.Compensate?) && Enabled(cfg, s, a) && Holds(s, a.t)
    ensures var s' := Next(cfg, s, a);
            && s'.now == s.now && s'.db.row.owner == None && s'.db.row.lease == None
            && s'.db.row.token == s.db.row.token
            && s'.db.row.runAfter == s.now + DelayOf(a)
            && (s'.db.row.status == Pending || s'.db.row.status == Compensating)
  {
  }

  /**
   The next claim of a row that its owner gave back -- for a retry, because it cannot read its type, or to be
   unwound -- is granted from exactly the delay after that on: whoever asks, and whatever other workers did
   meanwhile, unless the API cancelled.
   */
  lemma ClaimedAgainExactlyAfterTheDelay(
    cfg: Config, now: int, before: seq<Action>, a: Action, after: seq<Action>, owner: string, duration: nat)
    requires var s := Run(cfg, Init(now), before);
             (a.Retry? || a.Defer? || a.Compensate?) && Enabled(cfg, s, a) && Holds(s, a.t)
    requires CancelRequest !in after
    requires var s := Run(cfg, Init(now), before);
             Run(cfg, Next(cfg, s, a), after).db.row.token == s.db.row.token  // nobody claimed it yet
    ensures var s := Run(cfg, Init(now), before);
            var s' := Run(cfg, Next(cfg, s, a), after);
            Enabled(cfg, s', Claim(owner, duration)) <==> s'.now >= s.now + DelayOf(a)
  {
    var s := Run(cfg, Init(now), before);
    RunHeldIsDue(cfg, now, before);
    GivenBack(cfg, s, a);
    NextInv(cfg, s, a);
    UnownedRun(cfg, Next(cfg, s, a), after);
    ReachOfUnowned(cfg, Run(cfg, Next(cfg, s, a), after), owner, duration);
  }

  lemma ReachOfUnowned(cfg: Config, s: State, owner: string, duration: nat)
    requires s.db.row.owner == None && s.db.row.lease == None
    requires s.db.row.status == Pending || s.db.row.status == Compensating
    ensures Enabled(cfg, s, Claim(owner, duration)) <==> s.now >= s.db.row.runAfter
  {
  }

  /** A submitted saga, and a cancelled one that nobody holds, can be claimed at once. */
  lemma DueAtOnce(cfg: Config, now: int, before: seq<Action>, owner: string, duration: nat)
    requires var s := Run(cfg, Init(now), before);
             s.db.row.owner == None && Enabled(cfg, s, CancelRequest)
    ensures Enabled(cfg, Init(now), Claim(owner, duration))
    ensures Enabled(cfg, Next(cfg, Run(cfg, Init(now), before), CancelRequest), Claim(owner, duration))
  {
    RunHeldIsDue(cfg, now, before);
    var s := Run(cfg, Init(now), before);
    assert s.db.row.lease == None;
    CancelledIsDue(cfg, s, owner, duration);
  }

  lemma CancelledIsDue(cfg: Config, s: State, owner: string, duration: nat)
    requires s.db.row.owner == None && s.db.row.lease == None && Enabled(cfg, s, CancelRequest)
    ensures Enabled(cfg, Next(cfg, s, CancelRequest), Claim(owner, duration))
  {
  }

  // ----- a row somebody holds ------------------------------------------------------------------

  /** The claim neither lets go of the row nor renews: everyone else, the API included, may do anything. */
  predicate Sits(a: Action, t: nat) { OfClaim(a) && a.t == t ==> !Ends(a) && !a.Renew? }

  /** Claim `t` holds the row under a lease until `until`. */
  ghost predicate Leased(cfg: Config, s: State, t: nat, until: int) {
    && Inv(cfg, s) && HeldIsDue(s) && Holds(s, t) && s.db.row.lease == Some(until)
    && (s.db.row.status == Running || s.db.row.status == Compensating)
  }

  lemma ReachOfLeased(cfg: Config, s: State, t: nat, until: int, owner: string, duration: nat)
    requires Leased(cfg, s, t, until)
    ensures Enabled(cfg, s, Claim(owner, duration)) <==> s.now > until
  {
  }

  lemma LeasedStep(cfg: Config, s: State, t: nat, until: int, a: Action)
    requires Leased(cfg, s, t, until) && Sits(a, t)
    ensures var s' := Next(cfg, s, a);
            && s'.now >= s.now
            && (Leased(cfg, s', t, until) || (a.Claim? && Enabled(cfg, s, a) && s'.db.row.token > s.db.row.token))
  {
    NextInv(cfg, s, a);
    HeldIsDueNext(cfg, s, a);
    if Enabled(cfg, s, a) && OfClaim(a) {
      RowByWorker(cfg, s, a);
      IdentityKept(cfg, s.now, s.db, a.t, s.sessions[a.t], a);
    }
  }

  /** As long as nobody has claimed it since, the row is still leased; and nobody can have before `until`. */
  lemma {:induction false} LeasedRun(cfg: Config, s: State, t: nat, until: int, after: seq<Action>)
    requires Leased(cfg, s, t, until) && forall a :: a in after ==> Sits(a, t)
    ensures var s' := Run(cfg, s, after);
            && Inv(cfg, s') && s'.now >= s.now && s'.db.row.token >= s.db.row.token
            && (s'.now <= until || s'.db.row.token == s.db.row.token ==> Leased(cfg, s', t, until))
  {
    RunInv(cfg, s, after);
    if after != [] {
      var front, a := after[..|after| - 1], after[|after| - 1];
      assert a in after;
      LeasedRun(cfg, s, t, until, front);
      var before := Run(cfg, s, front);
      TokenNeverFalls(cfg, before, a);
      if Leased(cfg, before, t, until) {
        LeasedStep(cfg, before, t, until, a);
        ReachOfLeased(cfg, before, t, until, "", 0);
        SameReach(cfg, before, a);
      }
    }
  }

  lemma SameReach(cfg: Config, s: State, a: Action)
    ensures a.Claim? ==> (Enabled(cfg, s, a) <==> Enabled(cfg, s, Claim("", 0)))
  {
  }

  /** The verdict on one state, from how it was leased. */
  lemma LeaseVerdict(cfg: Config, s: State, t: nat, until: int, after: seq<Action>, owner: string, duration: nat)
    requires Leased(cfg, s, t, until) && forall a :: a in after ==> Sits(a, t)
    ensures var s' := Run(cfg, s, after);
            && (s'.now <= until ==> Holds(s', t) && !Enabled(cfg, s', Claim(owner, duration)))
            && (s'.db.row.token == s.db.row.token ==>
                  Holds(s', t) && (Enabled(cfg, s', Claim(owner, duration)) <==> s'.now > until))
  {
    LeasedRun(cfg, s, t, until, after);
    var s' := Run(cfg, s, after);
    if Leased(cfg, s', t, until) { ReachOfLeased(cfg, s', t, until, owner, duration); }
  }

  lemma RenewedIsLeased(cfg: Config, s: State, t: nat, d: nat)
    requires Inv(cfg, s) && HeldIsDue(s) && Enabled(cfg, s, Renew(t, d)) && Holds(s, t)
    ensures Leased(cfg, Next(cfg, s, Renew(t, d)), t, s.now + d)
    ensures Next(cfg, s, Renew(t, d)).db.row.token == s.db.row.token
  {
    NextInv(cfg, s, Renew(t, d));
  }

  /**
   A renewal that matched, at time T for d, holds until T + d: up to then the claim keeps the row and no other
   is granted, whatever other workers do and however often the API cancels; and if nobody has claimed it
   since, one is granted exactly once the clock has passed T + d.
   */
  lemma RenewalHoldsExactlyItsTime(
    cfg: Config, now: int, before: seq<Action>, t: nat, d: nat, after: seq<Action>, owner: string, duration: nat)
    requires var s := Run(cfg, Init(now), before); Enabled(cfg, s, Renew(t, d)) && Holds(s, t)
    requires forall a :: a in after ==> Sits(a, t)
    ensures var s := Run(cfg, Init(now), before);
            var s' := Run(cfg, Next(cfg, s, Renew(t, d)), after);
            && (s'.now <= s.now + d ==> Holds(s', t) && !Enabled(cfg, s', Claim(owner, duration)))
            && (s'.db.row.token == s.db.row.token ==>
                  Holds(s', t) && (Enabled(cfg, s', Claim(owner, duration)) <==> s'.now > s.now + d))
  {
    RunHeldIsDue(cfg, now, before);
    var s := Run(cfg, Init(now), before);
    RenewedIsLeased(cfg, s, t, d);
    LeaseVerdict(cfg, Next(cfg, s, Renew(t, d)), t, s.now + d, after, owner, duration);
  }

  lemma ClaimedIsLeased(cfg: Config, s: State, owner: string, d: nat)
    requires Inv(cfg, s) && HeldIsDue(s) && Enabled(cfg, s, Claim(owner, d))
    ensures Leased(cfg, Next(cfg, s, Claim(owner, d)), s.db.row.token + 1, s.now + d)
    ensures Next(cfg, s, Claim(owner, d)).db.row.token == s.db.row.token + 1
  {
    NextInv(cfg, s, Claim(owner, d));
    HeldIsDueNext(cfg, s, Claim(owner, d));
  }

  /** And so does a claim, forward or unwinding, for the lease it was granted with. */
  lemma ClaimHoldsExactlyItsTime(
    cfg: Config, now: int, before: seq<Action>, first: string, d: nat, after: seq<Action>, owner: string, duration: nat)
    requires Enabled(cfg, Run(cfg, Init(now), before), Claim(first, d))
    requires var t := Run(cfg, Init(now), before).db.row.token + 1; forall a :: a in after ==> Sits(a, t)
    ensures var s := Run(cfg, Init(now), before);
            var t := s.db.row.token + 1;
            var s' := Run(cfg, Next(cfg, s, Claim(first, d)), after);
            && (s'.now <= s.now + d ==> Holds(s', t) && !Enabled(cfg, s', Claim(owner, duration)))
            && (s'.db.row.token == t ==>
                  Holds(s', t) && (Enabled(cfg, s', Claim(owner, duration)) <==> s'.now > s.now + d))
  {
    RunHeldIsDue(cfg, now, before);
    var s := Run(cfg, Init(now), before);
    ClaimedIsLeased(cfg, s, first, d);
    LeaseVerdict(cfg, Next(cfg, s, Claim(first, d)), s.db.row.token + 1, s.now + d, after, owner, duration);
  }
}
