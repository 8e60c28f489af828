/**
 Account by account: a transfer that succeeded has moved the amount from its source to its destination, and
 one that was compensated has left every account as it was, but for what was orphaned.
 */
module LedgerAccounts {
  import opened Saga
  import opened SagaInvariant
  import opened Storage
  import opened Ledger

  /** Debits minus credits of one account. */
  function AccountNet(ledger: seq<Entry>, account: string): int {
    if ledger == [] then 0
    else
      var e := ledger[|ledger| - 1];
      AccountNet(ledger[..|ledger| - 1], account)
      + if e.key.account != account then 0 else if e.key.debit then e.amount else -e.amount
  }

  /** The same, from which legs are posted. */
  function AccountLegs(input: Input, ledger: seq<Entry>, account: string): int {
    (if input.source == account
     then If(Entered(input, ledger, 1), input.amount) - If(Reversed(input, ledger, 1), input.amount) else 0)
    + (if input.destination == account
       then If(Reversed(input, ledger, 2), input.amount) - If(Entered(input, ledger, 2), input.amount) else 0)
  }

  ghost predicate AccountsOk(input: Input, w: World) {
    forall account :: AccountNet(w.ledger, account) == AccountLegs(input, w.ledger, account)
  }

  lemma PostAddsTo(ledger: seq<Entry>, key: Key, amount: int, account: string)
    ensures AccountNet(Post(ledger, key, amount), account)
            == AccountNet(ledger, account)
               + if Posted(ledger, key) || key.account != account then 0 else if key.debit then amount else -amount
  {
    if !Posted(ledger, key) { assert (ledger + [Entry(key, amount)])[..|ledger|] == ledger; }
  }

  lemma PostForwardAccounts(input: Input, ledger: seq<Entry>, i: nat, account: string)
    requires 1 <= i <= 2 && Net(ledger) == Legs(input, ledger)
    requires AccountNet(ledger, account) == AccountLegs(input, ledger, account)
    ensures var l' := Post(ledger, ForwardKey(input, i), input.amount);
            AccountNet(l', account) == AccountLegs(input, l', account)
  {
    PostAddsTo(ledger, ForwardKey(input, i), input.amount, account);
    ForwardLeg(input, ledger, i);
  }

  lemma PostUndoAccounts(input: Input, ledger: seq<Entry>, j: nat, account: string)
    requires 1 <= j <= 2 && Net(ledger) == Legs(input, ledger)
    requires AccountNet(ledger, account) == AccountLegs(input, ledger, account)
    ensures var l' := Post(ledger, UndoKey(j, Account(input, j)), input.amount);
            AccountNet(l', account) == AccountLegs(input, l', account)
  {
    PostAddsTo(ledger, UndoKey(j, Account(input, j)), input.amount, account);
    UndoLeg(input, ledger, j);
  }

  lemma AccountsNext(cfg: Config, input: Input, w: World, d: Deed)
    requires Transfer(cfg) && WorldOk(cfg, input, w) && AccountsOk(input, w)
    ensures AccountsOk(input, Do(cfg, input, w, d))
  {
    if Allowed(cfg, input, w, d) && !d.Engine? {
      var x := w.saga.sessions[d.t];
      assert SessionOk(cfg, input, w.saga.db, w.ledger, x);
      if d.PostUndo? { UndoFacts(cfg, input, w.saga.db, w.ledger, x); }
      forall account ensures var l' := Do(cfg, input, w, d).ledger;
                             AccountNet(l', account) == AccountLegs(input, l', account)
      {
        if d.PostForward? { PostForwardAccounts(input, w.ledger, x.pc.i, account); }
        else { PostUndoAccounts(input, w.ledger, x.pc.j, account); }
      }
    }
  }

  lemma {:induction false} AccountsRun(cfg: Config, input: Input, now: int, ds: seq<Deed>)
    requires Transfer(cfg)
    ensures WorldOk(cfg, input, Play(cfg, input, Start(now), ds))
    ensures AccountsOk(input, Play(cfg, input, Start(now), ds))
  {
    StartOk(cfg, input, now);
    PlayKeeps(cfg, input, Start(now), ds);
    if ds != [] {
      AccountsRun(cfg, input, now, ds[..|ds| - 1]);
      AccountsNext(cfg, input, Play(cfg, input, Start(now), ds[..|ds| - 1]), ds[|ds| - 1]);
    }
  }

  /** In every run, SUCCESS: the amount debited to the source and credited to the destination, and nothing else. */
  lemma SuccessMovesTheAmount(cfg: Config, input: Input, now: int, ds: seq<Deed>, account: string)
    requires Transfer(cfg) && Play(cfg, input, Start(now), ds).saga.db.row.status == Success
    ensures AccountNet(Play(cfg, input, Start(now), ds).ledger, account)
            == (if account == input.source then input.amount else 0)
               - (if account == input.destination then input.amount else 0)
  {
    AccountsRun(cfg, input, now, ds);
    SuccessAt(cfg, input, Play(cfg, input, Start(now), ds));
  }

  lemma SuccessAt(cfg: Config, input: Input, w: World)
    requires Transfer(cfg) && WorldOk(cfg, input, w) && w.saga.db.row.status == Success
    ensures forall i: nat :: 1 <= i <= 2 ==> Entered(input, w.ledger, i) && !Reversed(input, w.ledger, i)
  {
    assert 1 in w.saga.db.forward && 2 in w.saga.db.forward && !Unwound(w.saga);
  }

  /** COMPENSATED: every account as it was, but for a leg that was posted and never checkpointed. */
  lemma CompensatedRestoresTheAccounts(cfg: Config, input: Input, now: int, ds: seq<Deed>, account: string)
    requires Transfer(cfg) && Play(cfg, input, Start(now), ds).saga.db.row.status == Compensated
    ensures var w := Play(cfg, input, Start(now), ds);
            AccountNet(w.ledger, account)
            == (if account == input.source && Orphan(input, w, 1) then input.amount else 0)
               - (if account == input.destination && Orphan(input, w, 2) then input.amount else 0)
  {
    AccountsRun(cfg, input, now, ds);
    CompensatedLegs(cfg, input, Play(cfg, input, Start(now), ds));
  }

  lemma CompensatedLegs(cfg: Config, input: Input, w: World)
    requires Transfer(cfg) && WorldOk(cfg, input, w) && w.saga.db.row.status == Compensated
    ensures forall i: nat :: 1 <= i <= 2 ==> (Reversed(input, w.ledger, i) <==> i in w.saga.db.forward)
    ensures forall i: nat :: 1 <= i <= 2 && i in w.saga.db.forward ==> Entered(input, w.ledger, i)
  {
    assert forall k: nat :: k in w.saga.db.forward ==> Compensable(cfg, k) && k in w.saga.db.undone;
  }
}
