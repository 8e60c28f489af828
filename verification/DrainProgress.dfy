/**
 The drain gets somewhere: what one undisturbed pass takes off the backlog, and that no reachable state is
 beyond draining, whatever crashed or hangs in it.
 */
module DrainProgress {
  import opened Prelude
  import opened Drain

  /** Committed and not yet marked. */
  function Backlog(entries: seq<Entry>): set<nat> {
    set id | 0 <= id < |entries| && entries[id].visible && !entries[id].published
  }

  /** The part of it that a claim may take. */
  function Takeable(entries: seq<Entry>, locked: set<nat>): set<nat> { Backlog(entries) - locked }

  function Ids(batch: seq<nat>): set<nat> { set id | id in batch }

  lemma {:induction false} AscendingIdsAreDistinct(batch: seq<nat>)
    requires Ascending(batch)
    ensures |Ids(batch)| == |batch|
  {
    if batch != [] {
      var init, last := batch[..|batch| - 1], batch[|batch| - 1];
      AscendingIdsAreDistinct(init);
      assert batch == init + [last] && last !in init;
      assert Ids(batch) == Ids(init) + {last};
    }
  }

  lemma SubsetSize(a: set<nat>, b: set<nat>)
    requires a <= b
    ensures |a| <= |b|
    ensures |b - a| == |b| - |a|
  {
    assert b == a + (b - a);
  }

  /** A claim takes as many rows as the limit and the backlog allow. */
  lemma PickTakesAllItMay(entries: seq<Entry>, locked: set<nat>, limit: nat)
    ensures var batch := Pick(entries, locked, limit, 0);
            Ids(batch) <= Takeable(entries, locked) && |batch| == Min(limit, |Takeable(entries, locked)|)
  {
    var batch := Pick(entries, locked, limit, 0);
    PickTakesTheFirst(entries, locked, limit, 0);
    AscendingIdsAreDistinct(batch);
    assert forall id :: id in batch ==> Eligible(entries, locked, id);
    SubsetSize(Ids(batch), Takeable(entries, locked));
    if |batch| < limit {
      forall id | id in Takeable(entries, locked) ensures id in Ids(batch) {
        assert Eligible(entries, locked, id);
      }
      assert Ids(batch) == Takeable(entries, locked);
    }
  }

  /** Marking a batch takes exactly its rows off the backlog. */
  lemma MarkingShrinksTheBacklog(entries: seq<Entry>, batch: seq<nat>)
    requires Ascending(batch) && Ids(batch) <= Backlog(entries)
    ensures Backlog(BumpAll(entries, batch, true)) == Backlog(entries) - Ids(batch)
    ensures |Backlog(BumpAll(entries, batch, true))| == |Backlog(entries)| - |batch|
  {
    AscendingIdsAreDistinct(batch);
    SubsetSize(Ids(batch), Backlog(entries));
    var after := BumpAll(entries, batch, true);
    forall id ensures id in Backlog(after) <==> id in Backlog(entries) - Ids(batch) {
      if 0 <= id < |entries| { assert after[id].visible == entries[id].visible; }
    }
  }

  // ----- from any state ------------------------------------------------------------------------

  predicate AllIdle(s: State) { forall d :: d in s.drainers ==> s.drainers[d].Idle? }

  function Busy(s: State): set<nat> { set d | d in s.drainers && !s.drainers[d].Idle? }

  /** The claims made in a run. */
  function Passes(acts: seq<Action>): nat {
    if acts == [] then 0 else Passes(acts[..|acts| - 1]) + if acts[|acts| - 1].Claim? then 1 else 0
  }

  lemma PassesMore(acts: seq<Action>, a: Action)
    ensures Passes(acts + [a]) == Passes(acts) + if a.Claim? then 1 else 0
    ensures acts <= acts + [a] && Then(acts, a) == acts + [a]
  {
    assert (acts + [a])[..|acts|] == acts;
  }

  /** `r` goes on from `acts`, and every claim it adds is of `limit` rows. */
  ghost predicate Continues(acts: seq<Action>, r: seq<Action>, limit: nat) {
    acts <= r && forall k :: |acts| <= k < |r| && r[k].Claim? ==> r[k].limit == limit
  }

  /** Crashing whoever holds a batch gives every lock back and loses nothing. */
  lemma {:induction false} Quiesce(acts: seq<Action>, limit: nat) returns (r: seq<Action>)
    ensures Continues(acts, r, limit) && Passes(r) == Passes(acts)
    ensures AllIdle(Run(r)) && Run(r).entries == Run(acts).entries
    decreases |Busy(Run(acts))|
  {
    if Busy(Run(acts)) == {} {
      r := acts;
      forall d | d in Run(acts).drainers ensures Run(acts).drainers[d].Idle? {
        assert d !in Busy(Run(acts));
      }
    } else {
      var d :| d in Busy(Run(acts));
      var next := Then(acts, Crash(d));
      PassesMore(acts, Crash(d));
      assert Busy(Run(next)) == Busy(Run(acts)) - {d};
      r := Quiesce(next, limit);
    }
  }

  /** A drainer holding its locks can deliver the rest of its batch. */
  lemma {:induction false} SendTheRest(acts: seq<Action>, d: nat, limit: nat) returns (r: seq<Action>)
    requires var p := PhaseOf(Run(acts), d); HoldsLocks(p) && !p.broken && p.next <= |p.batch|
    ensures Continues(acts, r, limit) && Passes(r) == Passes(acts)
    ensures Run(r).entries == Run(acts).entries
    ensures forall e :: e != d ==> PhaseOf(Run(r), e) == PhaseOf(Run(acts), e)
    ensures var p := PhaseOf(Run(acts), d); PhaseOf(Run(r), d) == p.(next := |p.batch|)
    decreases |PhaseOf(Run(acts), d).batch| - PhaseOf(Run(acts), d).next
  {
    var p := PhaseOf(Run(acts), d);
    if p.next == |p.batch| {
      r := acts;
    } else {
      var next := Then(acts, Deliver(d));
      PassesMore(acts, Deliver(d));
      r := SendTheRest(next, d, limit);
    }
  }

  lemma OnePick(entries: seq<Entry>, limit: nat)
    requires limit >= 1
    ensures var batch := Pick(entries, {}, limit, 0);
            && |batch| == Min(limit, |Backlog(entries)|)
            && |Backlog(BumpAll(entries, batch, true))| == |Backlog(entries)| - |batch|
  {
    PickTakesTheFirst(entries, {}, limit, 0);
    PickTakesAllItMay(entries, {}, limit);
    assert Takeable(entries, {}) == Backlog(entries);
    MarkingShrinksTheBacklog(entries, Pick(entries, {}, limit, 0));
  }

  /** One whole pass of one drainer, with nobody else at work. */
  lemma OnePass(acts: seq<Action>, limit: nat) returns (r: seq<Action>)
    requires AllIdle(Run(acts)) && limit >= 1 && Backlog(Run(acts).entries) != {}
    ensures Continues(acts, r, limit) && Passes(r) == Passes(acts) + 1 && AllIdle(Run(r))
    ensures var n := |Backlog(Run(acts).entries)|; |Backlog(Run(r).entries)| == n - Min(limit, n)
  {
    var s := Run(acts);
    var batch := Pick(s.entries, {}, limit, 0);
    OnePick(s.entries, limit);
    IdleClaim(s, limit);
    var claimed := Then(acts, Claim(0, limit));
    PassesMore(acts, Claim(0, limit));
    var sent := SendTheRest(claimed, 0, limit);
    r := Then(sent, Mark(0, true));
    PassesMore(sent, Mark(0, true));
    IdleAgain(s, Run(sent), batch);
  }

  lemma IdleClaim(s: State, limit: nat)
    requires AllIdle(s) && Pick(s.entries, {}, limit, 0) != []
    ensures Next(s, Claim(0, limit)) == SetPhase(s, 0, Open(Pick(s.entries, {}, limit, 0), 0, false, true))
  {
    assert LockedIds(s) == {};
  }

  lemma IdleAgain(s: State, sent: State, batch: seq<nat>)
    requires AllIdle(s) && sent.entries == s.entries && PhaseOf(sent, 0) == Open(batch, |batch|, false, true)
    requires forall e :: e != 0 ==> PhaseOf(sent, e) == PhaseOf(s, e)
    ensures var done := Next(sent, Mark(0, true)); AllIdle(done) && done.entries == BumpAll(s.entries, batch, true)
  {
    var done := Next(sent, Mark(0, true));
    forall e | e in done.drainers ensures done.drainers[e].Idle? {
      assert e != 0 ==> PhaseOf(done, e) == PhaseOf(sent, e) == PhaseOf(s, e);
    }
  }

  /** How many batches of `limit` make n rows. */
  function Batches(n: nat, limit: nat): nat
    requires limit >= 1
  {
    if n == 0 then 0 else 1 + Batches(n - Min(limit, n), limit)
  }

  /** Pass after pass, the backlog runs out. */
  lemma {:induction false} DrainFromIdle(acts: seq<Action>, limit: nat) returns (r: seq<Action>)
    requires AllIdle(Run(acts)) && limit >= 1
    ensures Continues(acts, r, limit) && Backlog(Run(r).entries) == {}
    ensures Passes(r) == Passes(acts) + Batches(|Backlog(Run(acts).entries)|, limit)
    decreases |Backlog(Run(acts).entries)|
  {
    if Backlog(Run(acts).entries) == {} {
      r := acts;
    } else {
      var next := OnePass(acts, limit);
      r := DrainFromIdle(next, limit);
    }
  }

  /**
   From every reachable state, and whatever the batch size, some continuation that claims in batches of
   that size leaves nothing owed, in as many passes as the backlog has batches.
   */
  lemma EverythingCanBeDrained(acts: seq<Action>, limit: nat) returns (more: seq<Action>)
    requires limit >= 1
    ensures forall a :: a in more && a.Claim? ==> a.limit == limit
    ensures Passes(acts + more) == Passes(acts) + Batches(|Backlog(Run(acts).entries)|, limit)
    ensures Drained(Run(acts + more))
    ensures forall id :: id in Committed(Run(acts).entries) ==>
              id in Deduplicated(Run(acts + more).history)
              && Deduplicated(Run(acts + more).history)[id] == Committed(Run(acts).entries)[id]
  {
    var idle := Quiesce(acts, limit);
    var r := DrainFromIdle(idle, limit);
    more := r[|acts|..];
    assert acts + more == r;
    forall a | a in more && a.Claim? ensures a.limit == limit {
      var k :| 0 <= k < |more| && more[k] == a;
      assert r[|acts| + k] == a;
    }
    NothingOwedIsEverythingSeen(acts, r);
  }

  lemma NothingOwedIsEverythingSeen(acts: seq<Action>, r: seq<Action>)
    requires acts <= r && Backlog(Run(r).entries) == {}
    ensures Drained(Run(r))
    ensures forall id :: id in Committed(Run(acts).entries) ==>
              id in Deduplicated(Run(r).history)
              && Deduplicated(Run(r).history)[id] == Committed(Run(acts).entries)[id]
  {
    var s := Run(r);
    StreamIsTheOutbox(r);
    assert r[..|acts|] == acts;
    RunGrows(r, |acts|);
    forall id | 0 <= id < |s.entries| && s.entries[id].visible ensures s.entries[id].published {
      assert id !in Backlog(s.entries);
    }
  }
}
