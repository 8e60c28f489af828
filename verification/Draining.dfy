/**
 `drain_once` as code, with every other drainer, inserter and crash running between its statements.
 Whatever happens is a run of the drain's transition system.
 */
module Draining {
  import opened Storage
  import opened Prelude
  import opened Drain
  import opened DrainProgress

  datatype Result =
    | Published(count: nat)   // zero when there was nothing to claim
    | Raised(recorded: bool)  // the exception propagates; counting the failure may have failed too
    | Died                    // the process did not survive

  ghost predicate Leads(acts: seq<Action>, s: Drain.State) { s == Run(acts) }

  class World {
    var entries: seq<Entry>
    var history: seq<Sent>
    var drainers: map<nat, Phase>
    ghost var trace: seq<Action>
    ghost var mishaps: nat   // times anyone else acted, or anything broke

    constructor ()
      ensures Valid() && State() == EMPTY
    {
      entries, history, drainers, trace, mishaps := [], [], map[], [], 0;
      new;
      assert Leads([], EMPTY);
    }

    function State(): Drain.State
      reads this
    {
      Drain.State(entries, history, drainers)
    }

    /** The bound variables keep the verifier from unrolling the run at every mention. */
    ghost predicate Valid()
      reads this
    {
      forall acts, s :: acts == trace && s == State() ==> Leads(acts, s)
    }

    lemma Reached()
      requires Valid()
      ensures Inv(State())
    {
      assert Leads(trace, State());
      RunInv(trace);
    }

    /** Books a step whose effect is already in the fields. */
    method Book(a: Action, ghost before: Drain.State)
      requires Leads(trace, before) && State() == Next(before, a)
      modifies this`trace
      ensures Valid() && trace == old(trace) + [a]
    {
      assert (trace + [a])[..|trace|] == trace;
      assert Leads(trace + [a], State());
      trace := trace + [a];
    }

    method Play(a: Action)
      requires Valid()
      modifies this`entries, this`history, this`drainers, this`trace
      ensures Valid() && State() == Next(old(State()), a)
    {
      ghost var before := State();
      assert Leads(trace, before);
      var s := Next(State(), a);
      entries, history, drainers := s.entries, s.history, s.drainers;
      Book(a, before);
    }

    predicate Foreign(a: Action, d: nat) {
      match a
      case Draw(_) => true
      case CommitInsert(_) => true
      case _ => a.d != d
    }

    /** Everyone but drainer `d` runs for a while; the database may drop its connection meanwhile. */
    method Others(d: nat)
      requires Valid()
      modifies this
      ensures Valid() && Grows(old(State()), State())
      ensures PhaseOf(State(), d) == PhaseOf(old(State()), d)
              || (PhaseOf(old(State()), d).Open? && PhaseOf(State(), d) == PhaseOf(old(State()), d).(locked := false))
      ensures mishaps >= old(mishaps) && (mishaps == old(mishaps) ==> State() == old(State()))
    {
      var acts: seq<Action> := *;
      for k := 0 to |acts|
        invariant Valid() && Grows(old(State()), State())
        invariant PhaseOf(State(), d) == PhaseOf(old(State()), d)
                  || (PhaseOf(old(State()), d).Open?
                      && PhaseOf(State(), d) == PhaseOf(old(State()), d).(locked := false))
        invariant mishaps >= old(mishaps) && (mishaps == old(mishaps) ==> State() == old(State()))
      {
        if Foreign(acts[k], d) || acts[k] == LoseConnection(d) {
          NextGrows(State(), acts[k]);
          GrowsOn(old(State()), State(), Next(State(), acts[k]));
          Play(acts[k]);
          mishaps := mishaps + 1;
        }
      }
    }

    /** Something outside the code's control may go wrong here. */
    method Trouble() returns (b: bool)
      modifies this`mishaps
      ensures mishaps == if b then old(mishaps) + 1 else old(mishaps)
    {
      b := *;
      if b { mishaps := mishaps + 1; }
    }

    lemma GrowsOn(a: Drain.State, b: Drain.State, c: Drain.State)
      requires Grows(a, b) && Grows(b, c)
      ensures Grows(a, c)
    {
    }

    /** The ordered walk of the claim: lock up to `limit` rows nobody else holds. */
    method ClaimUnpublished(d: nat, limit: nat) returns (batch: seq<nat>)
      requires Valid() && PhaseOf(State(), d).Idle?
      modifies this`drainers, this`trace
      ensures Valid() && State() == Next(old(State()), Claim(d, limit))
      ensures batch == Pick(old(entries), LockedIds(old(State())), limit, 0)
    {
      ghost var before := State();
      assert Leads(trace, before);
      var locked := LockedIds(State());
      var id := 0;
      batch := [];
      while id < |entries| && |batch| < limit
        invariant id <= |entries| && |batch| <= limit && State() == before && trace == old(trace)
        invariant batch + Pick(entries, locked, limit - |batch|, id) == Pick(entries, locked, limit, 0)
      {
        ghost var rest := Pick(entries, locked, limit - |batch|, id);
        if entries[id].visible && !entries[id].published && id !in locked {
          assert rest == [id] + Pick(entries, locked, limit - |batch| - 1, id + 1);
          batch := batch + [id];
        }
        id := id + 1;
      }
      assert Pick(entries, locked, limit - |batch|, id) == [] && batch + [] == batch;
      if batch != [] { drainers := drainers[d := Open(batch, 0, false, true)]; }
      Book(Claim(d, limit), before);
    }

    /** One entry of the pipeline. */
    method SendOne(d: nat) returns (arrived: bool)
      requires Valid() && PhaseOf(State(), d).Open? && PhaseOf(State(), d).next < |PhaseOf(State(), d).batch|
      modifies this
      ensures Valid() && Grows(old(State()), State())
      ensures var p, p' := PhaseOf(old(State()), d), PhaseOf(State(), d);
              && p'.Open? && p'.batch == p.batch && p'.next == p.next + 1
              && (arrived ==> p'.broken == p.broken)
      ensures mishaps >= old(mishaps)
      ensures mishaps == old(mishaps) ==>
                && arrived && entries == old(entries)
                && PhaseOf(State(), d).locked == PhaseOf(old(State()), d).locked
                && (var id := PhaseOf(old(State()), d).batch[PhaseOf(old(State()), d).next];
                    id < |entries| && history == old(history) + [Sent(id, entries[id].event)])
    {
      ghost var start := State();
      Others(d);
      var dropped := Trouble();
      arrived := !dropped;
      var a := if arrived then Deliver(d) else Lose(d);
      NextGrows(State(), a);
      GrowsOn(start, State(), Next(State(), a));
      Reached();
      assert PhaseOk(State(), PhaseOf(State(), d));
      Play(a);
    }

    /** The pipeline: each entry arrives or does not; an exception may stop the drainer's wait at any point. */
    method Publish(d: nat) returns (ok: bool)
      requires Valid() && PhaseOf(State(), d).Open? && PhaseOf(State(), d).next == 0 && !PhaseOf(State(), d).broken
      modifies this
      ensures Valid() && Grows(old(State()), State())
      ensures var p, p' := PhaseOf(old(State()), d), PhaseOf(State(), d);
              && p'.Open? && p'.batch == p.batch
              && (ok ==> p'.next == |p'.batch| && !p'.broken)
      ensures mishaps >= old(mishaps)
      ensures mishaps == old(mishaps) ==>
                && ok && entries == old(entries)
                && PhaseOf(State(), d).locked == PhaseOf(old(State()), d).locked
                && history == old(history) + Messages(entries, PhaseOf(State(), d).batch, |PhaseOf(State(), d).batch|)
    {
      var n := |PhaseOf(State(), d).batch|;
      ok := true;
      for k := 0 to n
        invariant Valid() && Grows(old(State()), State())
        invariant PhaseOf(State(), d).Open? && PhaseOf(State(), d).batch == PhaseOf(old(State()), d).batch
        invariant PhaseOf(State(), d).next == k && (ok ==> !PhaseOf(State(), d).broken)
        invariant mishaps >= old(mishaps)
        invariant mishaps == old(mishaps) ==>
                    && ok && entries == old(entries)
                    && PhaseOf(State(), d).locked == PhaseOf(old(State()), d).locked
                    && history == old(history) + Messages(entries, PhaseOf(State(), d).batch, k)
      {
        var arrived := SendOne(d);
        ok := ok && arrived;
      }
    }

    /** Mark the batch and commit; false when the reply to the commit is lost. */
    method MarkPublished(d: nat) returns (replied: bool)
      requires Valid() && Enabled(State(), Mark(d, true))
      modifies this
      ensures mishaps == if replied then old(mishaps) else old(mishaps) + 1
      ensures Valid() && Grows(old(State()), State())
      ensures State() == Next(old(State()), Mark(d, replied))
      ensures forall k :: 0 <= k < |PhaseOf(old(State()), d).batch|
                ==> Settled(State(), PhaseOf(old(State()), d).batch[k])
    {
      ghost var batch := PhaseOf(State(), d).batch;
      var unheard := Trouble();
      replied := !unheard;
      Reached();
      ghost var before := State();
      NextGrows(State(), Mark(d, replied));
      Play(Mark(d, replied));
      Reached();
      forall k | 0 <= k < |batch| ensures Settled(State(), batch[k]) {
        assert batch[k] in batch && PhaseOk(before, PhaseOf(before, d));
        assert State().entries[batch[k]].published;
      }
    }

    /** After the rollback: count the failed attempt in a transaction of its own, if the database lets it. */
    method RecordPublishFailure(d: nat) returns (recorded: bool)
      requires Valid() && PhaseOf(State(), d).Failed?
      modifies this
      ensures Valid() && Grows(old(State()), State()) && PhaseOf(State(), d).Idle?
      ensures var batch := PhaseOf(old(State()), d).batch;
              recorded ==> forall k :: 0 <= k < |batch| ==> Retried(old(State()), State(), batch[k])
      ensures mishaps >= old(mishaps) && (mishaps == old(mishaps) ==> recorded)
    {
      ghost var start, batch := State(), PhaseOf(State(), d).batch;
      Others(d);
      Reached();
      var unreachable := Trouble();
      recorded := !unreachable;
      var a := if recorded then RecordFailure(d) else Crash(d);
      ghost var before := State();
      NextGrows(State(), a);
      GrowsOn(start, State(), Next(State(), a));
      assert PhaseOk(before, PhaseOf(before, d));
      Play(a);
      forall k | recorded && 0 <= k < |batch| ensures Retried(start, State(), batch[k]) {
        assert batch[k] in batch;
        assert State().entries[batch[k]].attempts == before.entries[batch[k]].attempts + 1;
      }
    }

    /** What a pass that held `batch` may report. */
    ghost predicate Honest(r: Result, s: Drain.State, s': Drain.State, batch: seq<nat>) {
      match r
      case Published(n) => n == |batch| && forall k :: 0 <= k < n ==> Settled(s', batch[k])
      case Raised(recorded) => recorded ==> forall k :: 0 <= k < |batch| ==> Retried(s, s', batch[k])
      case Died => true
    }

    /** What a pass that held `batch` does when nothing interferes: every row out once, in order, and marked. */
    ghost predicate Delivered(r: Result, s: Drain.State, s': Drain.State, batch: seq<nat>) {
      && r == Published(|batch|)
      && s'.history == s.history + Messages(s.entries, batch, |batch|)
      && s'.entries == BumpAll(s.entries, batch, true)
    }

    lemma HonestFrom(r: Result, s0: Drain.State, s: Drain.State, s': Drain.State, batch: seq<nat>)
      requires Grows(s0, s) && Honest(r, s, s', batch)
      ensures Honest(r, s0, s', batch)
    {
      if r.Raised? && r.recorded {
        forall k | 0 <= k < |batch| ensures Retried(s0, s', batch[k]) {
          assert Retried(s, s', batch[k]);
        }
      }
    }

    /** The transaction ends without a commit: the process died, or rolls back. */
    method Leave(d: nat, a: Action)
      requires Valid() && PhaseOf(State(), d).Open? && (a == Crash(d) || a == Rollback(d))
      modifies this`entries, this`history, this`drainers, this`trace
      ensures Valid() && Grows(old(State()), State())
      ensures PhaseOf(State(), d) == if a == Crash(d) then Idle else Failed(PhaseOf(old(State()), d).batch)
    {
      NextGrows(State(), a);
      Play(a);
    }

    /** The rest of one pass once a batch is held: publish, mark, commit; or roll back and count the failure. */
    method Send(d: nat) returns (r: Result)
      requires Valid() && PhaseOf(State(), d).Open? && PhaseOf(State(), d).next == 0 && !PhaseOf(State(), d).broken
      modifies this
      ensures Valid() && Grows(old(State()), State()) && PhaseOf(State(), d).Idle?
      ensures Honest(r, old(State()), State(), PhaseOf(old(State()), d).batch)
      ensures mishaps >= old(mishaps)
      ensures mishaps == old(mishaps) && PhaseOf(old(State()), d).locked ==>
                Delivered(r, old(State()), State(), PhaseOf(old(State()), d).batch)
    {
      ghost var start, batch := State(), PhaseOf(State(), d).batch;
      var ok := Publish(d);
      Others(d);
      var died := Trouble();
      if died {
        Leave(d, Crash(d));
        return Died;
      }
      var count := |PhaseOf(State(), d).batch|;
      if ok && PhaseOf(State(), d).locked {
        var replied := MarkPublished(d);
        if replied { return Published(count); }
      } else {
        Leave(d, Rollback(d));
      }
      ghost var failed := State();
      var recorded := RecordPublishFailure(d);
      HonestFrom(Raised(recorded), start, failed, State(), batch);
      return Raised(recorded);
    }

    /**
     `drain_once`. A count means that many rows of this call are marked and in the stream; after any
     exception no lock is left behind, and if counting it worked every claimed row shows the attempt.
     */
    method DrainOnce(d: nat, limit: nat) returns (r: Result, ghost batch: seq<nat>)
      requires Valid() && PhaseOf(State(), d).Idle?
      modifies this
      ensures Valid() && Grows(old(State()), State()) && PhaseOf(State(), d).Idle?
      ensures |batch| <= limit && Ascending(batch) && Honest(r, old(State()), State(), batch)
      ensures mishaps >= old(mishaps)
      ensures mishaps == old(mishaps) ==>
                && batch == Pick(old(entries), LockedIds(old(State())), limit, 0)
                && Delivered(r, old(State()), State(), batch)
                && |batch| == Min(limit, |Takeable(old(entries), LockedIds(old(State())))|)
                && Backlog(entries) == Backlog(old(entries)) - Ids(batch)
                && |Backlog(entries)| == |Backlog(old(entries))| - |batch|
    {
      ghost var start := State();
      r, batch := ClaimAndSend(d, limit);
      if mishaps == old(mishaps) { Progress(start, State(), r, limit, batch); }
    }

    method ClaimAndSend(d: nat, limit: nat) returns (r: Result, ghost batch: seq<nat>)
      requires Valid() && PhaseOf(State(), d).Idle?
      modifies this
      ensures Valid() && Grows(old(State()), State()) && PhaseOf(State(), d).Idle?
      ensures |batch| <= limit && Ascending(batch) && Honest(r, old(State()), State(), batch)
      ensures mishaps >= old(mishaps)
      ensures mishaps == old(mishaps) ==>
                && batch == Pick(old(entries), LockedIds(old(State())), limit, 0)
                && Delivered(r, old(State()), State(), batch)
    {
      ghost var start := State();
      Others(d);
      var unreachable := Trouble();
      if unreachable { return Raised(false), []; }
      PickTakesTheFirst(entries, LockedIds(State()), limit, 0);
      NextGrows(State(), Claim(d, limit));
      batch := ClaimUnpublished(d, limit);
      if PhaseOf(State(), d).Idle? {
        assert batch == [];
        return Published(0), batch;
      }
      ghost var held := State();
      GrowsOn(start, held, held);
      r := Send(d);
      HonestFrom(r, start, held, State(), batch);
    }

    /** What an undisturbed claim, delivered, does to the backlog. */
    lemma Progress(s: Drain.State, s': Drain.State, r: Result, limit: nat, batch: seq<nat>)
      requires batch == Pick(s.entries, LockedIds(s), limit, 0) && Delivered(r, s, s', batch)
      ensures |batch| == Min(limit, |Takeable(s.entries, LockedIds(s))|)
      ensures Backlog(s'.entries) == Backlog(s.entries) - Ids(batch)
      ensures |Backlog(s'.entries)| == |Backlog(s.entries)| - |batch|
    {
      PickTakesTheFirst(s.entries, LockedIds(s), limit, 0);
      PickTakesAllItMay(s.entries, LockedIds(s), limit);
      MarkingShrinksTheBacklog(s.entries, batch);
    }
  }

  /** What the first `n` rows of a batch put into the stream. */
  ghost function Messages(entries: seq<Entry>, batch: seq<nat>, n: nat): (r: seq<Sent>)
    ensures |r| == n
  {
    seq(n, k requires 0 <= k < n =>
      if k < |batch| && batch[k] < |entries| then Sent(batch[k], entries[batch[k]].event) else Sent(0, Event("", "")))
  }

  /** Out and marked. */
  ghost predicate Settled(s: Drain.State, id: nat) {
    id < |s.entries| && s.entries[id].published && Appended(s.history, id)
  }

  /** One more attempt than before, at least. */
  ghost predicate Retried(s: Drain.State, s': Drain.State, id: nat) {
    id < |s'.entries| && s'.entries[id].attempts > if id < |s.entries| then s.entries[id].attempts else 0
  }
}
