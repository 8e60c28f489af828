/**
 From a step's `emit` to a consumer of the stream: one saga and the drain as one system. The saga's
 committing transaction inserts its events; every other saga's inserts are the drain's own `Draw` and
 `CommitInsert`.
 */
module Delivery {
  import opened Storage
  import Saga
  import SagaEmission
  import Drain

  /** `ids[k]` is the outbox id of the saga's k-th event. */
  datatype Both = Both(saga: Saga.State, drain: Drain.State, ids: seq<nat>)

  datatype Move = SagaMove(a: Saga.Action) | DrainMove(b: Drain.Action)

  /** Rows inserted by a transaction that has just committed. */
  function Insert(d: Drain.State, events: seq<Event>): Drain.State {
    d.(entries := d.entries + seq(|events|, k requires 0 <= k < |events| => Drain.Entry(events[k], true, false, 0)))
  }

  function NewEvents(s: Saga.State, s': Saga.State): seq<Event> {
    if |s.db.outbox| <= |s'.db.outbox| then s'.db.outbox[|s.db.outbox|..] else []
  }

  function Next(cfg: Saga.Config, x: Both, m: Move): Both {
    match m
    case DrainMove(b) => x.(drain := Drain.Next(x.drain, b))
    case SagaMove(a) =>
      var saga' := Saga.Next(cfg, x.saga, a);
      var events := NewEvents(x.saga, saga');
      Both(saga', Insert(x.drain, events), x.ids + seq(|events|, k requires 0 <= k < |events| => |x.drain.entries| + k))
  }

  function Run(cfg: Saga.Config, now: int, moves: seq<Move>): Both {
    if moves == [] then Both(Saga.Init(now), Drain.EMPTY, [])
    else Next(cfg, Run(cfg, now, moves[..|moves| - 1]), moves[|moves| - 1])
  }

  /** The saga's side of the run. */
  function SagaMoves(moves: seq<Move>): seq<Saga.Action> {
    if moves == [] then []
    else
      var rest, m := SagaMoves(moves[..|moves| - 1]), moves[|moves| - 1];
      if m.SagaMove? then rest + [m.a] else rest
  }

  lemma {:induction false} Projects(cfg: Saga.Config, now: int, moves: seq<Move>)
    ensures Run(cfg, now, moves).saga == Saga.Run(cfg, Saga.Init(now), SagaMoves(moves))
  {
    if moves != [] {
      Projects(cfg, now, moves[..|moves| - 1]);
      var rest, m := SagaMoves(moves[..|moves| - 1]), moves[|moves| - 1];
      if m.SagaMove? { assert (rest + [m.a])[..|rest|] == rest; }
    }
  }

  /** A committed insert is a draw followed by its commit, so the drain cannot tell it apart. */
  lemma {:induction false} InsertIsDrawing(d: Drain.State, events: seq<Event>)
    requires Drain.Inv(d)
    ensures Drain.Inv(Insert(d, events)) && Drain.Grows(d, Insert(d, events))
    decreases |events|
  {
    if events == [] {
      assert Insert(d, events) == d;
    } else {
      var e := events[0];
      var drawn := Drain.Next(d, Drain.Draw(e));
      var first := Drain.Next(drawn, Drain.CommitInsert(|d.entries|));
      Drain.NextInv(d, Drain.Draw(e));
      Drain.NextInv(drawn, Drain.CommitInsert(|d.entries|));
      InsertIsDrawing(first, events[1..]);
      assert first.entries == d.entries + [Drain.Entry(e, true, false, 0)];
      assert Insert(first, events[1..]).entries == Insert(d, events).entries;
      assert Insert(first, events[1..]) == Insert(d, events);
    }
  }

  /** The saga's events are in the table, in order, under their ids. */
  ghost predicate Linked(x: Both) {
    && Drain.Inv(x.drain)
    && |x.ids| == |x.saga.db.outbox|
    && (forall j, k | 0 <= j < k < |x.ids| :: x.ids[j] < x.ids[k])
    && (forall k | 0 <= k < |x.ids| :: InTable(x, k))
  }

  ghost predicate InTable(x: Both, k: nat)
    requires k < |x.ids| == |x.saga.db.outbox|
  {
    && x.ids[k] < |x.drain.entries|
    && x.drain.entries[x.ids[k]].visible
    && x.drain.entries[x.ids[k]].event == x.saga.db.outbox[k]
  }

  lemma OutboxGrows(cfg: Saga.Config, s: Saga.State, a: Saga.Action)
    ensures s.db.outbox <= Saga.Next(cfg, s, a).db.outbox
  {
  }

  lemma NextLinked(cfg: Saga.Config, x: Both, m: Move)
    requires Linked(x)
    ensures Linked(Next(cfg, x, m))
  {
    var y := Next(cfg, x, m);
    match m
    case DrainMove(b) =>
      Drain.NextInv(x.drain, b);
      Drain.NextGrows(x.drain, b);
      forall k | 0 <= k < |y.ids| ensures InTable(y, k) { assert InTable(x, k); }
    case SagaMove(a) =>
      OutboxGrows(cfg, x.saga, a);
      InsertIsDrawing(x.drain, NewEvents(x.saga, y.saga));
      forall k | 0 <= k < |x.ids| ensures InTable(x, k) && y.ids[k] == x.ids[k] {}
      forall k | 0 <= k < |y.ids| ensures InTable(y, k) {
        if k < |x.ids| { assert InTable(x, k); }
      }
      forall j, k | 0 <= j < k < |y.ids| ensures y.ids[j] < y.ids[k] {
        if j < |x.ids| { assert InTable(x, j); }
      }
  }

  lemma {:induction false} RunLinked(cfg: Saga.Config, now: int, moves: seq<Move>)
    ensures Linked(Run(cfg, now, moves))
  {
    if moves != [] {
      RunLinked(cfg, now, moves[..|moves| - 1]);
      NextLinked(cfg, Run(cfg, now, moves[..|moves| - 1]), moves[|moves| - 1]);
    }
  }

  /** What the stream carries under the saga's ids is what the saga committed under them. */
  ghost predicate Faithful(x: Both) {
    var seen := Drain.Deduplicated(x.drain.history);
    |x.ids| == |x.saga.db.outbox|
    && forall k | 0 <= k < |x.ids| :: x.ids[k] in seen ==> seen[x.ids[k]] == x.saga.db.outbox[k]
  }

  predicate AllSeen(x: Both) {
    forall k | 0 <= k < |x.ids| :: x.ids[k] in Drain.Deduplicated(x.drain.history)
  }

  /** The saga's events as the consumer has them, in id order. */
  function Received(x: Both): seq<Event>
    requires AllSeen(x)
  {
    seq(|x.ids|, k requires 0 <= k < |x.ids| => Drain.Deduplicated(x.drain.history)[x.ids[k]])
  }

  /**
   End to end. In every run of one saga, its workers, and any number of drainers that crash and repeat
   themselves: whatever the stream carries under one of the saga's ids is that committed event, and once
   no visible row is unpublished the deduplicated stream holds, in order, exactly the events of the
   attempts that committed the saga's checkpoints.
   */
  lemma CommittedEventsReachTheConsumer(cfg: Saga.Config, now: int, moves: seq<Move>)
    requires Saga.Valid(cfg, Saga.Init(now), SagaMoves(moves))
    ensures var x := Run(cfg, now, moves);
            && Faithful(x)
            && (Drain.Drained(x.drain) ==>
                  && AllSeen(x)
                  && Received(x) == SagaEmission.Outbox(SagaEmission.Emissions(cfg, Saga.Init(now), SagaMoves(moves))))
  {
    RunLinked(cfg, now, moves);
    Projects(cfg, now, moves);
    SagaEmission.OutboxIsCommittedAttempts(cfg, now, SagaMoves(moves));
    Delivers(Run(cfg, now, moves));
  }

  lemma Delivers(x: Both)
    requires Linked(x)
    ensures Faithful(x)
    ensures Drain.Drained(x.drain) ==> AllSeen(x) && Received(x) == x.saga.db.outbox
  {
    var seen := Drain.Deduplicated(x.drain.history);
    Drain.DeduplicatedIs(x.drain.history);
    forall k | 0 <= k < |x.ids|
      ensures x.ids[k] in seen ==> seen[x.ids[k]] == x.saga.db.outbox[k]
      ensures Drain.Drained(x.drain) ==> x.ids[k] in seen
    {
      assert InTable(x, k);
      if x.ids[k] in seen { SeenIsCommitted(x, x.ids[k]); }
    }
  }

  lemma SeenIsCommitted(x: Both, id: nat)
    requires Drain.Inv(x.drain) && id in Drain.Deduplicated(x.drain.history)
    ensures id < |x.drain.entries| && Drain.Deduplicated(x.drain.history)[id] == x.drain.entries[id].event
  {
    var h := x.drain.history;
    Drain.DeduplicatedIs(h);
    var sent := Drain.Sent(id, Drain.Deduplicated(h)[id]);
    assert sent in h;
    var j :| 0 <= j < |h| && h[j] == sent;
    assert x.drain.entries[h[j].id].event == h[j].event;
  }
}
