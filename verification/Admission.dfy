/**
 Who gets a permit: LOW callers take a free one or are shed on the spot, HIGH callers queue for one, in
 order, for a bounded time. Permits come back by releases and by the pool growing, and go to the queue.
 */
module Admission {
  import opened Prelude
  import opened ResizablePool

  datatype Waiter = Waiter(id: nat, since: real)

  datatype Verdict = Verdict(id: nat, admitted: bool, waited: real)

  /** `verdicts` in the order they were given. */
  datatype Gate = Gate(pool: Pool, queue: seq<Waiter>, verdicts: seq<Verdict>)

  datatype Happening =
    | Low(id: nat)
    | High(id: nat, now: real)
    | Returned(now: real)
    | Resized(target: nat, now: real)
    | TimeUp(id: nat, now: real)

  function Free(g: Gate): int { g.pool.capacity - g.pool.held }

  /** `asyncio.Semaphore.locked`: no permit, or somebody is before you. */
  predicate Locked(g: Gate) { Free(g) <= 0 || g.queue != [] }

  function Taken(g: Gate, id: nat, waited: real): Gate {
    g.(pool := Apply(g.pool, Acquire), verdicts := g.verdicts + [Verdict(id, true, waited)])
  }

  /** Free permits are handed to the head of the queue until one of the two runs out. */
  function Serve(g: Gate, now: real): Gate
    decreases |g.queue|
  {
    if Free(g) <= 0 || g.queue == [] then g
    else Serve(Taken(g, g.queue[0].id, now - g.queue[0].since).(queue := g.queue[1..]), now)
  }

  /** The first waiter with this id leaves the queue; the others keep their order. */
  function Without(queue: seq<Waiter>, id: nat): seq<Waiter> {
    if queue == [] then [] else if queue[0].id == id then queue[1..] else [queue[0]] + Without(queue[1..], id)
  }

  function Since(queue: seq<Waiter>, id: nat): Option<real> {
    if queue == [] then None else if queue[0].id == id then Some(queue[0].since) else Since(queue[1..], id)
  }

  /** `limit` is how long a HIGH caller waits. */
  function Next(limit: real, g: Gate, h: Happening): Gate {
    match h
    case Low(id) =>
      if Locked(g) then g.(verdicts := g.verdicts + [Verdict(id, false, 0.0)]) else Taken(g, id, 0.0)
    case High(id, now) =>
      if Locked(g) then g.(queue := g.queue + [Waiter(id, now)]) else Taken(g, id, 0.0)
    case Returned(now) => Serve(g.(pool := Apply(g.pool, Release)), now)
    case Resized(t, now) => Serve(g.(pool := Apply(g.pool, Resize(t))), now)
    case TimeUp(id, now) =>
      match Since(g.queue, id)
      case None => g
      case Some(since) =>
        if now - since < limit then g
        else g.(queue := Without(g.queue, id), verdicts := g.verdicts + [Verdict(id, false, now - since)])
  }

  function Run(limit: real, g: Gate, hs: seq<Happening>): Gate {
    if hs == [] then g else Next(limit, Run(limit, g, hs[..|hs| - 1]), hs[|hs| - 1])
  }

  /** Nobody waits beside a free permit. */
  ghost predicate Fair(g: Gate) { Sound(g.pool) && (Free(g) > 0 ==> g.queue == []) }

  // ----- serving the queue ---------------------------------------------------------------------

  /** What serving the first n of the queue says, in order. */
  function Admitted(queue: seq<Waiter>, n: nat, now: real): (vs: seq<Verdict>)
    requires n <= |queue|
    ensures |vs| == n
  {
    seq(n, k requires 0 <= k < n => Verdict(queue[k].id, true, now - queue[k].since))
  }

  /** First come, first served: as many from the head as there are permits, in order, and nobody else. */
  lemma {:induction false} ServeTakesTheHead(g: Gate, now: real)
    requires Sound(g.pool)
    ensures var n := Min(Free(g), |g.queue|);
            && Fair(Serve(g, now))
            && Serve(g, now) == Gate(g.pool.(held := g.pool.held + n), g.queue[n..],
                                     g.verdicts + Admitted(g.queue, n, now))
    decreases |g.queue|
  {
    var n := Min(Free(g), |g.queue|);
    if n == 0 {
      assert g.queue[0..] == g.queue && g.verdicts + Admitted(g.queue, 0, now) == g.verdicts;
    } else {
      var head := g.queue[0];
      var g' := Taken(g, head.id, now - head.since).(queue := g.queue[1..]);
      ServeTakesTheHead(g', now);
      AdmittedFrom(g.queue, n, now);
      assert g.queue[1..][n - 1..] == g.queue[n..];
      assert g'.verdicts + Admitted(g'.queue, n - 1, now) == g.verdicts + Admitted(g.queue, n, now);
    }
  }

  lemma AdmittedFrom(queue: seq<Waiter>, n: nat, now: real)
    requires 1 <= n <= |queue|
    ensures Admitted(queue, n, now)
            == [Verdict(queue[0].id, true, now - queue[0].since)] + Admitted(queue[1..], n - 1, now)
  {
  }

  // ----- every history -------------------------------------------------------------------------

  /** In every history, whoever waits does so because there is no permit: not one was free at any moment of the wait. */
  lemma {:induction false} AlwaysFair(limit: real, initial: nat, hs: seq<Happening>)
    ensures Fair(Run(limit, Gate(Pool(initial, initial, 0), [], []), hs))
  {
    if hs != [] {
      AlwaysFair(limit, initial, hs[..|hs| - 1]);
      FairNext(limit, Run(limit, Gate(Pool(initial, initial, 0), [], []), hs[..|hs| - 1]), hs[|hs| - 1]);
    }
  }

  lemma FairNext(limit: real, g: Gate, h: Happening)
    requires Fair(g)
    ensures Fair(Next(limit, g, h))
  {
    match h
    case Returned(now) => ServeTakesTheHead(g.(pool := Apply(g.pool, Release)), now);
    case Resized(t, now) => ServeTakesTheHead(g.(pool := Apply(g.pool, Resize(t))), now);
    case _ =>
  }

  /** So a LOW caller is admitted exactly when a permit is free, and never waits. */
  lemma LowGetsAFreePermitOrNone(limit: real, g: Gate, id: nat)
    requires Fair(g)
    ensures Next(limit, g, Low(id)).verdicts == g.verdicts + [Verdict(id, Free(g) > 0, 0.0)]
    ensures Next(limit, g, Low(id)).queue == g.queue
  {
  }

  /** Every refusal was of a caller that did not wait, or that waited its whole limit. */
  ghost predicate Honest(limit: real, verdicts: seq<Verdict>) {
    forall v :: v in verdicts && !v.admitted ==> v.waited == 0.0 || v.waited >= limit
  }

  lemma {:induction false} RefusalsAreEarned(limit: real, g: Gate, hs: seq<Happening>)
    requires Fair(g) && Honest(limit, g.verdicts)
    ensures Fair(Run(limit, g, hs)) && Honest(limit, Run(limit, g, hs).verdicts)
  {
    if hs != [] {
      var front, h := hs[..|hs| - 1], hs[|hs| - 1];
      var before := Run(limit, g, front);
      RefusalsAreEarned(limit, g, front);
      FairNext(limit, before, h);
      match h
      case Returned(now) => ServeTakesTheHead(before.(pool := Apply(before.pool, Release)), now);
      case Resized(t, now) => ServeTakesTheHead(before.(pool := Apply(before.pool, Resize(t))), now);
      case _ =>
    }
  }

  // ----- nobody is forgotten, nobody overtaken -------------------------------------------------

  function Ids(queue: seq<Waiter>): (r: seq<nat>)
    ensures |r| == |queue|
  {
    seq(|queue|, k requires 0 <= k < |queue| => queue[k].id)
  }

  function Answered(verdicts: seq<Verdict>): (r: seq<nat>)
    ensures |r| == |verdicts|
  {
    seq(|verdicts|, k requires 0 <= k < |verdicts| => verdicts[k].id)
  }

  /** Everyone who has come, in order. */
  function Arrived(hs: seq<Happening>): seq<nat> {
    if hs == [] then []
    else
      match hs[|hs| - 1]
      case Low(id) => Arrived(hs[..|hs| - 1]) + [id]
      case High(id, _) => Arrived(hs[..|hs| - 1]) + [id]
      case _ => Arrived(hs[..|hs| - 1])
  }

  /** Those waiting and those answered. */
  function Known(g: Gate): multiset<nat> { multiset(Ids(g.queue)) + multiset(Answered(g.verdicts)) }

  lemma ServeKnows(g: Gate, now: real)
    requires Sound(g.pool)
    ensures Known(Serve(g, now)) == Known(g)
  {
    var n := Min(Free(g), |g.queue|);
    ServeTakesTheHead(g, now);
    assert Ids(g.queue) == Ids(g.queue[..n]) + Ids(g.queue[n..]);
    assert Answered(g.verdicts + Admitted(g.queue, n, now)) == Answered(g.verdicts) + Ids(g.queue[..n]);
  }

  lemma IdsFirst(w: Waiter, queue: seq<Waiter>)
    ensures multiset(Ids([w] + queue)) == multiset{w.id} + multiset(Ids(queue))
  {
    assert Ids([w] + queue) == [w.id] + Ids(queue);
  }

  lemma IdsLast(queue: seq<Waiter>, w: Waiter)
    ensures multiset(Ids(queue + [w])) == multiset(Ids(queue)) + multiset{w.id}
  {
    assert Ids(queue + [w]) == Ids(queue) + [w.id];
  }

  lemma AnsweredLast(verdicts: seq<Verdict>, v: Verdict)
    ensures multiset(Answered(verdicts + [v])) == multiset(Answered(verdicts)) + multiset{v.id}
  {
    assert Answered(verdicts + [v]) == Answered(verdicts) + [v.id];
  }

  lemma {:induction false} WithoutOne(queue: seq<Waiter>, id: nat)
    requires Since(queue, id).Some?
    ensures multiset(Ids(Without(queue, id))) + multiset{id} == multiset(Ids(queue))
  {
    var rest := queue[1..];
    assert queue == [queue[0]] + rest;
    IdsFirst(queue[0], rest);
    if queue[0].id != id {
      WithoutOne(rest, id);
      IdsFirst(queue[0], Without(rest, id));
    }
  }

  /** Who has just come. */
  function Comes(h: Happening): multiset<nat> {
    match h
    case Low(id) => multiset{id}
    case High(id, _) => multiset{id}
    case _ => multiset{}
  }

  lemma KnownArrival(limit: real, g: Gate, h: Happening)
    requires h.Low? || h.High?
    ensures Known(Next(limit, g, h)) == Known(g) + Comes(h)
  {
    AnsweredLast(g.verdicts, Verdict(h.id, false, 0.0));
    AnsweredLast(g.verdicts, Verdict(h.id, true, 0.0));
    if h.High? { IdsLast(g.queue, Waiter(h.id, h.now)); }
  }

  lemma KnownTimeUp(limit: real, g: Gate, h: Happening)
    requires h.TimeUp?
    ensures Known(Next(limit, g, h)) == Known(g)
  {
    if Since(g.queue, h.id).Some? {
      var v := Verdict(h.id, false, h.now - Since(g.queue, h.id).value);
      WithoutOne(g.queue, h.id);
      AnsweredLast(g.verdicts, v);
      OneMoves(multiset(Ids(Without(g.queue, h.id))), multiset(Answered(g.verdicts)), h.id);
    }
  }

  lemma OneMoves(waiting: multiset<nat>, answered: multiset<nat>, id: nat)
    ensures waiting + (answered + multiset{id}) == (waiting + multiset{id}) + answered
  {
  }

  lemma KnownNext(limit: real, g: Gate, h: Happening)
    requires Fair(g)
    ensures Known(Next(limit, g, h)) == Known(g) + Comes(h)
  {
    match h
    case Returned(now) => ServeKnows(g.(pool := Apply(g.pool, Release)), now);
    case Resized(t, now) => ServeKnows(g.(pool := Apply(g.pool, Resize(t))), now);
    case TimeUp(_, _) => KnownTimeUp(limit, g, h);
    case _ => KnownArrival(limit, g, h);
  }

  /** In every history each caller who came is waiting or has been answered, once for each time it came. */
  lemma {:induction false} EveryoneIsAnsweredOrWaits(limit: real, initial: nat, hs: seq<Happening>)
    ensures Known(Run(limit, Gate(Pool(initial, initial, 0), [], []), hs)) == multiset(Arrived(hs))
  {
    if hs != [] {
      var front, h := hs[..|hs| - 1], hs[|hs| - 1];
      var g := Run(limit, Gate(Pool(initial, initial, 0), [], []), front);
      EveryoneIsAnsweredOrWaits(limit, initial, front);
      AlwaysFair(limit, initial, front);
      KnownNext(limit, g, h);
    }
  }

  /** Those who came and had to queue, in order. */
  function Queued(limit: real, g: Gate, hs: seq<Happening>): seq<Waiter> {
    if hs == [] then []
    else
      var front, h := hs[..|hs| - 1], hs[|hs| - 1];
      if h.High? && Locked(Run(limit, g, front)) then Queued(limit, g, front) + [Waiter(h.id, h.now)]
      else Queued(limit, g, front)
  }

  lemma ServedOn(limit: real, g: Gate, h: Happening) returns (n: nat)
    requires Fair(g) && (h.Returned? || h.Resized?)
    ensures n <= |g.queue| && Next(limit, g, h).queue == g.queue[n..]
  {
    var freed := g.(pool := Apply(g.pool, if h.Returned? then Release else Resize(h.target)));
    ServeTakesTheHead(freed, h.now);
    n := Min(Free(freed), |freed.queue|);
  }

  /**
   First come, first served, over any history in which nobody gives up: whoever still waits came after
   everyone who has been served.
   */
  lemma {:induction false} NobodyIsOvertaken(limit: real, g: Gate, hs: seq<Happening>) returns (served: nat)
    requires Fair(g) && forall h :: h in hs ==> !h.TimeUp?
    ensures Fair(Run(limit, g, hs))
    ensures served <= |g.queue + Queued(limit, g, hs)|
    ensures Run(limit, g, hs).queue == (g.queue + Queued(limit, g, hs))[served..]
  {
    if hs == [] {
      served := 0;
    } else {
      var front, h := hs[..|hs| - 1], hs[|hs| - 1];
      assert h in hs;
      var before, line := Run(limit, g, front), g.queue + Queued(limit, g, front);
      served := NobodyIsOvertaken(limit, g, front);
      FairNext(limit, before, h);
      if h.Returned? || h.Resized? {
        var n := ServedOn(limit, before, h);
        assert line[served..][n..] == line[served + n..];
        served := served + n;
      } else if h.High? && Locked(before) {
        assert g.queue + (Queued(limit, g, front) + [Waiter(h.id, h.now)]) == line + [Waiter(h.id, h.now)];
      }
    }
  }

  /** A release with no shrink owed serves the head of the queue, or leaves one more permit free. */
  lemma ReleaseServesOrFrees(limit: real, g: Gate, now: real)
    requires Fair(g) && g.pool.held > 0 && g.pool.capacity == g.pool.target
    ensures var g' := Next(limit, g, Returned(now));
            if g.queue == [] then g'.verdicts == g.verdicts && g'.queue == [] && Free(g') == Free(g) + 1
            else && g'.verdicts == g.verdicts + [Verdict(g.queue[0].id, true, now - g.queue[0].since)]
                 && g'.queue == g.queue[1..] && Free(g') == Free(g) == 0
  {
    var freed := g.(pool := Apply(g.pool, Release));
    ReturnedPermitIsFree(g.pool);
    ServeTakesTheHead(freed, now);
    if g.queue == [] {
      assert Admitted(g.queue, 0, now) == [] && g.queue[0..] == [];
    } else {
      assert Admitted(g.queue, 1, now) == [Verdict(g.queue[0].id, true, now - g.queue[0].since)];
    }
  }

  /** Growing the pool serves the head of the queue with what it adds; shrinking it serves nobody and evicts nobody. */
  lemma ResizeServesWithWhatItAdds(limit: real, g: Gate, target: nat, now: real)
    requires Fair(g)
    ensures var room := Max(g.pool.capacity, target);
            var n := Min(room - g.pool.held, |g.queue|);
            Next(limit, g, Resized(target, now))
            == Gate(Pool(room, target, g.pool.held + n), g.queue[n..], g.verdicts + Admitted(g.queue, n, now))
  {
    ServeTakesTheHead(g.(pool := Apply(g.pool, Resize(target))), now);
  }

  /** A HIGH caller is admitted at once exactly when a permit is free, and otherwise joins the end of the queue. */
  lemma HighGetsInOrInLine(limit: real, g: Gate, id: nat, now: real)
    requires Fair(g)
    ensures var g' := Next(limit, g, High(id, now));
            if Free(g) > 0
            then g'.verdicts == g.verdicts + [Verdict(id, true, 0.0)] && g'.queue == g.queue && Free(g') == Free(g) - 1
            else g'.verdicts == g.verdicts && g'.queue == g.queue + [Waiter(id, now)] && g'.pool == g.pool
  {
  }

  /** Where this caller stands, if it waits. */
  ghost predicate WaitsAt(queue: seq<Waiter>, w: Waiter, k: nat) {
    k < |queue| && queue[k] == w && forall j :: 0 <= j < k ==> queue[j].id != w.id
  }

  /** When its time is up a HIGH caller is refused, and leaves the queue to those around it; before that, nothing. */
  lemma {:induction false} TimeUpRefusesExactlyAfterTheLimit(limit: real, g: Gate, w: Waiter, now: real, k: nat)
    requires WaitsAt(g.queue, w, k)
    ensures var g' := Next(limit, g, TimeUp(w.id, now));
            if now - w.since >= limit
            then && g'.verdicts == g.verdicts + [Verdict(w.id, false, now - w.since)]
                 && g'.queue == g.queue[..k] + g.queue[k + 1..] && g'.pool == g.pool
            else g' == g
  {
    FoundAt(g.queue, w, k);
  }

  lemma {:induction false} FoundAt(queue: seq<Waiter>, w: Waiter, k: nat)
    requires WaitsAt(queue, w, k)
    ensures Since(queue, w.id) == Some(w.since) && Without(queue, w.id) == queue[..k] + queue[k + 1..]
  {
    if k > 0 {
      assert queue[0].id != w.id;
      forall j | 0 <= j < k - 1 ensures queue[1..][j].id != w.id { assert queue[1..][j] == queue[j + 1]; }
      FoundAt(queue[1..], w, k - 1);
    }
  }
}
