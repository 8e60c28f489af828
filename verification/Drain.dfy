/**
 The outbox drain: any number of drainers over one outbox table and one append-only stream.

 Row ids are drawn in order but become visible in any order, or never, as the inserting transactions
 commit or roll back. A batch goes out as a pipeline, so any part of it may arrive. A drainer whose
 connection has died goes on publishing without its locks until it notices.
 */
module Drain {
  import opened Storage

  datatype Entry = Entry(event: Event, visible: bool, published: bool, attempts: nat)

  datatype Sent = Sent(id: nat, event: Event)

  datatype Phase =
    | Idle
    | Open(batch: seq<nat>, next: nat, broken: bool, locked: bool)  // inside the claim's transaction
    | Failed(batch: seq<nat>)                                       // rolled back, failure not recorded yet

  datatype State = State(entries: seq<Entry>, history: seq<Sent>, drainers: map<nat, Phase>)

  datatype Action =
    | Draw(event: Event)
    | CommitInsert(id: nat)
    | Claim(d: nat, limit: nat)
    | Deliver(d: nat)                 // the next entry of the pipeline arrives
    | Lose(d: nat)                    // ... or does not
    | Mark(d: nat, replied: bool)     // the commit may go through with its reply lost
    | Rollback(d: nat)
    | LoseConnection(d: nat)
    | RecordFailure(d: nat)
    | Crash(d: nat)

  function PhaseOf(s: State, d: nat): Phase { if d in s.drainers then s.drainers[d] else Idle }

  predicate HoldsLocks(p: Phase) { p.Open? && p.locked }

  function LockedIds(s: State): set<nat> {
    set d, id | d in s.drainers && HoldsLocks(s.drainers[d]) && id in s.drainers[d].batch :: id
  }

  predicate Eligible(entries: seq<Entry>, locked: set<nat>, id: nat) {
    id < |entries| && entries[id].visible && !entries[id].published && id !in locked
  }

  /** The claim's ordered walk: the first `limit` eligible ids from `from` on. */
  function Pick(entries: seq<Entry>, locked: set<nat>, limit: nat, from: nat): seq<nat>
    decreases |entries| - from
  {
    if limit == 0 || from >= |entries| then []
    else if Eligible(entries, locked, from) then [from] + Pick(entries, locked, limit - 1, from + 1)
    else Pick(entries, locked, limit, from + 1)
  }

  function BumpAll(entries: seq<Entry>, ids: seq<nat>, published: bool): seq<Entry> {
    seq(|entries|, k requires 0 <= k < |entries| =>
      if k in ids then entries[k].(published := entries[k].published || published, attempts := entries[k].attempts + 1)
      else entries[k])
  }

  predicate Enabled(s: State, a: Action) {
    match a
    case Draw(_) => true
    case CommitInsert(id) => id < |s.entries| && !s.entries[id].visible
    case Claim(d, _) => PhaseOf(s, d).Idle?
    case Deliver(d) => PhaseOf(s, d).Open? && PhaseOf(s, d).next < |PhaseOf(s, d).batch|
    case Lose(d) => PhaseOf(s, d).Open? && PhaseOf(s, d).next < |PhaseOf(s, d).batch|
    case Mark(d, _) =>
      var p := PhaseOf(s, d);
      HoldsLocks(p) && p.next == |p.batch| && !p.broken
    case Rollback(d) => PhaseOf(s, d).Open?
    case LoseConnection(d) => PhaseOf(s, d).Open?
    case RecordFailure(d) => PhaseOf(s, d).Failed?
    case Crash(d) => !PhaseOf(s, d).Idle?
  }

  function SetPhase(s: State, d: nat, p: Phase): State { s.(drainers := s.drainers[d := p]) }

  function Next(s: State, a: Action): State {
    if !Enabled(s, a) then s
    else
      match a
      case Draw(event) => s.(entries := s.entries + [Entry(event, false, false, 0)])
      case CommitInsert(id) => s.(entries := s.entries[id := s.entries[id].(visible := true)])
      case Claim(d, limit) =>
        var batch := Pick(s.entries, LockedIds(s), limit, 0);
        if batch == [] then s else SetPhase(s, d, Open(batch, 0, false, true))
      case Deliver(d) =>
        var p := PhaseOf(s, d);
        var id := p.batch[p.next];
        SetPhase(s, d, p.(next := p.next + 1)).(
        history := if id < |s.entries| then s.history + [Sent(id, s.entries[id].event)] else s.history)
      case Lose(d) => SetPhase(s, d, PhaseOf(s, d).(next := PhaseOf(s, d).next + 1, broken := true))
      case Mark(d, replied) =>
        var p := PhaseOf(s, d);
        SetPhase(s, d, if replied then Idle else Failed(p.batch)).(entries := BumpAll(s.entries, p.batch, true))
      case Rollback(d) => SetPhase(s, d, Failed(PhaseOf(s, d).batch))
      case LoseConnection(d) => SetPhase(s, d, PhaseOf(s, d).(locked := false))
      case RecordFailure(d) =>
        SetPhase(s, d, Idle).(entries := BumpAll(s.entries, PhaseOf(s, d).batch, false))
      case Crash(d) => SetPhase(s, d, Idle)
  }

  const EMPTY: State := State([], [], map[])

  function Run(acts: seq<Action>): State {
    if acts == [] then EMPTY else Next(Run(acts[..|acts| - 1]), acts[|acts| - 1])
  }

  // ----- the claim -----------------------------------------------------------------------------

  ghost predicate Ascending(ids: seq<nat>) { forall i, j | 0 <= i < j < |ids| :: ids[i] < ids[j] }

  /** A claim takes the lowest eligible ids, and leaves one behind only when it is full. */
  lemma {:induction false} PickTakesTheFirst(entries: seq<Entry>, locked: set<nat>, limit: nat, from: nat)
    ensures var ids := Pick(entries, locked, limit, from);
            && |ids| <= limit && Ascending(ids)
            && (forall id :: id in ids ==> from <= id && Eligible(entries, locked, id))
            && (forall id :: from <= id && Eligible(entries, locked, id) && id !in ids ==>
                               |ids| == limit && forall x :: x in ids ==> x < id)
    decreases |entries| - from
  {
    if limit > 0 && from < |entries| {
      var ids := Pick(entries, locked, limit, from);
      if Eligible(entries, locked, from) {
        var rest := Pick(entries, locked, limit - 1, from + 1);
        PickTakesTheFirst(entries, locked, limit - 1, from + 1);
        assert ids == [from] + rest;
        forall i, j | 0 <= i < j < |ids| ensures ids[i] < ids[j] {
          if i == 0 { assert ids[j] == rest[j - 1] && rest[j - 1] in rest; }
        }
      } else {
        PickTakesTheFirst(entries, locked, limit, from + 1);
      }
    }
  }

  // ----- what every reachable state satisfies --------------------------------------------------

  /** An event with this id has been appended. */
  ghost predicate Appended(history: seq<Sent>, id: nat) {
    exists k :: 0 <= k < |history| && history[k].id == id
  }

  ghost predicate EntriesOk(s: State) {
    forall id :: 0 <= id < |s.entries| && s.entries[id].published ==>
      s.entries[id].visible && s.entries[id].attempts > 0 && Appended(s.history, id)
  }

  /** Only committed rows are appended, and as committed. */
  ghost predicate HistoryOk(s: State) {
    forall k :: 0 <= k < |s.history| ==>
      && s.history[k].id < |s.entries| && s.entries[s.history[k].id].visible
      && s.history[k].event == s.entries[s.history[k].id].event
  }

  ghost predicate BatchOk(s: State, p: Phase)
    requires !p.Idle?
  {
    && Ascending(p.batch)
    && (forall k :: 0 <= k < |p.batch| ==> p.batch[k] < |s.entries| && s.entries[p.batch[k]].visible)
  }

  ghost predicate PhaseOk(s: State, p: Phase) {
    && (!p.Idle? ==> BatchOk(s, p))
    && (p.Open? ==>
          && p.next <= |p.batch|
          && (!p.broken ==> forall k :: 0 <= k < p.next ==> Appended(s.history, p.batch[k])))
    && (HoldsLocks(p) ==> forall k :: 0 <= k < |p.batch| ==> Unpublished(s, p.batch[k]))
  }

  predicate Unpublished(s: State, id: nat) { id < |s.entries| && !s.entries[id].published }

  ghost predicate Disjoint(p: Phase, q: Phase) {
    HoldsLocks(p) && HoldsLocks(q) ==> forall id :: id in p.batch ==> id !in q.batch
  }

  ghost predicate Inv(s: State) {
    && EntriesOk(s) && HistoryOk(s)
    && (forall d | d in s.drainers :: PhaseOk(s, s.drainers[d]))
    && (forall d, e | d in s.drainers && e in s.drainers && d != e :: Disjoint(s.drainers[d], s.drainers[e]))
  }

  /** Rows keep their event, and visibility and publication are never taken back. */
  ghost predicate Grows(s: State, s': State) {
    && |s.entries| <= |s'.entries| && s.history <= s'.history
    && (forall id :: 0 <= id < |s.entries| ==>
          && s'.entries[id].event == s.entries[id].event
          && (s.entries[id].visible ==> s'.entries[id].visible)
          && (s.entries[id].published ==> s'.entries[id].published)
          && s.entries[id].attempts <= s'.entries[id].attempts)
  }

  lemma NextGrows(s: State, a: Action)
    ensures Grows(s, Next(s, a))
  {
  }

  lemma AppendedGrows(h: seq<Sent>, h': seq<Sent>, id: nat)
    requires h <= h' && Appended(h, id)
    ensures Appended(h', id)
  {
    var k :| 0 <= k < |h| && h[k].id == id;
    assert h'[k].id == id;
  }

  /** A phase stays sound while others act, as long as none of its locked rows gets published. */
  lemma PhaseKept(s: State, s': State, p: Phase)
    requires PhaseOk(s, p) && Grows(s, s')
    requires HoldsLocks(p) ==> forall k :: 0 <= k < |p.batch| ==> Unpublished(s', p.batch[k])
    ensures PhaseOk(s', p)
  {
    if p.Open? && !p.broken {
      forall k | 0 <= k < p.next ensures Appended(s'.history, p.batch[k]) {
        AppendedGrows(s.history, s'.history, p.batch[k]);
      }
    }
  }

  lemma EntriesKept(s: State, s': State)
    requires EntriesOk(s) && Grows(s, s')
    requires forall id :: 0 <= id < |s'.entries| && s'.entries[id].published ==>
               id < |s.entries| && s.entries[id].published
    ensures EntriesOk(s')
  {
    forall id | 0 <= id < |s'.entries| && s'.entries[id].published
      ensures s'.entries[id].visible && s'.entries[id].attempts > 0 && Appended(s'.history, id)
    {
      AppendedGrows(s.history, s'.history, id);
    }
  }

  ghost predicate StillOwed(s: State, p: Phase) {
    HoldsLocks(p) ==> forall k :: 0 <= k < |p.batch| ==> Unpublished(s, p.batch[k])
  }

  /** One drainer moved to `p'`; everyone else keeps its rows, owed. */
  lemma OneDrainerMoved(s: State, s': State, d: nat, p': Phase)
    requires Inv(s) && Grows(s, s') && EntriesOk(s') && HistoryOk(s')
    requires s'.drainers == s.drainers[d := p'] && PhaseOk(s', p')
    requires forall e | e in s.drainers && e != d :: Disjoint(p', s.drainers[e]) && StillOwed(s', s.drainers[e])
    ensures Inv(s')
  {
    forall e | e in s'.drainers ensures PhaseOk(s', s'.drainers[e]) {
      if e != d {
        assert PhaseOk(s, s.drainers[e]) && StillOwed(s', s.drainers[e]);
        PhaseKept(s, s', s.drainers[e]);
      }
    }
    forall e, f | e in s'.drainers && f in s'.drainers && e != f
      ensures Disjoint(s'.drainers[e], s'.drainers[f])
    {
      if e != d && f == d { assert Disjoint(p', s.drainers[e]); }
    }
  }

  lemma ClaimInv(s: State, d: nat, limit: nat)
    requires Inv(s) && Enabled(s, Claim(d, limit))
    ensures Inv(Next(s, Claim(d, limit)))
  {
    var locked := LockedIds(s);
    var batch := Pick(s.entries, locked, limit, 0);
    PickTakesTheFirst(s.entries, locked, limit, 0);
    if batch != [] {
      var s' := Next(s, Claim(d, limit));
      assert forall k :: 0 <= k < |batch| ==> batch[k] in batch;
      forall e | e in s.drainers && e != d
        ensures Disjoint(s'.drainers[d], s.drainers[e]) && StillOwed(s', s.drainers[e])
      {
        assert PhaseOk(s, s.drainers[e]);
        assert HoldsLocks(s.drainers[e]) ==> forall id :: id in s.drainers[e].batch ==> id in locked;
      }
      OneDrainerMoved(s, s', d, s'.drainers[d]);
    }
  }

  lemma MarkInv(s: State, d: nat, replied: bool)
    requires Inv(s) && Enabled(s, Mark(d, replied))
    ensures Inv(Next(s, Mark(d, replied)))
  {
    var s' := Next(s, Mark(d, replied));
    var p := s.drainers[d];
    NextGrows(s, Mark(d, replied));
    forall id | 0 <= id < |s'.entries| && s'.entries[id].published
      ensures s'.entries[id].visible && s'.entries[id].attempts > 0 && Appended(s'.history, id)
    {
      if id in p.batch {
        var k :| 0 <= k < |p.batch| && p.batch[k] == id;
      }
    }
    forall e | e in s.drainers && e != d
      ensures Disjoint(s'.drainers[d], s.drainers[e]) && StillOwed(s', s.drainers[e])
    {
      var q := s.drainers[e];
      assert Disjoint(p, q) && PhaseOk(s, q);
      forall k | HoldsLocks(q) && 0 <= k < |q.batch| ensures Unpublished(s', q.batch[k]) {
        assert q.batch[k] in q.batch && Unpublished(s, q.batch[k]);
      }
    }
    OneDrainerMoved(s, s', d, s'.drainers[d]);
  }

  lemma DeliverInv(s: State, d: nat)
    requires Inv(s) && Enabled(s, Deliver(d))
    ensures Inv(Next(s, Deliver(d)))
  {
    var s' := Next(s, Deliver(d));
    var p, p' := s.drainers[d], s'.drainers[d];
    NextGrows(s, Deliver(d));
    EntriesKept(s, s');
    assert PhaseOk(s, p);
    assert s'.history[|s.history|].id == p.batch[p.next];
    assert Appended(s'.history, p.batch[p.next]);
    PhaseKept(s, s', p);
    assert PhaseOk(s', p');
    forall e | e in s.drainers && e != d
      ensures Disjoint(p', s.drainers[e]) && StillOwed(s', s.drainers[e])
    {
      assert Disjoint(p, s.drainers[e]) && PhaseOk(s, s.drainers[e]);
    }
    OneDrainerMoved(s, s', d, p');
  }

  lemma LocalInv(s: State, a: Action)
    requires Inv(s) && Enabled(s, a) && !a.Claim? && !a.Mark? && !a.Deliver?
    ensures Inv(Next(s, a))
  {
    var s' := Next(s, a);
    NextGrows(s, a);
    EntriesKept(s, s');
    forall e | e in s'.drainers ensures PhaseOk(s', s'.drainers[e]) {
      var q := PhaseOf(s, e);
      forall k | HoldsLocks(q) && 0 <= k < |q.batch| ensures Unpublished(s', q.batch[k]) {
        assert Unpublished(s, q.batch[k]);
      }
      if e in s.drainers { PhaseKept(s, s', q); }
    }
  }

  lemma NextInv(s: State, a: Action)
    requires Inv(s)
    ensures Inv(Next(s, a))
  {
    if Enabled(s, a) {
      match a
      case Claim(d, limit) => ClaimInv(s, d, limit);
      case Mark(d, replied) => MarkInv(s, d, replied);
      case Deliver(d) => DeliverInv(s, d);
      case _ => LocalInv(s, a);
    }
  }

  lemma {:induction false} RunInv(acts: seq<Action>)
    ensures Inv(Run(acts))
  {
    if acts != [] {
      RunInv(acts[..|acts| - 1]);
      NextInv(Run(acts[..|acts| - 1]), acts[|acts| - 1]);
    }
  }

  // ----- what the drain is for -----------------------------------------------------------------

  /** No two drainers hold a row between them, and nothing published is held. */
  lemma LockedBatchesAreDisjoint(acts: seq<Action>, d: nat, e: nat, id: nat)
    requires var s := Run(acts);
             && d in s.drainers && HoldsLocks(s.drainers[d]) && id in s.drainers[d].batch
             && e in s.drainers && HoldsLocks(s.drainers[e]) && id in s.drainers[e].batch
    ensures d == e && Unpublished(Run(acts), id)
  {
    RunInv(acts);
    var s := Run(acts);
    assert d != e ==> Disjoint(s.drainers[d], s.drainers[e]);
    var k :| 0 <= k < |s.drainers[d].batch| && s.drainers[d].batch[k] == id;
    assert PhaseOk(s, s.drainers[d]);
  }

  lemma {:induction false} RunGrows(acts: seq<Action>, k: nat)
    requires k <= |acts|
    ensures Grows(Run(acts[..k]), Run(acts))
  {
    if k == |acts| {
      assert acts[..k] == acts;
    } else {
      var init := acts[..|acts| - 1];
      RunGrows(init, k);
      assert init[..k] == acts[..k];
      NextGrows(Run(init), acts[|acts| - 1]);
    }
  }

  /** A committed event is in the table for good, and is either still owed or in the stream, unchanged. */
  lemma NoCommittedEventIsLost(acts: seq<Action>, k: nat, id: nat)
    requires k <= |acts|
    requires id < |Run(acts[..k]).entries| && Run(acts[..k]).entries[id].visible
    ensures var s := Run(acts);
            && id < |s.entries| && s.entries[id].visible
            && s.entries[id].event == Run(acts[..k]).entries[id].event
            && (s.entries[id].published ==>
                  Sent(id, s.entries[id].event) in s.history && s.entries[id].attempts > 0)
  {
    RunGrows(acts, k);
    RunInv(acts);
    var s := Run(acts);
    if s.entries[id].published {
      var j :| 0 <= j < |s.history| && s.history[j].id == id;
      assert s.history[j] == Sent(id, s.entries[id].event);
    }
  }

  /** What a consumer that drops repeated ids has seen. */
  function Deduplicated(history: seq<Sent>): map<nat, Event> {
    if history == [] then map[]
    else
      var seen, m := Deduplicated(history[..|history| - 1]), history[|history| - 1];
      if m.id in seen then seen else seen[m.id := m.event]
  }

  function Committed(entries: seq<Entry>): map<nat, Event> {
    map id | 0 <= id < |entries| && entries[id].visible :: entries[id].event
  }

  lemma {:induction false} DeduplicatedIs(history: seq<Sent>)
    ensures forall id :: id in Deduplicated(history) <==> Appended(history, id)
    ensures forall id :: id in Deduplicated(history) ==> Sent(id, Deduplicated(history)[id]) in history
  {
    if history != [] {
      var init, m := history[..|history| - 1], history[|history| - 1];
      DeduplicatedIs(init);
      assert history == init + [m];
      forall id ensures Appended(history, id) <==> Appended(init, id) || id == m.id {
        if Appended(init, id) { AppendedGrows(init, history, id); }
        if id == m.id { assert history[|init|].id == id; }
        if Appended(history, id) && id != m.id {
          var k :| 0 <= k < |history| && history[k].id == id;
          assert init[k].id == id;
        }
      }
    }
  }

  /** Nothing visible is still owed. */
  ghost predicate Drained(s: State) {
    forall id :: 0 <= id < |s.entries| && s.entries[id].visible ==> s.entries[id].published
  }

  /** The deduplicated stream is always part of the outbox, and all of it exactly when every row went out. */
  lemma StreamIsTheOutbox(acts: seq<Action>)
    ensures var s := Run(acts);
            && (forall id :: id in Deduplicated(s.history) ==>
                  id in Committed(s.entries) && Deduplicated(s.history)[id] == Committed(s.entries)[id])
            && (Deduplicated(s.history) == Committed(s.entries)
                <==> forall id :: id in Committed(s.entries) ==> Appended(s.history, id))
            && (Drained(s) ==> Deduplicated(s.history) == Committed(s.entries))
  {
    var s := Run(acts);
    RunInv(acts);
    DeduplicatedIs(s.history);
  }

  // ----- what `attempts` counts ----------------------------------------------------------------

  /** The action ends a publish attempt on the row: its batch is marked, or its failure is recorded. */
  predicate CountsFor(s: State, a: Action, id: nat) {
    match a
    case Mark(d, _) => Enabled(s, a) && id in PhaseOf(s, d).batch
    case RecordFailure(d) => Enabled(s, a) && id in PhaseOf(s, d).batch
    case _ => false
  }

  function Tally(acts: seq<Action>, id: nat): nat {
    if acts == [] then 0
    else
      Tally(acts[..|acts| - 1], id) + if CountsFor(Run(acts[..|acts| - 1]), acts[|acts| - 1], id) then 1 else 0
  }

  /** Was marked in a batch it belonged to. */
  predicate Marked(acts: seq<Action>, id: nat) {
    acts != [] &&
    var front, a := acts[..|acts| - 1], acts[|acts| - 1];
    Marked(front, id) || (a.Mark? && CountsFor(Run(front), a, id))
  }

  lemma CountsNext(s: State, a: Action, id: nat)
    requires Inv(s) && id < |s.entries|
    ensures var s' := Next(s, a);
            && id < |s'.entries|
            && s'.entries[id].attempts == s.entries[id].attempts + (if CountsFor(s, a, id) then 1 else 0)
            && (s'.entries[id].published <==> s.entries[id].published || (a.Mark? && CountsFor(s, a, id)))
  {
  }

  lemma NewRowCounts(s: State, a: Action, id: nat)
    requires Inv(s) && id >= |s.entries| && id < |Next(s, a).entries|
    ensures a.Draw? && Next(s, a).entries[id] == Entry(a.event, false, false, 0)
  {
  }

  lemma NotDrawnYet(s: State, a: Action, id: nat)
    requires Inv(s) && id >= |s.entries|
    ensures !CountsFor(s, a, id)
  {
    if (a.Mark? || a.RecordFailure?) && Enabled(s, a) {
      var p := s.drainers[a.d];
      assert PhaseOk(s, p);
      forall k | 0 <= k < |p.batch| ensures p.batch[k] != id {}
    }
  }

  /**
   In every history `attempts` is the number of publish attempts on this very row that were marked or whose
   failure was recorded, and the row is published exactly if one of them was marked.
   */
  lemma {:induction false} AttemptsAreCounted(acts: seq<Action>, id: nat)
    ensures Inv(Run(acts))
    ensures id < |Run(acts).entries| ==>
              && Run(acts).entries[id].attempts == Tally(acts, id)
              && (Run(acts).entries[id].published <==> Marked(acts, id))
    ensures id >= |Run(acts).entries| ==> Tally(acts, id) == 0 && !Marked(acts, id)
  {
    RunInv(acts);
    if acts != [] {
      var front, a := acts[..|acts| - 1], acts[|acts| - 1];
      AttemptsAreCounted(front, id);
      if id < |Run(front).entries| {
        CountsNext(Run(front), a, id);
      } else {
        NotDrawnYet(Run(front), a, id);
        if id < |Run(acts).entries| { NewRowCounts(Run(front), a, id); }
      }
    }
  }

  // ----- exactly once, when nothing fails ------------------------------------------------------

  predicate Smooth(a: Action) {
    match a
    case Lose(_) => false
    case Mark(_, replied) => replied
    case Rollback(_) => false
    case LoseConnection(_) => false
    case Crash(_) => false
    case _ => true
  }

  /** `id` is published, or on its way out under a lock. */
  ghost predicate Accounted(s: State, id: nat) {
    (id < |s.entries| && s.entries[id].published) || exists d :: Sending(s, d, id)
  }

  ghost predicate Sending(s: State, d: nat, id: nat) {
    d in s.drainers && HoldsLocks(s.drainers[d])
    && exists k :: 0 <= k < s.drainers[d].next <= |s.drainers[d].batch| && s.drainers[d].batch[k] == id
  }

  ghost predicate Once(s: State) {
    && Inv(s)
    && (forall d | d in s.drainers :: s.drainers[d].Idle? || (HoldsLocks(s.drainers[d]) && !s.drainers[d].broken))
    && (forall k :: 0 <= k < |s.history| ==> Accounted(s, s.history[k].id))
    && (forall j, k :: 0 <= j < k < |s.history| ==> s.history[j].id != s.history[k].id)
  }

  /** The row about to be delivered has not been delivered before. */
  lemma NextIsNew(s: State, d: nat)
    requires Once(s) && Enabled(s, Deliver(d))
    ensures !Accounted(s, s.drainers[d].batch[s.drainers[d].next])
  {
    var p := s.drainers[d];
    var id := p.batch[p.next];
    assert PhaseOk(s, p) && Unpublished(s, id) && id in p.batch;
    forall e ensures !Sending(s, e, id) {
      if e in s.drainers && HoldsLocks(s.drainers[e]) {
        var q := s.drainers[e];
        assert e != d ==> Disjoint(p, q);
        forall k | 0 <= k < |q.batch| && (e == d ==> k < q.next) ensures q.batch[k] != id {
          assert q.batch[k] in q.batch;
        }
      }
    }
  }

  lemma AccountedKept(s: State, a: Action, id: nat)
    requires Once(s) && Enabled(s, a) && Smooth(a) && Accounted(s, id)
    ensures Accounted(Next(s, a), id)
  {
    var s' := Next(s, a);
    NextGrows(s, a);
    if !(id < |s.entries| && s.entries[id].published) {
      var d :| Sending(s, d, id);
      var k :| 0 <= k < s.drainers[d].next <= |s.drainers[d].batch| && s.drainers[d].batch[k] == id;
      if a == Mark(d, true) {
        assert id in s.drainers[d].batch && PhaseOk(s, s.drainers[d]) && s'.entries[id].published;
      } else {
        assert s'.drainers[d].batch[k] == id;
        assert Sending(s', d, id);
      }
    }
  }

  lemma OnceKept(s: State, a: Action)
    requires Once(s) && Smooth(a)
    ensures Once(Next(s, a))
  {
    NextInv(s, a);
    if Enabled(s, a) {
      var s' := Next(s, a);
      forall k | 0 <= k < |s.history| ensures Accounted(s', s.history[k].id) {
        AccountedKept(s, a, s.history[k].id);
      }
      if a.Deliver? {
        var p := s.drainers[a.d];
        NextIsNew(s, a.d);
        assert PhaseOk(s, p);
        assert s'.drainers[a.d].batch[p.next] == p.batch[p.next];
        assert Sending(s', a.d, p.batch[p.next]);
      }
    }
  }

  /** Duplicates come from failures only: with none, every event goes out at most once, and owed rows stay owed. */
  lemma {:induction false} SmoothRunsPublishOnce(acts: seq<Action>)
    requires forall a :: a in acts ==> Smooth(a)
    ensures Once(Run(acts))
  {
    if acts != [] {
      SmoothRunsPublishOnce(acts[..|acts| - 1]);
      assert acts[|acts| - 1] in acts;
      OnceKept(Run(acts[..|acts| - 1]), acts[|acts| - 1]);
    }
  }

  /** A failure does duplicate: a crash between the append and the mark sends the same event twice. */
  lemma CrashBeforeMarkDuplicates(e: Event)
    ensures exists acts ::
              && Run(acts).history == [Sent(0, e), Sent(0, e)]
              && Deduplicated(Run(acts).history) == map[0 := e] == Committed(Run(acts).entries)
  {
    var acts := Then(Resent(e), Mark(1, true));
    assert Run(acts).history == [Sent(0, e), Sent(0, e)];
    assert Run(acts).entries == [Entry(e, true, true, 1)];
    StreamIsTheOutbox(acts);
    assert Committed(Run(acts).entries) == map[0 := e];
  }

  /** ... and drainer 1 has claimed it and appended it again. */
  ghost function Resent(e: Event): (r: seq<Action>)
    ensures Run(r) == State([Entry(e, true, false, 0)], [Sent(0, e), Sent(0, e)],
                            map[0 := Idle, 1 := Open([0], 1, false, true)])
  {
    var row := Entry(e, true, false, 0);
    var a5 := Crashed(e);
    ClaimOnly(Run(a5), 1, row);
    var a6 := Then(a5, Claim(1, 1));
    DeliverOnly(Run(a6), 1, row);
    Then(a6, Deliver(1))
  }

  lemma ClaimOnly(s: State, d: nat, row: Entry)
    requires s.entries == [row] && row.visible && !row.published
    requires PhaseOf(s, d).Idle? && forall e :: e in s.drainers ==> s.drainers[e].Idle?
    ensures Next(s, Claim(d, 1)) == SetPhase(s, d, Open([0], 0, false, true))
  {
    assert LockedIds(s) == {};
    assert Pick([row], {}, 0, 1) == [];
    assert Pick([row], {}, 1, 0) == [0];
  }

  lemma DeliverOnly(s: State, d: nat, row: Entry)
    requires s.entries == [row] && d in s.drainers && s.drainers[d] == Open([0], 0, false, true)
    ensures Next(s, Deliver(d))
            == SetPhase(s, d, Open([0], 1, false, true)).(history := s.history + [Sent(0, row.event)])
  {
  }

  /** Drainer 0 appended the event and died before marking it. */
  ghost function Crashed(e: Event): (r: seq<Action>)
    ensures Run(r) == State([Entry(e, true, false, 0)], [Sent(0, e)], map[0 := Idle])
  {
    var row := Entry(e, true, false, 0);
    var a2 := Then(Then([], Draw(e)), CommitInsert(0));
    assert Run(a2) == State([row], [], map[]);
    ClaimOnly(Run(a2), 0, row);
    var a3 := Then(a2, Claim(0, 1));
    DeliverOnly(Run(a3), 0, row);
    var a4 := Then(a3, Deliver(0));
    Then(a4, Crash(0))
  }

  function Then(acts: seq<Action>, a: Action): (r: seq<Action>)
    ensures Run(r) == Next(Run(acts), a)
  {
    assert (acts + [a])[..|acts|] == acts;
    acts + [a]
  }
}
