/**
 Exactly-one emission. The specification looks only at what happened: which action put which
 checkpoint row in the table, and which events its claim emitted since its current attempt began.
 */
module SagaEmission {
  import opened Storage
  import opened Saga
  import opened SagaInvariant

  /** One checkpoint row (FORWARD if `forward`), and the events of the attempt that committed it. */
  datatype Emission = Emission(forward: bool, step: nat, events: seq<Event>)

  /** `a` starts a new attempt at a step or at a compensation. */
  predicate StartsAttempt(a: Action) {
    a.Begin? || a.BeginUndo? || a.UndoRaise?
  }

  /** What claim `t` has emitted since its latest attempt began. */
  function AttemptEvents(acts: seq<Action>, t: nat): seq<Event> {
    if acts == [] then []
    else
      var front, a := acts[..|acts| - 1], acts[|acts| - 1];
      if !OfClaim(a) || a.t != t then AttemptEvents(front, t)
      else if a.Emit? then AttemptEvents(front, t) + [a.event]
      else if StartsAttempt(a) then []
      else AttemptEvents(front, t)
  }

  /** The rows `s'` has that `s` has not, one per kind and step, in the order the run added them. */
  function Added(s: State, s': State, a: Action, front: seq<Action>): seq<Emission> {
    if !OfClaim(a) || a.t !in s.sessions then []
    else
      var pc := s.sessions[a.t].pc;
      if pc.Ran? && pc.i !in s.db.forward && pc.i in s'.db.forward
      then [Emission(true, pc.i, AttemptEvents(front, a.t))]
      else if pc.Undid? && pc.j !in s.db.undone && pc.j in s'.db.undone
      then [Emission(false, pc.j, AttemptEvents(front, a.t))]
      else []
  }

  function Emissions(cfg: Config, s: State, acts: seq<Action>): seq<Emission> {
    if acts == [] then []
    else
      var front, a := acts[..|acts| - 1], acts[|acts| - 1];
      var before := Run(cfg, s, front);
      Emissions(cfg, s, front) + Added(before, Next(cfg, before, a), a, front)
  }

  function Outbox(es: seq<Emission>): seq<Event> {
    if es == [] then [] else Outbox(es[..|es| - 1]) + es[|es| - 1].events
  }

  /** `es` has one entry for each checkpoint row of `db`, and no other. */
  ghost predicate OnePerRow(db: Db, es: seq<Emission>) {
    && (forall p, q :: 0 <= p < q < |es| ==> es[p].forward != es[q].forward || es[p].step != es[q].step)
    && (forall p :: 0 <= p < |es| ==> if es[p].forward then es[p].step in db.forward else es[p].step in db.undone)
    && (forall k :: k in db.forward ==> exists p :: 0 <= p < |es| && es[p].forward && es[p].step == k)
    && (forall k :: k in db.undone ==> exists p :: 0 <= p < |es| && !es[p].forward && es[p].step == k)
  }

  /** A worker in mid-attempt has buffered exactly what that attempt emitted. */
  ghost predicate Buffered(s: State, acts: seq<Action>) {
    forall t :: t in s.sessions ==> BufferOk(s.sessions[t], AttemptEvents(acts, t))
  }

  predicate BufferOk(x: Session, events: seq<Event>) {
    x.pc.InStep? || x.pc.Ran? || x.pc.InUndo? || x.pc.Undid? ==> x.buffer == events
  }

  lemma BufferStep(cfg: Config, now: int, db: Db, t: nat, x: Session, a: Action, front: seq<Action>)
    requires OfClaim(a) && a.t == t && Ready(cfg, x, a) && BufferOk(x, AttemptEvents(front, t))
    ensures BufferOk(Act(cfg, now, db, t, x, a).1, AttemptEvents(front + [a], t))
  {
    assert (front + [a])[..|front|] == front;
  }

  lemma BufferedStep(cfg: Config, s: State, a: Action, front: seq<Action>)
    requires Buffered(s, front) && Enabled(cfg, s, a)
    ensures Buffered(Next(cfg, s, a), front + [a])
  {
    assert (front + [a])[..|front|] == front;
    var s' := Next(cfg, s, a);
    forall t | t in s'.sessions
      ensures BufferOk(s'.sessions[t], AttemptEvents(front + [a], t))
    {
      if OfClaim(a) && a.t == t { BufferStep(cfg, s.now, s.db, t, s.sessions[t], a, front); }
    }
  }

  /** One FORWARD row more, and nothing else among the checkpoints. */
  predicate AddsForward(db: Db, db': Db, i: nat) {
    i !in db.forward && db'.forward.Keys == db.forward.Keys + {i} && db'.undone == db.undone
  }

  /** One COMPENSATION row more. */
  predicate AddsUndone(db: Db, db': Db, j: nat) {
    j !in db.undone && db'.forward.Keys == db.forward.Keys && db'.undone == db.undone + {j}
  }

  /** What one action does to the tables and the outbox, in terms of what it added. */
  lemma AddedIsAppended(cfg: Config, s: State, a: Action, front: seq<Action>)
    requires Inv(cfg, s) && Buffered(s, front) && Enabled(cfg, s, a)
    ensures var s' := Next(cfg, s, a);
            var es := Added(s, s', a, front);
            match |es|
            case 0 => s'.db.outbox == s.db.outbox && s'.db.forward.Keys == s.db.forward.Keys
                && s'.db.undone == s.db.undone
            case 1 =>
              && s'.db.outbox == s.db.outbox + es[0].events
              && (if es[0].forward then AddsForward(s.db, s'.db, es[0].step) else AddsUndone(s.db, s'.db, es[0].step))
            case _ => false
  {
    if OfClaim(a) {
      var x := s.sessions[a.t];
      if a.t != s.db.row.token {
        StaleKeeps(cfg, s, a);
      } else if a.Commit? && Held(s.db.row, Own(a.t, x)) {
        CommitKeeps(cfg, s.now, s.db, a.t, x, a);
      } else if a.CommitUndone? && Held(s.db.row, Own(a.t, x)) {
        CommitUndoneKeeps(cfg, s.now, s.db, a.t, x, a);
      } else {
        TablesOnlyByCommit(cfg, s.now, s.db, a.t, x, a);
      }
    }
  }

  lemma TablesOnlyByCommit(cfg: Config, now: int, db: Db, t: nat, x: Session, a: Action)
    requires OfClaim(a) && Ready(cfg, x, a)
    requires !((a.Commit? || a.CommitUndone?) && Held(db.row, Own(t, x)))
    ensures var db' := Act(cfg, now, db, t, x, a).0;
            db'.forward == db.forward && db'.undone == db.undone && db'.outbox == db.outbox
  {
  }

  lemma OutboxAppend(es: seq<Emission>, e: Emission)
    ensures Outbox(es + [e]) == Outbox(es) + e.events
  {
    assert (es + [e])[..|es|] == es;
  }

  lemma OnePerRowAppend(db: Db, db': Db, es: seq<Emission>, e: Emission)
    requires OnePerRow(db, es)
    requires if e.forward then AddsForward(db, db', e.step) else AddsUndone(db, db', e.step)
    ensures OnePerRow(db', es + [e])
  {
    var es' := es + [e];
    assert forall k :: k in db'.forward <==> k in db'.forward.Keys;
    assert es'[|es|] == e;
    forall k | k in db'.forward
      ensures exists p :: 0 <= p < |es'| && es'[p].forward && es'[p].step == k
    {
      if k in db.forward {
        var p :| 0 <= p < |es| && es[p].forward && es[p].step == k;
        assert es'[p] == es[p];
      }
    }
    forall k | k in db'.undone
      ensures exists p :: 0 <= p < |es'| && !es'[p].forward && es'[p].step == k
    {
      if k in db.undone {
        var p :| 0 <= p < |es| && !es[p].forward && es[p].step == k;
        assert es'[p] == es[p];
      }
    }
  }

  /**
   In every run the outbox is the concatenation, over the checkpoint rows in commit order, of the
   events emitted by the single attempt that committed each row. Attempts that failed in place,
   claims that were retried or preempted, and crashed workers contribute nothing, and no row
   contributes twice.
   */
  lemma {:induction false} OutboxIsCommittedAttempts(cfg: Config, now: int, acts: seq<Action>)
    requires Valid(cfg, Init(now), acts)
    ensures var es := Emissions(cfg, Init(now), acts);
            var s := Run(cfg, Init(now), acts);
            s.db.outbox == Outbox(es) && OnePerRow(s.db, es) && Buffered(s, acts)
  {
    if acts != [] {
      var front, a := acts[..|acts| - 1], acts[|acts| - 1];
      assert acts == front + [a];
      OutboxIsCommittedAttempts(cfg, now, front);
      InitInv(cfg, now);
      RunInv(cfg, Init(now), front);
      EmissionStep(cfg, Run(cfg, Init(now), front), a, front, Emissions(cfg, Init(now), front));
    }
  }

  lemma EmissionStep(cfg: Config, s: State, a: Action, front: seq<Action>, es: seq<Emission>)
    requires Inv(cfg, s) && Enabled(cfg, s, a)
    requires s.db.outbox == Outbox(es) && OnePerRow(s.db, es) && Buffered(s, front)
    ensures var s' := Next(cfg, s, a);
            var es' := es + Added(s, s', a, front);
            s'.db.outbox == Outbox(es') && OnePerRow(s'.db, es') && Buffered(s', front + [a])
  {
    var s' := Next(cfg, s, a);
    var added := Added(s, s', a, front);
    BufferedStep(cfg, s, a, front);
    AddedIsAppended(cfg, s, a, front);
    if |added| == 0 {
      assert es + added == es;
      assert forall k :: k in s'.db.forward <==> k in s.db.forward.Keys;
    } else {
      assert added == [added[0]];
      OutboxAppend(es, added[0]);
      OnePerRowAppend(s.db, s'.db, es, added[0]);
    }
  }
}
