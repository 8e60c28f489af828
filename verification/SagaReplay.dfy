/**
 Crash transparency: with step bodies that are functions of the input and the outputs of earlier
 steps, no crash, retry or stale worker changes what a finished saga leaves behind.
 */
module SagaReplay {
  import opened Prelude
  import opened Storage
  import opened Saga
  import opened SagaInvariant

  /** Step i's body, as a function of the outputs it may read; the workflow's input is fixed. */
  type Body = (nat, map<nat, Value>) -> Value

  /** The outputs one uninterrupted pass over the first k steps leaves. */
  function OnePass(body: Body, k: nat): map<nat, Value>
    decreases k, 0
  {
    if k == 0 then map[] else OnePass(body, k - 1)[k := Output(body, k)]
  }

  /** What step k returns on that pass. */
  function Output(body: Body, k: nat): Value
    requires k > 0
    decreases k - 1, 1
  {
    body(k, OnePass(body, k - 1))
  }

  /** Every body that returns in the run returns what `body` says; bodies may still fail at any time. */
  ghost predicate Deterministic(cfg: Config, body: Body, s: State, acts: seq<Action>) {
    acts != [] ==>
      && Deterministic(cfg, body, s, acts[..|acts| - 1])
      && Faithful(cfg, body, Run(cfg, s, acts[..|acts| - 1]), acts[|acts| - 1])
  }

  ghost predicate Faithful(cfg: Config, body: Body, s: State, a: Action) {
    a.Return? && Enabled(cfg, s, a) ==>
      a.result == body(s.sessions[a.t].pc.i, s.sessions[a.t].outputs)
  }

  /** The checkpoints agree with the uninterrupted pass, and so does a result not yet checkpointed. */
  ghost predicate OnTrack(body: Body, s: State) {
    && (forall k :: k in s.db.forward && k > 0 ==> s.db.forward[k] == Output(body, k))
    && (forall t :: t in s.sessions && s.sessions[t].pc.Ran? ==>
          s.sessions[t].pc.result == body(s.sessions[t].pc.i, s.sessions[t].outputs))
  }

  lemma {:induction false} BelowIsOnePass(body: Body, m: map<nat, Value>, k: nat)
    requires forall i :: i in m ==> i > 0
    requires forall i: nat :: 1 <= i <= k ==> i in m && m[i] == Output(body, i)
    ensures Below(m, k + 1) == OnePass(body, k)
  {
    if k > 0 {
      BelowIsOnePass(body, m, k - 1);
      assert Below(m, k + 1) == Below(m, k)[k := m[k]];
    } else {
      assert Below(m, 1) == map[];
    }
  }

  /** A result about to be checkpointed by the newest claim is the uninterrupted pass's. */
  lemma ResultIsOutput(cfg: Config, body: Body, db: Db, x: Session)
    requires Shape(cfg, db) && HolderOk(cfg, db, x) && x.pc.Ran?
    requires x.pc.result == body(x.pc.i, x.outputs)
    requires forall i :: i in db.forward && i > 0 ==> db.forward[i] == Output(body, i)
    ensures x.pc.i > 0 && x.pc.result == Output(body, x.pc.i)
  {
    BelowIsOnePass(body, db.forward, x.pc.i - 1);
  }

  lemma OnTrackCommit(cfg: Config, body: Body, s: State, a: Action)
    requires Inv(cfg, s) && OnTrack(body, s) && a.Commit? && Enabled(cfg, s, a) && Holds(s, a.t)
    ensures OnTrack(body, Next(cfg, s, a))
  {
    var x := s.sessions[a.t];
    ResultIsOutput(cfg, body, s.db, x);
    CommitKeeps(cfg, s.now, s.db, a.t, x, a);
  }

  lemma OnTrackOther(cfg: Config, body: Body, s: State, a: Action)
    requires OnTrack(body, s) && Faithful(cfg, body, s, a)
    requires OfClaim(a) && Enabled(cfg, s, a) && !(a.Commit? && Holds(s, a.t))
    ensures OnTrack(body, Next(cfg, s, a))
  {
    ForwardOnlyByCommit(cfg, s.now, s.db, a.t, s.sessions[a.t], a);
  }

  lemma OnTrackStep(cfg: Config, body: Body, s: State, a: Action)
    requires Inv(cfg, s) && OnTrack(body, s) && Faithful(cfg, body, s, a)
    ensures OnTrack(body, Next(cfg, s, a))
  {
    if Enabled(cfg, s, a) && OfClaim(a) {
      if a.Commit? && Holds(s, a.t) { OnTrackCommit(cfg, body, s, a); } else { OnTrackOther(cfg, body, s, a); }
    }
  }

  lemma ForwardOnlyByCommit(cfg: Config, now: int, db: Db, t: nat, x: Session, a: Action)
    requires OfClaim(a) && Ready(cfg, x, a) && !(a.Commit? && Held(db.row, Own(t, x)))
    ensures var (db', x') := Act(cfg, now, db, t, x, a);
            db'.forward == db.forward && (x'.pc.Ran? && !a.Return? ==> x'.pc == x.pc && x'.outputs == x.outputs)
  {
  }

  lemma {:induction false} OnTrackRun(cfg: Config, body: Body, now: int, acts: seq<Action>)
    requires Deterministic(cfg, body, Init(now), acts)
    ensures OnTrack(body, Run(cfg, Init(now), acts))
  {
    if acts != [] {
      var front := acts[..|acts| - 1];
      OnTrackRun(cfg, body, now, front);
      InitInv(cfg, now);
      RunInv(cfg, Init(now), front);
      OnTrackStep(cfg, body, Run(cfg, Init(now), front), acts[|acts| - 1]);
    }
  }

  /** Whatever happened on the way, SUCCESS leaves the checkpoints and output of one uninterrupted pass. */
  lemma SuccessIsOnePass(cfg: Config, body: Body, now: int, acts: seq<Action>)
    requires Deterministic(cfg, body, Init(now), acts)
    requires Run(cfg, Init(now), acts).db.row.status == Success
    ensures var db := Run(cfg, Init(now), acts).db;
            db.forward == OnePass(body, Count(cfg)) && db.row.output == Some(OnePass(body, Count(cfg)))
  {
    InitInv(cfg, now);
    RunInv(cfg, Init(now), acts);
    OnTrackRun(cfg, body, now, acts);
    var db := Run(cfg, Init(now), acts).db;
    BelowIsOnePass(body, db.forward, Count(cfg));
    assert Below(db.forward, Count(cfg) + 1) == db.forward;
  }

  lemma PartOfOnePass(cfg: Config, body: Body, db: Db, k: nat)
    requires Shape(cfg, db) && k in db.forward
    requires forall i :: i in db.forward && i > 0 ==> db.forward[i] == Output(body, i)
    ensures Below(db.forward, k + 1) == OnePass(body, k)
  {
    BelowIsOnePass(body, db.forward, k);
  }

  /** In every reachable state the checkpoints so far are an initial piece of that same pass. */
  lemma CheckpointsArePartOfOnePass(cfg: Config, body: Body, now: int, acts: seq<Action>, k: nat)
    requires Deterministic(cfg, body, Init(now), acts)
    requires k in Run(cfg, Init(now), acts).db.forward
    ensures Below(Run(cfg, Init(now), acts).db.forward, k + 1) == OnePass(body, k)
  {
    InitInv(cfg, now);
    RunInv(cfg, Init(now), acts);
    OnTrackRun(cfg, body, now, acts);
    PartOfOnePass(cfg, body, Run(cfg, Init(now), acts).db, k);
  }

  lemma HolderSawTheTable(cfg: Config, s: State, t: nat)
    requires Inv(cfg, s) && Holds(s, t) && s.sessions[t].pc.Ran?
    ensures s.sessions[t].outputs == s.db.forward
    ensures forall k: nat :: k in s.db.forward <==> 1 <= k < s.sessions[t].pc.i
  {
    var i := s.sessions[t].pc.i;
    assert forall k :: k in s.db.forward ==> k < i;
    assert Below(s.db.forward, i) == s.db.forward;
  }

  /** An attempt that gets to commit ran on exactly the committed rows, which are those of lower seq. */
  lemma CommitSawTheTable(cfg: Config, now: int, acts: seq<Action>, t: nat)
    requires var s := Run(cfg, Init(now), acts); Holds(s, t) && s.sessions[t].pc.Ran?
    ensures var s := Run(cfg, Init(now), acts);
            && s.sessions[t].outputs == s.db.forward
            && forall k: nat :: k in s.db.forward <==> 1 <= k < s.sessions[t].pc.i
  {
    InitInv(cfg, now);
    RunInv(cfg, Init(now), acts);
    HolderSawTheTable(cfg, Run(cfg, Init(now), acts), t);
  }
}
