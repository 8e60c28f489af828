/**
 The dequeue statement over the whole `workflows` table, and what a claim excludes.
 */
module Queue {
  import opened Prelude
  import opened Storage

  /** Rows a claimer may take: due, unowned or expired, and locked by no other transaction. */
  predicate Free(rows: map<nat, Row>, locked: set<nat>, now: int, id: nat) {
    id in rows && Claimable(rows[id], now) && id !in locked
  }

  ghost predicate Distinct(ids: seq<nat>) { forall i, j | 0 <= i < j < |ids| :: ids[i] != ids[j] }

  /**
   `ids` are what the subquery may select: distinct free rows, no more than `limit`. A free row is
   passed over only by a full batch, all due no later. Ties in `run_after` are the database's to break.
   */
  ghost predicate Selects(rows: map<nat, Row>, locked: set<nat>, now: int, limit: nat, ids: seq<nat>) {
    && |ids| <= limit && Distinct(ids)
    && (forall id :: id in ids ==> Free(rows, locked, now, id))
    && (forall id :: Free(rows, locked, now, id) && id !in ids ==>
                       |ids| == limit && forall x :: x in ids ==> rows[x].runAfter <= rows[id].runAfter)
  }

  /** Exactly the selected rows are claimed; nothing else moves. */
  ghost predicate Claims(rows: map<nat, Row>, rows': map<nat, Row>, ids: seq<nat>, owner: string, until: int) {
    && rows'.Keys == rows.Keys
    && (forall id :: id in rows ==>
          rows'[id] == if id in ids then ClaimRow(rows[id], owner, until) else rows[id])
  }

  /** The statement's WHERE clause, as its text has it. */
  predicate MayBeClaimed(row: Row, now: int) {
    && row.runAfter <= now
    && match row.status
       case Pending => true
       case Running => row.lease.Some? ==> row.lease.value < now
       case Compensating => row.lease.Some? ==> row.lease.value < now
       case _ => false
  }

  /** Its SET list, column by column. */
  predicate Stamped(row: Row, row': Row, owner: string, until: int) {
    && (row'.status == if row.status == Compensating then Compensating else Running)
    && row'.owner == Some(owner) && row'.lease == Some(until)
    && row'.token == row.token + 1 && row'.attempt == row.attempt + 1
    && row'.runAfter == row.runAfter && row'.output == row.output && row'.fault == row.fault
  }

  class Workflows {
    var rows: map<nat, Row>

    constructor (rows: map<nat, Row>)
      ensures this.rows == rows
    {
      this.rows := rows;
    }

    /** The least due among `candidates`. */
    method EarliestDue(candidates: set<nat>) returns (id: nat)
      requires candidates != {} && candidates <= rows.Keys
      ensures id in candidates && forall x :: x in candidates ==> rows[id].runAfter <= rows[x].runAfter
    {
      id :| id in candidates;
      var rest := candidates - {id};
      while rest != {}
        invariant rest <= candidates && id in candidates
        invariant forall x :: x in candidates - rest ==> rows[id].runAfter <= rows[x].runAfter
        decreases |rest|
      {
        var x :| x in rest;
        if rows[x].runAfter < rows[id].runAfter { id := x; }
        rest := rest - {x};
      }
    }

    /** The ordered walk, stopping at the limit; then one UPDATE of what it found. */
    method ClaimWorkflows(owner: string, now: int, duration: nat, limit: nat, locked: set<nat>)
      returns (ids: seq<nat>)
      modifies this
      ensures Selects(old(rows), locked, now, limit, ids)
      ensures Claims(old(rows), rows, ids, owner, now + duration)
      ensures forall id :: id in ids ==>
                && id in old(rows) && id in rows && MayBeClaimed(old(rows)[id], now)
                && Stamped(old(rows)[id], rows[id], owner, now + duration)
    {
      var pool := set id | id in rows && Claimable(rows[id], now) && id !in locked;
      ids := [];
      while pool != {} && |ids| < limit
        invariant rows == old(rows) && |ids| <= limit && Distinct(ids)
        invariant forall id :: id in ids ==> Free(rows, locked, now, id) && id !in pool
        invariant forall id :: id in pool ==> Free(rows, locked, now, id)
        invariant forall id :: Free(rows, locked, now, id) ==> id in pool || id in ids
        invariant forall x, y :: x in ids && y in pool ==> rows[x].runAfter <= rows[y].runAfter
        decreases limit - |ids|
      {
        var id := EarliestDue(pool);
        ids := ids + [id];
        pool := pool - {id};
      }
      for k := 0 to |ids|
        invariant rows.Keys == old(rows).Keys
        invariant forall id :: id in rows ==>
                    rows[id] == if id in ids[..k] then ClaimRow(old(rows)[id], owner, now + duration) else old(rows)[id]
      {
        assert ids[..k + 1] == ids[..k] + [ids[k]];
        assert ids[k] !in ids[..k] && ids[k] in ids && Free(old(rows), locked, now, ids[k]);
        rows := rows[ids[k] := ClaimRow(rows[ids[k]], owner, now + duration)];
      }
      assert ids[..|ids|] == ids;
      forall id | id in ids ensures MayBeClaimed(old(rows)[id], now) { assert Free(old(rows), locked, now, id); }
    }
  }

  /** Two claimers whose statements overlap skip each other's locked rows, so no row is claimed twice. */
  lemma ConcurrentClaimsAreDisjoint(
    rows: map<nat, Row>, locked: set<nat>, now: int, limit: nat, limit': nat, a: seq<nat>, b: seq<nat>)
    requires Selects(rows, locked, now, limit, a)
    requires Selects(rows, locked + (set id | id in a), now, limit', b)
    ensures forall id :: id in b ==> id !in a
  {
    forall id | id in b ensures id !in a {
      assert Free(rows, locked + (set id | id in a), now, id);
    }
  }

  /**
   A claimed batch is out of reach of every later claim until its leases run out, whoever asks, at
   whatever limit, with nothing locked.
   */
  lemma LeasedRowsAreNotReclaimed(
    rows: map<nat, Row>, rows': map<nat, Row>, ids: seq<nat>, owner: string, until: int,
    t: int, limit: nat, later: seq<nat>)
    requires Claims(rows, rows', ids, owner, until) && t <= until
    requires Selects(rows', {}, t, limit, later)
    ensures forall id :: id in later ==> id !in ids
  {
    forall id | id in later ensures id !in ids {
      assert Free(rows', {}, t, id);
      assert id in rows;
    }
  }

  /** ... and once they have, an unattended row is claimable again, at a higher token. */
  lemma ExpiredRowsAreReclaimed(
    rows: map<nat, Row>, locked: set<nat>, rows': map<nat, Row>, now: int, limit: nat, ids: seq<nat>, owner: string,
    until: int, t: int, id: nat)
    requires Selects(rows, locked, now, limit, ids) && Claims(rows, rows', ids, owner, until)
    requires id in ids && id in rows && now <= t
    ensures Free(rows', {}, t, id) <==> until < t
    ensures rows'[id].token > rows[id].token
  {
    assert Free(rows, locked, now, id);
  }

  /** Nothing starves behind a later row: the free row that is due first is always in the batch. */
  lemma EarliestIsTaken(rows: map<nat, Row>, locked: set<nat>, now: int, limit: nat, ids: seq<nat>, id: nat)
    requires Selects(rows, locked, now, limit, ids) && limit > 0 && Free(rows, locked, now, id)
    requires forall x :: x in rows && x != id ==> rows[x].runAfter > rows[id].runAfter
    ensures id in ids
  {
    if |ids| > 0 { assert ids[0] in ids && Free(rows, locked, now, ids[0]); }
  }

  // ----- every history of the table ------------------------------------------------------------

  /** A claim statement, any other statement on one row, or a submission. No other statement moves a token. */
  datatype Turn =
    | Claiming(owner: string, now: int, duration: nat, limit: nat, locked: set<nat>, ids: seq<nat>)
    | Writing(id: nat, row: Row)
    | Inserting(id: nat, row: Row)

  datatype Grant = Grant(id: nat, token: nat)

  datatype Table = Table(rows: map<nat, Row>, grants: seq<Grant>)

  ghost predicate Enabled(s: Table, turn: Turn) {
    match turn
    case Claiming(_, now, _, limit, locked, ids) => Selects(s.rows, locked, now, limit, ids)
    case Writing(id, row) => id in s.rows && row.token == s.rows[id].token
    case Inserting(id, _) => id !in s.rows
  }

  function GrantsOf(rows: map<nat, Row>, ids: seq<nat>): seq<Grant> {
    seq(|ids|, k requires 0 <= k < |ids| => Grant(ids[k], if ids[k] in rows then rows[ids[k]].token + 1 else 0))
  }

  ghost function Next(s: Table, turn: Turn): Table {
    if !Enabled(s, turn) then s
    else
      match turn
      case Claiming(owner, now, duration, _, _, ids) =>
        Table(map id | id in s.rows :: if id in ids then ClaimRow(s.rows[id], owner, now + duration) else s.rows[id],
              s.grants + GrantsOf(s.rows, ids))
      case Writing(id, row) => s.(rows := s.rows[id := row])
      case Inserting(id, row) => s.(rows := s.rows[id := row])
  }

  ghost function Run(s: Table, turns: seq<Turn>): Table {
    if turns == [] then s else Next(Run(s, turns[..|turns| - 1]), turns[|turns| - 1])
  }

  /** Every grant so far is of a row that has come at least as far, and no two are the same. */
  ghost predicate Unique(s: Table) {
    && (forall k :: 0 <= k < |s.grants| ==>
          s.grants[k].id in s.rows && s.grants[k].token <= s.rows[s.grants[k].id].token)
    && (forall j, k :: 0 <= j < k < |s.grants| ==> s.grants[j] != s.grants[k])
  }

  lemma UniqueNext(s: Table, turn: Turn)
    requires Unique(s)
    ensures Unique(Next(s, turn))
  {
    if Enabled(s, turn) && turn.Claiming? {
      var s', more := Next(s, turn), GrantsOf(s.rows, turn.ids);
      forall k | 0 <= k < |more|
        ensures more[k].id in s.rows && more[k].token == s.rows[more[k].id].token + 1 == s'.rows[more[k].id].token
      {
        assert turn.ids[k] in turn.ids && Free(s.rows, turn.locked, turn.now, turn.ids[k]);
      }
      forall j, k | 0 <= j < k < |s'.grants| ensures s'.grants[j] != s'.grants[k] {
        if |s.grants| <= j {
          assert turn.ids[j - |s.grants|] != turn.ids[k - |s.grants|];
        } else if |s.grants| <= k {
          assert s'.grants[j] == s.grants[j] && s'.grants[k] == more[k - |s.grants|];
        }
      }
    }
  }

  /** In every history of the table no claim of a row, by anyone and in any batch, carries a token granted before. */
  lemma {:induction false} TokensAreGrantedOnce(rows: map<nat, Row>, turns: seq<Turn>)
    ensures Unique(Run(Table(rows, []), turns))
  {
    if turns != [] {
      TokensAreGrantedOnce(rows, turns[..|turns| - 1]);
      UniqueNext(Run(Table(rows, []), turns[..|turns| - 1]), turns[|turns| - 1]);
    }
  }

  /** The turn leaves the row alone. */
  predicate Spares(turn: Turn, id: nat) {
    match turn
    case Claiming(_, _, _, _, _, ids) => id !in ids
    case Writing(i, _) => i != id
    case Inserting(_, _) => true
  }

  lemma {:induction false} SparedRowsStay(s: Table, turns: seq<Turn>, id: nat)
    requires id in s.rows && forall turn :: turn in turns ==> Spares(turn, id)
    ensures id in Run(s, turns).rows && Run(s, turns).rows[id] == s.rows[id]
  {
    if turns != [] {
      SparedRowsStay(s, turns[..|turns| - 1], id);
      assert turns[|turns| - 1] in turns;
    }
  }

  /**
   Two successive claims of a row that nobody wrote in between are a lease apart, whatever else was claimed,
   written and submitted meanwhile; and an unlocked row is in reach again as soon as they are, if it was due.
   */
  lemma ClaimsAreALeaseApart(s: Table, first: Turn, turns: seq<Turn>, second: Turn, id: nat)
    requires first.Claiming? && Enabled(s, first) && id in first.ids
    requires forall turn :: turn in turns ==> Spares(turn, id)
    requires second.Claiming? && second.now >= first.now && id !in second.locked
    ensures var t := Run(Next(s, first), turns);
            && (Free(t.rows, second.locked, second.now, id) <==> first.now + first.duration < second.now)
            && (Enabled(t, second) && id in second.ids ==> first.now + first.duration < second.now)
  {
    assert Free(s.rows, first.locked, first.now, id);
    SparedRowsStay(Next(s, first), turns, id);
    var t := Run(Next(s, first), turns);
    if Enabled(t, second) && id in second.ids { assert Free(t.rows, second.locked, second.now, id); }
  }

  // ----- what is in reach ----------------------------------------------------------------------

  /**
   In every history every claimed row was due, and unowned or expired; and a claim with room left took every
   such row that was there and not locked.
   */
  lemma ClaimsTakeExactlyWhatIsDue(rows: map<nat, Row>, turns: seq<Turn>, turn: Turn, id: nat)
    requires turn.Claiming? && Enabled(Run(Table(rows, []), turns), turn)
    ensures var now := Run(Table(rows, []), turns).rows;
            && (id in turn.ids ==> id in now && id !in turn.locked && MayBeClaimed(now[id], turn.now))
            && (|turn.ids| < turn.limit && id in now && id !in turn.locked && MayBeClaimed(now[id], turn.now)
                ==> id in turn.ids)
  {
    var now := Run(Table(rows, []), turns).rows;
    if id in turn.ids { assert Free(now, turn.locked, turn.now, id); }
    if id in now && id !in turn.locked && MayBeClaimed(now[id], turn.now) && id !in turn.ids {
      assert Free(now, turn.locked, turn.now, id);
    }
  }

  /** A row put off until some time is left alone by every claim before it, and within reach of every one after. */
  lemma PutOffUntilDue(s: Table, id: nat, row: Row, turns: seq<Turn>, turn: Turn)
    requires id in s.rows && row.token == s.rows[id].token && row.status == Pending
    requires forall other :: other in turns ==> Spares(other, id)
    requires turn.Claiming? && id !in turn.locked
    requires Enabled(Run(Next(s, Writing(id, row)), turns), turn)
    ensures id in turn.ids ==> row.runAfter <= turn.now
    ensures |turn.ids| < turn.limit && row.runAfter <= turn.now ==> id in turn.ids
  {
    SparedRowsStay(Next(s, Writing(id, row)), turns, id);
    var now := Run(Next(s, Writing(id, row)), turns).rows;
    if id in turn.ids { assert Free(now, turn.locked, turn.now, id); }
    if row.runAfter <= turn.now && id !in turn.ids { assert Free(now, turn.locked, turn.now, id); }
  }
}
