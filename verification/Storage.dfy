/**
 The tables one saga owns, and every SQL statement that touches them.

 Each statement is a function from the tables before to the tables after: a single UPDATE, or one
 transaction, is one atomic step. The guarded statements return whether the WHERE clause matched,
 which is the only thing a worker learns from them.
 */
module Storage {
  import opened Prelude

  /** Encoded JSON: the engine round-trips it without looking inside. */
  type Value = string

  datatype Event = Event(eventType: string, payload: string)

  datatype Status = Pending | Running | Success | Compensating | Compensated | FailedDirty

  /** The `error` column, as far as the protocol distinguishes its contents. */
  datatype Fault = NoFault | StepFault | CancelledByUser | UndoFault(step: nat)

  /** The `workflows` row. Times are in one unit of the database's clock. */
  datatype Row = Row(
    status: Status,
    owner: Option<string>,
    lease: Option<int>,
    token: nat,
    attempt: nat,
    runAfter: int,
    output: Option<map<nat, Value>>,
    fault: Fault)

  /**
   One saga's rows: `workflows`, the FORWARD half of `step_outputs` keyed by seq, the seqs that have
   a COMPENSATION row, and its part of `outbox` in id order.
   */
  datatype Db = Db(row: Row, forward: map<nat, Value>, undone: set<nat>, outbox: seq<Event>)

  datatype Ownership = Ownership(owner: string, token: nat)

  /** What a guarded transaction that inserts a checkpoint can end as. */
  datatype Written = Done | Preempted | DuplicateKey

  function Submitted(now: int): Db {
    Db(Row(Pending, None, None, 0, 0, now, None, NoFault), map[], {}, [])
  }

  predicate Terminal(st: Status) {
    st == Success || st == Compensated || st == FailedDirty
  }

  predicate InUnwind(st: Status) {
    st == Compensating || st == Compensated || st == FailedDirty
  }

  /** `WHERE owner_id = $x AND fencing_token = $y`. */
  predicate Held(row: Row, own: Ownership) {
    row.owner == Some(own.owner) && row.token == own.token
  }

  /** The dequeue query's WHERE clause. */
  predicate Claimable(row: Row, now: int) {
    && row.runAfter <= now
    && (|| row.status == Pending
        || ((row.status == Running || row.status == Compensating)
            && (row.lease == None || row.lease.value < now)))
  }

  /** The dequeue query's SET list. */
  function ClaimRow(row: Row, owner: string, until: int): Row {
    row.(status := if row.status == Compensating then Compensating else Running,
    owner := Some(owner),
    lease := Some(until),
    token := row.token + 1,
    attempt := row.attempt + 1)
  }

  function Released(row: Row, st: Status): Row {
    row.(status := st, owner := None, lease := None)
  }

  /** `commit_step_output`: guarded position update, checkpoint insert and event inserts. */
  function CommitStep(db: Db, own: Ownership, i: nat, v: Value, events: seq<Event>): (Db, Written) {
    if !Held(db.row, own) then (db, Preempted)
    else if i in db.forward then (db, DuplicateKey)
    else (db.(forward := db.forward[i := v], outbox := db.outbox + events), Done)
  }

  /** `commit_compensation_output`: the same shape, and the row must be COMPENSATING. */
  function CommitUndo(db: Db, own: Ownership, j: nat, events: seq<Event>): (Db, Written) {
    if !(Held(db.row, own) && db.row.status == Compensating) then (db, Preempted)
    else if j in db.undone then (db, DuplicateKey)
    else (db.(undone := db.undone + {j}, outbox := db.outbox + events), Done)
  }

  /** `finish_success`: clears the error, and only from RUNNING. */
  function FinishSuccess(db: Db, own: Ownership, output: map<nat, Value>): (Db, bool) {
    if Held(db.row, own) && db.row.status == Running
    then (db.(row := Released(db.row, Success).(output := Some(output), fault := NoFault)), true)
    else (db, false)
  }

  /** `schedule_retry`: guarded by ownership alone, whatever the status. */
  function ScheduleRetry(db: Db, own: Ownership, runAfter: int): (Db, bool) {
    if Held(db.row, own)
    then (db.(row := Released(db.row, Pending).(runAfter := runAfter, fault := StepFault)), true)
    else (db, false)
  }

  /** `begin_compensation`: guarded by ownership alone; the unwind is claimable at once. */
  function BeginCompensation(db: Db, own: Ownership, now: int): (Db, bool) {
    if Held(db.row, own)
    then (db.(row := Released(db.row, Compensating).(runAfter := now, fault := StepFault)), true)
    else (db, false)
  }

  function FinishCompensated(db: Db, own: Ownership): (Db, bool) {
    if Held(db.row, own) && db.row.status == Compensating
    then (db.(row := Released(db.row, Compensated)), true)
    else (db, false)
  }

  function FailDirty(db: Db, own: Ownership, j: nat): (Db, bool) {
    if Held(db.row, own) && db.row.status == Compensating
    then (db.(row := Released(db.row, FailedDirty).(fault := UndoFault(j))), true)
    else (db, false)
  }

  /** `defer_compensation`: gives the row back, status untouched. */
  function DeferCompensation(db: Db, own: Ownership, runAfter: int): (Db, bool) {
    if Held(db.row, own) && db.row.status == Compensating
    then (db.(row := Released(db.row, Compensating).(runAfter := runAfter)), true)
    else (db, false)
  }

  function RenewLease(db: Db, own: Ownership, until: int): (Db, bool) {
    if Held(db.row, own) then (db.(row := db.row.(lease := Some(until))), true) else (db, false)
  }

  /** `cancel_workflow`: no ownership guard, and the owner and its lease are left in place. */
  function Cancel(db: Db, now: int): (Db, bool) {
    if db.row.status == Pending || db.row.status == Running
    then (db.(row := db.row.(status := Compensating, runAfter := now,
                             fault := if db.row.fault == NoFault then CancelledByUser else db.row.fault)), true)
    else (db, false)
  }
}
