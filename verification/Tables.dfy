/**
 The storage functions as a worker calls them: statements that update one saga's tables in place.
 Each is proved to do to the tables exactly what its statement, in `Storage`, says.
 */
module Tables {
  import opened Prelude
  import opened Storage

  class Store {
    var row: Row
    var forward: map<nat, Value>
    var undone: set<nat>
    var outbox: seq<Event>

    constructor (now: int)
      ensures Contents() == Submitted(now)
    {
      row := Submitted(now).row;
      forward, undone, outbox := map[], {}, [];
    }

    function Contents(): Db
      reads this
    {
      Db(row, forward, undone, outbox)
    }

    /** What other sessions of the database committed in the meantime. */
    method Become(db: Db)
      modifies this
      ensures Contents() == db
    {
      row, forward, undone, outbox := db.row, db.forward, db.undone, db.outbox;
    }

    /** `WHERE owner_id = $x AND fencing_token = $y`, column by column. */
    predicate Guard(own: Ownership)
      reads this
    {
      row.owner.Some? && row.owner.value == own.owner && row.token == own.token
    }

    /** A statement on the `workflows` row alone. */
    twostate predicate OnlyRow(after: Row)
      reads this
    {
      row == after && forward == old(forward) && undone == old(undone) && outbox == old(outbox)
    }

    method CommitStepOutput(own: Ownership, i: nat, output: Value, events: seq<Event>) returns (w: Written)
      modifies this
      ensures (Contents(), w) == CommitStep(old(Contents()), own, i, output, events)
      ensures w == Preempted <==> !old(Guard(own))
      ensures w == Done <==> old(Guard(own)) && i !in old(forward)
      ensures row == old(row) && undone == old(undone)
      ensures w == Done ==> forward == old(forward)[i := output] && outbox == old(outbox) + events
      ensures w != Done ==> forward == old(forward) && outbox == old(outbox)
    {
      if !Held(row, own) { return Preempted; }
      if i in forward { return DuplicateKey; }
      forward := forward[i := output];
      outbox := outbox + events;
      return Done;
    }

    method CommitCompensationOutput(own: Ownership, j: nat, events: seq<Event>) returns (w: Written)
      modifies this
      ensures (Contents(), w) == CommitUndo(old(Contents()), own, j, events)
      ensures w == Preempted <==> !(old(Guard(own)) && old(row).status == Compensating)
      ensures w == Done <==> old(Guard(own)) && old(row).status == Compensating && j !in old(undone)
      ensures row == old(row) && forward == old(forward)
      ensures w == Done ==> undone == old(undone) + {j} && outbox == old(outbox) + events
      ensures w != Done ==> undone == old(undone) && outbox == old(outbox)
    {
      if !Held(row, own) || row.status != Compensating { return Preempted; }
      if j in undone { return DuplicateKey; }
      undone := undone + {j};
      outbox := outbox + events;
      return Done;
    }

    method Finish(own: Ownership, output: map<nat, Value>) returns (ok: bool)
      modifies this
      ensures (Contents(), ok) == FinishSuccess(old(Contents()), own, output)
      ensures ok <==> old(Guard(own)) && old(row).status == Running
      ensures OnlyRow(if ok then old(row).(status := Success, owner := None, lease := None, output := Some(output),
                                       fault := NoFault) else old(row))
    {
      ok := Held(row, own) && row.status == Running;
      if ok {
        row := row.(status := Success, output := Some(output), fault := NoFault, owner := None, lease := None);
      }
    }

    method Retry(own: Ownership, runAfter: int) returns (ok: bool)
      modifies this
      ensures (Contents(), ok) == ScheduleRetry(old(Contents()), own, runAfter)
      ensures ok <==> old(Guard(own))
      ensures OnlyRow(if ok then old(row).(status := Pending, owner := None, lease := None, runAfter := runAfter,
                                       fault := StepFault) else old(row))
    {
      ok := Held(row, own);
      if ok {
        row := row.(status := Pending, fault := StepFault, owner := None, lease := None, runAfter := runAfter);
      }
    }

    method Compensate(own: Ownership, now: int) returns (ok: bool)
      modifies this
      ensures (Contents(), ok) == BeginCompensation(old(Contents()), own, now)
      ensures ok <==> old(Guard(own))
      ensures OnlyRow(if ok then old(row).(status := Compensating, owner := None, lease := None, runAfter := now,
                                       fault := StepFault) else old(row))
    {
      ok := Held(row, own);
      if ok {
        row := row.(status := Compensating, fault := StepFault, owner := None, lease := None, runAfter := now);
      }
    }

    method FinishUnwind(own: Ownership) returns (ok: bool)
      modifies this
      ensures (Contents(), ok) == FinishCompensated(old(Contents()), own)
      ensures ok <==> old(Guard(own)) && old(row).status == Compensating
      ensures OnlyRow(if ok then old(row).(status := Compensated, owner := None, lease := None) else old(row))
    {
      ok := Held(row, own) && row.status == Compensating;
      if ok { row := row.(status := Compensated, owner := None, lease := None); }
    }

    method Dirty(own: Ownership, j: nat) returns (ok: bool)
      modifies this
      ensures (Contents(), ok) == FailDirty(old(Contents()), own, j)
      ensures ok <==> old(Guard(own)) && old(row).status == Compensating
      ensures OnlyRow(if ok then old(row).(status := FailedDirty, owner := None, lease := None, fault := UndoFault(j))
                      else old(row))
    {
      ok := Held(row, own) && row.status == Compensating;
      if ok { row := row.(status := FailedDirty, fault := UndoFault(j), owner := None, lease := None); }
    }

    method Defer(own: Ownership, runAfter: int) returns (ok: bool)
      modifies this
      ensures (Contents(), ok) == DeferCompensation(old(Contents()), own, runAfter)
      ensures ok <==> old(Guard(own)) && old(row).status == Compensating
      ensures OnlyRow(if ok then old(row).(owner := None, lease := None, runAfter := runAfter) else old(row))
    {
      ok := Held(row, own) && row.status == Compensating;
      if ok { row := row.(owner := None, lease := None, runAfter := runAfter); }
    }

    method Renew(own: Ownership, until: int) returns (ok: bool)
      modifies this
      ensures (Contents(), ok) == RenewLease(old(Contents()), own, until)
      ensures ok <==> old(Guard(own))
      ensures OnlyRow(if ok then old(row).(lease := Some(until)) else old(row))
    {
      ok := Held(row, own);
      if ok { row := row.(lease := Some(until)); }
    }

    /** `cancel_workflow`: the API holds no claim, and takes none away. */
    method CancelWorkflow(now: int) returns (ok: bool)
      modifies this
      ensures (Contents(), ok) == Cancel(old(Contents()), now)
      ensures ok <==> old(row).status == Pending || old(row).status == Running
      ensures OnlyRow(if ok then old(row).(status := Compensating, runAfter := now, fault := row.fault) else old(row))
      ensures ok ==> row.fault == if old(row).fault == NoFault then CancelledByUser else old(row).fault
    {
      ok := row.status == Pending || row.status == Running;
      if ok {
        row := row.(status := Compensating, runAfter := now,
                    fault := if row.fault == NoFault then CancelledByUser else row.fault);
      }
    }
  }
}
