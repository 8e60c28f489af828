/**
 A worker's concurrency slots: where each of them is, through everything the poll loop can meet.
 */
module Worker {
  /** How a claim statement ends. */
  datatype Claimed = Rows(count: nat) | DatabaseError | Cancelled

  datatype Poll = Again | Stopped

  /** How an awaited task ends: a value, an ordinary exception, or a cancellation. */
  datatype Ending = Returned | Raised | WasCancelled

  class Slots {
    const concurrency: nat
    var free: nat           // permits in the semaphore
    var held: nat           // taken by the poll loop, not yet handed to a workflow
    var running: nat        // workflows executing, one permit each
    var dropped: nat        // permits of tasks cancelled before their first step
    var draining: bool
    ghost var started: nat  // workflows spawned so far

    /** No permit is made or lost, and none is dropped before the worker is on its way out. */
    ghost predicate Valid()
      reads this
    {
      && concurrency > 0
      && free + held + running + dropped == concurrency
      && (dropped > 0 ==> draining)
    }

    constructor (concurrency: nat)
      requires concurrency > 0
      ensures Valid() && this.concurrency == concurrency && free == concurrency && !draining && started == 0
    {
      this.concurrency := concurrency;
      free, held, running, dropped, draining, started := concurrency, 0, 0, 0, false, 0;
    }

    /** `Semaphore.release` by a workflow that is done with its permit. */
    method Release()
      requires Valid() && running > 0
      modifies this`free, this`running
      ensures Valid() && running == old(running) - 1 && free == old(free) + 1
    {
      running, free := running - 1, free + 1;
    }

    /**
     `_run_one`, from its `try` on: the execution ends, the renewer is cancelled and awaited, and the inner
     `finally` releases. An ordinary exception of the execution is logged and swallowed; one that the
     renewer died of escapes instead of whatever the execution ended with. The permit comes back exactly
     once on each of the nine paths.
     */
    method RunOne(execution: Ending, renewer: Ending) returns (escapes: Ending)
      requires Valid() && running > 0
      modifies this`free, this`running
      ensures Valid() && running == old(running) - 1 && free == old(free) + 1
      ensures escapes.Raised? <==> renewer.Raised?
      ensures escapes.WasCancelled? <==> execution.WasCancelled? && !renewer.Raised?
    {
      match execution
      case Returned => escapes := AwaitRenewer(renewer, Returned);
      case Raised => escapes := AwaitRenewer(renewer, Returned);
      case WasCancelled => escapes := AwaitRenewer(renewer, WasCancelled);
    }

    /** The outer `finally`, entered with `pending` on its way out. */
    method AwaitRenewer(renewer: Ending, pending: Ending) returns (escapes: Ending)
      requires Valid() && running > 0
      modifies this`free, this`running
      ensures Valid() && running == old(running) - 1 && free == old(free) + 1
      ensures escapes == if renewer.Raised? then Raised else pending
    {
      // The renewer's own cancellation is suppressed; anything else it raises leaves the inner `try` here.
      escapes := if renewer.Raised? then Raised else pending;
      Release();
    }

    method AnyRun() returns (escapes: Ending)
      requires Valid() && running > 0
      modifies this`free, this`running
      ensures Valid() && running == old(running) - 1 && free == old(free) + 1
    {
      var fails, cancelled, renewerDies: bool := *, *, *;
      var execution := if cancelled then WasCancelled else if fails then Raised else Returned;
      escapes := RunOne(execution, if renewerDies then Raised else WasCancelled);
    }

    /** While the loop awaits, workflows finish. */
    method Others()
      requires Valid()
      modifies this`free, this`running
      ensures Valid() && old(free) <= free && running <= old(running)
    {
      var n: nat := *;
      while n > 0 && running > 0
        invariant Valid() && old(free) <= free && running <= old(running)
      {
        var _ := AnyRun();
        n := n - 1;
      }
    }

    /** A poller that has to wait is waiting for a full house of running workflows, never for a slot nobody has. */
    lemma BlockedOnlyWhenBusy()
      requires Valid() && !draining && held == 0 && free == 0
      ensures running == concurrency
    {
    }

    /** `_acquire_slots`: one at least, and then whatever is free at that moment, up to the batch. */
    method AcquireSlots(maximum: nat) returns (taken: nat)
      requires Valid() && !draining && held == 0 && maximum >= 1
      modifies this`free, this`held, this`running
      ensures Valid() && !draining && held == taken
      ensures 1 <= taken <= maximum && (taken < maximum ==> free == 0)
    {
      while free == 0
        invariant Valid() && !draining && held == 0
        decreases if free == 0 then 1 else 0
      {
        BlockedOnlyWhenBusy();
        var _ := AnyRun();
      }
      Others();
      free, held := free - 1, held + 1;
      taken := 1;
      while taken < maximum && free > 0
        invariant Valid() && !draining && held == taken && 1 <= taken <= maximum
      {
        free, held := free - 1, held + 1;
        taken := taken + 1;
      }
    }

    method ReleaseSlots(count: nat)
      requires Valid() && count <= held
      modifies this`free, this`held
      ensures Valid() && held == old(held) - count && free == old(free) + count
    {
      for k := 0 to count
        invariant Valid() && held == old(held) - k && free == old(free) + k
      {
        free, held := free + 1, held - 1;
      }
    }

    /** `_spawn`: the workflow takes over one of the loop's permits. */
    method Spawn()
      requires Valid() && held > 0
      modifies this`held, this`running, this`started
      ensures Valid() && held == old(held) - 1 && running == old(running) + 1 && started == old(started) + 1
    {
      held, running, started := held - 1, running + 1, started + 1;
    }

    /**
     One round of `_poll_forever`. The statement claims no more rows than it was given slots for; every
     round that goes on leaves the loop without a permit of its own.
     */
    method PollOnce(batch: nat, stopping: bool, claim: Claimed) returns (next: Poll, ghost slots: nat)
      requires Valid() && !draining && held == 0 && batch >= 1
      modifies this
      ensures Valid() && !draining && running <= concurrency
      ensures next == Again <==> !stopping && !claim.Cancelled?
      ensures next == Again || stopping ==> held == 0
      ensures 1 <= slots <= batch
      ensures started == old(started)
              + if !stopping && claim.Rows? then (if claim.count < slots then claim.count else slots) else 0
    {
      var taken := AcquireSlots(batch);
      slots := taken;
      if stopping {
        ReleaseSlots(taken);
        return Stopped, slots;
      }
      Others();
      match claim
      case Cancelled => return Stopped, slots;
      case DatabaseError =>
        ReleaseSlots(taken);
        return Again, slots;
      case Rows(n) =>
        var count := if n < taken then n else taken;
        ReleaseSlots(taken - count);
        for k := 0 to count
          invariant Valid() && !draining && held == count - k && started == old(started) + k
        {
          Spawn();
        }
        return Again, slots;
    }

    /** `_drain`: everything still running is awaited or cancelled; a task that never started keeps its permit. */
    method Drain()
      requires Valid()
      modifies this
      ensures Valid() && running == 0 && draining && held == old(held)
    {
      draining := true;
      while running > 0
        invariant Valid() && draining && held == old(held)
      {
        var started: bool := *;
        if started { var _ := AnyRun(); } else { running, dropped := running - 1, dropped + 1; }
      }
    }
  }
}
