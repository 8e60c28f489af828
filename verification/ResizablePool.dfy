/**
 The resizable permit pool: debt bookkeeping, and the closed form it refines.
 */
module ResizablePool {
  import opened Prelude

  // ----- the closed form -----------------------------------------------------------------------

  /** Embodied capacity (free permits and held ones), the capacity asked for, and the permits in use. */
  datatype Pool = Pool(capacity: nat, target: nat, held: nat)

  datatype Op = Resize(target: nat) | Acquire | Release

  predicate Possible(p: Pool, op: Op) {
    match op
    case Resize(_) => true
    case Acquire => p.held < p.capacity
    case Release => p.held > 0
  }

  /** Growing raises capacity to the target at once; shrinking waits for permits to come back. */
  function Apply(p: Pool, op: Op): Pool {
    if !Possible(p, op) then p
    else
      match op
      case Resize(t) => Pool(Max(p.capacity, t), t, p.held)
      case Acquire => p.(held := p.held + 1)
      case Release => Pool(Max(p.capacity - 1, p.target), p.target, p.held - 1)
  }

  function ApplyAll(p: Pool, ops: seq<Op>): Pool {
    if ops == [] then p else Apply(ApplyAll(p, ops[..|ops| - 1]), ops[|ops| - 1])
  }

  predicate Sound(p: Pool) { p.target <= p.capacity && p.held <= p.capacity }

  // ----- the code ------------------------------------------------------------------------------

  class ResizableSemaphore {
    var value: nat        // free permits of the real semaphore
    var target: nat
    var debt: nat
    ghost var held: nat   // permits callers have not returned

    /** Capacity is whatever is free or in use; the code never stores it. */
    ghost function Abstract(): Pool
      reads this
    {
      Pool(value + held, target, held)
    }

    /** The invariant everything rests on. */
    ghost predicate Valid()
      reads this
    {
      value + held == target + debt
    }

    constructor (initial: nat)
      ensures Valid() && Abstract() == Pool(initial, initial, 0)
    {
      value, target, debt, held := initial, initial, 0, 0;
    }

    /** `resize`; a negative target is a ValueError and changes nothing. */
    method Resize(t: int) returns (ok: bool)
      requires Valid()
      modifies this
      ensures Valid() && ok == (t >= 0)
      ensures Abstract() == if t >= 0 then Apply(old(Abstract()), Op.Resize(t)) else old(Abstract())
    {
      if t < 0 { return false; }
      var delta := t - target;
      target := t;
      if delta > 0 {
        var cancel := if delta < debt then delta else debt;
        debt := debt - cancel;
        var added := delta - cancel;
        for k := 0 to added
          invariant target == t && debt == old(debt) - cancel && held == old(held)
          invariant value == old(value) + k
        {
          value := value + 1;
        }
      } else if delta < 0 {
        debt := debt + -delta;
      }
      return true;
    }

    /** `locked()`, for a semaphore nobody is queued on. */
    predicate Locked()
      reads this
    {
      value == 0
    }

    /** A caller that got past the wait takes one free permit. */
    method Acquire()
      requires Valid() && !Locked()
      modifies this
      ensures Valid() && Abstract() == Apply(old(Abstract()), Op.Acquire)
      ensures held == old(held) + 1 && value == old(value) - 1 && debt == old(debt)
    {
      value, held := value - 1, held + 1;
    }

    /** A returned permit is swallowed while a shrink is still owed. */
    method Release()
      requires Valid() && held > 0
      modifies this
      ensures Valid() && Abstract() == Apply(old(Abstract()), Op.Release)
      ensures held == old(held) - 1
      ensures if old(debt) > 0 then debt == old(debt) - 1 && value == old(value)
              else debt == 0 && value == old(value) + 1
    {
      held := held - 1;
      if debt > 0 { debt := debt - 1; } else { value := value + 1; }
    }
  }

  // ----- consequences --------------------------------------------------------------------------

  /** The largest capacity ever asked for, the initial one included. */
  function Peak(initial: nat, ops: seq<Op>): nat {
    if ops == [] then initial
    else
      var p := Peak(initial, ops[..|ops| - 1]);
      match ops[|ops| - 1]
      case Resize(t) => Max(p, t)
      case _ => p
  }

  /** Permits in use never exceed the largest target ever requested. */
  lemma {:induction false} HeldWithinPeak(initial: nat, ops: seq<Op>)
    ensures var p := ApplyAll(Pool(initial, initial, 0), ops); Sound(p) && p.capacity <= Peak(initial, ops)
  {
    if ops != [] { HeldWithinPeak(initial, ops[..|ops| - 1]); }
  }

  /** ... but they may exceed the current target: a shrink of an idle pool leaves its surplus to take. */
  lemma HeldCanExceedTarget()
    ensures var p := ApplyAll(Pool(3, 3, 0), [Resize(1), Acquire, Acquire]); p.held > p.target
  {
    var a := Resize(1);
    assert [a, Acquire, Acquire][..2] == [a, Acquire] && [a, Acquire][..1] == [a] && [a][..0] == [];
    assert ApplyAll(Pool(3, 3, 0), [a]) == Pool(3, 1, 0);
    assert ApplyAll(Pool(3, 3, 0), [a, Acquire]) == Pool(3, 1, 1);
  }

  /** Permits taken, and permits given back, by operations that were possible when they came. */
  function Taken(p: Pool, ops: seq<Op>): nat {
    if ops == [] then 0
    else Taken(p, ops[..|ops| - 1])
         + if ops[|ops| - 1].Acquire? && Possible(ApplyAll(p, ops[..|ops| - 1]), ops[|ops| - 1]) then 1 else 0
  }

  /** In every history the permits in use are those taken less those given back: none is lost or made up. */
  lemma {:induction false} HeldIsTakenLessReturned(p: Pool, ops: seq<Op>)
    ensures ApplyAll(p, ops).held + Releases(p, ops) == p.held + Taken(p, ops)
  {
    if ops != [] { HeldIsTakenLessReturned(p, ops[..|ops| - 1]); }
  }

  /** An acquire is possible exactly while a permit is free, and a release exactly while one is out. */
  lemma PossibleExactly(p: Pool)
    ensures Possible(p, Acquire) <==> p.capacity - p.held > 0
    ensures Possible(p, Release) <==> p.held > 0
  {
  }

  /** Once as many came back as were taken and no shrink is owed, the whole target is free again. */
  lemma EverythingComesBack(initial: nat, ops: seq<Op>)
    requires var p := Pool(initial, initial, 0); Taken(p, ops) == Releases(p, ops)
    ensures var q := ApplyAll(Pool(initial, initial, 0), ops);
            && q.held == 0 && (q.capacity == q.target ==> q.capacity - q.held == q.target)
  {
    HeldIsTakenLessReturned(Pool(initial, initial, 0), ops);
  }

  /** A permit given back is free again at once, unless a shrink is owed one. */
  lemma ReturnedPermitIsFree(p: Pool)
    requires Sound(p) && p.held > 0
    ensures var q := Apply(p, Release);
            && q.held == p.held - 1
            && q.capacity - q.held == p.capacity - p.held + if p.capacity == p.target then 1 else 0
  {
  }

  ghost predicate NoResize(ops: seq<Op>) { forall op :: op in ops ==> !op.Resize? }

  function Acquires(n: nat): seq<Op> { if n == 0 then [] else Acquires(n - 1) + [Acquire] }

  lemma {:induction false} AcquiresTakeEverything(p: Pool, n: nat)
    requires p.held + n <= p.capacity
    ensures NoResize(Acquires(n)) && ApplyAll(p, Acquires(n)) == p.(held := p.held + n)
  {
    if n > 0 {
      AcquiresTakeEverything(p, n - 1);
      assert Acquires(n)[..|Acquires(n)| - 1] == Acquires(n - 1);
    }
  }

  lemma {:induction false} SettledStaysWithinTarget(p: Pool, ops: seq<Op>)
    requires Sound(p) && p.capacity == p.target && NoResize(ops)
    ensures var q := ApplyAll(p, ops); Sound(q) && q.capacity == q.target == p.target
  {
    if ops != [] { SettledStaysWithinTarget(p, ops[..|ops| - 1]); }
  }

  /**
   Between resizes, permits in use can never exceed the target if and only if no shrink is still owed:
   the capacity is the target, that is, the debt is zero.
   */
  lemma HeldWithinTargetExactlyWithoutDebt(p: Pool)
    requires Sound(p)
    ensures (forall ops: seq<Op> :: NoResize(ops) ==> ApplyAll(p, ops).held <= p.target) <==> p.capacity == p.target
  {
    if p.capacity == p.target {
      forall ops: seq<Op> | NoResize(ops) ensures ApplyAll(p, ops).held <= p.target {
        SettledStaysWithinTarget(p, ops);
      }
    } else {
      AcquiresTakeEverything(p, p.capacity - p.held);
      assert ApplyAll(p, Acquires(p.capacity - p.held)).held > p.target;
    }
  }

  /** `ops` are resizes only, none above `top`. */
  ghost predicate Detour(ops: seq<Op>, top: nat) {
    forall op :: op in ops ==> op.Resize? && op.target <= top
  }

  lemma {:induction false} DetourKeepsCapacity(p: Pool, ops: seq<Op>)
    requires Detour(ops, p.capacity)
    ensures var q := ApplyAll(p, ops);
            && q.capacity == p.capacity && q.held == p.held
            && q.target == if ops == [] then p.target else ops[|ops| - 1].target
  {
    if ops != [] { DetourKeepsCapacity(p, ops[..|ops| - 1]); }
  }

  /** However a settled pool is shrunk and grown back to its size, nothing is lost or double-counted. */
  lemma ShrinkThenGrowIsLossless(p: Pool, ops: seq<Op>)
    requires p.capacity == p.target && Detour(ops, p.target)
    requires ops != [] && ops[|ops| - 1] == Resize(p.target)
    ensures ApplyAll(p, ops) == p
  {
    DetourKeepsCapacity(p, ops);
  }

  /** How many of `ops` return a permit. */
  function Releases(p: Pool, ops: seq<Op>): nat {
    if ops == [] then 0
    else Releases(p, ops[..|ops| - 1])
         + if ops[|ops| - 1].Release? && Possible(ApplyAll(p, ops[..|ops| - 1]), ops[|ops| - 1]) then 1 else 0
  }

  /** Between resizes a shrink is paid down by exactly one per permit returned, whoever acquires meanwhile. */
  lemma {:induction false} DebtIsPaidByReleases(p: Pool, ops: seq<Op>)
    requires Sound(p) && forall op :: op in ops ==> !op.Resize?
    ensures var q := ApplyAll(p, ops);
            q.target == p.target && q.capacity == Max(p.capacity - Releases(p, ops), p.target)
  {
    if ops != [] { DebtIsPaidByReleases(p, ops[..|ops| - 1]); }
  }
}
