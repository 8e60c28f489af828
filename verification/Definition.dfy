/**
 Registration-time validation: which step declarations make a definition, and why its steps may be
 identified with the positions 1..n everywhere else.
 */
module Definition {
  import opened Saga

  datatype StepDecl = StepDecl(position: int, name: string, compensable: bool)

  datatype Rejection = NoSteps | ReusedSeq | Gap | ReusedName

  datatype Verdict = Registered(steps: seq<StepDecl>) | Rejected(why: Rejection)

  function Seqs(ds: seq<StepDecl>): (r: seq<int>)
    ensures |r| == |ds|
  {
    seq(|ds|, k requires 0 <= k < |ds| => ds[k].position)
  }

  function Range(n: nat): (r: seq<int>)
    ensures |r| == n
  {
    seq(n, k => k + 1)
  }

  ghost predicate DistinctNames(ds: seq<StepDecl>) {
    forall i, j | 0 <= i < j < |ds| :: ds[i].name != ds[j].name
  }

  predicate Repeats<T(==)>(xs: seq<T>) {
    exists i, j :: 0 <= i < j < |xs| && xs[i] == xs[j]
  }

  function Names(ds: seq<StepDecl>): (r: seq<string>)
    ensures |r| == |ds|
  {
    seq(|ds|, k requires 0 <= k < |ds| => ds[k].name)
  }

  // ----- ordering by seq -----------------------------------------------------------------------

  ghost predicate Sorted(ds: seq<StepDecl>) { forall i, j | 0 <= i < j < |ds| :: ds[i].position <= ds[j].position }

  /** Stable: a later declaration goes after those with the same seq. */
  function Insert(ds: seq<StepDecl>, d: StepDecl): seq<StepDecl> {
    if ds == [] || ds[|ds| - 1].position <= d.position then ds + [d]
    else Insert(ds[..|ds| - 1], d) + [ds[|ds| - 1]]
  }

  function Collect(ds: seq<StepDecl>): seq<StepDecl> {
    if ds == [] then [] else Insert(Collect(ds[..|ds| - 1]), ds[|ds| - 1])
  }

  lemma {:induction false} InsertKeeps(ds: seq<StepDecl>, d: StepDecl)
    ensures multiset(Insert(ds, d)) == multiset(ds) + multiset{d}
  {
    if ds != [] && ds[|ds| - 1].position > d.position {
      InsertKeeps(ds[..|ds| - 1], d);
      assert ds == ds[..|ds| - 1] + [ds[|ds| - 1]];
    }
  }

  lemma {:induction false} InsertSorts(ds: seq<StepDecl>, d: StepDecl)
    requires Sorted(ds)
    ensures Sorted(Insert(ds, d))
  {
    if ds != [] && ds[|ds| - 1].position > d.position {
      var init, last := ds[..|ds| - 1], ds[|ds| - 1];
      InsertSorts(init, d);
      InsertKeeps(init, d);
      var r := Insert(init, d);
      forall i | 0 <= i < |r| ensures r[i].position <= last.position {
        assert r[i] in multiset(r);
        assert r[i] == d || r[i] in multiset(init);
      }
    }
  }

  lemma {:induction false} CollectKeeps(ds: seq<StepDecl>)
    ensures multiset(Collect(ds)) == multiset(ds)
  {
    if ds != [] {
      var init, last := ds[..|ds| - 1], ds[|ds| - 1];
      CollectKeeps(init);
      InsertKeeps(Collect(init), last);
      assert ds == init + [last];
    }
  }

  lemma {:induction false} CollectSorts(ds: seq<StepDecl>)
    ensures Sorted(Collect(ds))
  {
    if ds != [] {
      CollectSorts(ds[..|ds| - 1]);
      InsertSorts(Collect(ds[..|ds| - 1]), ds[|ds| - 1]);
    }
  }

  lemma SameLength(xs: seq<StepDecl>, ys: seq<StepDecl>)
    requires multiset(xs) == multiset(ys)
    ensures |xs| == |ys|
  {
    assert |multiset(xs)| == |multiset(ys)|;
  }

  // ----- validation ----------------------------------------------------------------------------

  function Validate(steps: seq<StepDecl>): Verdict {
    if steps == [] then Rejected(NoSteps)
    else if Repeats(Seqs(steps)) then Rejected(ReusedSeq)
    else if Seqs(steps) != Range(|steps|) then Rejected(Gap)
    else if Repeats(Names(steps)) then Rejected(ReusedName)
    else Registered(steps)
  }

  function Register(ds: seq<StepDecl>): Verdict { Validate(Collect(ds)) }

  /** Every position from 1 to the number of declarations is some declaration's seq. */
  ghost predicate Covers(ds: seq<StepDecl>) {
    forall k | 1 <= k <= |ds| :: HasSeq(ds, k)
  }

  ghost predicate HasSeq(ds: seq<StepDecl>, k: int) { exists i :: 0 <= i < |ds| && ds[i].position == k }

  /** n ascending numbers that include 1..n are 1..n. */
  lemma {:induction false} CoveredAscending(ds: seq<StepDecl>, n: nat)
    requires Sorted(ds) && |ds| == n && Covers(ds)
    ensures Seqs(ds) == Range(n)
  {
    var at := Where(ds, n);
    forall i | 0 <= i < n ensures ds[i].position == i + 1 {
      Pinned(ds, at, i);
    }
  }

  /** Where each position is declared: a strictly increasing choice of indices. */
  ghost function Where(ds: seq<StepDecl>, n: nat): (at: seq<nat>)
    requires Sorted(ds) && n <= |ds| && forall k | 1 <= k <= n :: HasSeq(ds, k)
    ensures |at| == n
    ensures forall k | 0 <= k < n :: at[k] < |ds| && ds[at[k]].position == k + 1
    ensures forall j, k | 0 <= j < k < n :: at[j] < at[k]
  {
    if n == 0 then []
    else
      assert HasSeq(ds, n);
      var init := Where(ds, n - 1);
      var i :| 0 <= i < |ds| && ds[i].position == n;
      init + [i]
  }

  /** n strictly increasing indices below n are the identity. */
  lemma {:induction false} AtLeastPosition(at: seq<nat>, k: nat)
    requires k < |at| && forall i, j | 0 <= i < j < |at| :: at[i] < at[j]
    ensures at[k] >= k
  {
    if k > 0 { AtLeastPosition(at, k - 1); }
  }

  lemma {:induction false} AtMostPosition(at: seq<nat>, k: nat)
    requires k < |at| && (forall i, j | 0 <= i < j < |at| :: at[i] < at[j]) && at[|at| - 1] < |at|
    ensures at[k] <= k
    decreases |at| - k
  {
    if k + 1 < |at| { AtMostPosition(at, k + 1); }
  }

  lemma Pinned(ds: seq<StepDecl>, at: seq<nat>, i: nat)
    requires i < |ds| == |at| && (forall j, k | 0 <= j < k < |at| :: at[j] < at[k])
    requires forall k | 0 <= k < |at| :: at[k] < |ds| && ds[at[k]].position == k + 1
    ensures ds[i].position == i + 1
  {
    AtLeastPosition(at, i);
    AtMostPosition(at, i);
  }

  lemma SameElements(xs: seq<StepDecl>, ys: seq<StepDecl>, k: int)
    requires multiset(xs) == multiset(ys) && HasSeq(xs, k)
    ensures HasSeq(ys, k)
  {
    var i :| 0 <= i < |xs| && xs[i].position == k;
    assert xs[i] in multiset(ys);
  }

  lemma SameNames(xs: seq<StepDecl>, ys: seq<StepDecl>)
    requires multiset(xs) == multiset(ys) && DistinctNames(xs)
    ensures DistinctNames(ys)
  {
    forall i, j | 0 <= i < j < |ys| ensures ys[i].name != ys[j].name {
      if ys[i].name == ys[j].name {
        assert ys[i] in multiset(xs) && ys[j] in multiset(xs);
        assert ys[i] == ys[j];
        Twice(ys, i, j);
        TwiceAt(xs, ys[i]);
      }
    }
  }

  lemma Twice(ys: seq<StepDecl>, i: nat, j: nat)
    requires i < j < |ys| && ys[i] == ys[j]
    ensures multiset(ys)[ys[i]] >= 2
  {
    assert ys == ys[..j] + ys[j..];
    assert ys[i] in ys[..j] && ys[j..][0] == ys[j];
    assert multiset(ys)[ys[i]] == multiset(ys[..j])[ys[i]] + multiset(ys[j..])[ys[i]];
  }

  lemma {:induction false} TwiceAt(xs: seq<StepDecl>, d: StepDecl)
    requires multiset(xs)[d] >= 2
    ensures !DistinctNames(xs) && SharedSeq(xs)
  {
    var last := xs[|xs| - 1];
    assert xs == xs[..|xs| - 1] + [last];
    if last == d {
      assert d in multiset(xs[..|xs| - 1]);
      var i :| 0 <= i < |xs| - 1 && xs[i] == d;
      assert xs[i].name == xs[|xs| - 1].name && xs[i].position == xs[|xs| - 1].position;
    } else {
      TwiceAt(xs[..|xs| - 1], d);
    }
  }

  /** Two declarations give the same seq. */
  ghost predicate SharedSeq(ds: seq<StepDecl>) {
    exists i, j :: 0 <= i < j < |ds| && ds[i].position == ds[j].position
  }

  lemma SameShared(xs: seq<StepDecl>, ys: seq<StepDecl>)
    requires multiset(xs) == multiset(ys) && SharedSeq(xs)
    ensures SharedSeq(ys)
  {
    var i, j :| 0 <= i < j < |xs| && xs[i].position == xs[j].position;
    assert xs[i] in multiset(ys) && xs[j] in multiset(ys);
    if xs[i] == xs[j] {
      Twice(xs, i, j);
      TwiceAt(ys, xs[i]);
    } else {
      var a :| 0 <= a < |ys| && ys[a] == xs[i];
      var b :| 0 <= b < |ys| && ys[b] == xs[j];
      assert a != b;
      assert ys[a].position == ys[b].position;
    }
  }

  /**
   Registration succeeds exactly for a non-empty set of declarations whose seqs are 1..n in whatever order
   they were written, under n different names; and then step i of the definition is the one declared with
   seq i.
   */
  lemma RegisteredExactlyWhen(ds: seq<StepDecl>)
    ensures Register(ds).Registered? <==> ds != [] && Covers(ds) && DistinctNames(ds)
    ensures Register(ds).Registered? ==>
              var steps := Register(ds).steps;
              && |steps| == |ds| && multiset(steps) == multiset(ds)
              && forall i | 0 <= i < |steps| :: steps[i].position == i + 1
  {
    CollectSorts(ds);
    CollectKeeps(ds);
    SameLength(Collect(ds), ds);
    if ds != [] && Covers(ds) && DistinctNames(ds) { Accepted(ds, Collect(ds)); }
    if Register(ds).Registered? { Faithful(ds, Collect(ds)); }
  }

  lemma Accepted(ds: seq<StepDecl>, steps: seq<StepDecl>)
    requires multiset(ds) == multiset(steps) && |ds| == |steps| && Sorted(steps)
    requires ds != [] && Covers(ds) && DistinctNames(ds)
    ensures Validate(steps).Registered?
  {
    forall k | 1 <= k <= |steps| ensures HasSeq(steps, k) { SameElements(ds, steps, k); }
    CoveredAscending(steps, |steps|);
    SameNames(ds, steps);
    assert forall i | 0 <= i < |steps| :: Seqs(steps)[i] == i + 1;
    assert forall i | 0 <= i < |steps| :: Names(steps)[i] == steps[i].name;
  }

  lemma Faithful(ds: seq<StepDecl>, steps: seq<StepDecl>)
    requires multiset(ds) == multiset(steps) && |ds| == |steps| && Validate(steps).Registered?
    ensures ds != [] && Covers(ds) && DistinctNames(ds)
    ensures forall i | 0 <= i < |steps| :: steps[i].position == i + 1
  {
    assert forall i | 0 <= i < |steps| :: Seqs(steps)[i] == steps[i].position && Range(|steps|)[i] == i + 1;
    forall k | 1 <= k <= |ds| ensures HasSeq(ds, k) {
      assert steps[k - 1].position == k;
      SameElements(steps, ds, k);
    }
    forall i, j | 0 <= i < j < |steps| ensures steps[i].name != steps[j].name {
      assert Names(steps)[i] == steps[i].name && Names(steps)[j] == steps[j].name;
    }
    SameNames(steps, ds);
  }

  /** A refused set of declarations is told the first of four things that is wrong with it. */
  lemma RefusedExactlyWhy(ds: seq<StepDecl>)
    ensures Register(ds) == Rejected(NoSteps) <==> ds == []
    ensures Register(ds) == Rejected(ReusedSeq) <==> SharedSeq(ds)
    ensures Register(ds) == Rejected(Gap) <==> ds != [] && !SharedSeq(ds) && !Covers(ds)
    ensures Register(ds) == Rejected(ReusedName) <==> ds != [] && Covers(ds) && !DistinctNames(ds)
  {
    var steps := Collect(ds);
    CollectSorts(ds);
    CollectKeeps(ds);
    SameLength(steps, ds);
    if SharedSeq(ds) { SameShared(ds, steps); }
    if SharedSeq(steps) { SameShared(steps, ds); }
    assert Repeats(Seqs(steps)) <==> SharedSeq(steps) by { SeqsRepeat(steps); }
    CoversIsRange(ds, steps);
    RegisteredExactlyWhen(ds);
  }

  lemma SeqsRepeat(steps: seq<StepDecl>)
    ensures Repeats(Seqs(steps)) <==> SharedSeq(steps)
  {
    assert forall i | 0 <= i < |steps| :: Seqs(steps)[i] == steps[i].position;
    if SharedSeq(steps) {
      var i, j :| 0 <= i < j < |steps| && steps[i].position == steps[j].position;
      assert Seqs(steps)[i] == Seqs(steps)[j];
    }
  }

  lemma CoversIsRange(ds: seq<StepDecl>, steps: seq<StepDecl>)
    requires multiset(ds) == multiset(steps) && |ds| == |steps| && Sorted(steps)
    ensures Covers(ds) <==> Seqs(steps) == Range(|steps|)
    ensures Covers(ds) ==> !SharedSeq(steps)
  {
    if Covers(ds) {
      forall k | 1 <= k <= |steps| ensures HasSeq(steps, k) { SameElements(ds, steps, k); }
      CoveredAscending(steps, |steps|);
      assert forall i | 0 <= i < |steps| :: Seqs(steps)[i] == i + 1;
      assert forall i | 0 <= i < |steps| :: Seqs(steps)[i] == steps[i].position;
    }
    if Seqs(steps) == Range(|steps|) {
      forall k | 1 <= k <= |ds| ensures HasSeq(ds, k) {
        assert Seqs(steps)[k - 1] == k && steps[k - 1].position == k;
        SameElements(steps, ds, k);
      }
    }
  }

  // ----- collecting a class's steps -----------------------------------------------------------

  /** A class body binds an attribute to a Step object; `id` is the object's identity. */
  datatype Binding = Binding(attr: string, id: nat)

  /** A dict keyed by attribute: rebinding replaces the value where the key already stands. */
  function Bind(found: seq<Binding>, b: Binding): seq<Binding> {
    if found == [] then [b]
    else if found[|found| - 1].attr == b.attr then found[..|found| - 1] + [b]
    else Bind(found[..|found| - 1], b) + [found[|found| - 1]]
  }

  /** `bs` are the Step bindings of every class body, base classes first. Anything else bound is ignored. */
  function Found(bs: seq<Binding>): seq<Binding> {
    if bs == [] then [] else Bind(Found(bs[..|bs| - 1]), bs[|bs| - 1])
  }

  /** One object under several names counts once, where it stood first. */
  function Unique(bs: seq<Binding>): seq<nat> {
    if bs == [] then []
    else
      var init, id := Unique(bs[..|bs| - 1]), bs[|bs| - 1].id;
      if id in init then init else init + [id]
  }

  /** The last Step bound to the attribute is this object: an override wins over what it inherits. */
  ghost predicate Effective(bs: seq<Binding>, b: Binding) {
    exists k :: 0 <= k < |bs| && bs[k] == b && forall m :: k < m < |bs| ==> bs[m].attr != b.attr
  }

  lemma {:induction false} BindReplaces(found: seq<Binding>, b: Binding)
    requires forall i, j | 0 <= i < j < |found| :: found[i].attr != found[j].attr
    ensures var r := Bind(found, b);
            && (forall x :: x in r <==> x == b || (x in found && x.attr != b.attr))
            && (forall i, j | 0 <= i < j < |r| :: r[i].attr != r[j].attr)
  {
    if found != [] {
      var init, last := found[..|found| - 1], found[|found| - 1];
      assert found == init + [last];
      if last.attr != b.attr {
        BindReplaces(init, b);
        assert forall i | 0 <= i < |Bind(init, b)| :: Bind(init, b)[i] in Bind(init, b);
        assert forall x :: x in init ==> x.attr != last.attr;
      } else {
        assert forall x :: x in init ==> x.attr != last.attr;
      }
    }
  }

  lemma {:induction false} FoundIsEffective(bs: seq<Binding>)
    ensures forall i, j | 0 <= i < j < |Found(bs)| :: Found(bs)[i].attr != Found(bs)[j].attr
    ensures forall b :: b in Found(bs) <==> Effective(bs, b)
  {
    if bs != [] {
      var init, last := bs[..|bs| - 1], bs[|bs| - 1];
      FoundIsEffective(init);
      BindReplaces(Found(init), last);
      assert bs == init + [last];
      forall b ensures b in Found(bs) <==> Effective(bs, b) { EffectiveStep(init, last, b); }
    }
  }

  lemma EffectiveStep(init: seq<Binding>, last: Binding, b: Binding)
    ensures Effective(init + [last], b) <==> b == last || (Effective(init, b) && b.attr != last.attr)
  {
    var bs := init + [last];
    if b == last { assert bs[|init|] == b; }
    if Effective(init, b) && b.attr != last.attr {
      var k :| 0 <= k < |init| && init[k] == b && forall m :: k < m < |init| ==> init[m].attr != b.attr;
      assert bs[k] == b;
    }
    if Effective(bs, b) && b != last {
      var k :| 0 <= k < |bs| && bs[k] == b && forall m :: k < m < |bs| ==> bs[m].attr != b.attr;
      assert init[k] == b && bs[|init|].attr != b.attr;
      assert forall m :: k < m < |init| ==> init[m] == bs[m];
    }
  }

  lemma {:induction false} UniqueIsEachOnce(bs: seq<Binding>)
    ensures forall i, j | 0 <= i < j < |Unique(bs)| :: Unique(bs)[i] != Unique(bs)[j]
    ensures forall id :: id in Unique(bs) <==> exists b :: b in bs && b.id == id
  {
    if bs != [] {
      var init, last := bs[..|bs| - 1], bs[|bs| - 1];
      UniqueIsEachOnce(init);
      assert bs == init + [last];
      assert last in bs;
    }
  }

  /** The declarations of a class, in the order the dict holds them. */
  function Declared(objects: nat -> StepDecl, bs: seq<Binding>): seq<StepDecl> {
    var ids := Unique(Found(bs));
    seq(|ids|, k requires 0 <= k < |ids| => objects(ids[k]))
  }

  /** Some attribute still names the object. */
  ghost predicate Named(bs: seq<Binding>, id: nat) { exists attr :: Effective(bs, Binding(attr, id)) }

  /** Exactly the objects that some attribute still names after all overriding, each once. */
  lemma DeclaredExactly(bs: seq<Binding>)
    ensures var ids := Unique(Found(bs));
            && (forall i, j | 0 <= i < j < |ids| :: ids[i] != ids[j])
            && (forall id :: id in ids <==> Named(bs, id))
  {
    FoundIsEffective(bs);
    UniqueIsEachOnce(Found(bs));
    forall id: nat ensures id in Unique(Found(bs)) <==> Named(bs, id) {
      if id in Unique(Found(bs)) {
        var b :| b in Found(bs) && b.id == id;
        assert Effective(bs, Binding(b.attr, id));
      }
      if attr :| Effective(bs, Binding(attr, id)) { assert Binding(attr, id) in Found(bs); }
    }
  }

  function RegisterClass(objects: nat -> StepDecl, bs: seq<Binding>): Verdict { Register(Declared(objects, bs)) }

  /**
   A class is registered exactly when what its attributes finally name is a valid set of declarations, and
   then the definition consists of exactly those.
   */
  lemma ClassRegisteredExactlyWhen(objects: nat -> StepDecl, bs: seq<Binding>)
    ensures var ds := Declared(objects, bs);
            && (RegisterClass(objects, bs).Registered? <==> ds != [] && Covers(ds) && DistinctNames(ds))
            && (RegisterClass(objects, bs).Registered? ==>
                  forall d :: d in RegisterClass(objects, bs).steps <==> exists id :: Named(bs, id) && objects(id) == d)
  {
    var ds, ids := Declared(objects, bs), Unique(Found(bs));
    RegisteredExactlyWhen(ds);
    DeclaredExactly(bs);
    if RegisterClass(objects, bs).Registered? {
      var steps := Register(ds).steps;
      forall d ensures d in steps <==> exists id :: Named(bs, id) && objects(id) == d {
        assert d in steps <==> d in multiset(steps);
        assert d in ds <==> d in multiset(ds);
        if d in ds {
          var k :| 0 <= k < |ds| && ds[k] == d;
          assert ids[k] in ids && Named(bs, ids[k]);
        }
        if id :| Named(bs, id) && objects(id) == d {
          assert id in ids;
          var k :| 0 <= k < |ids| && ids[k] == id;
          assert ds[k] == d;
        }
      }
    }
  }

  // ----- what the rest of the model relies on -------------------------------------------------

  /** The configuration the saga protocol runs with. */
  function Configured(steps: seq<StepDecl>, maxAttempts: nat, undoAttempts: nat): Config {
    Config(seq(|steps|, k requires 0 <= k < |steps| => steps[k].compensable), maxAttempts, undoAttempts)
  }

  /**
   In a registered definition a declaration is found under its name and under its seq alike, and unwinds
   iff it says so.
   */
  lemma PositionsAreNames(ds: seq<StepDecl>, d: StepDecl, maxAttempts: nat, undoAttempts: nat)
    requires Register(ds).Registered? && d in ds
    ensures var steps := Register(ds).steps;
            && 1 <= d.position <= |steps| && steps[d.position - 1] == d
            && (forall e :: e in ds && (e.name == d.name || e.position == d.position) ==> e == d)
            && (Compensable(Configured(steps, maxAttempts, undoAttempts), d.position) <==> d.compensable)
  {
    RegisteredExactlyWhen(ds);
    var steps := Register(ds).steps;
    assert d in multiset(steps);
    forall e | e in ds && (e.name == d.name || e.position == d.position) ensures e == d {
      assert e in multiset(steps);
      assert DistinctNames(ds);
    }
  }
}
