/**
 The byte counter of one pull (`_ProgressTracker`, fusion_mlx/_mirror.py) and why concurrent workers
 that credit optimistically and roll back cannot corrupt it.
 */
module Progress {
  import opened Common

  function Sum(ops: seq<int>): int {
    if ops == [] then 0 else Sum(ops[..|ops|-1]) + ops[|ops|-1]
  }

  /** The counter after the credits (positive) and rollbacks (negative) of `ops`; rollbacks stop at zero. */
  function Counter(ops: seq<int>): nat {
    if ops == [] then 0
    else
      var before, d := Counter(ops[..|ops|-1]), ops[|ops|-1];
      if d > 0 then before + d else Max(0, before + d)
  }

  /** Nobody takes back more than was credited before. */
  ghost predicate Solvent(ops: seq<int>) {
    forall i :: 0 <= i <= |ops| ==> Sum(ops[..i]) >= 0
  }

  const HEARTBEAT_SECONDS := 0.5

  class ProgressTracker {
    var done: nat
    const total: nat
    var lastEmit: real
    ghost var ops: seq<int>  // every change so far

    ghost predicate Valid() reads this { done == Counter(ops) }

    constructor (total: int)
      ensures Valid() && done == 0 && ops == [] && this.total == Max(0, total) && lastEmit == 0.0
    {
      done, lastEmit, ops := 0, 0.0, [];
      this.total := Max(0, total);
    }

    /** Credits `delta` bytes; returns the line to print when a heartbeat is due. */
    method Add(delta: int, now: real) returns (emit: Option<(nat, nat)>)
      requires Valid()
      modifies this
      ensures Valid()
      ensures ops == if delta > 0 then old(ops) + [delta] else old(ops)
      ensures done == old(done) + Max(0, delta)
      ensures emit.Some? <==> delta > 0 && total > 0 && now - old(lastEmit) >= HEARTBEAT_SECONDS
      ensures emit.Some? ==> emit.value.0 <= emit.value.1 == total && (done <= total ==> emit.value.0 == done)
      ensures lastEmit == if emit.Some? then now else old(lastEmit)
    {
      emit := None;
      if delta <= 0 { return; }
      done := done + delta;
      ops := ops + [delta];
      assert ops[..|ops|-1] == old(ops);
      if total <= 0 { return; }
      if now - lastEmit >= HEARTBEAT_SECONDS {
        lastEmit := now;
        emit := Some((if done <= total then done else total, total));
      }
    }

    /** Between two calls of one worker another may have printed, at the given time. */
    method Overtaken(at: Option<real>)
      requires Valid()
      modifies this`lastEmit
      ensures Valid() && lastEmit == if at.Some? then at.value else old(lastEmit)
    {
      if at.Some? { lastEmit := at.value; }
    }

    method Subtract(delta: int)
      requires Valid()
      modifies this
      ensures Valid() && lastEmit == old(lastEmit)
      ensures ops == if delta > 0 then old(ops) + [-delta] else old(ops)
      ensures done == if delta > 0 then Max(0, old(done) - delta) else old(done)
    {
      if delta <= 0 { return; }
      done := Max(0, done - delta);
      ops := ops + [-delta];
      assert ops[..|ops|-1] == old(ops);
    }

    method Flush() returns (emit: Option<(nat, nat)>)
      ensures emit.Some? <==> total > 0
      ensures emit.Some? ==> emit.value.0 <= emit.value.1 == total && (done <= total ==> emit.value.0 == done)
    {
      emit := if total > 0 then Some((if done <= total then done else total, total)) else None;
    }
  }

  // ----- Sums -----

  lemma {:induction false} SumAppend(a: seq<int>, b: seq<int>)
    ensures Sum(a + b) == Sum(a) + Sum(b)
    decreases |b|
  {
    if b == [] {
      assert a + b == a;
    } else {
      assert (a + b)[..|a + b|-1] == a + b[..|b|-1];
      SumAppend(a, b[..|b|-1]);
    }
  }

  lemma SolventAppend(a: seq<int>, d: int)
    requires Solvent(a) && Sum(a) + d >= 0
    ensures Solvent(a + [d]) && Sum(a + [d]) == Sum(a) + d
  {
    assert (a + [d])[..|a|] == a;
    forall i | 0 <= i <= |a| + 1 ensures Sum((a + [d])[..i]) >= 0 {
      if i <= |a| {
        assert (a + [d])[..i] == a[..i];
      } else {
        assert (a + [d])[..i] == a + [d];
      }
    }
  }

  lemma {:induction false} SolventSum(ops: seq<int>)
    requires Solvent(ops)
    ensures Sum(ops) >= 0
  {
    assert ops[..|ops|] == ops;
  }

  /** On solvent histories the clamp of `Subtract` never bites: the counter is the plain sum. */
  lemma {:induction false} ClampNeverBites(ops: seq<int>)
    requires Solvent(ops)
    ensures Counter(ops) == Sum(ops)
    decreases |ops|
  {
    if ops != [] {
      var front := ops[..|ops|-1];
      forall i | 0 <= i <= |front| ensures Sum(front[..i]) >= 0 {
        assert front[..i] == ops[..i];
      }
      ClampNeverBites(front);
      SolventSum(ops);
    }
  }

  // ----- Interleavings -----

  /** One change of the counter, on behalf of file `who`. */
  datatype Change = Change(who: nat, delta: int)

  function Deltas(run: seq<Change>): (ds: seq<int>)
    ensures |ds| == |run|
  {
    seq(|run|, i requires 0 <= i < |run| => run[i].delta)
  }

  /** The changes made on behalf of one file, in order. */
  function Of(run: seq<Change>, who: nat): seq<int> {
    if run == [] then []
    else
      var front, last := Of(run[..|run|-1], who), run[|run|-1];
      if last.who == who then front + [last.delta] else front
  }

  /** Sum over files `0..n` of what their changes add up to. */
  function NetOfAll(run: seq<Change>, n: nat): int {
    if n == 0 then 0 else NetOfAll(run, n - 1) + Sum(Of(run, n - 1))
  }

  lemma {:induction false} OneChange(run: seq<Change>, n: nat)
    requires run != []
    ensures var last := run[|run|-1];
            NetOfAll(run, n) == NetOfAll(run[..|run|-1], n) + if last.who < n then last.delta else 0
  {
    if n > 0 {
      OneChange(run, n - 1);
      var last, front := run[|run|-1], Of(run[..|run|-1], n - 1);
      if last.who == n - 1 {
        assert (front + [last.delta])[..|front|] == front;
      }
    }
  }

  lemma {:induction false} SumIsNetOfAll(run: seq<Change>, n: nat)
    requires forall c :: c in run ==> c.who < n
    ensures Sum(Deltas(run)) == NetOfAll(run, n)
    decreases |run|
  {
    if run == [] {
      EmptyNet(n);
    } else {
      var front := run[..|run|-1];
      assert Deltas(run)[..|run|-1] == Deltas(front);
      SumIsNetOfAll(front, n);
      OneChange(run, n);
      assert run[|run|-1] in run;
    }
  }

  lemma {:induction false} EmptyNet(n: nat)
    ensures NetOfAll([], n) == 0
  {
    if n > 0 { EmptyNet(n - 1); }
  }

  /** A prefix of the run shows each file a prefix of its own changes. */
  lemma {:induction false} PrefixOf(run: seq<Change>, i: nat, who: nat)
    requires i <= |run|
    ensures Of(run[..i], who) <= Of(run, who)
    decreases |run|
  {
    if i == |run| {
      assert run[..i] == run;
    } else {
      var front := run[..|run|-1];
      assert front[..i] == run[..i];
      PrefixOf(front, i, who);
    }
  }

  lemma {:induction false} NetNotNegative(run: seq<Change>, i: nat, n: nat)
    requires i <= |run| && forall w: nat :: w < n ==> Solvent(Of(run, w))
    ensures NetOfAll(run[..i], n) >= 0
    decreases n
  {
    if n > 0 {
      NetNotNegative(run, i, n - 1);
      PrefixOf(run, i, n - 1);
      var all, some := Of(run, n - 1), Of(run[..i], n - 1);
      assert all[..|some|] == some;
    }
  }

  /**
   Whatever the interleaving, if every file's own changes are solvent then the clamp never bites and
   the counter ends at the sum of the files' nets.
   */
  lemma InterleavingConserves(run: seq<Change>, n: nat)
    requires forall c :: c in run ==> c.who < n
    requires forall w: nat :: w < n ==> Solvent(Of(run, w))
    ensures Solvent(Deltas(run)) && Counter(Deltas(run)) == NetOfAll(run, n)
  {
    forall i | 0 <= i <= |run| ensures Sum(Deltas(run)[..i]) >= 0 {
      assert Deltas(run)[..i] == Deltas(run[..i]);
      SumIsNetOfAll(run[..i], n);
      NetNotNegative(run, i, n);
    }
    SumIsNetOfAll(run, n);
    ClampNeverBites(Deltas(run));
  }
}
