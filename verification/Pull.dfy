/**
 One pull: a worker per file (`_do_file`) and the `as_completed` loop that counts outcomes, feeds the
 byte counter and finally pins `refs/main` (`download_with_mirror_fallback`, fusion_mlx/_mirror.py).
 */
module Pull {
  import opened Common
  import opened Progress
  import opened R2Download
  import WarmCache

  /** `Other` is a miss or one of the `skip-*` refusals. */
  datatype Kind = FromR2 | FromHf | FromCache | Other

  /** `Escaped`: the worker raised; `listed` when the loop turns the exception into a miss. */
  datatype Completion = Ended(kind: Kind, size: nat) | Escaped(listed: bool)

  datatype HfResult = HfLanded(size: nat) | HfMissed | HfRaised

  // ----- The worker -----

  /** All that decides how a worker ends. */
  datatype Work = Work(refused: bool, warm: WarmCache.Verdict, useR2: bool, attempt: Attempt, statFails: bool,
                       hf: HfResult)
  {
    predicate Fetches() { !refused && warm.Refetch? }

    /** Credits left beyond the size the worker reports. */
    ghost function Leak(hash: Bytes -> Digest): nat {
      if !Fetches() || !useR2 then 0
      else if attempt.Succeeds(hash) then if statFails then |attempt.Content()| else 0
      else attempt.Leak(hash)
    }

    /**
     What goes wrong when credits are left behind: a due heartbeat cannot be printed, or the test whether
     the blob exists raises out of the attempt, or the size of a file just installed cannot be read back.
     */
    ghost predicate Overcredits(hash: Bytes -> Digest) {
      && Fetches() && useR2
      && (attempt.LosesOutput()
          || (attempt.Escapes(hash) && attempt.Content() != [])
          || (attempt.Succeeds(hash) && statFails && attempt.Content() != []))
    }
  }

  lemma LeaksIffOvercredits(hash: Bytes -> Digest, w: Work)
    ensures w.Leak(hash) > 0 <==> w.Overcredits(hash)
  {
    if w.attempt.LosesOutput() {
      LostIsNotVerified(hash, w.attempt);
    }
  }

  lemma LostIsNotVerified(hash: Bytes -> Digest, a: Attempt)
    requires a.LosesOutput()
    ensures !a.Verifies(hash) && a.Leak(hash) > 0
  {
    var k: nat :| BreaksAt(a.Beats(), a.reply.chunks, k);
    BreaksOnce(a.Beats(), a.reply.chunks, k);
    assert k > 0 ==> InBody(a.reply.chunks, k - 1) && a.Beats().Fails(k - 1 + 1);
  }

  /** `refused` covers the path guards; `statFails` the size readback after a successful attempt. */
  method DoFile(hash: Bytes -> Digest, refused: bool, warm: WarmCache.Verdict, useR2: bool, size: Option<nat>,
                sha: Option<Digest>, env: Env, reply: Reply, statFails: bool, hf: HfResult, side: Sidecar,
                tracker: ProgressTracker)
    returns (c: Completion)
    requires side.Valid() && tracker.Valid()
    modifies side, tracker
    ensures side.Valid() && tracker.Valid()
    ensures var a := Attempt(old(side.part), reply, size, sha, env, tracker.total, old(tracker.lastEmit));
            var w := Work(refused, warm, useR2, a, statFails, hf);
            var fetches, lost := !refused && warm.Refetch?, env.lookRaises || a.Escapes(hash);
            var fallsBack := fetches && (useR2 ==> !lost && !a.Succeeds(hash));
            && (c.Ended? && c.kind.FromR2? <==> fetches && useR2 && !lost && a.Succeeds(hash))
            && (c == Escaped(true) <==> fetches && useR2 && lost)
            && (c.Ended? && c.kind.FromHf? <==> fallsBack && hf.HfLanded?)
            && (c == Escaped(false) <==> fallsBack && hf.HfRaised?)
            && (c.Ended? && c.kind.FromCache? <==> !refused && warm.Cached?)
            && (c.Ended? && c.kind.FromR2? ==> side.installed == Some(a.Content()))
            && Since(old(tracker.ops), tracker.ops, w.Leak(hash) + Reported(c))
    ensures c.Ended? && c.kind.FromR2? ==> side.installed.Some? && Genuine(hash, side.installed.value, size, sha)
    ensures c.Ended? && c.kind.FromR2? && !statFails ==> c.size == |side.installed.value|
    ensures c.Ended? && c.kind.FromHf? ==> hf == HfLanded(c.size)
    ensures c.Ended? && c.kind.FromCache? ==> warm == WarmCache.Cached(c.size)
    ensures c.Ended? && c.kind.Other? ==> c.size == 0
  {
    SinceNothing(tracker.ops);
    if refused { return Ended(Other, 0); }
    match warm {
      case Cached(n) => return Ended(FromCache, n);
      case Miss => return Ended(Other, 0);
      case Refetch =>
    }
    if useR2 {
      var out := DoR2Download(hash, env, size, sha, reply, side, tracker);
      if out.Success? {
        return Ended(FromR2, if statFails then 0 else |side.installed.value|);
      }
      if out.Raised? { return Escaped(true); }
    }
    match hf {
      case HfLanded(n) => c := Ended(FromHf, n);
      case HfMissed => c := Ended(Other, 0);
      case HfRaised => c := Escaped(false);
    }
  }

  /** Bytes a worker reports that the loop will not credit again. */
  function Reported(c: Completion): nat { if c.Ended? && c.kind.FromR2? then c.size else 0 }

  // ----- The completion loop -----

  predicate Landed(c: Completion) { c.Ended? && !c.kind.Other? }

  /** Bytes a completion reports, which the loop adds to the pull's total. */
  function Counted(c: Completion): nat { if Landed(c) then c.size else 0 }

  function TotalBytes(cs: seq<Completion>): nat {
    if cs == [] then 0 else TotalBytes(cs[..|cs|-1]) + Counted(cs[|cs|-1])
  }

  predicate AllLanded(cs: seq<Completion>) {
    forall c :: c in cs ==> Landed(c)
  }

  /** How a completion is counted: an exception on the list counts as a miss. */
  function KindOf(c: Completion): Kind { if c.Ended? then c.kind else Other }

  function CountKind(cs: seq<Completion>, k: Kind): nat {
    if cs == [] then 0 else CountKind(cs[..|cs|-1], k) + if KindOf(cs[|cs|-1]) == k then 1 else 0
  }

  lemma {:induction false} KindsPartition(cs: seq<Completion>)
    ensures CountKind(cs, FromR2) + CountKind(cs, FromHf) + CountKind(cs, FromCache) + CountKind(cs, Other) == |cs|
    ensures CountKind(cs, Other) == 0 <==> AllLanded(cs)
  {
    if cs != [] {
      var front := cs[..|cs|-1];
      KindsPartition(front);
      assert cs == front + [cs[|cs|-1]];
      assert forall c :: c in front ==> c in cs;
      assert cs[|cs|-1] in cs;
    }
  }

  /** Every completion is counted exactly once: under its own kind, a listed exception as a miss. */
  lemma CountedOnce(cs: seq<Completion>, c: Completion, k: Kind)
    requires c != Escaped(false)
    ensures CountKind(cs + [c], k)
            == CountKind(cs, k) + if (c.Ended? && c.kind == k) || (c.Escaped? && k.Other?) then 1 else 0
    ensures TotalBytes(cs + [c]) == TotalBytes(cs) + if c.Escaped? || c.kind.Other? then 0 else c.size
  {
    assert (cs + [c])[..|cs|] == cs;
  }

  /** What the loop itself credits for a completion: files that never went through the chunk loop. */
  function LoopCredit(c: Completion): nat { if Landed(c) && !c.kind.FromR2? then c.size else 0 }

  function LoopCredits(cs: seq<Completion>): seq<int> {
    if cs == [] then []
    else
      var n := LoopCredit(cs[|cs|-1]);
      LoopCredits(cs[..|cs|-1]) + if n > 0 then [n] else []
  }

  /** What the loop's prints do; functions answer the k-th completion, the rest is for the end of the pull. */
  datatype Console = Console(now: nat -> real, others: nat -> Option<real>, beatFails: nat -> bool,
                             lineFails: nat -> bool, flushFails: bool, summaryFails: bool)

  /** The completion loop: the workers in the order they finish, and its output. */
  datatype Loop = Loop(files: seq<Completion>, out: Console, total: nat, lastEmit: real) {
    /** When the pull last printed a heartbeat, before the loop gets to completion `i`. */
    function Before(i: nat): real
      decreases i, 0
    {
      if i == 0 then lastEmit else After(i - 1)
    }

    /** The same when completion `i` is credited, workers having printed meanwhile. */
    function Seen(i: nat): real
      decreases i, 1
    {
      if out.others(i).Some? then out.others(i).value else Before(i)
    }

    predicate Due(i: nat)
      decreases i, 2
    {
      i < |files| && LoopCredit(files[i]) > 0 && total > 0 && out.now(i) - Seen(i) >= HEARTBEAT_SECONDS
    }

    function After(i: nat): real
      decreases i, 3
    {
      if Due(i) then out.now(i) else Seen(i)
    }

    /** Completion `i` ends the loop: its worker's exception is not on the list, or a print raises. */
    predicate Stops(i: nat) {
      i < |files| && (files[i] == Escaped(false) || (Due(i) && out.beatFails(i)) || out.lineFails(i))
    }

    ghost predicate CutShort() { exists i: nat :: Stops(i) }

    function HandledFrom(i: nat): nat
      requires i <= |files|
      decreases |files| - i
    {
      if i == |files| then i else if Stops(i) then i + 1 else HandledFrom(i + 1)
    }

    /** How many completions the loop handles, the one that ends it included. */
    function Handled(): nat { HandledFrom(0) }

    /** Raised in the `finally` that closes the loop. */
    predicate FlushRaises() { total > 0 && out.flushFails }

    /** A file nobody credits: it landed without R2 and the loop was over. */
    predicate Missed(f: nat) { Handled() <= f < |files| && LoopCredit(files[f]) > 0 }
  }

  /** The loop handles the completions before the first that stops it, that one, and no others. */
  lemma {:induction false} HandledUpToTheFirstStop(l: Loop, i: nat)
    requires i <= |l.files| && forall j: nat :: j < i ==> !l.Stops(j)
    ensures var n := l.HandledFrom(i);
            && i <= n <= |l.files| && (forall j: nat :: j < n - 1 ==> !l.Stops(j))
            && (l.CutShort() <==> n > 0 && l.Stops(n - 1))
            && (!l.CutShort() ==> n == |l.files|)
    decreases |l.files| - i
  {
    if i < |l.files| && !l.Stops(i) { HandledUpToTheFirstStop(l, i + 1); }
  }

  datatype RefWrite = Written | NotOpened | Truncated

  datatype Result = Returned(ok: bool) | Propagated

  class Refs {
    var main: Option<string>

    constructor (main: Option<string>) ensures this.main == main { this.main := main; }
  }

  /** Credits a handled completion and prints its heartbeat and status line; says whether a print raised. */
  method Announce(c: Completion, out: Console, i: nat, kind: Kind, size: nat, tracker: ProgressTracker, ghost l: Loop)
    returns (stopped: bool)
    requires tracker.Valid() && l.out == out && l.total == tracker.total && tracker.lastEmit == l.Before(i)
    requires i < |l.files| && c == l.files[i] && c != Escaped(false)
    requires kind == KindOf(c) && (c.Ended? ==> size == c.size)
    modifies tracker
    ensures tracker.Valid() && (stopped <==> l.Stops(i)) && tracker.lastEmit == l.Before(i + 1)
    ensures tracker.ops == old(tracker.ops) + if LoopCredit(c) > 0 then [LoopCredit(c)] else []
  {
    tracker.Overtaken(out.others(i));
    assert tracker.lastEmit == l.Seen(i) && l.Before(i + 1) == l.After(i);
    stopped := false;
    if (kind.FromHf? || kind.FromCache?) && size > 0 {
      var beat := tracker.Add(size, out.now(i));
      assert beat.Some? <==> l.Due(i);
      stopped := beat.Some? && out.beatFails(i);
    } else {
      assert !l.Due(i);
    }
    if !stopped { stopped := out.lineFails(i); }
  }

  lemma CreditsNext(cs: seq<Completion>, i: nat)
    requires i < |cs|
    ensures LoopCredits(cs[..i + 1]) ==
            LoopCredits(cs[..i]) + if LoopCredit(cs[i]) > 0 then [LoopCredit(cs[i])] else []
  {
    OneMore(cs, i);
  }

  lemma TallyNext(cs: seq<Completion>, i: nat, r2Hits: nat, hfHits: nat, misses: nat, totalBytes: nat)
    requires i < |cs| && Tallied(cs[..i], r2Hits, hfHits, misses, totalBytes)
    ensures var k := KindOf(cs[i]);
            Tallied(cs[..i + 1], if k.FromR2? then r2Hits + 1 else r2Hits, if k.FromHf? then hfHits + 1 else hfHits,
                    if k.Other? then misses + 1 else misses, totalBytes + Counted(cs[i]))
  {
    OneMore(cs, i);
  }

  /** The loop stands before completion `i`, or was ended by the one before it. */
  ghost predicate Standing(l: Loop, tracker: ProgressTracker, ops0: seq<int>, i: nat, stopped: bool)
    reads tracker
  {
    && i <= |l.files| && tracker.Valid()
    && (if stopped then i > 0 && l.Stops(i - 1) && l.Handled() == i else l.HandledFrom(i) == l.Handled())
    && (!stopped ==> tracker.lastEmit == l.Before(i) && (i > 0 ==> !l.Stops(i - 1)))
    && tracker.ops == ops0 + LoopCredits(l.files[..i])
  }

  /** The counters cover the completions before `i`, none of which left the loop. */
  ghost predicate Counting(l: Loop, i: nat, stopped: bool, r2Hits: nat, hfHits: nat, misses: nat, totalBytes: nat) {
    !stopped ==>
      i <= |l.files| && Tallied(l.files[..i], r2Hits, hfHits, misses, totalBytes) && Escaped(false) !in l.files[..i]
  }

  /** The `as_completed` loop; `stopped` when an exception leaves it. */
  method Sweep(completions: seq<Completion>, out: Console, tracker: ProgressTracker, ghost l: Loop)
    returns (stopped: bool, r2Hits: nat, hfHits: nat, misses: nat, totalBytes: nat)
    requires tracker.Valid() && l == Loop(completions, out, tracker.total, tracker.lastEmit)
    modifies tracker
    ensures tracker.Valid() && (stopped <==> l.CutShort()) && l.Handled() <= |completions|
    ensures tracker.ops == old(tracker.ops) + LoopCredits(completions[..l.Handled()])
    ensures !stopped ==> Tallied(completions, r2Hits, hfHits, misses, totalBytes)
    ensures !stopped ==> Escaped(false) !in completions
  {
    stopped, r2Hits, hfHits, misses, totalBytes := false, 0, 0, 0, 0;
    var i := 0;
    ghost var ops0 := tracker.ops;
    while i < |completions| && !stopped
      invariant 0 <= i <= |completions|
      invariant Standing(l, tracker, ops0, i, stopped)
      invariant Counting(l, i, stopped, r2Hits, hfHits, misses, totalBytes)
      decreases !stopped, |completions| - i
    {
      var c := completions[i];
      stopped := HandleOne(c, out, i, tracker, l, ops0);
      if !stopped {
        r2Hits, hfHits, misses, totalBytes := CountOne(c, i, r2Hits, hfHits, misses, totalBytes, l);
      }
      i := i + 1;
    }
    HandledUpToTheFirstStop(l, 0);
    assert !stopped ==> completions[..i] == completions;
  }

  /** Counts a completion that did not end the loop. */
  method CountOne(c: Completion, ghost i: nat, r2: nat, hf: nat, missed: nat, bytes: nat, ghost l: Loop)
    returns (r2Hits: nat, hfHits: nat, misses: nat, totalBytes: nat)
    requires i < |l.files| && c == l.files[i] && c != Escaped(false) && Counting(l, i, false, r2, hf, missed, bytes)
    ensures Counting(l, i + 1, false, r2Hits, hfHits, misses, totalBytes)
  {
    TallyNext(l.files, i, r2, hf, missed, bytes);
    OneMore(l.files, i);
    r2Hits, hfHits, misses, totalBytes := r2, hf, missed, bytes;
    match KindOf(c) {
      case FromR2 => r2Hits, totalBytes := r2Hits + 1, totalBytes + c.size;
      case FromHf => hfHits, totalBytes := hfHits + 1, totalBytes + c.size;
      case FromCache => totalBytes := totalBytes + c.size;
      case Other => misses := misses + 1;
    }
  }

  /** One completion: re-raises its worker's exception if that is not on the list, else credits and prints. */
  method HandleOne(c: Completion, out: Console, i: nat, tracker: ProgressTracker, ghost l: Loop, ghost ops0: seq<int>)
    returns (stopped: bool)
    requires i < |l.files| && c == l.files[i] && l.out == out && l.total == tracker.total
    requires Standing(l, tracker, ops0, i, false)
    modifies tracker
    ensures Standing(l, tracker, ops0, i + 1, stopped) && (c == Escaped(false) ==> stopped)
  {
    CreditsNext(l.files, i);
    if c == Escaped(false) {
      stopped := true;
    } else {
      stopped := Announce(c, out, i, KindOf(c), if c.Ended? then c.size else 0, tracker, l);
    }
  }

  /**
   `completions` lists the workers in the order they finish.  An exception out of the loop is propagated
   once every worker has ended and the last heartbeat was tried; nothing is credited for what comes later.
   */
  method Collect(completions: seq<Completion>, out: Console, tracker: ProgressTracker, refs: Refs, revision: string,
                 refWrite: RefWrite)
    returns (res: Result, r2Hits: nat, hfHits: nat, misses: nat, totalBytes: nat)
    requires tracker.Valid()
    modifies tracker, refs
    ensures tracker.Valid()
    ensures var l := Loop(completions, out, tracker.total, old(tracker.lastEmit));
            var through := !l.CutShort() && !l.FlushRaises() && AllLanded(completions);
            && (res == Returned(true) <==> through && refWrite.Written? && !out.summaryFails)
            && (res == Propagated <==>
                  l.CutShort() || l.FlushRaises() || (through && refWrite.Written? && out.summaryFails))
            && (refs.main == if !through || refWrite.NotOpened? then old(refs.main)
                             else if refWrite.Written? then Some(revision) else Some(""))
            && l.Handled() <= |completions|
            && tracker.ops == old(tracker.ops) + LoopCredits(completions[..l.Handled()])
            && (res != Propagated ==>
                  && (forall i :: 0 <= i < |completions| ==> completions[i] != Escaped(false) && !out.lineFails(i))
                  && !(tracker.total > 0 && out.flushFails))
            && (!l.CutShort() ==>
                  && r2Hits == CountKind(completions, FromR2) && hfHits == CountKind(completions, FromHf)
                  && misses == CountKind(completions, Other) && totalBytes == TotalBytes(completions)
                  && r2Hits + hfHits + CountKind(completions, FromCache) + misses == |completions|)
  {
    ghost var l := Loop(completions, out, tracker.total, tracker.lastEmit);
    var stopped;
    stopped, r2Hits, hfHits, misses, totalBytes := Sweep(completions, out, tracker, l);
    KindsPartition(completions);
    forall i | !stopped && 0 <= i < |completions| ensures completions[i] != Escaped(false) && !out.lineFails(i) {
      assert !l.Stops(i);
    }
    var last := tracker.Flush();
    if stopped || (last.Some? && out.flushFails) {
      res := Propagated;
    } else if misses != 0 {
      res := Returned(false);
    } else {
      res := Pin(refs, revision, refWrite);
      if res == Returned(true) && out.summaryFails { res := Propagated; }
    }
  }

  ghost predicate Tallied(cs: seq<Completion>, r2Hits: nat, hfHits: nat, misses: nat, totalBytes: nat) {
    && r2Hits == CountKind(cs, FromR2) && hfHits == CountKind(cs, FromHf) && misses == CountKind(cs, Other)
    && totalBytes == TotalBytes(cs)
  }

  /** Overwrites `refs/main`; a failure after the file was opened leaves it empty. */
  method Pin(refs: Refs, revision: string, refWrite: RefWrite) returns (res: Result)
    modifies refs
    ensures res == Returned(refWrite.Written?)
    ensures refs.main == match refWrite
                         case Written => Some(revision)
                         case Truncated => Some("")
                         case NotOpened => old(refs.main)
  {
    match refWrite {
      case Written => refs.main := Some(revision);
      case Truncated => refs.main := Some("");
      case NotOpened =>
    }
    res := Returned(refWrite.Written?);
  }

  lemma OneMore(cs: seq<Completion>, i: nat)
    requires i < |cs|
    ensures cs[..i + 1] == cs[..i] + [cs[i]] && cs[..i + 1][..i] == cs[..i]
  {
  }

  /** The totals do not depend on the order in which workers finish. */
  lemma {:induction false} OrderDoesNotMatter(cs: seq<Completion>, ds: seq<Completion>)
    requires multiset(cs) == multiset(ds)
    ensures TotalBytes(cs) == TotalBytes(ds)
    ensures AllLanded(cs) <==> AllLanded(ds)
    decreases |cs|
  {
    assert forall c :: c in cs <==> c in multiset(cs);
    assert forall d :: d in ds <==> d in multiset(ds);
    if cs == [] {
      assert |multiset(ds)| == 0;
    } else {
      var j := LastElsewhere(cs, ds);
      TotalWithout(ds, j);
      OrderDoesNotMatter(cs[..|cs|-1], ds[..j] + ds[j + 1..]);
    }
  }

  lemma {:induction false} TotalWithout(ds: seq<Completion>, j: nat)
    requires j < |ds|
    ensures TotalBytes(ds) == TotalBytes(ds[..j] + ds[j + 1..]) + Counted(ds[j])
    decreases |ds|
  {
    var front := ds[..|ds|-1];
    if j == |ds| - 1 {
      assert ds[..j] + ds[j + 1..] == front;
    } else {
      TotalWithout(front, j);
      var rest := ds[..j] + ds[j + 1..];
      assert rest[..|rest|-1] == front[..j] + front[j + 1..] && rest[|rest|-1] == ds[|ds|-1];
    }
  }

  // ----- The byte counter of the whole pull -----

  /** The changes made for one file, by its worker and then, if it gets there, by the loop. */
  ghost predicate FileTrace(hash: Bytes -> Digest, w: Work, c: Completion, handled: bool, worker: seq<int>,
                            all: seq<int>)
  {
    && Since([], worker, w.Leak(hash) + Reported(c))
    && all == worker + if handled then LoopCredits([c]) else []
  }

  /** Bytes of a file that the worker or the loop credits on account of its landing. */
  function Credited(c: Completion, handled: bool): nat { Reported(c) + if handled then LoopCredit(c) else 0 }

  lemma FileTraceNet(hash: Bytes -> Digest, w: Work, c: Completion, handled: bool, worker: seq<int>, all: seq<int>)
    requires FileTrace(hash, w, c, handled, worker, all)
    ensures Solvent(all) && Sum(all) == Credited(c, handled) + w.Leak(hash)
  {
    assert worker[0..] == worker;
    assert [c][..0] == [];
    if handled && LoopCredit(c) > 0 {
      SolventAppend(worker, LoopCredit(c));
      assert LoopCredits([c]) == [] + [LoopCredit(c)];
      assert all == worker + [LoopCredit(c)];
    } else {
      assert handled ==> LoopCredits([c]) == [] + [];
      assert all == worker;
    }
  }

  ghost function Leaks(hash: Bytes -> Digest, works: seq<Work>): nat {
    if works == [] then 0 else Leaks(hash, works[..|works|-1]) + works[|works|-1].Leak(hash)
  }

  /** Over the first `n` completions: what landed and was credited, and what landed and was not. */
  function CreditedBytes(l: Loop, n: nat): nat
    requires n <= |l.files|
  {
    if n == 0 then 0 else CreditedBytes(l, n - 1) + Credited(l.files[n - 1], n - 1 < l.Handled())
  }

  function MissedBytes(l: Loop, n: nat): nat
    requires n <= |l.files|
  {
    if n == 0 then 0 else MissedBytes(l, n - 1) + if l.Missed(n - 1) then LoopCredit(l.files[n - 1]) else 0
  }

  lemma {:induction false} CreditedOrMissed(l: Loop, n: nat)
    requires n <= |l.files|
    ensures CreditedBytes(l, n) + MissedBytes(l, n) == TotalBytes(l.files[..n])
    ensures n == |l.files| ==> l.files[..n] == l.files
  {
    if n > 0 {
      CreditedOrMissed(l, n - 1);
      OneMore(l.files, n - 1);
    }
  }

  lemma {:induction false} NothingMissed(l: Loop, n: nat)
    requires n <= |l.files|
    ensures MissedBytes(l, n) == 0 <==> forall f: nat :: f < n ==> !l.Missed(f)
  {
    if n > 0 { NothingMissed(l, n - 1); }
  }

  /** The workers' and the loop's changes in some interleaving, file by file in the order of completion. */
  ghost predicate PullTrace(hash: Bytes -> Digest, run: seq<Change>, works: seq<Work>, l: Loop,
                            workers: seq<seq<int>>)
  {
    && |works| == |l.files| == |workers|
    && (forall ch :: ch in run ==> ch.who < |l.files|)
    && (forall f: nat :: f < |l.files| ==>
          FileTrace(hash, works[f], l.files[f], f < l.Handled(), workers[f], Of(run, f)))
  }

  /**
   However the workers interleave and wherever the loop stops, no rollback is clipped, and at the final
   flush the counter is what landed and was credited, plus the leaks.
   */
  lemma FinalCount(hash: Bytes -> Digest, run: seq<Change>, works: seq<Work>, l: Loop, workers: seq<seq<int>>)
    requires PullTrace(hash, run, works, l, workers)
    ensures Solvent(Deltas(run)) && Counter(Deltas(run)) == CreditedBytes(l, |l.files|) + Leaks(hash, works)
    ensures CreditedBytes(l, |l.files|) + MissedBytes(l, |l.files|) == TotalBytes(l.files)
  {
    forall f: nat | f < |l.files|
      ensures Solvent(Of(run, f)) && Sum(Of(run, f)) == Credited(l.files[f], f < l.Handled()) + works[f].Leak(hash)
    {
      FileTraceNet(hash, works[f], l.files[f], f < l.Handled(), workers[f], Of(run, f));
    }
    InterleavingConserves(run, |l.files|);
    NetIsTotal(hash, run, works, l, |l.files|);
    CreditedOrMissed(l, |l.files|);
  }

  /**
   The final count is the number of reported bytes precisely when the leaks make up for what the loop
   missed.  There are leaks exactly when something overcredits and misses exactly when the loop ended
   before a file it had to credit, so with only one kind of fault about, exactness means neither happened.
   */
  lemma ExactIff(hash: Bytes -> Digest, run: seq<Change>, works: seq<Work>, l: Loop, workers: seq<seq<int>>)
    requires PullTrace(hash, run, works, l, workers)
    ensures var exact := Counter(Deltas(run)) == TotalBytes(l.files);
            var overcredited, missed := exists w :: w in works && w.Overcredits(hash), exists f: nat :: l.Missed(f);
            && (exact <==> Leaks(hash, works) == MissedBytes(l, |l.files|))
            && (overcredited <==> Leaks(hash, works) > 0)
            && (missed <==> MissedBytes(l, |l.files|) > 0)
            && (!overcredited || !missed ==> (exact <==> !overcredited && !missed))
  {
    FinalCount(hash, run, works, l, workers);
    NoLeaks(hash, works);
    NothingMissed(l, |l.files|);
  }

  lemma {:induction false} NoLeaks(hash: Bytes -> Digest, works: seq<Work>)
    ensures Leaks(hash, works) == 0 <==> forall w :: w in works ==> !w.Overcredits(hash)
  {
    if works != [] {
      var front, last := works[..|works|-1], works[|works|-1];
      NoLeaks(hash, front);
      LeaksIffOvercredits(hash, last);
      assert works == front + [last];
    }
  }

  lemma {:induction false} NetIsTotal(hash: Bytes -> Digest, run: seq<Change>, works: seq<Work>, l: Loop, n: nat)
    requires n <= |l.files| == |works|
    requires forall f: nat :: f < n ==>
               Sum(Of(run, f)) == Credited(l.files[f], f < l.Handled()) + works[f].Leak(hash)
    ensures NetOfAll(run, n) == CreditedBytes(l, n) + Leaks(hash, works[..n])
    ensures n == |works| ==> works[..n] == works
  {
    if n > 0 {
      NetIsTotal(hash, run, works, l, n - 1);
      assert works[..n][..n - 1] == works[..n - 1];
    }
  }

  // ----- Pulls that miscount -----

  /** A working machine, except that one print fails: the heartbeat of the first chunk. */
  function OneLostPrint(): Env {
    Env(false, false, false, false, _ => false, false, false, true, Linked(false), _ => 1.0, _ => None, k => k == 1)
  }

  /** All prints of the completion loop go out. */
  function AllPrinted(): Console { Console(_ => 2.0, _ => None, _ => false, _ => false, false, false) }

  /** A whole file in one chunk. */
  function OneChunk(chunk: Bytes): Reply { Reply(200, Announced(|chunk|), None, [chunk], false) }

  /** The first chunk of a fresh pull of `total` bytes, whose heartbeat cannot be printed. */
  function LostFirst(chunk: Bytes, total: nat): Attempt {
    Attempt(None, OneChunk(chunk), Some(|chunk|), None, OneLostPrint(), total, 0.0)
  }

  lemma FirstPrintFails(hash: Bytes -> Digest, chunk: Bytes, total: nat)
    requires chunk != [] && total > 0
    ensures var a := LostFirst(chunk, total);
            a.LosesOutput() && !a.Verifies(hash) && a.Leak(hash) == |chunk|
  {
    var hb := LostFirst(chunk, total).Beats();
    assert !hb.Fails(0) && hb.Seen(1) == hb.After(0) == 0.0;
    assert InBody([chunk], 0);
    BreaksOnce(hb, [chunk], 1);
    LostIsNotVerified(hash, LostFirst(chunk, total));
  }

  lemma NetOfHistory(ops: seq<int>, n: nat)
    requires Since([], ops, n)
    ensures Counter(ops) == n
  {
    assert ops[0..] == ops;
    ClampNeverBites(ops);
  }

  /** One heartbeat that cannot be printed makes a complete and pinned pull count every byte twice. */
  method OvercountedPull(hash: Bytes -> Digest, chunk: Bytes, revision: string)
    returns (done: nat, res: Result, totalBytes: nat)
    requires chunk != []
    ensures res == Returned(true) && totalBytes == |chunk| && done == 2 * totalBytes
  {
    var tracker := new ProgressTracker(|chunk|);
    var side := new Sidecar();
    var refs := new Refs(None);
    FirstPrintFails(hash, chunk, |chunk|);
    var c := DoFile(hash, false, WarmCache.Refetch, true, Some(|chunk|), None, OneLostPrint(), OneChunk(chunk), false,
                    HfLanded(|chunk|), side, tracker);
    assert c == Ended(FromHf, |chunk|) && Since([], tracker.ops, |chunk|);
    SinceChange([], tracker.ops, |chunk|, |chunk|);
    ghost var worker := tracker.ops;
    ghost var l := Loop([c], AllPrinted(), tracker.total, tracker.lastEmit);
    var r2, hf, misses;
    res, r2, hf, misses, totalBytes := Collect([c], AllPrinted(), tracker, refs, revision, Written);
    HandledUpToTheFirstStop(l, 0);
    assert !l.CutShort() && [c][..1] == [c] && [c][..0] == [] && LoopCredits([c]) == [] + [|chunk|];
    assert tracker.ops == worker + [|chunk|];
    NetOfHistory(tracker.ops, 2 * |chunk|);
    done := tracker.done;
  }

  /** A worker exception that is not on the loop's list makes the bytes of a file that finishes later go uncounted. */
  method UndercountedPull(hash: Bytes -> Digest, n: nat, revision: string)
    returns (done: nat, res: Result, files: seq<Completion>)
    requires n > 0
    ensures res == Propagated && files == [Escaped(false), Ended(FromHf, n)] && TotalBytes(files) == n && done == 0
  {
    var tracker := new ProgressTracker(n);
    var refs := new Refs(None);
    files := [Escaped(false), Ended(FromHf, n)];
    ghost var l := Loop(files, AllPrinted(), n, 0.0);
    assert l.Stops(0) && l.Handled() == 1;
    var r2, hf, misses, total;
    res, r2, hf, misses, total := Collect(files, AllPrinted(), tracker, refs, revision, Written);
    assert files[..1] == [files[0]] && files[..1][..0] == [] && LoopCredits(files[..1]) == [] + [];
    assert tracker.ops == [];
    TotalOfTwo(files[0], files[1]);
    done := tracker.done;
  }

  lemma TotalOfTwo(c: Completion, d: Completion)
    ensures TotalBytes([c, d]) == Counted(c) + Counted(d)
  {
    assert [c, d][..1] == [c] && [c][..0] == [];
    assert TotalBytes([c]) == Counted(c);
  }

  /**
   Both faults together can cancel: one file leaves its bytes credited and then fails, another of the
   same size lands uncounted, and the counter shows the reported total.
   */
  method FaultsCancel(hash: Bytes -> Digest, chunk: Bytes, revision: string)
    returns (done: nat, res: Result, files: seq<Completion>)
    requires chunk != []
    ensures res == Propagated && files == [Escaped(false), Ended(FromHf, |chunk|)]
    ensures done == TotalBytes(files) == |chunk|
  {
    var tracker := new ProgressTracker(2 * |chunk|);
    var side := new Sidecar();
    var refs := new Refs(None);
    FirstPrintFails(hash, chunk, 2 * |chunk|);
    var c := DoFile(hash, false, WarmCache.Refetch, true, Some(|chunk|), None, OneLostPrint(), OneChunk(chunk), false,
                    HfRaised, side, tracker);
    files := [c, Ended(FromHf, |chunk|)];
    ghost var worker := tracker.ops;
    ghost var l := Loop(files, AllPrinted(), tracker.total, tracker.lastEmit);
    assert l.Stops(0) && l.Handled() == 1;
    var r2, hf, misses, total;
    res, r2, hf, misses, total := Collect(files, AllPrinted(), tracker, refs, revision, Written);
    assert files[..1] == [files[0]] && files[..1][..0] == [] && LoopCredits(files[..1]) == [] + [];
    assert tracker.ops == worker;
    NetOfHistory(worker, |chunk|);
    TotalOfTwo(files[0], files[1]);
    done := tracker.done;
  }
}
