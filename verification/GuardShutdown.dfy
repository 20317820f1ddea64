/**
 Guarded shutdown (fusion_mlx/_parent_watchdog.py): a SIGTERM that finds work in flight is deferred to a
 polling thread, which later forces the shutdown by re-delivering the signal.

 Signal handler activations may nest, so they are modelled as concurrent; every read and every write of
 a shared flag is a separate step.
 */
module GuardShutdown {
  import opened Common

  // ----- Busy probes -----

  /** What calling a probe does: it returns `True`, something else, or raises. */
  datatype Probe = SaysBusy | SaysOther | RaisesError

  method JobsInFlight(probes: seq<Probe>) returns (busy: bool)
    ensures busy <==> exists i :: 0 <= i < |probes| && (probes[i].SaysBusy? || probes[i].RaisesError?)
  {
    for i := 0 to |probes|
      invariant forall j :: 0 <= j < i ==> probes[j].SaysOther?
    {
      if probes[i].SaysBusy? { return true; }
      if probes[i].RaisesError? { return true; }
    }
    return false;
  }

  // ----- The deferral thread -----

  datatype Why = Drained | Expired

  const POLL_INTERVAL := 2.0

  function Ceil(x: real): (n: int)
    ensures (n - 1) as real < x <= n as real
  {
    -((-x).Floor)
  }

  /** The module-level flags; `delivered` records the force flag at each self-sent SIGTERM. */
  class Flags {
    var deferring: bool
    var force: bool
    ghost var delivered: seq<bool>

    constructor ()
      ensures !deferring && !force && delivered == []
    {
      deferring, force, delivered := false, false, [];
    }

    /**
     `busy(i)` and `clock(i)` are what poll number `i` observes; a sleep lasts at least the interval.  The
     window is `None` when it is infinite, and what is required is what `PollingEndsIff` shows to be needed.
     */
    method RunGuardDeferral(window: Option<real>, start: real, busy: nat -> bool, clock: nat -> real)
      returns (polls: nat, why: Why)
      requires Ticks(start, clock) && (window.Some? ==> window.value >= 0.0)
      requires window.Some? || exists i: nat :: !busy(i)
      modifies this
      ensures polls >= 1 && Stops(window, start, busy, clock, polls - 1)
      ensures forall i: nat :: i < polls - 1 ==> !Stops(window, start, busy, clock, i)
      ensures window.Some? ==> polls <= Ceil(window.value / POLL_INTERVAL) + 1
      ensures why == Drained <==> !busy(polls - 1)
      ensures !deferring && force && delivered == old(delivered) + [true]
    {
      ghost var last := LastPoll(window, start, busy, clock);
      polls := 0;
      var done := false;
      why := Drained;
      while !done
        invariant polls <= last + 1 && (done ==> polls >= 1)
        invariant done ==> Stops(window, start, busy, clock, polls - 1) && (why == Drained <==> !busy(polls - 1))
        invariant forall i: nat :: i < (if done then polls - 1 else polls) ==> !Stops(window, start, busy, clock, i)
        invariant unchanged(this)
        decreases !done, last + 1 - polls
      {
        if !busy(polls) {
          why, done := Drained, true;
        } else if window.Some? && clock(polls) >= start + window.value {
          why, done := Expired, true;
        }
        polls := polls + 1;
      }
      deferring := false;
      force := true;
      delivered := delivered + [force];
    }
  }

  /** At least the polling interval passes between two looks at the clock. */
  ghost predicate Ticks(start: real, clock: nat -> real) {
    clock(0) >= start && forall i: nat :: clock(i + 1) >= clock(i) + POLL_INTERVAL
  }

  /** Poll `n` ends the loop: nothing is in flight, or the window is over. */
  predicate Stops(window: Option<real>, start: real, busy: nat -> bool, clock: nat -> real, n: nat) {
    !busy(n) || (window.Some? && clock(n) >= start + window.value)
  }

  /** A poll that ends the loop, numbered at most `window / interval` rounded up when the window is finite. */
  lemma LastPoll(window: Option<real>, start: real, busy: nat -> bool, clock: nat -> real) returns (n: nat)
    requires Ticks(start, clock) && (window.Some? ==> window.value >= 0.0)
    requires window.Some? || exists i: nat :: !busy(i)
    ensures Stops(window, start, busy, clock, n)
    ensures window.Some? ==> n == Ceil(window.value / POLL_INTERVAL)
  {
    if window.Some? {
      n := Ceil(window.value / POLL_INTERVAL);
      ClockAdvances(start, clock, n);
    } else {
      n :| !busy(n);
    }
  }

  /**
   A deferral ends if and only if its window is finite or some poll finds nothing in flight.  The window
   comes from an environment variable, which can spell infinity.
   */
  lemma PollingEndsIff(window: Option<real>, start: real, busy: nat -> bool, clock: nat -> real)
    requires Ticks(start, clock) && (window.Some? ==> window.value >= 0.0)
    ensures (exists n: nat :: Stops(window, start, busy, clock, n)) <==> window.Some? || exists i: nat :: !busy(i)
  {
    if window.Some? || exists i: nat :: !busy(i) {
      var n := LastPoll(window, start, busy, clock);
    }
  }

  lemma {:induction false} ClockAdvances(start: real, clock: nat -> real, i: nat)
    requires Ticks(start, clock)
    ensures clock(i) >= start + POLL_INTERVAL * (i as real)
  {
    if i > 0 { ClockAdvances(start, clock, i - 1); }
  }

  // ----- The protocol -----

  /** Why a handler went on to shut the server down. */
  datatype Reason = Interrupt | Forced | AlreadyDown | GuardOff | Idle | Override

  datatype HandlerPc =
    | Entered           // about to read the force flag
    | NotForced         // about to read the shutdown event
    | NotDown           // about to read the guard mode
    | Guarded           // about to call the probes
    | WorkInFlight      // about to read the deferring flag
    | Deciding          // about to set the deferring flag
    | Spawning          // about to start the deferral thread
    | Deferred          // returned without shutting down
    | Proceeding(reason: Reason)
    | ShutDown(reason: Reason)

  /** `bornForced` is history: the force flag was up when the signal arrived. */
  datatype Handler = Handler(term: bool, pc: HandlerPc, bornForced: bool)

  datatype ThreadPc =
    | Polling | Leaving(why: Why) | Clearing(why: Why) | Delivering(why: Why) | Over(why: Why, sent: nat)

  datatype State = State(guardMode: bool, deferring: bool, force: bool, shutdown: bool,
                         handlers: seq<Handler>, threads: seq<ThreadPc>)

  /** `busy` and `late` are what the environment answers when the step asks. */
  datatype Event = Signal(term: bool) | HandlerStep(h: nat, busy: bool) | ThreadStep(t: nat, busy: bool, late: bool)

  predicate CanStep(s: State, e: Event) {
    match e
    case Signal(_) => true
    case HandlerStep(h, _) => h < |s.handlers| && !s.handlers[h].pc.Deferred? && !s.handlers[h].pc.ShutDown?
    case ThreadStep(t, _, _) => t < |s.threads| && !s.threads[t].Over?
  }

  function Arrive(s: State, term: bool): State {
    s.(handlers := s.handlers + [Handler(term, if term then Entered else Proceeding(Interrupt), s.force)])
  }

  function NextPc(s: State, pc: HandlerPc, busy: bool): HandlerPc {
    match pc
    case Entered => if s.force then Proceeding(Forced) else NotForced
    case NotForced => if s.shutdown then Proceeding(AlreadyDown) else NotDown
    case NotDown => if s.guardMode then Guarded else Proceeding(GuardOff)
    case Guarded => if busy then WorkInFlight else Proceeding(Idle)
    case WorkInFlight => if s.deferring then Proceeding(Override) else Deciding
    case Deciding => Spawning
    case Spawning => Deferred
    case Proceeding(r) => ShutDown(r)
    case _ => pc
  }

  function Step(s: State, e: Event): State
    requires CanStep(s, e)
  {
    match e
    case Signal(term) => Arrive(s, term)
    case HandlerStep(h, busy) =>
      var pc := s.handlers[h].pc;
      s.(handlers := s.handlers[h := s.handlers[h].(pc := NextPc(s, pc, busy))],
         deferring := s.deferring || pc.Deciding?,
         shutdown := s.shutdown || pc.Proceeding?,
         threads := if pc.Spawning? then s.threads + [Polling] else s.threads)
    case ThreadStep(t, busy, late) =>
      match s.threads[t]
      case Polling =>
        s.(threads := s.threads[t := if !busy then Leaving(Drained) else if late then Leaving(Expired) else Polling])
      case Leaving(why) => s.(threads := s.threads[t := Clearing(why)], deferring := false)
      case Clearing(why) => s.(threads := s.threads[t := Delivering(why)], force := true)
      case Delivering(why) => Arrive(s, true).(threads := s.threads[t := Over(why, |s.handlers|)])
      case Over(_, _) => s
  }

  ghost predicate Init(s: State) {
    !s.deferring && !s.force && !s.shutdown && s.handlers == [] && s.threads == []
  }

  ghost predicate Reaches(s: State, run: seq<Event>, s': State)
    decreases |run|
  {
    if run == [] then s == s'
    else CanStep(s, run[0]) && Reaches(Step(s, run[0]), run[1..], s')
  }

  // ----- Invariant -----

  /** A thread that gave up waiting and has raised the force flag. */
  predicate HasForced(t: ThreadPc) { t.Delivering? || t.Over? }

  ghost predicate SomeForced(s: State) { exists t :: 0 <= t < |s.threads| && HasForced(s.threads[t]) }

  /** A deferral is under way: its thread is about to start, polls, or has not yet cleared the flag. */
  ghost predicate DeferralActive(s: State) {
    || (exists h :: 0 <= h < |s.handlers| && s.handlers[h].pc.Spawning?)
    || (exists t :: 0 <= t < |s.threads| && (s.threads[t].Polling? || s.threads[t].Leaving?))
  }

  /** Some other SIGTERM found work in flight and began a deferral. */
  ghost predicate OtherDeferral(s: State, h: nat) {
    exists o :: 0 <= o < |s.handlers| && o != h && Began(s.handlers[o])
  }

  predicate Began(x: Handler) { x.term && (x.pc.Spawning? || x.pc.Deferred?) }

  ghost predicate HandlerOk(s: State, h: nat)
    requires h < |s.handlers|
  {
    var x := s.handlers[h];
    && (x.pc.ShutDown? ==> s.shutdown)
    && (!x.term ==> x.pc == Proceeding(Interrupt) || x.pc == ShutDown(Interrupt))
    && (x.pc == Proceeding(AlreadyDown) ==> s.shutdown)
    && (x.bornForced ==> s.force)
    && (x.bornForced && x.term ==> x.pc == Entered || x.pc == Proceeding(Forced) || x.pc == ShutDown(Forced))
  }

  ghost predicate ThreadOk(s: State, t: nat)
    requires t < |s.threads|
  {
    && (HasForced(s.threads[t]) ==> s.force)
    && (s.threads[t].Over? ==>
          && s.threads[t].sent < |s.handlers|
          && s.handlers[s.threads[t].sent].term && s.handlers[s.threads[t].sent].bornForced)
  }

  ghost predicate Inv(s: State) {
    && (s.force ==> SomeForced(s))
    && (s.deferring ==> DeferralActive(s))
    && (forall t :: 0 <= t < |s.threads| && (s.threads[t].Polling? || s.threads[t].Leaving?) ==>
          exists o :: 0 <= o < |s.handlers| && s.handlers[o].term && s.handlers[o].pc.Deferred?)
    && (s.shutdown ==> exists h :: 0 <= h < |s.handlers| && Originated(s.handlers[h]))
    && (forall h :: 0 <= h < |s.handlers| ==> HandlerOk(s, h))
    && (forall t :: 0 <= t < |s.threads| ==> ThreadOk(s, t))
  }

  /** It shut the server down for a reason of its own. */
  predicate Originated(x: Handler) { x.pc.ShutDown? && !x.pc.reason.AlreadyDown? }

  // ----- Preservation -----

  /** What never goes back: flags stay up, decisions stay taken, threads that forced have forced. */
  ghost predicate Later(s: State, s': State) {
    && s'.guardMode == s.guardMode && (s.force ==> s'.force) && (s.shutdown ==> s'.shutdown)
    && |s.handlers| <= |s'.handlers| && |s.threads| <= |s'.threads|
    && (forall h :: 0 <= h < |s.handlers| ==> SameSignal(s.handlers[h], s'.handlers[h]))
    && (forall t :: 0 <= t < |s.threads| && HasForced(s.threads[t]) ==> HasForced(s'.threads[t]))
  }

  ghost predicate SameSignal(x: Handler, y: Handler) {
    && y.term == x.term && y.bornForced == x.bornForced
    && (x.pc.Deferred? || x.pc.ShutDown? ==> y.pc == x.pc)
    && (x.pc.Spawning? ==> y.pc.Spawning? || y.pc.Deferred?)
  }

  lemma StepIsLater(s: State, e: Event)
    requires CanStep(s, e)
    ensures Later(s, Step(s, e))
  {
  }

  /**
   A handler that reads the deferring flag up meets a deferral that is still under way, begun by another
   SIGTERM.
   */
  lemma DeferringMeansOther(s: State, h: nat)
    requires Inv(s) && s.deferring && h < |s.handlers| && s.handlers[h].pc.WorkInFlight?
    ensures DeferralActive(s) && OtherDeferral(s, h)
  {
    if o :| 0 <= o < |s.handlers| && s.handlers[o].pc.Spawning? {
      assert HandlerOk(s, o);
      assert Began(s.handlers[o]);
    } else {
      var t :| 0 <= t < |s.threads| && (s.threads[t].Polling? || s.threads[t].Leaving?);
      var o :| 0 <= o < |s.handlers| && s.handlers[o].term && s.handlers[o].pc.Deferred?;
      assert Began(s.handlers[o]);
    }
  }

  lemma HandlersStayOk(s: State, e: Event)
    requires Inv(s) && CanStep(s, e)
    ensures forall h :: 0 <= h < |Step(s, e).handlers| ==> HandlerOk(Step(s, e), h)
  {
    var s' := Step(s, e);
    forall h | 0 <= h < |s'.handlers| ensures HandlerOk(s', h) {
      if h < |s.handlers| { assert HandlerOk(s, h); }
    }
  }

  lemma ThreadsStayOk(s: State, e: Event)
    requires Inv(s) && CanStep(s, e)
    ensures forall t :: 0 <= t < |Step(s, e).threads| ==> ThreadOk(Step(s, e), t)
  {
    var s' := Step(s, e);
    StepIsLater(s, e);
    forall t | 0 <= t < |s'.threads| ensures ThreadOk(s', t) {
      if t < |s.threads| {
        assert ThreadOk(s, t);
        if s.threads[t].Over? { assert SameSignal(s.handlers[s.threads[t].sent], s'.handlers[s.threads[t].sent]); }
      }
    }
  }

  lemma WaitingThreadsHaveADeferral(s: State, e: Event)
    requires Inv(s) && CanStep(s, e)
    ensures var s' := Step(s, e);
            forall t :: 0 <= t < |s'.threads| && (s'.threads[t].Polling? || s'.threads[t].Leaving?) ==>
              exists o :: 0 <= o < |s'.handlers| && s'.handlers[o].term && s'.handlers[o].pc.Deferred?
  {
    var s' := Step(s, e);
    StepIsLater(s, e);
    forall t | 0 <= t < |s'.threads| && (s'.threads[t].Polling? || s'.threads[t].Leaving?)
      ensures exists o :: 0 <= o < |s'.handlers| && s'.handlers[o].term && s'.handlers[o].pc.Deferred?
    {
      if t < |s.threads| {
        var o :| 0 <= o < |s.handlers| && s.handlers[o].term && s.handlers[o].pc.Deferred?;
        assert SameSignal(s.handlers[o], s'.handlers[o]);
      } else {
        assert HandlerOk(s, e.h);
        assert s'.handlers[e.h].pc.Deferred?;
      }
    }
  }

  lemma ForceStaysBacked(s: State, e: Event)
    requires Inv(s) && CanStep(s, e) && Step(s, e).force
    ensures SomeForced(Step(s, e))
  {
    var s' := Step(s, e);
    if s.force {
      var t :| 0 <= t < |s.threads| && HasForced(s.threads[t]);
      assert HasForced(s'.threads[t]);
    } else {
      assert HasForced(s'.threads[e.t]);
    }
  }

  lemma DeferringStaysBacked(s: State, e: Event)
    requires Inv(s) && CanStep(s, e) && Step(s, e).deferring
    ensures DeferralActive(Step(s, e))
  {
    var s' := Step(s, e);
    if !s.deferring {
      assert s'.handlers[e.h].pc.Spawning?;
    } else if h :| 0 <= h < |s.handlers| && s.handlers[h].pc.Spawning? {
      if e.HandlerStep? && e.h == h {
        assert s'.threads[|s.threads|].Polling?;
      } else {
        assert s'.handlers[h].pc.Spawning?;
      }
    } else {
      var t :| 0 <= t < |s.threads| && (s.threads[t].Polling? || s.threads[t].Leaving?);
      assert s'.threads[t].Polling? || s'.threads[t].Leaving?;
    }
  }

  lemma ShutdownStaysExplained(s: State, e: Event)
    requires Inv(s) && CanStep(s, e) && Step(s, e).shutdown
    ensures var s' := Step(s, e);
            exists h :: 0 <= h < |s'.handlers| && Originated(s'.handlers[h])
  {
    var s' := Step(s, e);
    StepIsLater(s, e);
    if s.shutdown {
      var h :| 0 <= h < |s.handlers| && Originated(s.handlers[h]);
      assert SameSignal(s.handlers[h], s'.handlers[h]);
      assert Originated(s'.handlers[h]);
    } else {
      assert HandlerOk(s, e.h);
      assert Originated(s'.handlers[e.h]);
    }
  }

  lemma {:induction false} EveryRunKeepsInv(s: State, run: seq<Event>, s': State)
    requires Inv(s) && Reaches(s, run, s')
    ensures Inv(s') && Later(s, s')
    decreases |run|
  {
    if run != [] {
      var m, e := Step(s, run[0]), run[0];
      HandlersStayOk(s, e);
      ThreadsStayOk(s, e);
      WaitingThreadsHaveADeferral(s, e);
      if m.force { ForceStaysBacked(s, e); }
      if m.deferring { DeferringStaysBacked(s, e); }
      if m.shutdown { ShutdownStaysExplained(s, e); }
      StepIsLater(s, e);
      EveryRunKeepsInv(m, run[1..], s');
      LaterTransitive(s, m, s');
    }
  }

  lemma LaterTransitive(a: State, b: State, c: State)
    requires Later(a, b) && Later(b, c)
    ensures Later(a, c)
  {
    forall h | 0 <= h < |a.handlers| ensures SameSignal(a.handlers[h], c.handlers[h]) {
      assert SameSignal(a.handlers[h], b.handlers[h]) && SameSignal(b.handlers[h], c.handlers[h]);
    }
  }

  // ----- Main results -----

  /** The state before the last event of a run. */
  lemma {:induction false} LastStep(s: State, run: seq<Event>, s': State) returns (m: State)
    requires Reaches(s, run, s') && run != []
    ensures Reaches(s, run[..|run|-1], m) && CanStep(m, run[|run|-1]) && s' == Step(m, run[|run|-1])
    decreases |run|
  {
    if |run| == 1 {
      assert Reaches(Step(s, run[0]), run[1..], s') && run[1..] == [];
      m := s;
    } else {
      m := LastStep(Step(s, run[0]), run[1..], s');
      assert run[..|run|-1][1..] == run[1..][..|run|-2];
    }
  }

  /** In `m` the event `e` is the moment a handler takes the decision `r`, and what it sees there. */
  ghost predicate Decides(m: State, e: Event, h: nat, r: Reason) {
    if r.Interrupt? then e == Signal(false) && h == |m.handlers|
    else
      && e.HandlerStep? && e.h == h < |m.handlers| && m.handlers[h].term
      && var pc := m.handlers[h].pc;
         match r
         case Forced => pc.Entered? && m.force && SomeForced(m)
         case AlreadyDown => pc.NotForced? && m.shutdown
         case GuardOff => pc.NotDown? && !m.guardMode
         case Idle => pc.Guarded? && !e.busy
         case Override => pc.WorkInFlight? && m.deferring && DeferralActive(m) && OtherDeferral(m, h)
         case _ => false
  }

  predicate Decided(pc: HandlerPc) { pc.Proceeding? || pc.ShutDown? }

  /** Every decision to shut down was taken at some moment of the run, for the reason that held there. */
  lemma {:induction false} DecisionHasMoment(s: State, run: seq<Event>, s': State, h: nat) returns (i: nat, m: State)
    requires Init(s) && Reaches(s, run, s') && h < |s'.handlers| && Decided(s'.handlers[h].pc)
    ensures i < |run| && Reaches(s, run[..i], m) && Decides(m, run[i], h, s'.handlers[h].pc.reason)
    decreases |run|
  {
    assert run != [];
    m := LastStep(s, run, s');
    i := |run| - 1;
    var front, e := run[..i], run[i];
    if h < |m.handlers| && Decided(m.handlers[h].pc) {
      StaysDecided(m, e, h);
      i, m := DecisionHasMoment(s, front, m, h);
      assert run[..i] == front[..i];
    } else {
      InitIsInv(s);
      EveryRunKeepsInv(s, front, m);
      TakesDecision(m, e, h);
    }
  }

  lemma InitIsInv(s: State)
    requires Init(s)
    ensures Inv(s)
  {
  }

  lemma StaysDecided(m: State, e: Event, h: nat)
    requires CanStep(m, e) && h < |m.handlers| && Decided(m.handlers[h].pc)
    ensures Step(m, e).handlers[h].pc.Proceeding? || Step(m, e).handlers[h].pc.ShutDown?
    ensures Step(m, e).handlers[h].pc.reason == m.handlers[h].pc.reason
  {
  }

  lemma TakesDecision(m: State, e: Event, h: nat)
    requires Inv(m) && CanStep(m, e) && h < |Step(m, e).handlers| && Decided(Step(m, e).handlers[h].pc)
    requires h < |m.handlers| ==> !Decided(m.handlers[h].pc)
    ensures Decides(m, e, h, Step(m, e).handlers[h].pc.reason)
  {
    if h < |m.handlers| {
      assert HandlerOk(m, h);
      if m.handlers[h].pc.WorkInFlight? && m.deferring { DeferringMeansOther(m, h); }
    }
  }

  /** A deferral thread saw nothing in flight, or the end of its window. */
  ghost predicate DeferralEnds(m: State, e: Event) {
    && e.ThreadStep? && e.t < |m.threads| && m.threads[e.t].Polling? && (!e.busy || e.late)
  }

  /** A thread that no longer polls stopped at some moment of the run, by drain or deadline. */
  lemma {:induction false} EndHasMoment(s: State, run: seq<Event>, s': State, t: nat) returns (i: nat, m: State)
    requires Init(s) && Reaches(s, run, s') && t < |s'.threads| && !s'.threads[t].Polling?
    ensures i < |run| && Reaches(s, run[..i], m) && DeferralEnds(m, run[i])
    decreases |run|
  {
    assert run != [];
    m := LastStep(s, run, s');
    i := |run| - 1;
    if t < |m.threads| && !m.threads[t].Polling? {
      var front := run[..i];
      i, m := EndHasMoment(s, front, m, t);
      assert run[..i] == front[..i];
    }
  }

  /** What made `h` decide, in state `m` after the run `before`, is something guard mode allows. */
  ghost predicate Allows(s: State, before: seq<Event>, m: State, e: Event, h: nat) {
    || Decides(m, e, h, Interrupt)  // SIGINT never defers
    || Decides(m, e, h, Idle)       // it asked the probes and nothing was in flight
    || Decides(m, e, h, Override)   // another SIGTERM's deferral was active when it read the flag
    || (Decides(m, e, h, Forced) && SomeDeferralEnded(s, before))
  }

  /** At some moment of the run a deferral drained or expired. */
  ghost predicate SomeDeferralEnded(s: State, run: seq<Event>) {
    exists k, q :: 0 <= k < |run| && Reaches(s, run[..k], q) && DeferralEnds(q, run[k])
  }

  /** At moment `i` of the run `h` had a cause guard mode allows. */
  ghost predicate AllowedCause(s: State, run: seq<Event>, i: nat, h: nat) {
    i < |run| && exists m :: Reaches(s, run[..i], m) && Allows(s, run[..i], m, run[i], h)
  }

  /**
   In guard mode, in every interleaving, a server shutting down was shut down by a handler that had an
   allowed cause at some moment of the run.
   */
  lemma GuardHolds(s: State, run: seq<Event>, s': State)
    requires Init(s) && s.guardMode && Reaches(s, run, s') && s'.shutdown
    ensures exists h, i :: 0 <= h < |s'.handlers| && Originated(s'.handlers[h]) && AllowedCause(s, run, i, h)
  {
    EveryRunKeepsInv(s, run, s');
    var h :| 0 <= h < |s'.handlers| && Originated(s'.handlers[h]);
    var i := ReasonIsAllowed(s, run, s', h);
  }

  lemma ReasonIsAllowed(s: State, run: seq<Event>, s': State, h: nat) returns (i: nat)
    requires Init(s) && s.guardMode && Reaches(s, run, s') && h < |s'.handlers| && Originated(s'.handlers[h])
    ensures AllowedCause(s, run, i, h)
  {
    var m;
    i, m := DecisionHasMoment(s, run, s', h);
    EveryRunKeepsInv(s, run[..i], m);
    if s'.handlers[h].pc.reason.Forced? {
      var t :| 0 <= t < |m.threads| && HasForced(m.threads[t]);
      var k, q := EndHasMoment(s, run[..i], m, t);
      assert SomeDeferralEnded(s, run[..i]);
    }
    assert Allows(s, run[..i], m, run[i], h);
  }

  /**
   Once forced, always forced: a SIGTERM arriving with the force flag up never consults the probes, and
   when its handler has run to its end the server is shutting down.
   */
  lemma ForcedSignalsShutDown(s: State, run: seq<Event>, m: State, later: seq<Event>, s': State, term: bool)
    requires Init(s) && Reaches(s, run, m) && m.force && Reaches(Step(m, Signal(term)), later, s')
    ensures var h := |m.handlers|;
            && s'.force && h < |s'.handlers| && s'.handlers[h].term == term
            && (s'.handlers[h].pc.Entered? || s'.handlers[h].pc.Proceeding? || s'.handlers[h].pc.ShutDown?)
            && (s'.handlers[h].pc.ShutDown? ==> s'.shutdown)
  {
    EveryRunKeepsInv(s, run, m);
    assert Reaches(m, [Signal(term)] + later, s') by { assert ([Signal(term)] + later)[1..] == later; }
    EveryRunKeepsInv(m, [Signal(term)] + later, s');
    assert Reaches(s', [], s');
    var h := |m.handlers|;
    BornForcedStays(Step(m, Signal(term)), later, s', h);
    assert HandlerOk(s', h);
  }

  lemma {:induction false} BornForcedStays(m: State, later: seq<Event>, s': State, h: nat)
    requires Reaches(m, later, s') && h < |m.handlers|
    ensures h < |s'.handlers| && s'.handlers[h].term == m.handlers[h].term
    ensures s'.handlers[h].bornForced == m.handlers[h].bornForced
    decreases |later|
  {
    if later != [] {
      StepIsLater(m, later[0]);
      assert SameSignal(m.handlers[h], Step(m, later[0]).handlers[h]);
      BornForcedStays(Step(m, later[0]), later[1..], s', h);
    }
  }

  /** The SIGTERM a finished deferral sent arrived with the force flag up. */
  lemma DeferralDeliversForced(s: State, run: seq<Event>, s': State, t: nat)
    requires Init(s) && Reaches(s, run, s') && t < |s'.threads| && s'.threads[t].Over?
    ensures var h := s'.threads[t].sent;
            && s'.force && h < |s'.handlers| && s'.handlers[h].term && s'.handlers[h].bornForced
            && (s'.handlers[h].pc.ShutDown? ==> s'.shutdown)
  {
    EveryRunKeepsInv(s, run, s');
    assert ThreadOk(s', t);
    assert HandlerOk(s', s'.threads[t].sent);
  }

  // ----- A handler left alone -----

  /** `k` steps of handler `h`, probes answering `busy`, nothing else happening; it stops when it has returned. */
  function Alone(s: State, h: nat, busy: bool, k: nat): State
    decreases k
  {
    if k == 0 || !CanStep(s, HandlerStep(h, busy)) then s
    else Alone(Step(s, HandlerStep(h, busy)), h, busy, k - 1)
  }

  /** A SIGTERM is put off exactly when nothing overrides the guard; then its deferral is started. */
  predicate PutsOff(s: State, busy: bool) {
    !s.force && !s.shutdown && s.guardMode && busy && !s.deferring
  }

  /** What an undisturbed SIGTERM handler decides, in every state and whatever the probes say. */
  lemma UndisturbedHandler(s: State, h: nat, busy: bool, k: nat)
    requires h < |s.handlers| && s.handlers[h].pc.Entered? && k >= 8
    ensures var s', off := Alone(s, h, busy, k), PutsOff(s, busy);
            && h < |s'.handlers|
            && (s'.handlers[h].pc.Deferred? <==> off) && (s'.handlers[h].pc.ShutDown? <==> !off)
            && s'.shutdown == (s.shutdown || !off) && s'.deferring == (s.deferring || off)
            && s'.threads == if off then s.threads + [Polling] else s.threads
  {
    var s1 := Step(s, HandlerStep(h, busy));
    if s1.handlers[h].pc.Proceeding? {
      ProceedingFinishes(s1, h, busy, k - 1);
    } else {
      var s2 := Step(s1, HandlerStep(h, busy));
      assert Alone(s1, h, busy, k - 1) == Alone(s2, h, busy, k - 2);
      if s2.handlers[h].pc.Proceeding? {
        ProceedingFinishes(s2, h, busy, k - 2);
      } else {
        GuardedPart(s2, h, busy, k - 2);
      }
    }
  }

  /** A signal whose handler nothing disturbs: SIGINT shuts down at once, SIGTERM unless it is put off. */
  lemma UndisturbedSignal(s: State, term: bool, busy: bool, k: nat)
    requires k >= 8
    ensures CanStep(s, Signal(term))
    ensures var h, off := |s.handlers|, term && PutsOff(s, busy);
            var s' := Alone(Step(s, Signal(term)), h, busy, k);
            && |s'.handlers| == h + 1 && s'.handlers[h].term == term && s'.handlers[h].bornForced == s.force
            && (s'.handlers[h].pc.Deferred? <==> off) && (s'.handlers[h].pc.ShutDown? <==> !off)
            && s'.shutdown == (s.shutdown || !off) && s'.deferring == (s.deferring || off) && s'.force == s.force
            && s'.threads == if off then s.threads + [Polling] else s.threads
  {
    var h, s1 := |s.handlers|, Step(s, Signal(term));
    if term {
      UndisturbedHandler(s1, h, busy, k);
    } else {
      ProceedingFinishes(s1, h, busy, k);
    }
    AloneTouchesOneHandler(s1, h, busy, k);
  }

  lemma {:induction false} AloneTouchesOneHandler(s: State, h: nat, busy: bool, k: nat)
    requires h < |s.handlers|
    ensures var s' := Alone(s, h, busy, k);
            && |s'.handlers| == |s.handlers| && s'.force == s.force && s'.guardMode == s.guardMode
            && s'.handlers[h].term == s.handlers[h].term && s'.handlers[h].bornForced == s.handlers[h].bornForced
            && forall o :: 0 <= o < |s.handlers| && o != h ==> s'.handlers[o] == s.handlers[o]
    decreases k
  {
    if k > 0 && CanStep(s, HandlerStep(h, busy)) {
      AloneTouchesOneHandler(Step(s, HandlerStep(h, busy)), h, busy, k - 1);
    }
  }

  // ----- A deferral thread left alone -----

  /** A poll ends a deferral exactly if nothing is in flight or the window is over. */
  lemma PollStopsIff(s: State, t: nat, busy: bool, late: bool)
    requires t < |s.threads| && s.threads[t].Polling?
    ensures CanStep(s, ThreadStep(t, busy, late))
    ensures var s' := Step(s, ThreadStep(t, busy, late));
            s' == if !busy then s.(threads := s.threads[t := Leaving(Drained)])
                  else if late then s.(threads := s.threads[t := Leaving(Expired)]) else s
  {
  }

  /** `k` steps of thread `t`, every poll seeing the same, nothing else happening; it stops when it is over. */
  function ThreadAlone(s: State, t: nat, busy: bool, late: bool, k: nat): State
    decreases k
  {
    if k == 0 || !CanStep(s, ThreadStep(t, busy, late)) then s
    else ThreadAlone(Step(s, ThreadStep(t, busy, late)), t, busy, late, k - 1)
  }

  /**
   An undisturbed deferral whose poll finds the work drained or the window over clears the deferring flag,
   raises the force flag and delivers one more SIGTERM, born forced; any other keeps polling.
   */
  lemma {:induction false} UndisturbedDeferral(s: State, t: nat, busy: bool, late: bool, k: nat)
    requires t < |s.threads| && s.threads[t].Polling? && k >= 4
    ensures ThreadAlone(s, t, busy, late, k) ==
              if busy && !late then s
              else s.(deferring := false, force := true, handlers := s.handlers + [Handler(true, Entered, true)],
                      threads := s.threads[t := Over(if busy then Expired else Drained, |s.handlers|)])
    decreases k
  {
    if busy && !late {
      StillPolling(s, t, busy, late, k);
    } else {
      var why := if busy then Expired else Drained;
      var s1 := Step(s, ThreadStep(t, busy, late));
      var s2 := Step(s1, ThreadStep(t, busy, late));
      var s3 := Step(s2, ThreadStep(t, busy, late));
      var s4 := Step(s3, ThreadStep(t, busy, late));
      assert ThreadAlone(s, t, busy, late, k) == ThreadAlone(s1, t, busy, late, k - 1);
      assert ThreadAlone(s1, t, busy, late, k - 1) == ThreadAlone(s2, t, busy, late, k - 2);
      assert ThreadAlone(s2, t, busy, late, k - 2) == ThreadAlone(s3, t, busy, late, k - 3);
      assert ThreadAlone(s3, t, busy, late, k - 3) == ThreadAlone(s4, t, busy, late, k - 4) == s4;
      assert s4.threads == s.threads[t := Over(why, |s.handlers|)];
    }
  }

  lemma {:induction false} StillPolling(s: State, t: nat, busy: bool, late: bool, k: nat)
    requires t < |s.threads| && s.threads[t].Polling? && busy && !late
    ensures ThreadAlone(s, t, busy, late, k) == s
    decreases k
  {
    if k > 0 {
      assert s.threads[t := Polling] == s.threads;
      StillPolling(s, t, busy, late, k - 1);
    }
  }

  lemma ProceedingFinishes(s: State, h: nat, busy: bool, k: nat)
    requires h < |s.handlers| && s.handlers[h].pc.Proceeding? && k >= 2
    ensures Alone(s, h, busy, k) == Step(s, HandlerStep(h, busy))
    ensures Alone(s, h, busy, k).handlers[h].pc.ShutDown? && Alone(s, h, busy, k).shutdown
  {
  }

  lemma GuardedPart(s: State, h: nat, busy: bool, k: nat)
    requires h < |s.handlers| && s.handlers[h].pc.NotDown? && k >= 6
    ensures var s', off := Alone(s, h, busy, k), s.guardMode && busy && !s.deferring;
            && h < |s'.handlers|
            && (s'.handlers[h].pc.Deferred? <==> off) && (s'.handlers[h].pc.ShutDown? <==> !off)
            && s'.shutdown == (s.shutdown || !off) && s'.deferring == (s.deferring || off)
            && s'.threads == if off then s.threads + [Polling] else s.threads
  {
    var s1 := Step(s, HandlerStep(h, busy));
    if s1.handlers[h].pc.Proceeding? {
      ProceedingFinishes(s1, h, busy, k - 1);
    } else {
      var s2 := Step(s1, HandlerStep(h, busy));
      assert Alone(s1, h, busy, k - 1) == Alone(s2, h, busy, k - 2);
      if s2.handlers[h].pc.Proceeding? {
        ProceedingFinishes(s2, h, busy, k - 2);
      } else {
        BusyPart(s2, h, busy, k - 2);
      }
    }
  }

  lemma BusyPart(s: State, h: nat, busy: bool, k: nat)
    requires h < |s.handlers| && s.handlers[h].pc.WorkInFlight? && k >= 4
    ensures var s', off := Alone(s, h, busy, k), !s.deferring;
            && h < |s'.handlers|
            && (s'.handlers[h].pc.Deferred? <==> off) && (s'.handlers[h].pc.ShutDown? <==> !off)
            && s'.shutdown == (s.shutdown || !off) && s'.deferring
            && s'.threads == if off then s.threads + [Polling] else s.threads
  {
    var s1 := Step(s, HandlerStep(h, busy));
    if s1.handlers[h].pc.Proceeding? {
      ProceedingFinishes(s1, h, busy, k - 1);
    } else {
      var s2 := Step(s1, HandlerStep(h, busy));
      assert Alone(s1, h, busy, k - 1) == Alone(s2, h, busy, k - 2);
      var s3 := Step(s2, HandlerStep(h, busy));
      assert Alone(s2, h, busy, k - 2) == Alone(s3, h, busy, k - 3) == s3;
    }
  }
}
