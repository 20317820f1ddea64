/**
 The executor hang watchdog (fusion_mlx/executor_watchdog.py): one job slot, a staleness window, a defer
 budget, and a check in two locked phases with an unlocked gap between them.
 */
module ExecutorWatchdog {
  import opened Common

  function MaxReal(x: real, y: real): real { if x >= y then x else y }

  /** What asking the defer predicate does; `NoPredicate` when none is installed. */
  datatype Answer = NoPredicate | Active | Inactive | Raises

  /** A decision to poison: which job, when it was judged stale, and its last sign of life then. */
  datatype Ticket = Ticket(job: nat, at: real, last: real)

  /** `fired` is history: the tickets that fired, oldest first. */
  datatype Slot = Slot(inflight: bool, jobId: nat, start: real, heartbeat: real, firedJobId: nat, fireCount: nat,
                       deferStart: real, jobCount: nat, fired: seq<Ticket>)
  {
    function Last(): real { MaxReal(start, heartbeat) }
  }

  datatype Config = Config(window: real, budget: real)

  // ----- Locked steps, as functions -----

  const IDLE := Slot(false, 0, 0.0, 0.0, 0, 0, 0.0, 0, [])

  function Begin(s: Slot, now: real): Slot {
    s.(inflight := true, jobId := s.jobId + 1, start := now, heartbeat := now, deferStart := 0.0,
       jobCount := s.jobCount + 1)
  }

  function Beat(s: Slot, now: real): Slot { s.(heartbeat := now) }

  function End(s: Slot): Slot { s.(inflight := false) }

  predicate Stale(cfg: Config, s: Slot, now: real) {
    s.inflight && s.firedJobId != s.jobId && now - s.Last() > cfg.window
  }

  /** New defer start, and whether poisoning is put off. */
  function Deferred(cfg: Config, deferStart: real, now: real, a: Answer): (real, bool) {
    match a
    case NoPredicate | Raises => (deferStart, false)
    case Inactive => (0.0, false)
    case Active =>
      var from := if deferStart == 0.0 then now else deferStart;
      (from, now - from < cfg.budget)
  }

  /** First phase of a check: a ticket when the job in the slot should be poisoned. */
  function FirstPhase(cfg: Config, s: Slot, now: real, a: Answer): (Slot, Option<Ticket>) {
    if !Stale(cfg, s, now) then (s, None)
    else
      var (from, deferred) := Deferred(cfg, s.deferStart, now, a);
      (s.(deferStart := from), if deferred then None else Some(Ticket(s.jobId, now, s.Last())))
  }

  /** Second phase: re-validates and fires. */
  function SecondPhase(s: Slot, t: Ticket): (Slot, bool) {
    if !s.inflight || s.jobId != t.job || s.firedJobId == t.job then (s, false)
    else (s.(firedJobId := t.job, fireCount := s.fireCount + 1, fired := s.fired + [t]), true)
  }

  function CheckOnce(cfg: Config, s: Slot, now: real, a: Answer): Slot {
    var (s', t) := FirstPhase(cfg, s, now, a);
    if t.Some? then SecondPhase(s', t.value).0 else s'
  }

  /** The counters agree with the history, whose jobs increase and were all begun. */
  ghost predicate SlotOk(w: Slot) {
    && w.jobId == w.jobCount && w.firedJobId <= w.jobId && w.fireCount == |w.fired|
    && (w.inflight ==> w.jobId >= 1)
    && (w.firedJobId == if w.fired == [] then 0 else w.fired[|w.fired|-1].job)
    && (forall i :: 0 <= i < |w.fired| ==> 1 <= w.fired[i].job <= w.firedJobId)
    && (forall i, j :: 0 <= i < j < |w.fired| ==> w.fired[i].job < w.fired[j].job)
  }

  ghost predicate HasFired(fired: seq<Ticket>, job: nat) { exists t :: t in fired && t.job == job }

  /** Comparing with the last fired id decides whether the current job ever fired. */
  lemma LastDecides(w: Slot)
    requires SlotOk(w) && w.jobId >= 1
    ensures w.firedJobId == w.jobId <==> HasFired(w.fired, w.jobId)
  {
    if w.firedJobId == w.jobId {
      assert w.fired[|w.fired|-1] in w.fired;
    }
  }

  // ----- The object -----

  class Watchdog {
    const cfg: Config
    var inflight: bool
    var jobId: nat
    var start: real
    var lastBeat: real
    var firedJobId: nat
    var fireCount: nat
    var deferStart: real
    var jobCount: nat
    ghost var fired: seq<Ticket>

    ghost function View(): Slot
      reads this
    {
      Slot(inflight, jobId, start, lastBeat, firedJobId, fireCount, deferStart, jobCount, fired)
    }

    ghost predicate Valid()
      reads this
    {
      SlotOk(View())
    }

    constructor (cfg: Config)
      ensures Valid() && this.cfg == cfg && View() == IDLE
    {
      this.cfg := cfg;
      inflight, jobId, start, lastBeat := false, 0, 0.0, 0.0;
      firedJobId, fireCount, deferStart, jobCount, fired := 0, 0, 0.0, 0, [];
    }

    /** The id is larger than that of any job that ever fired. */
    method BeginJob(now: real) returns (id: nat)
      requires Valid()
      modifies this
      ensures Valid() && View() == Begin(old(View()), now)
      ensures id == jobId && fired == old(fired) && forall t :: t in fired ==> t.job < id
    {
      jobId := jobId + 1;
      inflight := true;
      jobCount := jobCount + 1;
      start, lastBeat := now, now;
      deferStart := 0.0;
      id := jobId;
    }

    method Heartbeat(now: real)
      requires Valid()
      modifies this
      ensures Valid() && View() == Beat(old(View()), now)
    {
      lastBeat := now;
    }

    method EndJob()
      requires Valid()
      modifies this
      ensures Valid() && View() == End(old(View()))
    {
      inflight := false;
    }

    method AskDeferred(now: real, a: Answer) returns (deferred: bool)
      modifies this`deferStart
      ensures (deferStart, deferred) == Deferred(cfg, old(deferStart), now, a)
    {
      if a.NoPredicate? || a.Raises? { return false; }
      if a.Inactive? {
        deferStart := 0.0;
        return false;
      }
      if deferStart == 0.0 { deferStart := now; }
      deferred := now - deferStart < cfg.budget;
    }

    /** A ticket is issued exactly for a job in flight that never fired, is stale, and is not deferred. */
    method CheckFirst(now: real, a: Answer) returns (t: Option<Ticket>)
      requires Valid()
      modifies this`deferStart
      ensures Valid() && (View(), t) == FirstPhase(cfg, old(View()), now, a)
      ensures t.Some? <==>
                && inflight && !HasFired(fired, jobId) && now - MaxReal(start, lastBeat) > cfg.window
                && (a.Active? ==> now - (if old(deferStart) == 0.0 then now else old(deferStart)) >= cfg.budget)
      ensures t.Some? ==> t.value == Ticket(jobId, now, MaxReal(start, lastBeat))
    {
      t := None;
      if !inflight { return; }
      LastDecides(View());
      if firedJobId == jobId { return; }
      var last := if start >= lastBeat then start else lastBeat;
      if now - last <= cfg.window { return; }
      var deferred := AskDeferred(now, a);
      if !deferred { t := Some(Ticket(jobId, now, last)); }
    }

    /** The ticket fires exactly if its job is still the one in flight and never fired. */
    method CheckSecond(t: Ticket) returns (fires: bool)
      requires Valid()
      modifies this
      ensures Valid() && (View(), fires) == SecondPhase(old(View()), t)
      ensures fires <==> old(inflight) && old(jobId) == t.job && !HasFired(old(fired), t.job)
      ensures fired == if fires then old(fired) + [t] else old(fired)
    {
      if !inflight || jobId != t.job { return false; }
      LastDecides(View());
      if firedJobId == t.job { return false; }
      firedJobId := t.job;
      fireCount := fireCount + 1;
      fired := fired + [t];
      fires := true;
    }
  }

  // ----- Interleavings -----

  /** The slot, the checkers between their two phases, and the clock. */
  datatype System = System(slot: Slot, pending: map<nat, Ticket>, clock: real)

  datatype Event =
    | BeginJob(now: real) | Heartbeat(now: real) | EndJob(now: real)
    | Check1(checker: nat, now: real, answer: Answer) | Check2(checker: nat, now: real)

  predicate CanHappen(s: System, e: Event) {
    && s.clock <= e.now
    && (e.Check1? ==> e.checker !in s.pending)
    && (e.Check2? ==> e.checker in s.pending)
  }

  function Happen(cfg: Config, s: System, e: Event): System
    requires CanHappen(s, e)
  {
    var s' := s.(clock := e.now);
    match e
    case BeginJob(now) => s'.(slot := Begin(s.slot, now))
    case Heartbeat(now) => s'.(slot := Beat(s.slot, now))
    case EndJob(_) => s'.(slot := End(s.slot))
    case Check1(c, now, a) =>
      var (slot, t) := FirstPhase(cfg, s.slot, now, a);
      s'.(slot := slot, pending := if t.Some? then s.pending[c := t.value] else s.pending)
    case Check2(c, _) => s'.(slot := SecondPhase(s.slot, s.pending[c]).0, pending := s.pending - {c})
  }

  ghost predicate Runs(cfg: Config, s: System, run: seq<Event>, s': System)
    decreases |run|
  {
    if run == [] then s == s'
    else CanHappen(s, run[0]) && Runs(cfg, Happen(cfg, s, run[0]), run[1..], s')
  }

  ghost predicate TicketOk(cfg: Config, s: System, t: Ticket) {
    1 <= t.job <= s.slot.jobId && t.at - t.last > cfg.window && t.at <= s.clock
  }

  ghost predicate Inv(cfg: Config, s: System) {
    && SlotOk(s.slot)
    && (forall i :: 0 <= i < |s.slot.fired| ==> TicketOk(cfg, s, s.slot.fired[i]))
    && (forall c :: c in s.pending ==> TicketOk(cfg, s, s.pending[c]))
  }

  lemma SecondPhaseKeepsSlot(w: Slot, t: Ticket)
    requires SlotOk(w)
    ensures SlotOk(SecondPhase(w, t).0)
  {
  }

  lemma TicketsStay(cfg: Config, s: System, e: Event)
    requires Inv(cfg, s) && CanHappen(s, e)
    ensures var s' := Happen(cfg, s, e);
            && (forall i :: 0 <= i < |s'.slot.fired| ==> TicketOk(cfg, s', s'.slot.fired[i]))
            && (forall c :: c in s'.pending ==> TicketOk(cfg, s', s'.pending[c]))
  {
  }

  lemma InvHappen(cfg: Config, s: System, e: Event)
    requires Inv(cfg, s) && CanHappen(s, e)
    ensures Inv(cfg, Happen(cfg, s, e))
  {
    TicketsStay(cfg, s, e);
    if e.Check2? {
      SecondPhaseKeepsSlot(s.slot, s.pending[e.checker]);
    } else {
      assert Happen(cfg, s, e).slot.fired == s.slot.fired;
    }
  }

  lemma {:induction false} InvRuns(cfg: Config, s: System, run: seq<Event>, s': System)
    requires Inv(cfg, s) && Runs(cfg, s, run, s')
    ensures Inv(cfg, s')
    decreases |run|
  {
    if run != [] {
      InvHappen(cfg, s, run[0]);
      InvRuns(cfg, Happen(cfg, s, run[0]), run[1..], s');
    }
  }

  lemma {:induction false} IncreasingBound(ts: seq<Ticket>)
    requires forall i :: 0 <= i < |ts| ==> ts[i].job >= 1
    requires forall i, j :: 0 <= i < j < |ts| ==> ts[i].job < ts[j].job
    ensures ts != [] ==> |ts| <= ts[|ts|-1].job
    decreases |ts|
  {
    if |ts| > 1 {
      var front := ts[..|ts|-1];
      IncreasingBound(front);
      assert front[|front|-1] == ts[|ts|-2];
    }
  }

  /**
   Under any interleaving of jobs, heartbeats and concurrent checks, `on_hang` runs at most once per
   job, in job order, never more often than jobs were begun, and only for a job that was stale when a
   check looked at it.
   */
  lemma FiresOncePerJob(cfg: Config, run: seq<Event>, s': System, clock: real)
    requires Runs(cfg, System(IDLE, map[], clock), run, s')
    ensures forall i, j :: 0 <= i < j < |s'.slot.fired| ==> s'.slot.fired[i].job < s'.slot.fired[j].job
    ensures s'.slot.fireCount == |s'.slot.fired| <= s'.slot.jobCount
    ensures forall i :: 0 <= i < |s'.slot.fired| ==> s'.slot.fired[i].at - s'.slot.fired[i].last > cfg.window
  {
    InvRuns(cfg, System(IDLE, map[], clock), run, s');
    IncreasingBound(s'.slot.fired);
  }

  /** The system before the last event of a run. */
  lemma {:induction false} LastEvent(cfg: Config, s: System, run: seq<Event>, s': System) returns (m: System)
    requires Runs(cfg, s, run, s') && run != []
    ensures Runs(cfg, s, run[..|run|-1], m) && CanHappen(m, run[|run|-1]) && s' == Happen(cfg, m, run[|run|-1])
    decreases |run|
  {
    if |run| == 1 {
      assert Runs(cfg, Happen(cfg, s, run[0]), run[1..], s') && run[1..] == [];
      m := s;
    } else {
      m := LastEvent(cfg, Happen(cfg, s, run[0]), run[1..], s');
      assert run[..|run|-1][1..] == run[1..][..|run|-2];
    }
  }

  /** In `m` the event `e` is a first phase that issues `t`: its job is in flight, stale, and never fired. */
  ghost predicate Issues(cfg: Config, m: System, e: Event, t: Ticket) {
    && e.Check1? && CanHappen(m, e) && e.now == t.at
    && m.slot.inflight && m.slot.jobId == t.job && !HasFired(m.slot.fired, t.job)
    && m.slot.Last() == t.last && t.at - t.last > cfg.window
  }

  /** In `m` the event `e` is a second phase that fires `t`: its job is still in flight and never fired. */
  ghost predicate Fires(m: System, e: Event, t: Ticket) {
    && e.Check2? && CanHappen(m, e) && m.pending[e.checker] == t
    && m.slot.inflight && m.slot.jobId == t.job && !HasFired(m.slot.fired, t.job)
  }

  lemma {:induction false} PendingWasIssued(cfg: Config, s: System, run: seq<Event>, s': System, c: nat)
    returns (i: nat, m: System)
    requires Inv(cfg, s) && s.pending == map[] && Runs(cfg, s, run, s') && c in s'.pending
    ensures i < |run| && Runs(cfg, s, run[..i], m) && Issues(cfg, m, run[i], s'.pending[c]) && run[i].checker == c
    decreases |run|
  {
    assert run != [];
    m := LastEvent(cfg, s, run, s');
    i := |run| - 1;
    var front := run[..i];
    if c in m.pending {
      assert s'.pending[c] == m.pending[c];
      i, m := PendingWasIssued(cfg, s, front, m, c);
      assert run[..i] == front[..i];
    } else {
      InvRuns(cfg, s, front, m);
      LastDecides(m.slot);
    }
  }

  lemma {:induction false} FiredAtSecondPhase(cfg: Config, s: System, run: seq<Event>, s': System, f: nat)
    returns (j: nat, m: System)
    requires Inv(cfg, s) && s.slot.fired == [] && Runs(cfg, s, run, s') && f < |s'.slot.fired|
    ensures j < |run| && Runs(cfg, s, run[..j], m) && Fires(m, run[j], s'.slot.fired[f])
    decreases |run|
  {
    assert run != [];
    m := LastEvent(cfg, s, run, s');
    j := |run| - 1;
    var front := run[..j];
    if f < |m.slot.fired| {
      assert s'.slot.fired[f] == m.slot.fired[f];
      j, m := FiredAtSecondPhase(cfg, s, front, m, f);
      assert run[..j] == front[..j];
    } else {
      InvRuns(cfg, s, front, m);
      LastDecides(m.slot);
    }
  }

  /**
   In every run, each firing goes back to two events of one checker: a first phase that found the job in
   flight and stale, and later a second phase that found the same job still in flight, neither having
   seen it fire before.
   */
  lemma FiredJobWasInFlight(cfg: Config, run: seq<Event>, s': System, clock: real, f: nat)
    returns (i: nat, m1: System, j: nat, m2: System)
    requires Runs(cfg, System(IDLE, map[], clock), run, s') && f < |s'.slot.fired|
    ensures i < j < |run| && Runs(cfg, System(IDLE, map[], clock), run[..i], m1)
    ensures Runs(cfg, System(IDLE, map[], clock), run[..j], m2)
    ensures Issues(cfg, m1, run[i], s'.slot.fired[f]) && Fires(m2, run[j], s'.slot.fired[f])
    ensures run[i].checker == run[j].checker
  {
    var s := System(IDLE, map[], clock);
    j, m2 := FiredAtSecondPhase(cfg, s, run, s', f);
    i, m1 := PendingWasIssued(cfg, s, run[..j], m2, run[j].checker);
    assert run[..j][..i] == run[..i];
  }

  // ----- Signs of life and defer episodes -----

  /** A job begun or heard from within the window is left alone. */
  lemma SignsOfLifeSave(cfg: Config, s: Slot, sign: real, now: real, a: Answer)
    requires now - sign <= cfg.window
    ensures FirstPhase(cfg, Beat(s, sign), now, a) == (Beat(s, sign), None)
    ensures FirstPhase(cfg, Begin(s, sign), now, a) == (Begin(s, sign), None)
  {
  }

  predicate Sign(e: Event) { e.BeginJob? || e.Heartbeat? }

  lemma {:induction false} SignsAreSeen(cfg: Config, s: System, run: seq<Event>, m: System, k: nat)
    requires Runs(cfg, s, run, m) && k < |run| && Sign(run[k])
    ensures run[k].now <= m.slot.Last() && run[k].now <= m.clock
    decreases |run|
  {
    var front := run[..|run|-1];
    var l := LastEvent(cfg, s, run, m);
    if k < |front| { SignsAreSeen(cfg, s, front, l, k); }
  }

  /**
   Whatever fires in whatever run, the first phase that condemned it came more than the window after every
   beginning of a job and every heartbeat before it.
   */
  lemma FiredOnlyAfterSilence(cfg: Config, run: seq<Event>, s': System, clock: real, f: nat)
    returns (i: nat, m: System)
    requires Runs(cfg, System(IDLE, map[], clock), run, s') && f < |s'.slot.fired|
    ensures i < |run| && Runs(cfg, System(IDLE, map[], clock), run[..i], m)
    ensures Issues(cfg, m, run[i], s'.slot.fired[f])
    ensures forall k: nat :: k < i && Sign(run[k]) ==> run[i].now - run[k].now > cfg.window
  {
    var j, m2;
    i, m, j, m2 := FiredJobWasInFlight(cfg, run, s', clock, f);
    forall k: nat | k < i && Sign(run[k]) ensures run[i].now - run[k].now > cfg.window {
      SignsAreSeen(cfg, System(IDLE, map[], clock), run[..i], m, k);
      assert run[..i][k] == run[k];
    }
  }

  /** Event `k` asked an active predicate, and no job was begun since. */
  predicate Opened(run: seq<Event>, k: nat) {
    k < |run| && run[k].Check1? && run[k].answer.Active? && forall j :: k < j < |run| ==> !run[j].BeginJob?
  }

  /** A defer episode under way was opened, for the current job, by a check at the time it says. */
  lemma {:induction false} EpisodeWasOpened(cfg: Config, s: System, run: seq<Event>, m: System) returns (k: nat)
    requires Runs(cfg, s, run, m) && s.slot.deferStart == 0.0 && m.slot.deferStart != 0.0
    ensures Opened(run, k) && run[k].now == m.slot.deferStart
    decreases |run|
  {
    assert run != [];
    var front, e := run[..|run|-1], run[|run|-1];
    var l := LastEvent(cfg, s, run, m);
    if m.slot.deferStart == l.slot.deferStart && !e.BeginJob? {
      k := EpisodeWasOpened(cfg, s, front, l);
      assert front[k] == run[k];
    } else {
      k := |run| - 1;
    }
  }

  /**
   The budget is granted to every job: a ticket issued while the predicate says active comes at least a
   budget after a check that opened the episode during the same job.
   */
  lemma BudgetIsGranted(cfg: Config, run: seq<Event>, m: System, clock: real, e: Event, t: Ticket) returns (k: nat)
    requires Runs(cfg, System(IDLE, map[], clock), run, m) && cfg.budget > 0.0
    requires e.Check1? && e.answer.Active? && CanHappen(m, e) && FirstPhase(cfg, m.slot, e.now, e.answer).1 == Some(t)
    ensures Opened(run, k) && e.now - run[k].now >= cfg.budget
  {
    k := EpisodeWasOpened(cfg, System(IDLE, map[], clock), run, m);
  }

  /** An inactive answer closes the episode: from the next active one on, a full budget is granted again. */
  lemma InactiveClosesEpisode(cfg: Config, s: Slot, now: real, again: real)
    requires Stale(cfg, s, now) && cfg.budget > 0.0
    ensures FirstPhase(cfg, FirstPhase(cfg, s, now, Inactive).0, again, Active).1.None?
  {
  }

  /** A predicate that is missing or raises puts nothing off and leaves the episode as it is. */
  lemma BrokenPredicateDefersNothing(cfg: Config, s: Slot, now: real, a: Answer)
    requires Stale(cfg, s, now) && (a.NoPredicate? || a.Raises?)
    ensures FirstPhase(cfg, s, now, a) == (s, Some(Ticket(s.jobId, now, s.Last())))
  {
  }

  /** Once the slot is cleared nothing fires until a job is begun, whatever checks and heartbeats come. */
  lemma {:induction false} NothingFiresAfterEnd(cfg: Config, s: System, now: real, later: seq<Event>, s': System)
    requires CanHappen(s, EndJob(now)) && Runs(cfg, Happen(cfg, s, EndJob(now)), later, s')
    requires forall i :: 0 <= i < |later| ==> !later[i].BeginJob?
    ensures !s'.slot.inflight && s'.slot.fired == s.slot.fired
  {
    IdleStays(cfg, Happen(cfg, s, EndJob(now)), later, s');
  }

  lemma {:induction false} IdleStays(cfg: Config, s: System, run: seq<Event>, s': System)
    requires !s.slot.inflight && Runs(cfg, s, run, s') && forall i :: 0 <= i < |run| ==> !run[i].BeginJob?
    ensures !s'.slot.inflight && s'.slot.fired == s.slot.fired
    decreases |run|
  {
    if run != [] {
      assert !run[0].BeginJob?;
      IdleStays(cfg, Happen(cfg, s, run[0]), run[1..], s');
    }
  }

  // ----- Detection -----

  /** The job in the slot is fired, or a checker is about to fire it. */
  ghost predicate Doomed(s: System) {
    s.slot.firedJobId == s.slot.jobId || exists c :: c in s.pending && s.pending[c].job == s.slot.jobId
  }

  predicate OnlyChecks(run: seq<Event>) {
    forall i :: 0 <= i < |run| ==> run[i].Check1? || run[i].Check2?
  }

  lemma DoomedStays(cfg: Config, s: System, e: Event)
    requires CanHappen(s, e) && (e.Check1? || e.Check2?) && s.slot.inflight && Doomed(s)
    ensures Doomed(Happen(cfg, s, e))
  {
    var s' := Happen(cfg, s, e);
    if s.slot.firedJobId == s.slot.jobId {
      assert s'.slot.firedJobId == s'.slot.jobId;
    } else {
      var c :| c in s.pending && s.pending[c].job == s.slot.jobId;
      if e.Check2? && e.checker == c {
        assert s'.slot.firedJobId == s'.slot.jobId;
      } else {
        assert c in s'.pending;
      }
    }
  }

  lemma CheckKeepsProgress(cfg: Config, s: System, e: Event, t0: real)
    requires CanHappen(s, e) && (e.Check1? || e.Check2?) && s.slot.inflight && t0 > 0.0 && t0 <= s.clock
    requires Doomed(s) || 0.0 < s.slot.deferStart <= t0
    ensures var s' := Happen(cfg, s, e);
            && s'.slot.inflight && s'.slot.jobId == s.slot.jobId && s'.slot.Last() == s.slot.Last()
            && s.clock <= s'.clock
            && (Doomed(s') || 0.0 < s'.slot.deferStart <= t0)
  {
    var s' := Happen(cfg, s, e);
    if Doomed(s) {
      DoomedStays(cfg, s, e);
    } else if e.Check1? && e.checker in s'.pending {
      assert s'.pending[e.checker].job == s'.slot.jobId;
    }
  }

  lemma {:induction false} ChecksKeepProgress(cfg: Config, s: System, run: seq<Event>, s': System, t0: real)
    requires Runs(cfg, s, run, s') && OnlyChecks(run) && s.slot.inflight && t0 > 0.0 && t0 <= s.clock
    requires Doomed(s) || 0.0 < s.slot.deferStart <= t0
    ensures s'.slot.inflight && s'.slot.jobId == s.slot.jobId && s'.slot.Last() == s.slot.Last() && s.clock <= s'.clock
    ensures Doomed(s') || 0.0 < s'.slot.deferStart <= t0
    decreases |run|
  {
    if run != [] {
      CheckKeepsProgress(cfg, s, run[0], t0);
      ChecksKeepProgress(cfg, Happen(cfg, s, run[0]), run[1..], s', t0);
    }
  }

  /**
   Once a job stays in flight without heartbeats, however the defer predicate flips or raises and
   however checks interleave: a check made at least the defer budget after the first stale one leaves
   the job fired or about to be.
   */
  lemma PoisonedWithinBudget(cfg: Config, s: System, first: Event, run: seq<Event>, m: System, final: Event)
    requires cfg.window >= 0.0 && s.slot.start >= 0.0 && 0.0 <= s.slot.deferStart <= s.clock
    requires first.Check1? && CanHappen(s, first) && s.slot.inflight && first.now - s.slot.Last() > cfg.window
    requires OnlyChecks(run) && Runs(cfg, Happen(cfg, s, first), run, m)
    requires final.Check1? && CanHappen(m, final) && final.now >= first.now + cfg.budget
    ensures Happen(cfg, m, final).slot.jobId == s.slot.jobId && Doomed(Happen(cfg, m, final))
  {
    var s1, m' := Happen(cfg, s, first), Happen(cfg, m, final);
    assert first.now > 0.0;
    if first.checker in s1.pending { assert s1.pending[first.checker].job == s1.slot.jobId; }
    ChecksKeepProgress(cfg, s1, run, m, first.now);
    CheckKeepsProgress(cfg, m, final, first.now);
    if Doomed(m) {
      DoomedStays(cfg, m, final);
    } else {
      assert final.checker in m'.pending && m'.pending[final.checker].job == m'.slot.jobId;
    }
  }

  /** Once no checker holds a ticket for a doomed job any more, it has been fired. */
  lemma {:induction false} DoomedIsFired(cfg: Config, s: System, run: seq<Event>, s': System)
    requires Runs(cfg, s, run, s') && OnlyChecks(run) && s.slot.inflight && Doomed(s)
    requires forall c :: c in s'.pending ==> s'.pending[c].job != s.slot.jobId
    ensures s'.slot.firedJobId == s.slot.jobId
    decreases |run|
  {
    if run != [] {
      var m := Happen(cfg, s, run[0]);
      DoomedStays(cfg, s, run[0]);
      assert m.slot.inflight && m.slot.jobId == s.slot.jobId;
      DoomedIsFired(cfg, m, run[1..], s');
    }
  }

  // ----- How soon -----

  /** The run has a first phase later than `t` by at most `d`. */
  ghost predicate CheckedWithin(run: seq<Event>, t: real, d: real) {
    exists i :: 0 <= i < |run| && run[i].Check1? && t < run[i].now <= t + d
  }

  /** A run seen as what comes before, at and after its event `i`. */
  lemma {:induction false} SplitAt(cfg: Config, s: System, run: seq<Event>, s': System, i: nat) returns (m: System)
    requires Runs(cfg, s, run, s') && i < |run|
    ensures Runs(cfg, s, run[..i], m) && CanHappen(m, run[i]) && Runs(cfg, Happen(cfg, m, run[i]), run[i + 1..], s')
    ensures s.clock <= m.clock && run[i].now <= s'.clock
    decreases i
  {
    ClockRuns(cfg, s, run, s');
    if i == 0 {
      m := s;
      assert Runs(cfg, s, run[..0], s);
      ClockRuns(cfg, Happen(cfg, s, run[0]), run[1..], s');
    } else {
      m := SplitAt(cfg, Happen(cfg, s, run[0]), run[1..], s', i - 1);
      assert run[..i][1..] == run[1..][..i - 1] && run[1..][i..] == run[i + 1..];
      assert Runs(cfg, s, run[..i], m);
    }
  }

  lemma {:induction false} ClockRuns(cfg: Config, s: System, run: seq<Event>, s': System)
    requires Runs(cfg, s, run, s')
    ensures s.clock <= s'.clock
    decreases |run|
  {
    if run != [] { ClockRuns(cfg, Happen(cfg, s, run[0]), run[1..], s'); }
  }

  /** Checks leave the job and its last sign of life alone. */
  lemma {:induction false} ChecksKeepJob(cfg: Config, s: System, run: seq<Event>, s': System)
    requires Runs(cfg, s, run, s') && OnlyChecks(run) && s.slot.inflight && 0.0 <= s.slot.deferStart <= s.clock
    ensures s'.slot.inflight && s'.slot.jobId == s.slot.jobId && s'.slot.start == s.slot.start
    ensures s'.slot.Last() == s.slot.Last() && 0.0 <= s'.slot.deferStart <= s'.clock
    decreases |run|
  {
    if run != [] { ChecksKeepJob(cfg, Happen(cfg, s, run[0]), run[1..], s'); }
  }

  /**
   The detection bound in every interleaving of checkers: if no first phase is more than `d` after the one
   before, then from window + budget + 2d after its last sign of life on a silent job has been fired, as
   soon as no checker holds a ticket for it between its two phases.
   */
  lemma FiredWithinBound(cfg: Config, s: System, run: seq<Event>, s': System, d: real)
    requires Runs(cfg, s, run, s') && OnlyChecks(run) && s.slot.inflight && s.slot.start >= 0.0
    requires cfg.window >= 0.0 && cfg.budget >= 0.0 && d >= 0.0 && 0.0 <= s.slot.deferStart <= s.clock
    requires s.clock <= s.slot.Last() + cfg.window && s'.clock >= s.slot.Last() + cfg.window + cfg.budget + 2.0 * d
    requires forall t: real :: s.clock <= t && t + d <= s'.clock ==> CheckedWithin(run, t, d)
    requires forall c :: c in s'.pending ==> s'.pending[c].job != s.slot.jobId
    ensures s'.slot.firedJobId == s.slot.jobId
  {
    var stale := s.slot.Last() + cfg.window;
    assert CheckedWithin(run, stale, d);
    var i :| 0 <= i < |run| && run[i].Check1? && stale < run[i].now <= stale + d;
    var due := run[i].now + cfg.budget;
    assert CheckedWithin(run, due, d);
    var j :| 0 <= j < |run| && run[j].Check1? && due < run[j].now <= due + d;
    Ordered(cfg, s, run, s', i, j);
    FiredByTwoChecks(cfg, s, run, s', i, j);
  }

  lemma Ordered(cfg: Config, s: System, run: seq<Event>, s': System, i: nat, j: nat)
    requires Runs(cfg, s, run, s') && i < |run| && j < |run| && run[i].now < run[j].now
    ensures i < j
  {
    if j < i {
      var m := SplitAt(cfg, s, run, s', i);
      assert run[..i][j] == run[j];
      var l := SplitAt(cfg, s, run[..i], m, j);
    }
  }

  /** One check leaves the job and its last sign of life alone. */
  lemma CheckKeepsJob(cfg: Config, s: System, e: Event)
    requires CanHappen(s, e) && (e.Check1? || e.Check2?) && s.slot.inflight && 0.0 <= s.slot.deferStart <= s.clock
    ensures var s' := Happen(cfg, s, e);
            && s'.slot.inflight && s'.slot.jobId == s.slot.jobId && s'.slot.start == s.slot.start
            && s'.slot.Last() == s.slot.Last() && 0.0 <= s'.slot.deferStart <= s'.clock
  {
  }

  /** A first phase past the window and another a budget later, in a run of checks, get the job fired. */
  lemma {:induction false} FiredByTwoChecks(cfg: Config, s: System, run: seq<Event>, s': System, i: nat, j: nat)
    requires Runs(cfg, s, run, s') && OnlyChecks(run) && s.slot.inflight && s.slot.start >= 0.0
    requires cfg.window >= 0.0 && 0.0 <= s.slot.deferStart <= s.clock && i < j < |run|
    requires run[i].Check1? && run[i].now - s.slot.Last() > cfg.window
    requires run[j].Check1? && run[j].now >= run[i].now + cfg.budget
    requires forall c :: c in s'.pending ==> s'.pending[c].job != s.slot.jobId
    ensures s'.slot.firedJobId == s.slot.jobId
    decreases i
  {
    if i == 0 {
      FiredAfterFirst(cfg, s, run[0], run[1..], s', j - 1, run[j]);
    } else {
      CheckKeepsJob(cfg, s, run[0]);
      FiredByTwoChecks(cfg, Happen(cfg, s, run[0]), run[1..], s', i - 1, j - 1);
    }
  }

  lemma FiredAfterFirst(cfg: Config, s: System, first: Event, rest: seq<Event>, s': System, k: nat,
                        second: Event)
    requires cfg.window >= 0.0 && s.slot.start >= 0.0 && 0.0 <= s.slot.deferStart <= s.clock
    requires first.Check1? && CanHappen(s, first) && s.slot.inflight && first.now - s.slot.Last() > cfg.window
    requires OnlyChecks(rest) && Runs(cfg, Happen(cfg, s, first), rest, s') && k < |rest| && rest[k] == second
    requires second.Check1? && second.now >= first.now + cfg.budget
    requires forall c :: c in s'.pending ==> s'.pending[c].job != s.slot.jobId
    ensures s'.slot.firedJobId == s.slot.jobId
  {
    var s1 := Happen(cfg, s, first);
    var m := SplitAt(cfg, s1, rest, s', k);
    assert OnlyChecks(rest[..k]) && OnlyChecks(rest[k + 1..]);
    PoisonedWithinBudget(cfg, s, first, rest[..k], m, rest[k]);
    ChecksKeepJob(cfg, s1, rest[..k], m);
    DoomedIsFired(cfg, Happen(cfg, m, rest[k]), rest[k + 1..], s');
  }

  // ----- The tick thread alone -----

  datatype Tick = Tick(now: real, answer: Answer)

  function Ticks(cfg: Config, s: Slot, ticks: seq<Tick>): Slot {
    if ticks == [] then s
    else CheckOnce(cfg, Ticks(cfg, s, ticks[..|ticks|-1]), ticks[|ticks|-1].now, ticks[|ticks|-1].answer)
  }

  /** Ticks come in order, the first within `d` of the last sign of life, later ones at most `d` apart. */
  predicate Regular(last: real, ticks: seq<Tick>, d: real) {
    && (ticks != [] ==> last <= ticks[0].now <= last + d)
    && forall i :: 0 <= i < |ticks| - 1 ==> ticks[i].now <= ticks[i + 1].now <= ticks[i].now + d
  }

  /** State of the slot after `k` ticks of an undisturbed job, `first` being the first stale tick. */
  ghost predicate Waiting(cfg: Config, s: Slot, ticks: seq<Tick>, first: nat, k: nat)
    requires first < |ticks| && k <= |ticks|
  {
    var w := Ticks(cfg, s, ticks[..k]);
    && w.inflight && w.jobId == s.jobId && w.start == s.start && w.heartbeat == s.heartbeat
    && (k <= first ==> w == s)
    && (k > first ==> w.firedJobId == s.jobId || 0.0 < w.deferStart <= ticks[first].now)
  }

  lemma {:induction false} TicksProgress(cfg: Config, s: Slot, ticks: seq<Tick>, first: nat, k: nat)
    requires s.inflight && s.firedJobId != s.jobId && s.start >= 0.0 && cfg.window >= 0.0
    requires 0.0 <= s.deferStart <= s.Last()
    requires first < |ticks| && k <= |ticks|
    requires forall i :: 0 <= i < first ==> ticks[i].now - s.Last() <= cfg.window
    requires ticks[first].now - s.Last() > cfg.window
    ensures Waiting(cfg, s, ticks, first, k)
    decreases k
  {
    if k > 0 {
      TicksProgress(cfg, s, ticks, first, k - 1);
      assert ticks[..k][..k - 1] == ticks[..k - 1];
    }
  }

  /** A tick at least the budget after the first stale one leaves the job fired. */
  lemma FiredByThen(cfg: Config, s: Slot, ticks: seq<Tick>, first: nat, k: nat)
    requires s.inflight && s.firedJobId != s.jobId && s.start >= 0.0 && cfg.window >= 0.0
    requires 0.0 <= s.deferStart <= s.Last()
    requires first <= k < |ticks| && ticks[k].now >= ticks[first].now + cfg.budget && ticks[first].now <= ticks[k].now
    requires forall i :: 0 <= i < first ==> ticks[i].now - s.Last() <= cfg.window
    requires ticks[first].now - s.Last() > cfg.window
    ensures Ticks(cfg, s, ticks[..k + 1]).firedJobId == s.jobId
  {
    TicksProgress(cfg, s, ticks, first, k);
    assert ticks[..k + 1][..k] == ticks[..k];
  }

  /** The first tick at or after `from`, which regular ticks reach within `d`. */
  lemma {:induction false} FirstTickFrom(last: real, ticks: seq<Tick>, d: real, from: real, strict: bool)
    returns (k: nat)
    requires Regular(last, ticks, d) && ticks != [] && from >= last
    requires if strict then ticks[|ticks|-1].now > from else ticks[|ticks|-1].now >= from
    ensures k < |ticks| && (if strict then ticks[k].now > from else ticks[k].now >= from) && ticks[k].now <= from + d
    ensures forall i :: 0 <= i < k ==> if strict then ticks[i].now <= from else ticks[i].now < from
    decreases |ticks|
  {
    k := 0;
    while if strict then ticks[k].now <= from else ticks[k].now < from
      invariant k < |ticks|
      invariant forall i :: 0 <= i < k ==> if strict then ticks[i].now <= from else ticks[i].now < from
      decreases |ticks| - k
    {
      k := k + 1;
    }
    if k > 0 { assert ticks[k - 1].now <= ticks[(k - 1) + 1].now <= ticks[k - 1].now + d; }
  }

  /** With ticks at most `d` apart a silent job is poisoned within window + budget + 2d of its last sign of life. */
  lemma DetectionBound(cfg: Config, s: Slot, ticks: seq<Tick>, d: real) returns (k: nat)
    requires s.inflight && s.firedJobId != s.jobId && s.start >= 0.0 && 0.0 <= s.deferStart <= s.Last()
    requires cfg.window >= 0.0 && cfg.budget >= 0.0 && d >= 0.0 && ticks != [] && Regular(s.Last(), ticks, d)
    requires ticks[|ticks|-1].now > s.Last() + cfg.window + cfg.budget + d
    ensures k < |ticks| && ticks[k].now <= s.Last() + cfg.window + cfg.budget + 2.0 * d
    ensures Ticks(cfg, s, ticks[..k + 1]).firedJobId == s.jobId
  {
    var first := FirstTickFrom(s.Last(), ticks, d, s.Last() + cfg.window, true);
    k := FirstTickFrom(s.Last(), ticks, d, ticks[first].now + cfg.budget, false);
    FiredByThen(cfg, s, ticks, first, k);
  }

  /** So a job that is begun and then never heard from again is fired in that time, whatever the slot held before. */
  lemma BegunJobIsDetected(cfg: Config, s: Slot, now: real, ticks: seq<Tick>, d: real) returns (k: nat)
    requires s.firedJobId <= s.jobId && now >= 0.0 && cfg.window >= 0.0 && cfg.budget >= 0.0 && d >= 0.0
    requires ticks != [] && Regular(now, ticks, d) && ticks[|ticks|-1].now > now + cfg.window + cfg.budget + d
    ensures k < |ticks| && ticks[k].now <= now + cfg.window + cfg.budget + 2.0 * d
    ensures Ticks(cfg, Begin(s, now), ticks[..k + 1]).firedJobId == s.jobId + 1
  {
    k := DetectionBound(cfg, Begin(s, now), ticks, d);
  }

  // ----- What is not promised -----

  /** A heartbeat between the two phases does not save the job. */
  lemma LateHeartbeatStillFires(cfg: Config, s: Slot, now: real, a: Answer, beat: real)
    requires FirstPhase(cfg, s, now, a).1.Some?
    ensures SecondPhase(Beat(FirstPhase(cfg, s, now, a).0, beat), FirstPhase(cfg, s, now, a).1.value).1
  {
  }

  /** A heartbeat does not renew the defer budget: the next stale check after it ran out is not deferred. */
  lemma HeartbeatKeepsOldBudget(cfg: Config, s: Slot, now: real, beat: real, again: real)
    requires Stale(cfg, s, now) && FirstPhase(cfg, s, now, Active).1.None? && now > 0.0 && 0.0 <= s.deferStart <= now
    requires again >= now + cfg.budget && again - MaxReal(s.start, beat) > cfg.window
    ensures FirstPhase(cfg, Beat(FirstPhase(cfg, s, now, Active).0, beat), again, Active).1.Some?
  {
  }

  /** Jobs share the slot: after one of two overlapping jobs ends, no check ever fires for the other. */
  lemma {:induction false} OverlapHidesTheOther(cfg: Config, s: Slot, now: real, ticks: seq<Tick>)
    ensures Ticks(cfg, End(Begin(s, now)), ticks) == End(Begin(s, now))
    decreases |ticks|
  {
    if ticks != [] { OverlapHidesTheOther(cfg, s, now, ticks[..|ticks|-1]); }
  }
}
