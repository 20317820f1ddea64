/**
 Ownership of managed temporary files (fusion_mlx/_tempfile_safe.py): the context manager, `release`,
 and the exit hook that reaps what is still pending.

 Every locked section and every file operation is its own step; handles, the exit hook and the caller
 interleave freely.
 */
module TempfileOwnership {
  import opened Common

  type Path = string

  // ----- The objects -----

  class Registry {
    var pending: set<Path>

    constructor () ensures pending == {} { pending := {}; }

    method Add(p: Path)
      modifies this
      ensures pending == old(pending) + {p}
    {
      pending := pending + {p};
    }

    method Discard(p: Path)
      modifies this
      ensures pending == old(pending) - {p}
    {
      pending := pending - {p};
    }

    /** The exit hook's locked section. */
    method TakeAll() returns (snapshot: set<Path>)
      modifies this
      ensures snapshot == old(pending) && pending == {}
    {
      snapshot := pending;
      pending := {};
    }
  }

  /** The exit hook: forgets everything pending and unlinks it; what cannot be unlinked stays. */
  method ReapAll(reg: Registry, files: set<Path>, stubborn: set<Path>) returns (left: set<Path>)
    modifies reg
    ensures reg.pending == {} && left == files - (old(reg.pending) - stubborn)
  {
    var snapshot := reg.TakeAll();
    var todo := snapshot;
    left := files;
    while todo != {}
      invariant todo <= snapshot && left == files - (snapshot - todo - stubborn)
      decreases todo
    {
      var p :| p in todo;
      if p !in stubborn { left := left - {p}; }
      todo := todo - {p};
    }
  }

  class TempfileHandle {
    const path: Path
    var released: bool

    constructor (path: Path) ensures this.path == path && !released
    {
      this.path := path;
      released := false;
    }

    /** Hands the file to the caller; a second call, or a call after the block, changes nothing. */
    method Release(reg: Registry) returns (p: Path)
      modifies this, reg
      ensures p == path && released
      ensures reg.pending == if old(released) then old(reg.pending) else old(reg.pending) - {path}
    {
      if released { return path; }
      reg.Discard(path);
      released := true;
      p := path;
    }

    /** End of the block: whether the file is still ours to delete. */
    method CloseBlock() returns (shouldUnlink: bool)
      modifies this
      ensures released && shouldUnlink == !old(released)
    {
      shouldUnlink := !released;
      if !released { released := true; }
    }
  }

  // ----- The protocol -----

  datatype Stage =
    | Made              // mkstemp returned
    | InBlock           // registered, the body runs
    | Exiting           // decided to unlink
    | Unlinked          // about to discard
    | FailAdded         // setup raised: registered, about to unlink
    | FailUnlinked      // about to discard, then re-raise
    | Raised            // setup failed, no handle was given out
    | Over

  /** `handed` is history: released to the caller inside the block; `early`: before the exit hook's snapshot. */
  datatype Handle = Handle(path: Path, stage: Stage, released: bool, handed: bool, early: bool)

  /** `files[p]` is the handle whose file is at `p`; `reap` is what the exit hook still has to delete. */
  datatype System = System(files: map<Path, nat>, pending: set<Path>, handles: map<nat, Handle>,
                           reap: Option<set<Path>>)

  datatype Event =
    | Create(id: nat, path: Path)
    | Register(id: nat)
    | Fail(id: nat)
    | Unlink(id: nat, works: bool)
    | DiscardPath(id: nat)
    | Release(id: nat)
    | CloseBlock(id: nat)
    | CallerRemoves(path: Path)
    | Snapshot
    | ReapOne(path: Path)

  predicate At(s: System, id: nat, stage: Stage) { id in s.handles && s.handles[id].stage == stage }

  predicate CanHappen(s: System, e: Event) {
    match e
    case Create(id, p) => id !in s.handles && p !in s.files
    case Register(id) => At(s, id, Made)
    case Fail(id) => At(s, id, Made)
    case Unlink(id, _) => At(s, id, Exiting) || At(s, id, FailAdded)
    case DiscardPath(id) => At(s, id, Unlinked) || At(s, id, FailUnlinked)
    case Release(id) => At(s, id, InBlock) || At(s, id, Exiting) || At(s, id, Unlinked) || At(s, id, Over)
    case CloseBlock(id) => At(s, id, InBlock)
    case CallerRemoves(p) =>
      p in s.files && s.files[p] in s.handles && (s.handles[s.files[p]].stage.InBlock? || s.handles[s.files[p]].handed)
    case Snapshot => s.reap.None?
    case ReapOne(p) => s.reap.Some? && p in s.reap.value
  }

  function Move(s: System, id: nat, stage: Stage): System
    requires id in s.handles
  {
    s.(handles := s.handles[id := s.handles[id].(stage := stage)])
  }

  function Happen(s: System, e: Event): System
    requires CanHappen(s, e)
  {
    match e
    case Create(id, p) =>
      s.(files := s.files[p := id], handles := s.handles[id := Handle(p, Made, false, false, false)])
    case Register(id) => Move(s, id, InBlock).(pending := s.pending + {s.handles[id].path})
    case Fail(id) => Move(s, id, FailAdded).(pending := s.pending + {s.handles[id].path})
    case Unlink(id, works) =>
      var h := s.handles[id];
      var gone := h.path !in s.files;  // FileNotFoundError: fine on the exit path, an error on the failure path
      if h.stage.Exiting? then
        if gone then Move(s, id, Unlinked)
        else if works then Move(s, id, Unlinked).(files := s.files - {h.path})
        else Move(s, id, Over)
      else if !gone && works then Move(s, id, FailUnlinked).(files := s.files - {h.path})
      else Move(s, id, Raised)
    case DiscardPath(id) =>
      Move(s, id, if s.handles[id].stage.Unlinked? then Over else Raised).(pending := s.pending - {s.handles[id].path})
    case Release(id) =>
      var h := s.handles[id];
      if h.released then s
      else
        var h' := h.(released := true, handed := true, early := s.reap.None?);
        s.(pending := s.pending - {h.path}, handles := s.handles[id := h'])
    case CloseBlock(id) =>
      var h := s.handles[id];
      s.(handles := s.handles[id := h.(released := true, stage := if h.released then Over else Exiting)])
    case CallerRemoves(p) => s.(files := s.files - {p})
    case Snapshot => s.(reap := Some(s.pending), pending := {})
    case ReapOne(p) => s.(files := s.files - {p}, reap := Some(s.reap.value - {p}))
  }

  /** Names never collide with one that is still pending. */
  predicate FreshNames(s: System, e: Event) { e.Create? ==> e.path !in s.pending }

  ghost predicate Runs(s: System, run: seq<Event>, s': System)
    decreases |run|
  {
    if run == [] then s == s'
    else CanHappen(s, run[0]) && FreshNames(s, run[0]) && Runs(Happen(s, run[0]), run[1..], s')
  }

  const EMPTY := System(map[], {}, map[], None)

  // ----- Invariant -----

  /** The handle may still unlink or discard its path. */
  predicate Active(h: Handle) {
    || h.stage.Made? || h.stage.Exiting? || h.stage.Unlinked? || h.stage.FailAdded? || h.stage.FailUnlinked?
    || (h.stage.InBlock? && !h.released)
  }

  predicate Owns(s: System, id: nat) {
    id in s.handles && s.handles[id].path in s.files && s.files[s.handles[id].path] == id
  }

  /** Paths of active handles belong to nobody else. */
  ghost predicate Separate(s: System) {
    forall i, j | i in s.handles && j in s.handles && i != j && Active(s.handles[i]) ::
      Active(s.handles[j]) || Owns(s, j) ==> s.handles[i].path != s.handles[j].path
  }

  /** The flags of one handle fit its stage. */
  ghost predicate HandleOk(s: System, id: nat)
    requires id in s.handles
  {
    var h := s.handles[id];
    && (h.handed ==> h.released && (h.stage.InBlock? || h.stage.Over?))
    && (h.early ==> h.handed)
    && (s.reap.None? ==> h.handed == h.early)
    && (h.stage.InBlock? && h.released ==> h.handed)
    && (h.stage.Made? ==> !h.released && (s.reap.None? ==> Owns(s, id)))
    && (h.stage.Exiting? || h.stage.Unlinked? || h.stage.Over? ==> h.released)
    && (h.stage.Unlinked? || h.stage.FailUnlinked? ==> !Owns(s, id))
  }

  /** Before the snapshot: pending covers what is ours, and nothing handed over. */
  ghost predicate Covered(s: System, id: nat)
    requires id in s.handles
  {
    var h := s.handles[id];
    && (!h.stage.Made? && (Active(h) || (Owns(s, id) && !h.handed)) ==> h.path in s.pending)
    && (Owns(s, id) && h.handed ==> h.path !in s.pending)
  }

  ghost predicate Before(s: System) {
    Separate(s) && forall i :: i in s.handles ==> Covered(s, i)
  }

  /** After the snapshot: nobody is left who could delete a file handed over early. */
  ghost predicate After(s: System)
    requires s.reap.Some?
  {
    forall i :: i in s.handles && s.handles[i].early && Owns(s, i) ==>
      && s.handles[i].path !in s.reap.value
      && forall j :: j in s.handles && j != i && Active(s.handles[j]) ==> s.handles[j].path != s.handles[i].path
  }

  ghost predicate Inv(s: System) {
    && (forall i :: i in s.handles ==> HandleOk(s, i))
    && if s.reap.None? then Before(s) else After(s)
  }

  lemma HandlesStayOk(s: System, e: Event)
    requires Inv(s) && CanHappen(s, e)
    ensures forall i :: i in Happen(s, e).handles ==> HandleOk(Happen(s, e), i)
  {
  }

  /** A new file's name is nobody's. */
  lemma SeparateCreate(s: System, e: Event)
    requires Inv(s) && s.reap.None? && e.Create? && CanHappen(s, e) && FreshNames(s, e)
    ensures Separate(Happen(s, e))
  {
    forall i | i in s.handles && (Active(s.handles[i]) || Owns(s, i)) ensures s.handles[i].path != e.path {
      assert HandleOk(s, i) && Covered(s, i);
    }
    assert forall j :: j in s.handles && Owns(Happen(s, e), j) ==> Owns(s, j);
  }

  /** Any other event makes no handle active and no handle an owner. */
  lemma NoNewOwner(s: System, e: Event, id: nat)
    requires CanHappen(s, e) && !e.Create? && id in Happen(s, e).handles
    ensures id in s.handles && Happen(s, e).handles[id].path == s.handles[id].path
    ensures Active(Happen(s, e).handles[id]) ==> Active(s.handles[id])
    ensures Owns(Happen(s, e), id) ==> Owns(s, id)
  {
  }

  lemma SeparateStays(s: System, e: Event)
    requires Inv(s) && s.reap.None? && CanHappen(s, e) && FreshNames(s, e)
    ensures Separate(Happen(s, e))
  {
    var s' := Happen(s, e);
    if e.Create? {
      SeparateCreate(s, e);
    } else {
      forall i, j | i in s'.handles && j in s'.handles && i != j && Active(s'.handles[i])
        ensures Active(s'.handles[j]) || Owns(s', j) ==> s'.handles[i].path != s'.handles[j].path
      {
        NoNewOwner(s, e, i);
        NoNewOwner(s, e, j);
      }
    }
  }

  /** The handle an event is about, if any. */
  function Subject(e: Event): Option<nat> {
    match e
    case Create(id, _) => Some(id)
    case Register(id) => Some(id)
    case Fail(id) => Some(id)
    case Unlink(id, _) => Some(id)
    case DiscardPath(id) => Some(id)
    case Release(id) => Some(id)
    case CloseBlock(id) => Some(id)
    case _ => None
  }

  /** A handle stays covered by the events of others. */
  lemma OthersStayCovered(s: System, e: Event, i: nat)
    requires Inv(s) && s.reap.None? && CanHappen(s, e) && FreshNames(s, e) && e != Snapshot
    requires i in s.handles && Subject(e) != Some(i)
    ensures i in Happen(s, e).handles && Covered(Happen(s, e), i)
  {
    assert HandleOk(s, i) && Covered(s, i);
    if Subject(e).Some? && Subject(e).value in s.handles {
      var id := Subject(e).value;
      assert HandleOk(s, id) && Covered(s, id);
      if Active(s.handles[id]) && (Active(s.handles[i]) || Owns(s, i)) {
        assert s.handles[id].path != s.handles[i].path;
      }
    }
  }

  /** A handle stays covered by its own events. */
  lemma SelfStaysCovered(s: System, e: Event, i: nat)
    requires Inv(s) && s.reap.None? && CanHappen(s, e) && FreshNames(s, e) && Subject(e) == Some(i)
    ensures i in Happen(s, e).handles && Covered(Happen(s, e), i)
  {
    if i in s.handles { assert HandleOk(s, i) && Covered(s, i); }
  }

  lemma PendingStays(s: System, e: Event)
    requires Inv(s) && s.reap.None? && CanHappen(s, e) && FreshNames(s, e) && e != Snapshot
    ensures Before(Happen(s, e))
  {
    SeparateStays(s, e);
    forall i | i in Happen(s, e).handles ensures Covered(Happen(s, e), i) {
      if Subject(e) == Some(i) { SelfStaysCovered(s, e, i); } else { OthersStayCovered(s, e, i); }
    }
  }

  lemma AfterStays(s: System, e: Event)
    requires Inv(s) && CanHappen(s, e) && Happen(s, e).reap.Some?
    ensures After(Happen(s, e))
  {
  }

  lemma InvHappen(s: System, e: Event)
    requires Inv(s) && CanHappen(s, e) && FreshNames(s, e)
    ensures Inv(Happen(s, e))
  {
    HandlesStayOk(s, e);
    if Happen(s, e).reap.None? {
      PendingStays(s, e);
    } else {
      AfterStays(s, e);
    }
  }

  lemma {:induction false} InvRuns(s: System, run: seq<Event>, s': System)
    requires Inv(s) && Runs(s, run, s')
    ensures Inv(s')
    decreases |run|
  {
    if run != [] {
      InvHappen(s, run[0]);
      InvRuns(Happen(s, run[0]), run[1..], s');
    }
  }

  // ----- Main results -----

  /**
   In every run with fresh names, until the exit hook takes its snapshot: a registered temporary file
   that still exists and was not handed to the caller is pending, so the hook would reap it; and a file
   handed to the caller is not.
   */
  lemma NothingLeaksBeforeSnapshot(run: seq<Event>, s: System, id: nat)
    requires Runs(EMPTY, run, s) && s.reap.None? && Owns(s, id) && !s.handles[id].stage.Made?
    ensures s.handles[id].path in s.pending <==> !s.handles[id].handed
  {
    InvRuns(EMPTY, run, s);
  }

  /** The snapshot covers exactly the registered files that exist and were not handed over. */
  lemma SnapshotCoversTheRest(run: seq<Event>, s: System, id: nat)
    requires Runs(EMPTY, run, s) && CanHappen(s, Snapshot) && Owns(s, id) && !s.handles[id].stage.Made?
    ensures var s' := Happen(s, Snapshot);
            s'.reap.Some? && (s.handles[id].path in s'.reap.value <==> !s.handles[id].handed)
  {
    NothingLeaksBeforeSnapshot(run, s, id);
  }

  /** A file released inside the block before the snapshot is never deleted by anyone but the caller. */
  lemma {:induction false} HandedFileStays(run: seq<Event>, s: System, later: seq<Event>, s': System, id: nat)
    requires Runs(EMPTY, run, s) && Runs(s, later, s') && Owns(s, id) && s.handles[id].early
    requires forall e :: e in later ==> e != CallerRemoves(s.handles[id].path)
    ensures Owns(s', id) && s'.handles[id].early
    decreases |later|
  {
    InvRuns(EMPTY, run, s);
    HandedStays(s, later, s', id);
  }

  lemma {:induction false} HandedStays(s: System, later: seq<Event>, s': System, id: nat)
    requires Inv(s) && Runs(s, later, s') && Owns(s, id) && s.handles[id].early
    requires forall e :: e in later ==> e != CallerRemoves(s.handles[id].path)
    ensures Owns(s', id) && s'.handles[id].early
    decreases |later|
  {
    if later != [] {
      var m := Happen(s, later[0]);
      InvHappen(s, later[0]);
      assert later[0] in later;
      assert Owns(m, id) && m.handles[id].path == s.handles[id].path && m.handles[id].early;
      assert forall e :: e in later[1..] ==> e in later;
      HandedStays(m, later[1..], s', id);
    }
  }

  /** Leaving the block of an unreleased handle deletes its file and forgets it. */
  lemma LeavingTheBlockDeletes(run: seq<Event>, s: System, id: nat)
    requires Runs(EMPTY, run, s) && s.reap.None? && At(s, id, InBlock)
    ensures var p, a := s.handles[id].path, Happen(s, CloseBlock(id));
            if s.handles[id].released then At(a, id, Over) && a.files == s.files
            else CanHappen(a, Unlink(id, true)) && var b := Happen(a, Unlink(id, true));
                 CanHappen(b, DiscardPath(id)) && var c := Happen(b, DiscardPath(id));
                 At(c, id, Over) && c.files == s.files - {p} && c.pending == s.pending - {p}
  {
    InvRuns(EMPTY, run, s);
  }

  /** Releasing inside the block hands the file over: it leaves the pending set, and closing the block keeps it. */
  lemma ReleasingHandsOver(s: System, id: nat)
    requires At(s, id, InBlock) && !s.handles[id].released
    ensures CanHappen(s, Release(id))
    ensures var h, a := s.handles[id], Happen(s, Release(id));
            && a == s.(pending := s.pending - {h.path},
                       handles := s.handles[id := Handle(h.path, InBlock, true, true, s.reap.None?)])
            && Happen(a, Release(id)) == a
            && CanHappen(a, CloseBlock(id))
            && Happen(a, CloseBlock(id)) == a.(handles := a.handles[id := a.handles[id].(stage := Over)])
  {
    var a := Happen(s, Release(id));
    assert a.handles[id := a.handles[id]] == a.handles;
  }

  /** A setup that fails after the file was made deletes and forgets it, or leaves it pending for the exit hook. */
  lemma FailedSetup(s: System, id: nat)
    requires At(s, id, Made) && s.handles[id].path in s.files
    ensures CanHappen(s, Fail(id)) && CanHappen(Happen(s, Fail(id)), Unlink(id, true))
    ensures var p, a := s.handles[id].path, Happen(s, Fail(id));
            var b := Happen(a, Unlink(id, true));
            && CanHappen(b, DiscardPath(id))
            && var c := Happen(b, DiscardPath(id));
               && At(c, id, Raised) && c.files == s.files - {p} && c.pending == s.pending - {p}
               && var stuck := Happen(a, Unlink(id, false));
                  At(stuck, id, Raised) && stuck.files == s.files && stuck.pending == s.pending + {p}
  {
  }

  /** The exit hook takes all that is pending, leaving nothing, and then deletes it path by path. */
  lemma HookReapsAll(s: System, p: Path)
    requires CanHappen(s, Snapshot) && p in s.pending
    ensures var a := Happen(s, Snapshot);
            && a == s.(pending := {}, reap := Some(s.pending)) && CanHappen(a, ReapOne(p))
            && Happen(a, ReapOne(p)) == a.(files := s.files - {p}, reap := Some(s.pending - {p}))
  {
  }

  /** A file can be made under any free name at any time; registered, it is the handle's and pending. */
  lemma AnyoneMayBegin(s: System, id: nat, p: Path)
    requires id !in s.handles && p !in s.files
    ensures CanHappen(s, Create(id, p)) && CanHappen(Happen(s, Create(id, p)), Register(id))
    ensures var a := Happen(Happen(s, Create(id, p)), Register(id));
            && Owns(a, id) && a.files == s.files[p := id] && a.pending == s.pending + {p} && a.reap == s.reap
            && a.handles == s.handles[id := Handle(p, InBlock, false, false, false)]
  {
  }

  /** A file that resists deletion on leaving the block stays pending, for the exit hook to try again. */
  lemma StubbornFileStaysPending(run: seq<Event>, s: System, id: nat)
    requires Runs(EMPTY, run, s) && s.reap.None? && At(s, id, Exiting) && Owns(s, id)
    ensures CanHappen(s, Unlink(id, false))
    ensures var a := Happen(s, Unlink(id, false));
            At(a, id, Over) && a.files == s.files && a.pending == s.pending && s.handles[id].path in a.pending
  {
    InvRuns(EMPTY, run, s);
    assert Covered(s, id);
  }

  /** The body may delete its own file: leaving the block still forgets it. */
  lemma GoneFileIsForgotten(run: seq<Event>, s: System, id: nat, works: bool)
    requires Runs(EMPTY, run, s) && s.reap.None? && At(s, id, InBlock) && !s.handles[id].released && Owns(s, id)
    ensures CanHappen(s, CallerRemoves(s.handles[id].path))
    ensures var p := s.handles[id].path;
            var a := Happen(Happen(s, CallerRemoves(p)), CloseBlock(id));
            && CanHappen(a, Unlink(id, works))
            && var b := Happen(a, Unlink(id, works));
               && CanHappen(b, DiscardPath(id))
               && var c := Happen(b, DiscardPath(id));
                  At(c, id, Over) && c.files == s.files - {p} && c.pending == s.pending - {p}
  {
    InvRuns(EMPTY, run, s);
  }

  /** When the file of a failing setup is gone already, its name stays pending. */
  lemma GoneFileOfFailedSetup(s: System, id: nat, works: bool)
    requires At(s, id, FailAdded) && s.handles[id].path !in s.files
    ensures CanHappen(s, Unlink(id, works))
    ensures var a := Happen(s, Unlink(id, works)); At(a, id, Raised) && a.files == s.files && a.pending == s.pending
  {
  }

  /** `release` after the block does nothing, whenever it comes. */
  lemma ReleaseAfterTheBlock(run: seq<Event>, s: System, id: nat)
    requires Runs(EMPTY, run, s) && (At(s, id, Exiting) || At(s, id, Unlinked) || At(s, id, Over))
    ensures CanHappen(s, Release(id)) && Happen(s, Release(id)) == s
  {
    InvRuns(EMPTY, run, s);
    assert HandleOk(s, id);
  }

  // ----- What is not promised -----

  /**
   Freshness is needed: when a new file takes the name of one that was unlinked but not yet discarded,
   the late discard leaves the new file, registered and not handed over, out of the pending set.
   */
  lemma ReusedNameLeaks(s: System, prior: nat, reuse: nat, p: Path)
    requires At(s, prior, Unlinked) && s.handles[prior].path == p && CanHappen(s, Create(reuse, p))
    ensures var a := Happen(s, Create(reuse, p));
            && CanHappen(a, Register(reuse))
            && var b := Happen(a, Register(reuse));
               && CanHappen(b, DiscardPath(prior))
               && var c := Happen(b, DiscardPath(prior));
                  Owns(c, reuse) && At(c, reuse, InBlock) && !c.handles[reuse].handed && p !in c.pending
  {
  }

  /** A file released after the snapshot is reaped all the same. */
  lemma LateReleaseIsReaped(run: seq<Event>, s: System, id: nat)
    requires Runs(EMPTY, run, s) && s.reap.None? && Owns(s, id) && At(s, id, InBlock) && !s.handles[id].released
    ensures var a := Happen(s, Snapshot);
            && CanHappen(a, Release(id))
            && var b := Happen(a, Release(id));
               && b.handles[id].handed && CanHappen(b, ReapOne(s.handles[id].path))
               && !Owns(Happen(b, ReapOne(s.handles[id].path)), id)
  {
    InvRuns(EMPTY, run, s);
  }
}
