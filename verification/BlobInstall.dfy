/**
 Content-addressed installation of downloaded weights (fusion_mlx/_mirror.py).

 Any number of processes run the resumable download of `_do_r2_download` followed by
 `_install_lfs_blob_and_symlink` on one shared cache directory.  Every file-system operation is a
 separate step, a process can be killed between any two of them, and either advisory lock can degrade
 to "no lock".  Files are inodes reached through a directory tree, so an open handle keeps writing to
 its inode after a rename.
 */
module BlobInstall {
  import opened Common

  // ----- The shared disk -----

  datatype Path =
    | Part(key: string)        // .fusion-mlx-mirror/<key>.part
    | Blob(sha: Digest)        // blobs/<sha>
    | BlobTmp(sha: Digest)     // blobs/<sha>.tmp
    | Snap(name: string)       // snapshots/<rev>/<name>
    | Elsewhere(name: string)  // anything outside blobs/ and the above

  datatype Node = File(ino: nat) | Link(to: Path) | Dir

  datatype Disk = Disk(tree: map<Path, Node>, data: map<nat, Bytes>) {
    predicate IsFile(p: Path) { p in tree && tree[p].File? && tree[p].ino in data }

    predicate IsDir(p: Path) { p in tree && tree[p].Dir? }

    /** It exists and is not a symlink. */
    predicate Present(p: Path) { p in tree && !tree[p].Link? }

    function Content(p: Path): Bytes requires IsFile(p) { data[tree[p].ino] }

    function Unlink(p: Path): Disk { Disk(tree - {p}, data) }

    /** `os.rename`: atomically moves the directory entry, replacing the destination. */
    function Rename(p: Path, q: Path): Disk requires p in tree { Disk((tree - {p})[q := tree[p]], data) }

    function Put(p: Path, n: Node): Disk { Disk(tree[p := n], data) }

    function Store(ino: nat, bytes: Bytes): Disk { Disk(tree, data[ino := bytes]) }
  }

  /** Writing `piece` at offset `off`; a gap past the end reads as zeros. */
  function WriteAt(prior: Bytes, off: nat, piece: Bytes): Bytes {
    if off <= |prior| then prior[..off] + piece + (if off + |piece| <= |prior| then prior[off + |piece|..] else [])
    else prior + seq(off - |prior|, _ => 0) + piece
  }

  /** Behind the write everything is as before, the piece is where it was put, and a gap reads as zeros. */
  lemma WriteAtIs(prior: Bytes, off: nat, piece: Bytes)
    ensures var w := WriteAt(prior, off, piece);
            && |w| == Max(|prior|, off + |piece|) && w[off..off + |piece|] == piece
            && forall i :: 0 <= i < |w| && !(off <= i < off + |piece|) ==> w[i] == if i < |prior| then prior[i] else 0
  {
  }

  // ----- One process -----

  datatype Job = Job(key: string, name: string, sha: Digest)

  datatype Pc =
    | WantPartLock
    | Request              // .part measured, response awaited
    | Rehash               // 206: feed the existing prefix to the hasher
    | Open(append: bool)
    | Stream(append: bool)
    | WantBlobLock         // digest verified
    | CheckBlob
    | DropPart             // blob already there
    | ClearStage
    | Stage                // rename .part -> <sha>.tmp
    | Commit               // rename <sha>.tmp -> <sha>
    | ClearTarget
    | PlaceLink
    | Cleanup              // failed: drop .part
    | Finished
    | Killed

  datatype Proc = Proc(job: Job, pc: Pc, partLock: bool, blobLock: bool, fed: Bytes, ino: nat, off: nat)

  datatype Action =
    | GrantPart | DegradePart
    | Full | Partial                  // 200, or 206 for a non-empty .part
    | ReadPrefix
    | OpenPart(newIno: nat)
    | Write(piece: Bytes)
    | EndStream
    | GrantBlob | DegradeBlob
    | Proceed(works: bool)            // the next file operation; a best-effort unlink may do nothing
    | Fail                            // a refused response or an OSError
    | Kill

  predicate Live(pc: Pc) { !pc.WantPartLock? && !pc.Finished? && !pc.Killed? }

  predicate Enabled(d: Disk, p: Proc, a: Action) {
    var part := Part(p.job.key);
    match a
    case GrantPart | DegradePart => p.pc.WantPartLock?
    case Full => p.pc.Request?
    case Partial => p.pc.Request? && d.IsFile(part) && d.Content(part) != []
    case ReadPrefix => p.pc.Rehash? && d.IsFile(part)
    case OpenPart(newIno) => p.pc.Open? && (d.IsFile(part) || (part !in d.tree && newIno !in d.data))
    case Write(_) => p.pc.Stream? && p.ino in d.data
    case EndStream => p.pc.Stream?
    case GrantBlob | DegradeBlob => p.pc.WantBlobLock?
    case Proceed(_) =>
      p.pc.CheckBlob? || p.pc.DropPart? || p.pc.ClearStage? || p.pc.Stage? || p.pc.Commit? ||
      p.pc.ClearTarget? || p.pc.PlaceLink? || p.pc.Cleanup?
    case Fail => Live(p.pc) && !p.pc.Cleanup?
    case Kill => !p.pc.Finished? && !p.pc.Killed?
  }

  function Drop(d: Disk, p: Path, works: bool): Disk {
    if works then d.Unlink(p) else d
  }

  /** The file operation behind `Proceed`, and the program counter after it. */
  function Operate(d: Disk, job: Job, pc: Pc, works: bool): (Disk, Pc) {
    match pc
    case CheckBlob =>
      (d, if d.Present(Blob(job.sha)) then DropPart else ClearStage)
    case DropPart => (Drop(d, Part(job.key), works), ClearTarget)
    case ClearStage => (Drop(d, BlobTmp(job.sha), works), Stage)
    case Stage =>
      if Part(job.key) in d.tree then (d.Rename(Part(job.key), BlobTmp(job.sha)), Commit) else (d, Cleanup)
    case Commit =>
      if BlobTmp(job.sha) in d.tree && !d.IsDir(Blob(job.sha)) && works
      then (d.Rename(BlobTmp(job.sha), Blob(job.sha)), ClearTarget)
      else (d.Unlink(BlobTmp(job.sha)), Cleanup)
    case ClearTarget => (Drop(d, Snap(job.name), works), PlaceLink)
    case PlaceLink =>
      if Snap(job.name) in d.tree then (d, Cleanup) else (d.Put(Snap(job.name), Link(Blob(job.sha))), Finished)
    case Cleanup => (Drop(d, Part(job.key), works), Finished)
    case _ => (d, pc)
  }

  function OpenFile(d: Disk, p: Proc, newIno: nat): (Disk, Proc) {
    var part := Part(p.job.key);
    var (d1, ino) :=
      if d.IsFile(part) then (d, d.tree[part].ino)
      else (d.Put(part, File(newIno)).Store(newIno, []), newIno);
    var d2 := if p.pc.Open? && !p.pc.append then d1.Store(ino, []) else d1;
    (d2, p.(ino := ino, off := 0, pc := if p.pc.Open? then Stream(p.pc.append) else p.pc))
  }

  /** One step of a process; `Finished` and `Killed` release both locks. */
  function Local(hash: Bytes -> Digest, d: Disk, p: Proc, a: Action): (Disk, Proc)
    requires Enabled(d, p, a)
  {
    match a
    case GrantPart => (d, p.(pc := Request, partLock := true))
    case DegradePart => (d, p.(pc := Request))
    case Full => (d, p.(pc := Open(false), fed := []))
    case Partial => (d, p.(pc := Rehash))
    case ReadPrefix => (d, p.(pc := Open(true), fed := d.Content(Part(p.job.key))))
    case OpenPart(newIno) => OpenFile(d, p, newIno)
    case Write(piece) =>
      var prior := d.data[p.ino];
      var at := if p.pc.append then |prior| else p.off;
      (d.Store(p.ino, WriteAt(prior, at, piece)), p.(fed := p.fed + piece, off := p.off + |piece|))
    case EndStream => (d, p.(pc := if hash(p.fed) == p.job.sha then WantBlobLock else Cleanup))
    case GrantBlob => (d, p.(pc := CheckBlob, blobLock := true))
    case DegradeBlob => (d, p.(pc := CheckBlob))
    case Proceed(works) =>
      var (d', pc') := Operate(d, p.job, p.pc, works);
      (d', if pc'.Finished? then p.(pc := pc', partLock := false, blobLock := false) else p.(pc := pc'))
    case Fail => (d, p.(pc := Cleanup))
    case Kill => (d, p.(pc := Killed, partLock := false, blobLock := false))
  }

  // ----- All processes -----

  /** `made` is ghost history: the snapshot names at which some process placed its symlink. */
  datatype State = State(disk: Disk, procs: map<nat, Proc>, made: set<string>)

  /** An advisory lock is granted only while no other process holds it. */
  predicate LockFree(s: State, pid: nat, a: Action)
    requires pid in s.procs
  {
    forall q :: q in s.procs && q != pid ==>
      && (a.GrantPart? && s.procs[q].job.key == s.procs[pid].job.key ==> !s.procs[q].partLock)
      && (a.GrantBlob? && s.procs[q].job.sha == s.procs[pid].job.sha ==> !s.procs[q].blobLock)
  }

  predicate CanStep(s: State, pid: nat, a: Action) {
    pid in s.procs && Enabled(s.disk, s.procs[pid], a) && LockFree(s, pid, a)
  }

  function Step(hash: Bytes -> Digest, s: State, pid: nat, a: Action): State
    requires CanStep(s, pid, a)
  {
    var p := s.procs[pid];
    var (d', p') := Local(hash, s.disk, p, a);
    State(d', s.procs[pid := p'], if p.pc.PlaceLink? && p'.pc.Finished? then s.made + {p.job.name} else s.made)
  }

  /** A cache directory in which no blob is corrupt, and processes that have not started. */
  ghost predicate Init(hash: Bytes -> Digest, s: State) {
    && TreeOk(s.disk) && BlobsOk(hash, s.disk)
    && s.made == {}
    && forall q :: q in s.procs ==> s.procs[q].pc.WantPartLock? && !s.procs[q].partLock && !s.procs[q].blobLock
  }

  /** `s'` is reached from `s` in `n` steps in which only the processes in `weak` may lose their part lock. */
  ghost predicate Reaches(hash: Bytes -> Digest, s: State, n: nat, s': State, weak: set<nat>)
    decreases n
  {
    if n == 0 then s == s'
    else exists m, pid, a :: Reaches(hash, s, n - 1, m, weak) && StepsTo(hash, m, pid, a, s', weak)
  }

  ghost predicate StepsTo(hash: Bytes -> Digest, s: State, pid: nat, a: Action, s': State, weak: set<nat>) {
    CanStep(s, pid, a) && s' == Step(hash, s, pid, a) && (a.DegradePart? ==> pid in weak)
  }

  /** `q` shares its `.part` with another process, and one of the two may lose its part lock. */
  ghost predicate Exposed(s: State, weak: set<nat>, q: nat) {
    && q in s.procs
    && exists r :: r in s.procs && r != q && s.procs[r].job.key == s.procs[q].job.key && (q in weak || r in weak)
  }

  // ----- What is promised -----

  /** The regular file at `blobs/<h>`, if there is one, holds bytes hashing to `h`. */
  predicate BlobOk(hash: Bytes -> Digest, d: Disk, h: Digest) {
    d.IsFile(Blob(h)) ==> hash(d.Content(Blob(h))) == h
  }

  /** Length of a SHA-256 digest in hexadecimal. */
  const DIGEST_LENGTH := 64

  /**
   Every blob named by a SHA-256 digest is sound.  HuggingFace stores files without a digest in the same
   directory under 40-character git object ids; of those nothing is asked.
   */
  ghost predicate BlobsOk(hash: Bytes -> Digest, d: Disk) {
    forall h :: |h| == DIGEST_LENGTH ==> BlobOk(hash, d, h)
  }

  /** Whatever is stored under the name `h`, nothing is promised of it that could fail. */
  ghost predicate Irrelevant(hash: Bytes -> Digest, h: Digest) {
    |h| == DIGEST_LENGTH ==> forall bytes :: hash(bytes) == h
  }

  /** Installing `sha` has something to spoil: no blob is there, some bytes have the digest and some have not. */
  ghost predicate Vulnerable(hash: Bytes -> Digest, d: Disk, sha: Digest) {
    && |sha| == DIGEST_LENGTH && !d.Present(Blob(sha))
    && (exists good :: hash(good) == sha) && exists bad :: hash(bad) != sha
  }

  /** No exposed process has anything to spoil. */
  ghost predicate NoVictim(hash: Bytes -> Digest, s: State, weak: set<nat>) {
    forall q :: Exposed(s, weak, q) ==> !Vulnerable(hash, s.disk, s.procs[q].job.sha)
  }

  /** Every symlink placed by an installer points at an existing blob. */
  ghost predicate LinksOk(s: State) {
    forall n, h :: n in s.made && Snap(n) in s.disk.tree && s.disk.tree[Snap(n)] == Link(Blob(h)) ==>
      s.disk.Present(Blob(h))
  }

  // ----- The inductive invariant -----

  /** Regular files have data, no two entries share an inode, and `.part` entries are regular files. */
  ghost predicate TreeOk(d: Disk) {
    && (forall p :: p in d.tree && d.tree[p].File? ==> d.tree[p].ino in d.data)
    && (forall p, q :: SameFile(d, p, q) ==> p == q)
    && (forall k :: Part(k) in d.tree ==> d.tree[Part(k)].File?)
    && (forall h :: BlobTmp(h) in d.tree ==> d.tree[BlobTmp(h)].File?)
  }

  predicate SameFile(d: Disk, p: Path, q: Path) {
    p in d.tree && q in d.tree && d.tree[p].File? && d.tree[p] == d.tree[q]
  }

  /** What holds of a process that works alone on its `.part`. */
  ghost predicate ProcOk(hash: Bytes -> Digest, d: Disk, p: Proc) {
    var part, tmp := Part(p.job.key), BlobTmp(p.job.sha);
    && (p.pc.Open? && p.pc.append ==> d.IsFile(part) && d.Content(part) == p.fed)
    && (p.pc.Open? && !p.pc.append ==> p.fed == [])
    && (p.pc.Stream? ==> && part in d.tree && d.tree[part] == File(p.ino) && p.ino in d.data
                         && d.data[p.ino] == p.fed && (!p.pc.append ==> p.off == |p.fed|))
    && (p.pc.WantBlobLock? || p.pc.CheckBlob? || p.pc.DropPart? || p.pc.ClearStage? || p.pc.Stage? ==>
          d.IsFile(part) && hash(d.Content(part)) == p.job.sha)
    && (p.pc.Commit? && d.IsFile(tmp) && |p.job.sha| == DIGEST_LENGTH ==> hash(d.Content(tmp)) == p.job.sha)
  }

  /** A part lock has one holder; whoever works without one is `weak`. */
  ghost predicate LocksOk(s: State, weak: set<nat>) {
    && (forall q, r | q in s.procs && r in s.procs && s.procs[q].partLock && s.procs[r].partLock ::
          s.procs[q].job.key == s.procs[r].job.key ==> q == r)
    && (forall q :: q in s.procs && Live(s.procs[q].pc) ==> s.procs[q].partLock || q in weak)
  }

  /** A handle of an exposed process may still write to `x`. */
  ghost predicate Harmless(hash: Bytes -> Digest, key: string, x: Path) {
    x == Part(key) || ((x.BlobTmp? || x.Blob?) && Irrelevant(hash, x.sha))
  }

  ghost predicate OnlyHarmless(hash: Bytes -> Digest, d: Disk, key: string, ino: nat) {
    forall x :: x in d.tree && d.tree[x] == File(ino) ==> Harmless(hash, key, x)
  }

  /** What holds of an exposed process with nothing to spoil, whose `.part` anyone may rewrite. */
  ghost predicate RivalOk(hash: Bytes -> Digest, d: Disk, p: Proc) {
    && (p.pc.Stream? ==> p.ino in d.data && OnlyHarmless(hash, d, p.job.key, p.ino))
    && (p.pc.WantBlobLock? || p.pc.CheckBlob? ==> hash(p.fed) == p.job.sha)
    && (p.pc.ClearStage? || p.pc.Stage? || p.pc.Commit? ==> Irrelevant(hash, p.job.sha))
  }

  ghost predicate MemberOk(hash: Bytes -> Digest, s: State, weak: set<nat>, q: nat)
    requires q in s.procs
  {
    if Exposed(s, weak, q) then RivalOk(hash, s.disk, s.procs[q]) else ProcOk(hash, s.disk, s.procs[q])
  }

  ghost predicate Inv(hash: Bytes -> Digest, s: State, weak: set<nat>) {
    && TreeOk(s.disk) && BlobsOk(hash, s.disk) && LocksOk(s, weak) && NoVictim(hash, s, weak)
    && forall q :: q in s.procs ==> MemberOk(hash, s, weak, q)
  }

  // ----- Preservation -----

  /** What a step of the process with job `job` may do to the disk, as seen by everyone else. */
  ghost predicate Interference(hash: Bytes -> Digest, d: Disk, d': Disk, job: Job) {
    && (forall k :: k != job.key ==> SameEntry(d, d', Part(k)))
    && (forall h :: d.Present(Blob(h)) ==> d'.Present(Blob(h)))
    && (forall h :: d'.IsFile(BlobTmp(h)) && |h| == DIGEST_LENGTH ==>
          SameEntry(d, d', BlobTmp(h)) || hash(d'.Content(BlobTmp(h))) == h)
  }

  /** Inodes stay, and appear under a new name only by being staged or committed. */
  ghost predicate Moves(d: Disk, d': Disk, job: Job, staging: bool) {
    && (forall i :: i in d.data ==> i in d'.data)
    && forall x :: x in d'.tree && d'.tree[x].File? && d'.tree[x].ino in d.data ==>
         || Names(d, x, d'.tree[x].ino)
         || (staging && x == BlobTmp(job.sha) && Names(d, Part(job.key), d'.tree[x].ino))
         || (x == Blob(job.sha) && Names(d, BlobTmp(job.sha), d'.tree[x].ino))
  }

  predicate Names(d: Disk, x: Path, ino: nat) { x in d.tree && d.tree[x] == File(ino) }

  ghost predicate SameEntry(d: Disk, d': Disk, p: Path) {
    && (p in d.tree <==> p in d'.tree)
    && (p in d.tree ==> d.tree[p] == d'.tree[p])
    && (d.IsFile(p) ==> d'.IsFile(p) && d'.Content(p) == d.Content(p))
  }

  lemma OthersKeep(hash: Bytes -> Digest, d: Disk, d': Disk, job: Job, q: Proc)
    requires TreeOk(d) && ProcOk(hash, d, q) && Interference(hash, d, d', job)
    requires Live(q.pc) ==> q.job.key != job.key
    ensures ProcOk(hash, d', q)
  {
    assert Live(q.pc) ==> SameEntry(d, d', Part(q.job.key));
  }

  /** An exposed process keeps its condition if whoever stages its `.part` stages it for an irrelevant name. */
  lemma RivalsKeep(hash: Bytes -> Digest, d: Disk, d': Disk, job: Job, staging: bool, q: Proc)
    requires RivalOk(hash, d, q) && Interference(hash, d, d', job) && Moves(d, d', job, staging)
    requires staging && q.job.key == job.key ==> Irrelevant(hash, job.sha)
    ensures RivalOk(hash, d', q)
  {
    if q.pc.Stream? {
      forall x | x in d'.tree && d'.tree[x] == File(q.ino) ensures Harmless(hash, q.job.key, x) {
        if Names(d, x, q.ino) {
        } else if Names(d, BlobTmp(job.sha), q.ino) && x == Blob(job.sha) {
          assert Harmless(hash, q.job.key, BlobTmp(job.sha));
        } else {
          assert Harmless(hash, q.job.key, Part(job.key));
        }
      }
    }
  }

  lemma MovesStep(hash: Bytes -> Digest, d: Disk, p: Proc, a: Action)
    requires Enabled(d, p, a)
    ensures Moves(d, Local(hash, d, p, a).0, p.job, p.pc.Stage?)
  {
  }

  /** The stepping process keeps its own condition, the disk stays sound, and others see only `Interference`. */
  lemma LocalStep(hash: Bytes -> Digest, d: Disk, p: Proc, a: Action)
    requires TreeOk(d) && BlobsOk(hash, d) && ProcOk(hash, d, p) && Enabled(d, p, a)
    ensures var (d', p') := Local(hash, d, p, a);
            && TreeOk(d') && BlobsOk(hash, d') && ProcOk(hash, d', p') && Interference(hash, d, d', p.job)
            && p'.job == p.job
  {
    match a {
      case Proceed(works) => OperateStep(hash, d, p, works);
      case OpenPart(newIno) => OpenStep(hash, d, p, newIno);
      case Write(piece) => WriteStep(hash, d, p, piece);
      case _ =>
    }
  }

  /** Writing through one entry's inode changes no other entry. */
  lemma StoreKeeps(d: Disk, x: Path, bytes: Bytes)
    requires TreeOk(d) && d.IsFile(x)
    ensures var d' := d.Store(d.tree[x].ino, bytes);
            && TreeOk(d') && d'.IsFile(x) && d'.Content(x) == bytes && forall p :: p != x ==> SameEntry(d, d', p)
  {
    var d' := d.Store(d.tree[x].ino, bytes);
    forall p, q | SameFile(d', p, q) ensures p == q { assert SameFile(d, p, q); }
    forall p | p != x ensures SameEntry(d, d', p) { assert !SameFile(d, p, x); }
  }

  lemma StoreFrame(hash: Bytes -> Digest, d: Disk, x: Path, bytes: Bytes)
    requires TreeOk(d) && BlobsOk(hash, d) && d.IsFile(x) && !x.Blob?
    ensures var d' := d.Store(d.tree[x].ino, bytes);
            && TreeOk(d') && BlobsOk(hash, d') && d'.IsFile(x) && d'.Content(x) == bytes
            && forall p :: p != x ==> SameEntry(d, d', p)
  {
    var d' := d.Store(d.tree[x].ino, bytes);
    StoreKeeps(d, x, bytes);
    forall h | |h| == DIGEST_LENGTH ensures BlobOk(hash, d', h) {
      assert BlobOk(hash, d, h) && SameEntry(d, d', Blob(h));
    }
  }

  /** Creating an empty file at a new entry with a new inode changes no other entry. */
  lemma CreateFrame(hash: Bytes -> Digest, d: Disk, x: Path, ino: nat)
    requires TreeOk(d) && BlobsOk(hash, d) && x !in d.tree && ino !in d.data && x.Part?
    ensures var d' := d.Put(x, File(ino)).Store(ino, []);
            && TreeOk(d') && BlobsOk(hash, d') && d'.IsFile(x) && d'.Content(x) == []
            && forall p :: p != x ==> SameEntry(d, d', p)
  {
    var d' := d.Put(x, File(ino)).Store(ino, []);
    forall p, q | SameFile(d', p, q) ensures p == q { assert p != x && q != x ==> SameFile(d, p, q); }
  }

  lemma OpenStep(hash: Bytes -> Digest, d: Disk, p: Proc, newIno: nat)
    requires TreeOk(d) && BlobsOk(hash, d) && ProcOk(hash, d, p) && Enabled(d, p, OpenPart(newIno))
    ensures var (d', p') := OpenFile(d, p, newIno);
            && TreeOk(d') && BlobsOk(hash, d') && ProcOk(hash, d', p') && Interference(hash, d, d', p.job)
  {
    var part := Part(p.job.key);
    if d.IsFile(part) {
      StoreFrame(hash, d, part, []);
    } else {
      CreateFrame(hash, d, part, newIno);
      var d1 := d.Put(part, File(newIno)).Store(newIno, []);
      assert d1.Store(newIno, []) == d1;
    }
  }

  lemma WriteStep(hash: Bytes -> Digest, d: Disk, p: Proc, piece: Bytes)
    requires TreeOk(d) && BlobsOk(hash, d) && ProcOk(hash, d, p) && Enabled(d, p, Write(piece))
    ensures var (d', p') := Local(hash, d, p, Write(piece));
            && TreeOk(d') && BlobsOk(hash, d') && ProcOk(hash, d', p') && Interference(hash, d, d', p.job)
  {
    assert WriteAt(p.fed, |p.fed|, piece) == p.fed + piece;
    StoreFrame(hash, d, Part(p.job.key), p.fed + piece);
  }

  lemma UnlinkFrame(hash: Bytes -> Digest, d: Disk, x: Path)
    requires TreeOk(d) && BlobsOk(hash, d) && !x.Blob?
    ensures var d' := d.Unlink(x);
            && TreeOk(d') && BlobsOk(hash, d') && x !in d'.tree && forall p :: p != x ==> SameEntry(d, d', p)
  {
    var d' := d.Unlink(x);
    forall p, q | SameFile(d', p, q) ensures p == q { assert SameFile(d, p, q); }
  }

  lemma DropInterferes(hash: Bytes -> Digest, d: Disk, x: Path, works: bool, job: Job)
    requires TreeOk(d) && BlobsOk(hash, d) && !x.Blob? && (x.Part? ==> x.key == job.key)
    ensures var d' := Drop(d, x, works); TreeOk(d') && BlobsOk(hash, d') && Interference(hash, d, d', job)
  {
    UnlinkFrame(hash, d, x);
  }

  lemma RenameFrame(hash: Bytes -> Digest, d: Disk, x: Path, y: Path)
    requires TreeOk(d) && BlobsOk(hash, d) && d.IsFile(x) && !x.Blob? && x != y && (y.Blob? || y.BlobTmp?)
    requires |y.sha| == DIGEST_LENGTH ==> hash(d.Content(x)) == y.sha
    ensures var d' := d.Rename(x, y);
            && TreeOk(d') && BlobsOk(hash, d') && x !in d'.tree && d'.IsFile(y) && d'.Content(y) == d.Content(x)
            && forall p :: p != x && p != y ==> SameEntry(d, d', p)
  {
    var d' := d.Rename(x, y);
    forall p, q | SameFile(d', p, q) ensures p == q {
      assert SameFile(d, if p == y then x else p, if q == y then x else q);
    }
  }

  lemma LinkFrame(hash: Bytes -> Digest, d: Disk, n: string, to: Path)
    requires TreeOk(d) && BlobsOk(hash, d)
    ensures var d' := d.Put(Snap(n), Link(to));
            && TreeOk(d') && BlobsOk(hash, d') && forall p :: p != Snap(n) ==> SameEntry(d, d', p)
  {
    var d' := d.Put(Snap(n), Link(to));
    forall p, q | SameFile(d', p, q) ensures p == q { assert SameFile(d, p, q); }
  }

  lemma OperateStep(hash: Bytes -> Digest, d: Disk, p: Proc, works: bool)
    requires TreeOk(d) && BlobsOk(hash, d) && ProcOk(hash, d, p) && Enabled(d, p, Proceed(works))
    ensures var (d', p') := Local(hash, d, p, Proceed(works));
            && TreeOk(d') && BlobsOk(hash, d') && ProcOk(hash, d', p') && Interference(hash, d, d', p.job)
  {
    match p.pc {
      case Stage => StageStep(hash, d, p, works);
      case Commit => CommitStep(hash, d, p, works);
      case ClearTarget => TargetStep(hash, d, p, works);
      case PlaceLink => LinkStep(hash, d, p, works);
      case ClearStage => ClearStageStep(hash, d, p, works);
      case CheckBlob =>
      case _ => DropStep(hash, d, p, works);
    }
  }

  lemma StageStep(hash: Bytes -> Digest, d: Disk, p: Proc, works: bool)
    requires TreeOk(d) && BlobsOk(hash, d) && ProcOk(hash, d, p) && p.pc.Stage?
    ensures var (d', p') := Local(hash, d, p, Proceed(works));
            && TreeOk(d') && BlobsOk(hash, d') && ProcOk(hash, d', p') && Interference(hash, d, d', p.job)
  {
    RenameFrame(hash, d, Part(p.job.key), BlobTmp(p.job.sha));
  }

  lemma TargetStep(hash: Bytes -> Digest, d: Disk, p: Proc, works: bool)
    requires TreeOk(d) && BlobsOk(hash, d) && ProcOk(hash, d, p) && p.pc.ClearTarget?
    ensures var (d', p') := Local(hash, d, p, Proceed(works));
            && TreeOk(d') && BlobsOk(hash, d') && ProcOk(hash, d', p') && Interference(hash, d, d', p.job)
  {
    UnlinkFrame(hash, d, Snap(p.job.name));
  }

  lemma LinkStep(hash: Bytes -> Digest, d: Disk, p: Proc, works: bool)
    requires TreeOk(d) && BlobsOk(hash, d) && ProcOk(hash, d, p) && p.pc.PlaceLink?
    ensures var (d', p') := Local(hash, d, p, Proceed(works));
            && TreeOk(d') && BlobsOk(hash, d') && ProcOk(hash, d', p') && Interference(hash, d, d', p.job)
  {
    LinkFrame(hash, d, p.job.name, Blob(p.job.sha));
  }

  lemma ClearStageStep(hash: Bytes -> Digest, d: Disk, p: Proc, works: bool)
    requires TreeOk(d) && BlobsOk(hash, d) && ProcOk(hash, d, p) && p.pc.ClearStage?
    ensures var (d', p') := Local(hash, d, p, Proceed(works));
            && TreeOk(d') && BlobsOk(hash, d') && ProcOk(hash, d', p') && Interference(hash, d, d', p.job)
  {
    UnlinkFrame(hash, d, BlobTmp(p.job.sha));
  }

  lemma DropStep(hash: Bytes -> Digest, d: Disk, p: Proc, works: bool)
    requires TreeOk(d) && BlobsOk(hash, d) && ProcOk(hash, d, p) && (p.pc.DropPart? || p.pc.Cleanup?)
    ensures var (d', p') := Local(hash, d, p, Proceed(works));
            && TreeOk(d') && BlobsOk(hash, d') && ProcOk(hash, d', p') && Interference(hash, d, d', p.job)
  {
    UnlinkFrame(hash, d, Part(p.job.key));
  }

  lemma CommitStep(hash: Bytes -> Digest, d: Disk, p: Proc, works: bool)
    requires TreeOk(d) && BlobsOk(hash, d) && ProcOk(hash, d, p) && p.pc.Commit?
    ensures var (d', p') := Local(hash, d, p, Proceed(works));
            && TreeOk(d') && BlobsOk(hash, d') && ProcOk(hash, d', p') && Interference(hash, d, d', p.job)
  {
    if d.IsFile(BlobTmp(p.job.sha)) && !d.IsDir(Blob(p.job.sha)) && works {
      RenameFrame(hash, d, BlobTmp(p.job.sha), Blob(p.job.sha));
    } else {
      DropInterferes(hash, d, BlobTmp(p.job.sha), true, p.job);
    }
  }

  // ----- Exposed processes -----

  /** An exposed process with nothing to spoil keeps its condition, and the disk stays sound. */
  lemma RivalStep(hash: Bytes -> Digest, d: Disk, p: Proc, a: Action)
    requires TreeOk(d) && BlobsOk(hash, d) && RivalOk(hash, d, p) && Enabled(d, p, a)
    requires !Vulnerable(hash, d, p.job.sha)
    ensures var (d', p') := Local(hash, d, p, a);
            && TreeOk(d') && BlobsOk(hash, d') && RivalOk(hash, d', p') && Interference(hash, d, d', p.job)
            && p'.job == p.job
  {
    match a {
      case Proceed(works) => RivalOperates(hash, d, p, works);
      case OpenPart(newIno) => RivalOpens(hash, d, p, newIno);
      case Write(piece) => RivalWrites(hash, d, p, piece);
      case _ =>
    }
  }

  lemma RivalOpens(hash: Bytes -> Digest, d: Disk, p: Proc, newIno: nat)
    requires TreeOk(d) && BlobsOk(hash, d) && RivalOk(hash, d, p) && Enabled(d, p, OpenPart(newIno))
    ensures var (d', p') := OpenFile(d, p, newIno);
            && TreeOk(d') && BlobsOk(hash, d') && RivalOk(hash, d', p') && Interference(hash, d, d', p.job)
  {
    var part := Part(p.job.key);
    if d.IsFile(part) {
      StoreFrame(hash, d, part, []);
      assert forall x :: x in d.tree && d.tree[x] == d.tree[part] ==> SameFile(d, x, part);
    } else {
      CreateFrame(hash, d, part, newIno);
      var d1 := d.Put(part, File(newIno)).Store(newIno, []);
      assert d1.Store(newIno, []) == d1;
    }
  }

  /** Writing through a handle that reaches only harmless names. */
  lemma RivalWrites(hash: Bytes -> Digest, d: Disk, p: Proc, piece: Bytes)
    requires TreeOk(d) && BlobsOk(hash, d) && RivalOk(hash, d, p) && Enabled(d, p, Write(piece))
    ensures var (d', p') := Local(hash, d, p, Write(piece));
            && TreeOk(d') && BlobsOk(hash, d') && RivalOk(hash, d', p') && Interference(hash, d, d', p.job)
  {
    var d' := Local(hash, d, p, Write(piece)).0;
    assert d'.tree == d.tree;
    forall x, y | SameFile(d', x, y) ensures x == y { assert SameFile(d, x, y); }
    forall x | !Harmless(hash, p.job.key, x) ensures SameEntry(d, d', x) {
      assert x in d.tree && d.tree[x].File? ==> d.tree[x].ino != p.ino;
    }
    forall h | |h| == DIGEST_LENGTH ensures BlobOk(hash, d', h) {
      assert BlobOk(hash, d, h) && (Harmless(hash, p.job.key, Blob(h)) || SameEntry(d, d', Blob(h)));
    }
  }

  lemma RivalOperates(hash: Bytes -> Digest, d: Disk, p: Proc, works: bool)
    requires TreeOk(d) && BlobsOk(hash, d) && RivalOk(hash, d, p) && Enabled(d, p, Proceed(works))
    requires !Vulnerable(hash, d, p.job.sha)
    ensures var (d', p') := Local(hash, d, p, Proceed(works));
            && TreeOk(d') && BlobsOk(hash, d') && RivalOk(hash, d', p') && Interference(hash, d, d', p.job)
  {
    match p.pc {
      case Stage => RivalStages(hash, d, p, works);
      case Commit => RivalCommits(hash, d, p, works);
      case PlaceLink => RivalLinks(hash, d, p, works);
      case CheckBlob =>
      case _ => RivalUnlinks(hash, d, p, works);
    }
  }

  lemma RivalUnlinks(hash: Bytes -> Digest, d: Disk, p: Proc, works: bool)
    requires TreeOk(d) && BlobsOk(hash, d) && RivalOk(hash, d, p)
    requires p.pc.ClearTarget? || p.pc.ClearStage? || p.pc.DropPart? || p.pc.Cleanup?
    ensures var (d', p') := Local(hash, d, p, Proceed(works));
            && TreeOk(d') && BlobsOk(hash, d') && RivalOk(hash, d', p') && Interference(hash, d, d', p.job)
  {
    DropInterferes(hash, d, if p.pc.ClearTarget? then Snap(p.job.name)
                            else if p.pc.ClearStage? then BlobTmp(p.job.sha) else Part(p.job.key), works, p.job);
  }

  lemma RivalLinks(hash: Bytes -> Digest, d: Disk, p: Proc, works: bool)
    requires TreeOk(d) && BlobsOk(hash, d) && RivalOk(hash, d, p) && p.pc.PlaceLink?
    ensures var (d', p') := Local(hash, d, p, Proceed(works));
            && TreeOk(d') && BlobsOk(hash, d') && RivalOk(hash, d', p') && Interference(hash, d, d', p.job)
  {
    LinkFrame(hash, d, p.job.name, Blob(p.job.sha));
  }

  lemma RivalStages(hash: Bytes -> Digest, d: Disk, p: Proc, works: bool)
    requires TreeOk(d) && BlobsOk(hash, d) && RivalOk(hash, d, p) && p.pc.Stage?
    ensures var (d', p') := Local(hash, d, p, Proceed(works));
            && TreeOk(d') && BlobsOk(hash, d') && RivalOk(hash, d', p') && Interference(hash, d, d', p.job)
  {
    if Part(p.job.key) in d.tree {
      RenameFrame(hash, d, Part(p.job.key), BlobTmp(p.job.sha));
    }
  }

  lemma RivalCommits(hash: Bytes -> Digest, d: Disk, p: Proc, works: bool)
    requires TreeOk(d) && BlobsOk(hash, d) && RivalOk(hash, d, p) && p.pc.Commit?
    ensures var (d', p') := Local(hash, d, p, Proceed(works));
            && TreeOk(d') && BlobsOk(hash, d') && RivalOk(hash, d', p') && Interference(hash, d, d', p.job)
  {
    if d.IsFile(BlobTmp(p.job.sha)) && !d.IsDir(Blob(p.job.sha)) && works {
      RenameFrame(hash, d, BlobTmp(p.job.sha), Blob(p.job.sha));
    } else {
      DropInterferes(hash, d, BlobTmp(p.job.sha), true, p.job);
    }
  }

  // ----- Every step of the whole system -----

  /** What a step does to its own process's job and part lock. */
  lemma LocalLocks(hash: Bytes -> Digest, d: Disk, p: Proc, a: Action)
    requires Enabled(d, p, a)
    ensures var p' := Local(hash, d, p, a).1;
            && p'.job == p.job && (p'.partLock ==> p.partLock || a.GrantPart?)
            && (Live(p'.pc) ==> a.DegradePart? || p'.partLock || (Live(p.pc) && !p.partLock))
  {
  }

  lemma LocksStep(hash: Bytes -> Digest, s: State, pid: nat, a: Action, s': State, weak: set<nat>)
    requires LocksOk(s, weak) && StepsTo(hash, s, pid, a, s', weak)
    ensures LocksOk(s', weak)
  {
    LocalLocks(hash, s.disk, s.procs[pid], a);
    var p' := Local(hash, s.disk, s.procs[pid], a).1;
    assert s'.procs == s.procs[pid := p'];
  }

  lemma SameJobs(hash: Bytes -> Digest, s: State, pid: nat, a: Action, s': State, weak: set<nat>, q: nat)
    requires StepsTo(hash, s, pid, a, s', weak)
    ensures s'.procs.Keys == s.procs.Keys && (q in s.procs ==> s'.procs[q].job == s.procs[q].job)
    ensures Exposed(s', weak, q) <==> Exposed(s, weak, q)
  {
    LocalLocks(hash, s.disk, s.procs[pid], a);
    assert forall r :: r in s.procs ==> s'.procs[r].job == s.procs[r].job;
  }

  /** Being exposed is shared by all processes on one `.part`. */
  lemma ExposedTogether(s: State, weak: set<nat>, q: nat, r: nat)
    requires Exposed(s, weak, q) && r in s.procs && s.procs[r].job.key == s.procs[q].job.key
    ensures Exposed(s, weak, r)
  {
    if r != q {
      var o :| o in s.procs && o != q && s.procs[o].job.key == s.procs[q].job.key && (q in weak || o in weak);
      assert q in weak ==> Exposed(s, weak, r);
      assert o in weak && o != r ==> Exposed(s, weak, r);
    }
  }

  /** Two working processes share a `.part` only if they are exposed. */
  lemma WorksAlone(s: State, weak: set<nat>, q: nat, r: nat)
    requires LocksOk(s, weak) && q in s.procs && r in s.procs && q != r && !Exposed(s, weak, q)
    requires Live(s.procs[q].pc) && Live(s.procs[r].pc)
    ensures s.procs[q].job.key != s.procs[r].job.key
  {
  }

  lemma OwnStep(hash: Bytes -> Digest, s: State, pid: nat, a: Action, s': State, weak: set<nat>)
    requires Inv(hash, s, weak) && StepsTo(hash, s, pid, a, s', weak)
    ensures TreeOk(s'.disk) && BlobsOk(hash, s'.disk) && pid in s'.procs && MemberOk(hash, s', weak, pid)
    ensures Interference(hash, s.disk, s'.disk, s.procs[pid].job)
  {
    assert MemberOk(hash, s, weak, pid);
    SameJobs(hash, s, pid, a, s', weak, pid);
    if Exposed(s, weak, pid) {
      RivalStep(hash, s.disk, s.procs[pid], a);
    } else {
      LocalStep(hash, s.disk, s.procs[pid], a);
    }
  }

  lemma OthersStep(hash: Bytes -> Digest, s: State, pid: nat, a: Action, s': State, weak: set<nat>, q: nat)
    requires Inv(hash, s, weak) && StepsTo(hash, s, pid, a, s', weak) && q in s.procs && q != pid
    requires Interference(hash, s.disk, s'.disk, s.procs[pid].job)
    ensures q in s'.procs && MemberOk(hash, s', weak, q)
  {
    var p := s.procs[pid];
    assert MemberOk(hash, s, weak, q) && MemberOk(hash, s, weak, pid);
    SameJobs(hash, s, pid, a, s', weak, q);
    if Exposed(s, weak, q) {
      MovesStep(hash, s.disk, p, a);
      if s.procs[q].job.key == p.job.key { ExposedTogether(s, weak, q, pid); }
      RivalsKeep(hash, s.disk, s'.disk, p.job, p.pc.Stage?, s.procs[q]);
    } else if Live(p.pc) {
      if Live(s.procs[q].pc) { WorksAlone(s, weak, q, pid); }
      OthersKeep(hash, s.disk, s'.disk, p.job, s.procs[q]);
    } else {
      assert s'.disk == s.disk;
    }
  }

  lemma VictimsStep(hash: Bytes -> Digest, s: State, pid: nat, a: Action, s': State, weak: set<nat>)
    requires NoVictim(hash, s, weak) && StepsTo(hash, s, pid, a, s', weak)
    requires Interference(hash, s.disk, s'.disk, s.procs[pid].job)
    ensures NoVictim(hash, s', weak)
  {
    forall q | Exposed(s', weak, q) ensures !Vulnerable(hash, s'.disk, s'.procs[q].job.sha) {
      SameJobs(hash, s, pid, a, s', weak, q);
    }
  }

  lemma InvStep(hash: Bytes -> Digest, s: State, pid: nat, a: Action, s': State, weak: set<nat>)
    requires Inv(hash, s, weak) && StepsTo(hash, s, pid, a, s', weak)
    ensures Inv(hash, s', weak)
  {
    OwnStep(hash, s, pid, a, s', weak);
    LocksStep(hash, s, pid, a, s', weak);
    VictimsStep(hash, s, pid, a, s', weak);
    forall q | q in s'.procs ensures MemberOk(hash, s', weak, q) {
      if q != pid { OthersStep(hash, s, pid, a, s', weak, q); }
    }
  }

  /**
   As long as no exposed process has anything to spoil, no run corrupts a blob.  Under part locks, with
   `weak` empty, nobody is exposed, so this covers every run.
   */
  lemma {:induction false} EveryRunKeepsBlobs(hash: Bytes -> Digest, s: State, n: nat, s': State, weak: set<nat>)
    requires Init(hash, s) && NoVictim(hash, s, weak) && Reaches(hash, s, n, s', weak)
    ensures Inv(hash, s', weak) && BlobsOk(hash, s'.disk)
  {
    if n != 0 {
      var m, pid, a :| Reaches(hash, s, n - 1, m, weak) && StepsTo(hash, m, pid, a, s', weak);
      EveryRunKeepsBlobs(hash, s, n - 1, m, weak);
      InvStep(hash, m, pid, a, s', weak);
    }
  }

  // ----- Placed symlinks -----

  /** Regular files have data, and sidecars and staging files are regular. */
  ghost predicate Shape(d: Disk) {
    && (forall p :: p in d.tree && d.tree[p].File? ==> d.tree[p].ino in d.data)
    && (forall k :: Part(k) in d.tree ==> d.tree[Part(k)].File?)
    && (forall h :: BlobTmp(h) in d.tree ==> d.tree[BlobTmp(h)].File?)
  }

  predicate Linking(pc: Pc) { pc.DropPart? || pc.ClearTarget? || pc.PlaceLink? }

  /** Who is about to place a symlink has a blob to point it at. */
  ghost predicate LinkInv(s: State) {
    && Shape(s.disk) && LinksOk(s)
    && forall q :: q in s.procs && Linking(s.procs[q].pc) ==> s.disk.Present(Blob(s.procs[q].job.sha))
  }

  /** Blobs stay, and directories neither come nor go under their names. */
  ghost predicate BlobsStay(d: Disk, d': Disk) {
    forall h :: (d.Present(Blob(h)) ==> d'.Present(Blob(h))) && (d.IsDir(Blob(h)) <==> d'.IsDir(Blob(h)))
  }

  lemma LinkingStep(hash: Bytes -> Digest, d: Disk, p: Proc, a: Action)
    requires Shape(d) && Enabled(d, p, a) && (Linking(p.pc) ==> d.Present(Blob(p.job.sha)))
    ensures var (d', p') := Local(hash, d, p, a);
            && Shape(d') && BlobsStay(d, d') && p'.job == p.job
            && (Linking(p'.pc) ==> d'.Present(Blob(p.job.sha)))
  {
    match a {
      case Proceed(works) => LinkingOperates(d, p.job, p.pc, works);
      case OpenPart(newIno) => LinkingOpens(d, p, newIno);
      case _ =>
    }
  }

  lemma LinkingOperates(d: Disk, job: Job, pc: Pc, works: bool)
    requires Shape(d) && (Linking(pc) ==> d.Present(Blob(job.sha)))
    ensures var (d', pc') := Operate(d, job, pc, works);
            Shape(d') && BlobsStay(d, d') && (Linking(pc') ==> d'.Present(Blob(job.sha)))
  {
  }

  lemma LinkingOpens(d: Disk, p: Proc, newIno: nat)
    requires Shape(d) && Enabled(d, p, OpenPart(newIno))
    ensures var (d', p') := OpenFile(d, p, newIno); Shape(d') && BlobsStay(d, d') && p'.pc.Stream? && p'.job == p.job
  {
  }

  lemma LinksStep(hash: Bytes -> Digest, s: State, pid: nat, a: Action)
    requires LinkInv(s) && CanStep(s, pid, a)
    ensures LinkInv(Step(hash, s, pid, a)) && BlobsStay(s.disk, Step(hash, s, pid, a).disk)
  {
    var p := s.procs[pid];
    var d' := Local(hash, s.disk, p, a).0;
    LinkingStep(hash, s.disk, p, a);
    if a.Proceed? && (p.pc.PlaceLink? || p.pc.ClearTarget?) {
    } else {
      assert forall n :: Snap(n) in d'.tree ==> Snap(n) in s.disk.tree && d'.tree[Snap(n)] == s.disk.tree[Snap(n)];
    }
  }

  /**
   No run leaves a placed symlink dangling, whatever locks are lost: it points at a regular file, or at a
   directory that was there from the start.
   */
  lemma {:induction false} EveryRunKeepsLinks(hash: Bytes -> Digest, s: State, n: nat, s': State, weak: set<nat>)
    requires Init(hash, s) && Reaches(hash, s, n, s', weak)
    ensures LinkInv(s') && LinksOk(s') && BlobsStay(s.disk, s'.disk)
    ensures forall h :: s'.disk.Present(Blob(h)) ==> s'.disk.IsFile(Blob(h)) || s.disk.IsDir(Blob(h))
  {
    if n != 0 {
      var m, pid, a :| Reaches(hash, s, n - 1, m, weak) && StepsTo(hash, m, pid, a, s', weak);
      EveryRunKeepsLinks(hash, s, n - 1, m, weak);
      LinksStep(hash, m, pid, a);
    }
  }

  // ----- A process left alone -----

  /** `k` file operations in a row, none failing, nobody else around. */
  function Solo(d: Disk, job: Job, pc: Pc, k: nat): (Disk, Pc)
    decreases k
  {
    if k == 0 || pc.Finished? then (d, pc)
    else var (d', pc') := Operate(d, job, pc, true); Solo(d', job, pc', k - 1)
  }

  /**
   An undisturbed installation ends with the symlink placed, `.part` and the staging file gone, and the
   blob being what it was before or else the downloaded bytes; no other entry changes.
   */
  lemma SoloInstalls(d: Disk, job: Job)
    requires d.IsFile(Part(job.key)) && TreeOk(d)
    ensures var (d', pc) := Solo(d, job, CheckBlob, 6);
            && pc == Finished
            && Snap(job.name) in d'.tree && d'.tree[Snap(job.name)] == Link(Blob(job.sha))
            && Part(job.key) !in d'.tree
            && (d.Present(Blob(job.sha)) ==> SameEntry(d, d', Blob(job.sha)))
            && (!d.Present(Blob(job.sha)) ==>
                  && d'.IsFile(Blob(job.sha)) && d'.Content(Blob(job.sha)) == d.Content(Part(job.key))
                  && BlobTmp(job.sha) !in d'.tree)
            && forall p :: p != Snap(job.name) && p != Part(job.key) && p != Blob(job.sha) && p != BlobTmp(job.sha) ==>
                 SameEntry(d, d', p)
  {
    if d.Present(Blob(job.sha)) {
      SoloReuses(d, job);
    } else {
      SoloMoves(d, job);
      assert d.Unlink(BlobTmp(job.sha)).tree[Part(job.key)] == d.tree[Part(job.key)];
    }
  }

  lemma SoloReuses(d: Disk, job: Job)
    requires d.Present(Blob(job.sha))
    ensures Solo(d, job, CheckBlob, 6) == Linked(d.Unlink(Part(job.key)), job)
  {
    var d1 := d.Unlink(Part(job.key));
    assert Solo(d, job, CheckBlob, 6) == Solo(d, job, DropPart, 5) == Solo(d1, job, ClearTarget, 4);
    SoloLinks(d1, job, 4);
  }

  lemma SoloMoves(d: Disk, job: Job)
    requires d.IsFile(Part(job.key)) && !d.Present(Blob(job.sha))
    ensures var staged := d.Unlink(BlobTmp(job.sha)).Rename(Part(job.key), BlobTmp(job.sha));
            Solo(d, job, CheckBlob, 6) == Linked(staged.Rename(BlobTmp(job.sha), Blob(job.sha)), job)
  {
    var d1 := d.Unlink(BlobTmp(job.sha));
    var d2 := d1.Rename(Part(job.key), BlobTmp(job.sha));
    var d3 := d2.Rename(BlobTmp(job.sha), Blob(job.sha));
    assert Solo(d, job, CheckBlob, 6) == Solo(d, job, ClearStage, 5) == Solo(d1, job, Stage, 4);
    assert Solo(d1, job, Stage, 4) == Solo(d2, job, Commit, 3) == Solo(d3, job, ClearTarget, 2);
    SoloLinks(d3, job, 2);
  }

  function Linked(d: Disk, job: Job): (Disk, Pc) {
    (d.Unlink(Snap(job.name)).Put(Snap(job.name), Link(Blob(job.sha))), Finished)
  }

  lemma SoloLinks(d: Disk, job: Job, k: nat)
    requires k >= 2
    ensures Solo(d, job, ClearTarget, k) == Linked(d, job)
  {
    var d1 := d.Unlink(Snap(job.name));
    assert Solo(d, job, ClearTarget, k) == Solo(d1, job, PlaceLink, k - 1);
    var d2 := d1.Put(Snap(job.name), Link(Blob(job.sha)));
    assert Solo(d1, job, PlaceLink, k - 1) == Solo(d2, job, Finished, k - 2) == (d2, Finished);
  }

  // ----- Without the part lock -----

  /** `R` holds along every run once it holds. */
  ghost predicate Closed(hash: Bytes -> Digest, R: State -> bool, weak: set<nat>) {
    forall m, pid, a, m' :: R(m) && StepsTo(hash, m, pid, a, m', weak) ==> R(m')
  }

  /** One step of a run, its effect spelled out. */
  lemma Reach(hash: Bytes -> Digest, R: State -> bool, weak: set<nat>, m: State, pid: nat, a: Action,
              d': Disk, p': Proc)
    returns (m': State)
    requires Closed(hash, R, weak) && R(m) && CanStep(m, pid, a) && (a.DegradePart? ==> pid in weak)
    requires !m.procs[pid].pc.PlaceLink?
    requires var (d, p) := Local(hash, m.disk, m.procs[pid], a); d' == d && p' == p
    ensures m' == State(d', m.procs[pid := p'], m.made) && R(m')
  {
    m' := Step(hash, m, pid, a);
    assert StepsTo(hash, m, pid, a, m', weak);
  }

  lemma FreshInode(data: map<nat, Bytes>) returns (ino: nat)
    ensures ino !in data
  {
    ino := Above(data.Keys);
  }

  lemma Above(used: set<nat>) returns (bound: nat)
    ensures forall i :: i in used ==> i < bound
    decreases used
  {
    if used == {} {
      bound := 0;
    } else {
      var i :| i in used;
      bound := Above(used - {i});
      bound := Max(bound, i + 1);
      assert forall k :: k in used ==> k == i || k in used - {i};
    }
  }

  /** A process holding or missing its part lock opens its `.part` for a full download, creating or truncating it. */
  lemma OpensAfresh(hash: Bytes -> Digest, R: State -> bool, weak: set<nat>, m: State, pid: nat)
    returns (m': State, ino: nat)
    requires Closed(hash, R, weak) && R(m) && pid in m.procs && m.procs[pid].pc.Request?
    requires Part(m.procs[pid].job.key) in m.disk.tree ==> m.disk.IsFile(Part(m.procs[pid].job.key))
    ensures R(m') && m'.made == m.made
    ensures var part := Part(m.procs[pid].job.key);
            && (part in m.disk.tree ==> m.disk.tree[part] == File(ino))
            && (part !in m.disk.tree ==> ino !in m.disk.data)
            && m'.disk == Disk(m.disk.tree[part := File(ino)], m.disk.data[ino := []])
    ensures m'.procs == m.procs[pid := m.procs[pid].(pc := Stream(false), fed := [], ino := ino, off := 0)]
  {
    var p, part := m.procs[pid], Part(m.procs[pid].job.key);
    if part in m.disk.tree { ino := m.disk.tree[part].ino; } else { ino := FreshInode(m.disk.data); }
    m' := Reach(hash, R, weak, m, pid, Full, m.disk, p.(pc := Open(false), fed := []));
    var d' := Disk(m.disk.tree[part := File(ino)], m.disk.data[ino := []]);
    assert part in m.disk.tree ==> d'.tree == m.disk.tree;
    assert part !in m.disk.tree ==> d'.Store(ino, []) == d';
    m' := Reach(hash, R, weak, m', pid, OpenPart(ino), d', p.(pc := Stream(false), fed := [], ino := ino, off := 0));
  }

  /** A process that streams `good` into its empty `.part` verifies it. */
  lemma Verifies(hash: Bytes -> Digest, R: State -> bool, weak: set<nat>, m: State, pid: nat, good: Bytes)
    returns (m': State)
    requires Closed(hash, R, weak) && R(m) && pid in m.procs
    requires var p := m.procs[pid];
             && p.pc == Stream(false) && p.fed == [] && p.off == 0 && p.job.sha == hash(good)
             && p.ino in m.disk.data && m.disk.data[p.ino] == []
    ensures R(m') && m'.made == m.made && m'.disk == m.disk.Store(m.procs[pid].ino, good)
    ensures m'.procs == m.procs[pid := m.procs[pid].(pc := WantBlobLock, fed := good, off := |good|)]
  {
    var p := m.procs[pid];
    assert WriteAt([], 0, good) == good && [] + good == good;
    var d' := m.disk.Store(p.ino, good);
    m' := Reach(hash, R, weak, m, pid, Write(good), d', p.(fed := good, off := |good|));
    m' := Reach(hash, R, weak, m', pid, EndStream, d', p.(pc := WantBlobLock, fed := good, off := |good|));
  }

  /** A verified process takes the free blob lock and, the blob not being there, gets ready to stage its `.part`. */
  lemma ReadyToStage(hash: Bytes -> Digest, R: State -> bool, weak: set<nat>, m: State, pid: nat) returns (m': State)
    requires Closed(hash, R, weak) && R(m) && pid in m.procs && m.procs[pid].pc.WantBlobLock?
    requires !m.disk.Present(Blob(m.procs[pid].job.sha))
    requires forall q :: q in m.procs && m.procs[q].job.sha == m.procs[pid].job.sha ==> !m.procs[q].blobLock
    ensures R(m') && m'.made == m.made && m'.disk == m.disk.Unlink(BlobTmp(m.procs[pid].job.sha))
    ensures m'.procs == m.procs[pid := m.procs[pid].(pc := Stage, blobLock := true)]
  {
    var d, p := m.disk, m.procs[pid];
    m' := Reach(hash, R, weak, m, pid, GrantBlob, d, p.(pc := CheckBlob, blobLock := true));
    m' := Reach(hash, R, weak, m', pid, Proceed(true), d, p.(pc := ClearStage, blobLock := true));
    m' := Reach(hash, R, weak, m', pid, Proceed(true), d.Unlink(BlobTmp(p.job.sha)), p.(pc := Stage, blobLock := true));
  }

  /** A process that may take its part lock, or lose it, starts its request. */
  lemma Starts(hash: Bytes -> Digest, R: State -> bool, weak: set<nat>, m: State, pid: nat) returns (m': State)
    requires Closed(hash, R, weak) && R(m) && pid in m.procs && m.procs[pid].pc.WantPartLock?
    requires pid in weak ||
             forall q :: q in m.procs && m.procs[q].job.key == m.procs[pid].job.key ==> !m.procs[q].partLock
    requires !m.procs[pid].partLock
    ensures R(m') && m'.made == m.made && m'.disk == m.disk
    ensures m'.procs == m.procs[pid := m.procs[pid].(pc := Request, partLock := pid !in weak)]
  {
    var p := m.procs[pid];
    m' := Reach(hash, R, weak, m, pid, if pid in weak then DegradePart else GrantPart, m.disk,
                p.(pc := Request, partLock := pid !in weak));
  }

  /** The victim verifies its bytes and holds the blob lock, ready to stage its `.part`. */
  lemma FirstVerifies(hash: Bytes -> Digest, R: State -> bool, weak: set<nat>, s: State, v: nat) returns (m: State)
    requires Closed(hash, R, weak) && R(s) && Init(hash, s) && v in s.procs
    requires Vulnerable(hash, s.disk, s.procs[v].job.sha)
    ensures R(m) && v in m.procs && m.procs == s.procs[v := m.procs[v]]
    ensures m.procs[v].pc.Stage? && m.procs[v].job == s.procs[v].job && (m.procs[v].partLock ==> v !in weak)
    ensures m.disk.IsFile(Part(s.procs[v].job.key)) && !m.disk.IsDir(Blob(s.procs[v].job.sha)) && m.made == s.made
  {
    var good :| hash(good) == s.procs[v].job.sha;
    m := Starts(hash, R, weak, s, v);
    var ino;
    m, ino := OpensAfresh(hash, R, weak, m, v);
    m := Verifies(hash, R, weak, m, v, good);
    m := ReadyToStage(hash, R, weak, m, v);
  }

  /** The rival opens the same `.part` afresh and writes `bad` into it. */
  lemma Overwrites(hash: Bytes -> Digest, R: State -> bool, weak: set<nat>, m: State, w: nat, bad: Bytes)
    returns (m': State)
    requires Closed(hash, R, weak) && R(m) && w in m.procs && m.procs[w].pc.Request?
    requires m.disk.IsFile(Part(m.procs[w].job.key))
    ensures R(m') && w in m'.procs && m'.procs == m.procs[w := m'.procs[w]]
    ensures forall h :: m'.disk.IsDir(Blob(h)) <==> m.disk.IsDir(Blob(h))
    ensures m'.disk.IsFile(Part(m.procs[w].job.key)) && m'.disk.Content(Part(m.procs[w].job.key)) == bad
  {
    var ino;
    m', ino := OpensAfresh(hash, R, weak, m, w);
    var p := m'.procs[w];
    assert WriteAt([], 0, bad) == bad && [] + bad == bad;
    m' := Reach(hash, R, weak, m', w, Write(bad), m'.disk.Store(ino, bad), p.(fed := bad, off := |bad|));
  }

  /** A process about to stage its `.part` installs what is there. */
  lemma InstallsAnything(hash: Bytes -> Digest, R: State -> bool, weak: set<nat>, m: State, v: nat) returns (m': State)
    requires Closed(hash, R, weak) && R(m) && v in m.procs && m.procs[v].pc.Stage?
    requires m.disk.IsFile(Part(m.procs[v].job.key)) && !m.disk.IsDir(Blob(m.procs[v].job.sha))
    ensures R(m') && m'.procs == m.procs[v := m.procs[v].(pc := ClearTarget)] && m'.made == m.made
    ensures var part, tmp, blob := Part(m.procs[v].job.key), BlobTmp(m.procs[v].job.sha), Blob(m.procs[v].job.sha);
            && m'.disk == m.disk.Rename(part, tmp).Rename(tmp, blob)
            && m'.disk.IsFile(blob) && m'.disk.Content(blob) == m.disk.Content(part)
  {
    var p, d, sha := m.procs[v], m.disk, m.procs[v].job.sha;
    var d1 := d.Rename(Part(p.job.key), BlobTmp(sha));
    m' := Reach(hash, R, weak, m, v, Proceed(true), d1, p.(pc := Commit));
    m' := Reach(hash, R, weak, m', v, Proceed(true), d1.Rename(BlobTmp(sha), Blob(sha)), p.(pc := ClearTarget));
  }

  /** From there it links the target to the blob, and lets go of its locks. */
  lemma LinksTarget(hash: Bytes -> Digest, R: State -> bool, weak: set<nat>, m: State, v: nat) returns (m': State)
    requires Closed(hash, R, weak) && R(m) && v in m.procs && m.procs[v].pc.ClearTarget?
    ensures R(m') && m'.disk == Linked(m.disk, m.procs[v].job).0 && m'.made == m.made + {m.procs[v].job.name}
    ensures m'.procs == m.procs[v := m.procs[v].(pc := Finished, partLock := false, blobLock := false)]
  {
    var p := m.procs[v];
    m' := Reach(hash, R, weak, m, v, Proceed(true), m.disk.Unlink(Snap(p.job.name)), p.(pc := PlaceLink));
    var linked := Step(hash, m', v, Proceed(true));
    assert StepsTo(hash, m', v, Proceed(true), linked, weak);
    m' := linked;
  }

  /** A cache in which the symlink `n` leads to a blob with bytes of another digest. */
  ghost predicate Spoilt(hash: Bytes -> Digest, d: Disk, n: string, sha: Digest) {
    && |sha| == DIGEST_LENGTH && Snap(n) in d.tree && d.tree[Snap(n)] == Link(Blob(sha))
    && d.IsFile(Blob(sha)) && hash(d.Content(Blob(sha))) != sha
  }

  /**
   The victim `v` verifies its bytes, `w`, one of the two without the part lock, rewrites the shared
   `.part`, and `v` installs the result and links to it, holding the blob lock throughout.
   */
  lemma CorruptingRun(hash: Bytes -> Digest, R: State -> bool, weak: set<nat>, s: State, v: nat, w: nat)
    returns (m: State)
    requires Closed(hash, R, weak) && R(s) && Init(hash, s)
    requires v in s.procs && w in s.procs && v != w && s.procs[v].job.key == s.procs[w].job.key
    requires (v in weak || w in weak) && Vulnerable(hash, s.disk, s.procs[v].job.sha)
    ensures R(m) && Spoilt(hash, m.disk, s.procs[v].job.name, s.procs[v].job.sha)
  {
    var bad :| hash(bad) != s.procs[v].job.sha;
    m := FirstVerifies(hash, R, weak, s, v);
    m := Starts(hash, R, weak, m, w);
    m := Overwrites(hash, R, weak, m, w, bad);
    m := InstallsAnything(hash, R, weak, m, v);
    m := LinksTarget(hash, R, weak, m, v);
  }

  ghost predicate Reachable(hash: Bytes -> Digest, s: State, s': State, weak: set<nat>) {
    exists n: nat :: Reaches(hash, s, n, s', weak)
  }

  /** The states some run leads to are closed under steps. */
  lemma RunsAreClosed(hash: Bytes -> Digest, s: State, weak: set<nat>)
    ensures Closed(hash, s' => Reachable(hash, s, s', weak), weak) && Reachable(hash, s, s, weak)
  {
    assert Reaches(hash, s, 0, s, weak);
    forall m, pid, a, m' | Reachable(hash, s, m, weak) && StepsTo(hash, m, pid, a, m', weak)
      ensures Reachable(hash, s, m', weak)
    {
      var n: nat :| Reaches(hash, s, n, m, weak);
      assert Reaches(hash, s, n + 1, m', weak);
    }
  }

  lemma VictimsCorrupt(hash: Bytes -> Digest, s: State, weak: set<nat>, v: nat) returns (n: nat, s': State)
    requires Init(hash, s) && Exposed(s, weak, v) && Vulnerable(hash, s.disk, s.procs[v].job.sha)
    ensures Reaches(hash, s, n, s', weak)
    ensures Spoilt(hash, s'.disk, s.procs[v].job.name, s.procs[v].job.sha)
  {
    var R := s' => Reachable(hash, s, s', weak);
    RunsAreClosed(hash, s, weak);
    var w :| w in s.procs && w != v && s.procs[w].job.key == s.procs[v].job.key && (v in weak || w in weak);
    s' := CorruptingRun(hash, R, weak, s, v, w);
    n :| Reaches(hash, s, n, s', weak);
  }

  /**
   Exactly which part locks blob integrity needs: from any starting cache, whichever processes may lose
   theirs, blobs stay sound in every run if and only if no exposed process has anything to spoil.  The
   blob lock does not matter.
   */
  lemma BlobsSafeIff(hash: Bytes -> Digest, s: State, weak: set<nat>)
    requires Init(hash, s)
    ensures NoVictim(hash, s, weak) <==> forall n: nat, s' :: Reaches(hash, s, n, s', weak) ==> BlobsOk(hash, s'.disk)
  {
    if NoVictim(hash, s, weak) {
      forall n: nat, s' | Reaches(hash, s, n, s', weak) ensures BlobsOk(hash, s'.disk) {
        EveryRunKeepsBlobs(hash, s, n, s', weak);
      }
    } else {
      var v :| Exposed(s, weak, v) && Vulnerable(hash, s.disk, s.procs[v].job.sha);
      var n, s' := VictimsCorrupt(hash, s, weak, v);
      assert Reaches(hash, s, n, s', weak) && !BlobOk(hash, s'.disk, s.procs[v].job.sha);
    }
  }

  // ----- A whole attempt, left alone -----

  /** A process streams any number of pieces to the end of its `.part`, feeding the hasher the same bytes. */
  lemma {:induction false} Streams(hash: Bytes -> Digest, R: State -> bool, weak: set<nat>, m: State, pid: nat,
                                   pieces: seq<Bytes>)
    returns (m': State)
    requires Closed(hash, R, weak) && R(m) && pid in m.procs
    requires var p := m.procs[pid];
             && p.pc.Stream? && p.ino in m.disk.data && m.disk.data[p.ino] == p.fed
             && (!p.pc.append ==> p.off == |p.fed|)
    ensures var p, more := m.procs[pid], Joined(pieces);
            && R(m') && m'.made == m.made && m'.disk == m.disk.Store(p.ino, p.fed + more)
            && m'.procs == m.procs[pid := p.(fed := p.fed + more, off := p.off + |more|)]
    decreases |pieces|
  {
    var p := m.procs[pid];
    if pieces == [] {
      m' := m;
      assert p.fed + Joined(pieces) == p.fed;
    } else {
      var piece, rest := pieces[0], Joined(pieces[1..]);
      assert WriteAt(p.fed, |p.fed|, piece) == p.fed + piece;
      var p1 := p.(fed := p.fed + piece, off := p.off + |piece|);
      var m1 := Reach(hash, R, weak, m, pid, Write(piece), m.disk.Store(p.ino, p1.fed), p1);
      m' := Streams(hash, R, weak, m1, pid, pieces[1..]);
      assert (p.fed + piece) + rest == p.fed + (piece + rest);
    }
  }

  /** What an attempt starts from: nothing for a full download, the kept `.part` for a resumed one. */
  function Kept(d: Disk, key: string, resume: bool): Bytes
    requires resume ==> d.IsFile(Part(key))
  {
    if resume then d.Content(Part(key)) else []
  }

  /** It has not begun, may take its locks, and has something to resume if it is to resume. */
  ghost predicate Ready(m: State, pid: nat, resume: bool) {
    && pid in m.procs && m.procs[pid].pc.WantPartLock? && TreeOk(m.disk)
    && (resume ==> m.disk.IsFile(Part(m.procs[pid].job.key)) && m.disk.Content(Part(m.procs[pid].job.key)) != [])
    && forall q :: q in m.procs ==>
         && (m.procs[q].job.key == m.procs[pid].job.key ==> !m.procs[q].partLock)
         && (m.procs[q].job.sha == m.procs[pid].job.sha ==> !m.procs[q].blobLock)
  }

  /** From the part lock to the open `.part`, whose bytes the hasher has been fed. */
  lemma Opens(hash: Bytes -> Digest, R: State -> bool, m: State, pid: nat, resume: bool) returns (m': State, ino: nat)
    requires Closed(hash, R, {}) && R(m) && Ready(m, pid, resume)
    ensures R(m') && m'.made == m.made
    ensures var part, kept := Part(m.procs[pid].job.key), Kept(m.disk, m.procs[pid].job.key, resume);
            && (part in m.disk.tree ==> m.disk.tree[part] == File(ino))
            && (part !in m.disk.tree ==> ino !in m.disk.data)
            && m'.disk == Disk(m.disk.tree[part := File(ino)], m.disk.data[ino := kept])
            && m'.procs == m.procs[pid := m.procs[pid].(pc := Stream(resume), partLock := true, fed := kept, ino := ino,
                                                        off := 0)]
  {
    var job, d := m.procs[pid].job, m.disk;
    m' := Starts(hash, R, {}, m, pid);
    var p := m'.procs[pid];
    if resume {
      ino := d.tree[Part(job.key)].ino;
      var kept := d.Content(Part(job.key));
      m' := Reach(hash, R, {}, m', pid, Partial, d, p.(pc := Rehash));
      m' := Reach(hash, R, {}, m', pid, ReadPrefix, d, p.(pc := Open(true), fed := kept));
      m' := Reach(hash, R, {}, m', pid, OpenPart(ino), d, p.(pc := Stream(true), fed := kept, ino := ino, off := 0));
      assert d.tree[Part(job.key) := File(ino)] == d.tree && d.data[ino := kept] == d.data;
    } else {
      m', ino := OpensAfresh(hash, R, {}, m', pid);
    }
  }

  /** From there to the end of the stream: `.part` holds what was kept and then the pieces, and so does the hasher. */
  lemma Downloads(hash: Bytes -> Digest, R: State -> bool, m: State, pid: nat, resume: bool, pieces: seq<Bytes>)
    returns (m': State)
    requires Closed(hash, R, {}) && R(m) && Ready(m, pid, resume)
    ensures R(m') && m'.made == m.made && pid in m'.procs && m'.procs == m.procs[pid := m'.procs[pid]]
    ensures var job, got := m.procs[pid].job, Kept(m.disk, m.procs[pid].job.key, resume) + Joined(pieces);
            && m'.procs[pid].(fed := [], ino := 0, off := 0)
               == Proc(job, if hash(got) == job.sha then WantBlobLock else Cleanup, true, false, [], 0, 0)
            && TreeOk(m'.disk) && m'.disk.IsFile(Part(job.key)) && m'.disk.Content(Part(job.key)) == got
            && forall x :: x != Part(job.key) ==> SameEntry(m.disk, m'.disk, x)
  {
    var job, kept := m.procs[pid].job, Kept(m.disk, m.procs[pid].job.key, resume);
    var part := Part(job.key);
    var m1, ino := Opens(hash, R, m, pid, resume);
    OpenKeeps(m.disk, part, ino, kept);
    var m2 := Streams(hash, R, {}, m1, pid, pieces);
    StoreKeeps(m1.disk, part, kept + Joined(pieces));
    var p := m2.procs[pid];
    m' := Reach(hash, R, {}, m2, pid, EndStream, m2.disk,
                p.(pc := if hash(p.fed) == job.sha then WantBlobLock else Cleanup));
    forall x | x != part ensures SameEntry(m.disk, m'.disk, x) {
      assert SameEntry(m.disk, m1.disk, x) && SameEntry(m1.disk, m2.disk, x);
    }
  }

  /** Giving an entry its content, through its own inode or a new one, changes no other entry. */
  lemma OpenKeeps(d: Disk, x: Path, ino: nat, bytes: Bytes)
    requires TreeOk(d) && (x in d.tree ==> d.tree[x] == File(ino)) && (x !in d.tree ==> ino !in d.data)
    ensures var d' := Disk(d.tree[x := File(ino)], d.data[ino := bytes]);
            && TreeOk(d') && d'.IsFile(x) && d'.Content(x) == bytes && forall p :: p != x ==> SameEntry(d, d', p)
  {
    var d' := Disk(d.tree[x := File(ino)], d.data[ino := bytes]);
    if x in d.tree {
      assert d'.tree == d.tree && d' == d.Store(d.tree[x].ino, bytes);
      StoreKeeps(d, x, bytes);
    } else {
      forall p, q | SameFile(d', p, q) ensures p == q { assert p != x && q != x ==> SameFile(d, p, q); }
    }
  }

  /** A verified process that finds the blob there already drops its `.part`. */
  lemma Reuses(hash: Bytes -> Digest, R: State -> bool, m: State, pid: nat) returns (m': State)
    requires Closed(hash, R, {}) && R(m) && pid in m.procs && m.procs[pid].pc.WantBlobLock?
    requires m.disk.Present(Blob(m.procs[pid].job.sha))
    requires forall q :: q in m.procs && m.procs[q].job.sha == m.procs[pid].job.sha ==> !m.procs[q].blobLock
    ensures R(m') && m'.made == m.made && m'.disk == m.disk.Unlink(Part(m.procs[pid].job.key))
    ensures m'.procs == m.procs[pid := m.procs[pid].(pc := ClearTarget, blobLock := true)]
  {
    var d, p := m.disk, m.procs[pid].(blobLock := true);
    m' := Reach(hash, R, {}, m, pid, GrantBlob, d, p.(pc := CheckBlob));
    m' := Reach(hash, R, {}, m', pid, Proceed(true), d, p.(pc := DropPart));
    m' := Reach(hash, R, {}, m', pid, Proceed(true), d.Unlink(Part(p.job.key)), p.(pc := ClearTarget));
  }

  /** A verified process, left alone, installs its `.part` or reuses the blob, and links to it. */
  lemma Installs(hash: Bytes -> Digest, R: State -> bool, m: State, pid: nat) returns (m': State)
    requires Closed(hash, R, {}) && R(m) && pid in m.procs && m.procs[pid].pc.WantBlobLock?
    requires m.disk.IsFile(Part(m.procs[pid].job.key))
    requires forall q :: q in m.procs && m.procs[q].job.sha == m.procs[pid].job.sha ==> !m.procs[q].blobLock
    ensures var p := m.procs[pid];
            && R(m') && (m'.disk, Finished) == Solo(m.disk, p.job, CheckBlob, 6) && m'.made == m.made + {p.job.name}
            && m'.procs == m.procs[pid := p.(pc := Finished, partLock := false, blobLock := false)]
  {
    if m.disk.Present(Blob(m.procs[pid].job.sha)) {
      SoloReuses(m.disk, m.procs[pid].job);
      m' := Reuses(hash, R, m, pid);
    } else {
      SoloMoves(m.disk, m.procs[pid].job);
      m' := ReadyToStage(hash, R, {}, m, pid);
      m' := InstallsAnything(hash, R, {}, m', pid);
    }
    m' := LinksTarget(hash, R, {}, m', pid);
  }

  /** A process whose bytes have the wrong digest drops `.part` and lets go of its locks. */
  lemma GivesUp(hash: Bytes -> Digest, R: State -> bool, m: State, pid: nat) returns (m': State)
    requires Closed(hash, R, {}) && R(m) && pid in m.procs && m.procs[pid].pc.Cleanup?
    ensures R(m') && m'.disk == m.disk.Unlink(Part(m.procs[pid].job.key)) && m'.made == m.made
    ensures m'.procs == m.procs[pid := m.procs[pid].(pc := Finished, partLock := false, blobLock := false)]
  {
    m' := Reach(hash, R, {}, m, pid, Proceed(true), m.disk.Unlink(Part(m.procs[pid].job.key)),
                m.procs[pid].(pc := Finished, partLock := false, blobLock := false));
  }

  /** What an attempt that got the bytes `got` and was left alone did to the disk. */
  ghost predicate Attempted(hash: Bytes -> Digest, d: Disk, d': Disk, job: Job, got: Bytes) {
    var snap, part, blob, tmp := Snap(job.name), Part(job.key), Blob(job.sha), BlobTmp(job.sha);
    && part !in d'.tree
    && (forall x :: x != snap && x != part && x != blob && x != tmp ==> SameEntry(d, d', x))
    && (d.Present(blob) ==> SameEntry(d, d', blob))
    && if hash(got) == job.sha then
         && snap in d'.tree && d'.tree[snap] == Link(blob)
         && (!d.Present(blob) ==> d'.IsFile(blob) && d'.Content(blob) == got && tmp !in d'.tree)
       else
         SameEntry(d, d', snap) && SameEntry(d, d', blob) && SameEntry(d, d', tmp)
  }

  lemma AttemptedIs(hash: Bytes -> Digest, d: Disk, m: Disk, d': Disk, job: Job, got: Bytes)
    requires TreeOk(m) && m.IsFile(Part(job.key)) && m.Content(Part(job.key)) == got
    requires forall x :: x != Part(job.key) ==> SameEntry(d, m, x)
    requires if hash(got) == job.sha then (d', Finished) == Solo(m, job, CheckBlob, 6)
             else d' == m.Unlink(Part(job.key))
    ensures Attempted(hash, d, d', job, got)
  {
    SoloInstalls(m, job);
    forall x | x != Part(job.key) && SameEntry(m, d', x) ensures SameEntry(d, d', x) {
      assert SameEntry(d, m, x);
    }
    if hash(got) != job.sha {
      forall x | x != Part(job.key) ensures SameEntry(m, d', x) {}
    } else {
      assert SameEntry(d, m, Blob(job.sha));
    }
  }

  lemma RunsAlone(hash: Bytes -> Digest, R: State -> bool, s: State, pid: nat, resume: bool, pieces: seq<Bytes>)
    returns (s': State)
    requires Closed(hash, R, {}) && R(s) && Ready(s, pid, resume)
    ensures var p := s.procs[pid];
            var got := Kept(s.disk, p.job.key, resume) + Joined(pieces);
            && R(s') && Attempted(hash, s.disk, s'.disk, p.job, got)
            && s'.made == (if hash(got) == p.job.sha then s.made + {p.job.name} else s.made)
            && pid in s'.procs && s'.procs == s.procs[pid := s'.procs[pid]]
            && s'.procs[pid].pc.Finished? && !s'.procs[pid].partLock && !s'.procs[pid].blobLock
  {
    var job := s.procs[pid].job;
    var m := Downloads(hash, R, s, pid, resume, pieces);
    if m.procs[pid].pc.WantBlobLock? {
      s' := Installs(hash, R, m, pid);
    } else {
      s' := GivesUp(hash, R, m, pid);
    }
    AttemptedIs(hash, s.disk, m.disk, s'.disk, job, Kept(s.disk, job.key, resume) + Joined(pieces));
  }

  /**
   An attempt left alone, full or resumed, in however many pieces the body comes: if what was kept and the
   pieces together have the advertised digest, the symlink is placed and its blob is what was there before
   or else those bytes; otherwise no symlink is placed and nothing is installed.  Either way `.part` is
   gone, the locks are free and no other entry changes.
   */
  lemma AttemptLeftAlone(hash: Bytes -> Digest, s: State, pid: nat, resume: bool, pieces: seq<Bytes>)
    returns (n: nat, s': State)
    requires Ready(s, pid, resume)
    ensures var p := s.procs[pid];
            var got := Kept(s.disk, p.job.key, resume) + Joined(pieces);
            && Reaches(hash, s, n, s', {}) && Attempted(hash, s.disk, s'.disk, p.job, got)
            && s'.made == (if hash(got) == p.job.sha then s.made + {p.job.name} else s.made)
            && pid in s'.procs && s'.procs == s.procs[pid := s'.procs[pid]]
            && s'.procs[pid].pc.Finished? && !s'.procs[pid].partLock && !s'.procs[pid].blobLock
  {
    var R := s' => Reachable(hash, s, s', {});
    RunsAreClosed(hash, s, {});
    s' := RunsAlone(hash, R, s, pid, resume, pieces);
    n :| Reaches(hash, s, n, s', {});
  }

  // ----- Locks, kills and failures -----

  /** Locks of one name have one holder, who is at work; who works on a `.part` has its lock or lost it. */
  ghost predicate Exclusive(s: State, weak: set<nat>) {
    && LocksOk(s, weak)
    && (forall q, r | q in s.procs && r in s.procs && s.procs[q].blobLock && s.procs[r].blobLock ::
          s.procs[q].job.sha == s.procs[r].job.sha ==> q == r)
    && forall q :: q in s.procs && (s.procs[q].partLock || s.procs[q].blobLock) ==> Live(s.procs[q].pc)
  }

  lemma ExclusiveStep(hash: Bytes -> Digest, s: State, pid: nat, a: Action, s': State, weak: set<nat>)
    requires Exclusive(s, weak) && StepsTo(hash, s, pid, a, s', weak)
    ensures Exclusive(s', weak)
  {
    LocksStep(hash, s, pid, a, s', weak);
    LocalBlobLock(hash, s.disk, s.procs[pid], a);
    assert s'.procs == s.procs[pid := Local(hash, s.disk, s.procs[pid], a).1];
  }

  lemma LocalBlobLock(hash: Bytes -> Digest, d: Disk, p: Proc, a: Action)
    requires Enabled(d, p, a)
    ensures var p' := Local(hash, d, p, a).1;
            && p'.job == p.job && (p'.blobLock ==> p.blobLock || a.GrantBlob?)
            && (p'.partLock || p'.blobLock ==> Live(p'.pc) || !Live(p.pc))
            && (p'.pc.WantPartLock? ==> p' == p)
  {
  }

  /** In every run, with kills and lost locks, both locks exclude and nobody holds one after its end. */
  lemma {:induction false} EveryRunKeepsLocks(hash: Bytes -> Digest, s: State, n: nat, s': State, weak: set<nat>)
    requires Init(hash, s) && Reaches(hash, s, n, s', weak)
    ensures Exclusive(s', weak)
  {
    if n != 0 {
      var m, pid, a :| Reaches(hash, s, n - 1, m, weak) && StepsTo(hash, m, pid, a, s', weak);
      EveryRunKeepsLocks(hash, s, n - 1, m, weak);
      ExclusiveStep(hash, m, pid, a, s', weak);
    }
  }

  /**
   Whoever has not ended can be killed, which leaves the disk as it is; and when a holder is killed, or ends,
   a process waiting for its lock can take it.
   */
  lemma KillFreesLocks(hash: Bytes -> Digest, s: State, weak: set<nat>, pid: nat, q: nat)
    requires Exclusive(s, weak) && pid in s.procs && q in s.procs && q != pid
    ensures CanStep(s, pid, Kill) <==> s.procs[pid].pc.WantPartLock? || Live(s.procs[pid].pc)
    ensures CanStep(s, pid, Kill) ==>
              var s' := Step(hash, s, pid, Kill);
              && s'.disk == s.disk && s'.made == s.made && s'.procs[pid].pc.Killed?
              && (s.procs[pid].partLock && s.procs[pid].job.key == s.procs[q].job.key && s.procs[q].pc.WantPartLock? ==>
                    !CanStep(s, q, GrantPart) && CanStep(s', q, GrantPart))
              && (s.procs[pid].blobLock && s.procs[pid].job.sha == s.procs[q].job.sha && s.procs[q].pc.WantBlobLock? ==>
                    !CanStep(s, q, GrantBlob) && CanStep(s', q, GrantBlob))
  {
  }

  /** A failure can strike anyone at work; the process then drops its `.part`, and no other entry changes. */
  lemma FailureDropsPart(hash: Bytes -> Digest, R: State -> bool, s: State, pid: nat) returns (s': State)
    requires Closed(hash, R, {}) && R(s) && pid in s.procs && Live(s.procs[pid].pc) && !s.procs[pid].pc.Cleanup?
    ensures R(s') && s'.made == s.made && s'.disk == s.disk.Unlink(Part(s.procs[pid].job.key))
    ensures s'.procs == s.procs[pid := s.procs[pid].(pc := Finished, partLock := false, blobLock := false)]
  {
    var p := s.procs[pid].(pc := Cleanup);
    s' := State(s.disk, s.procs[pid := p], s.made);
    assert StepsTo(hash, s, pid, Fail, s', {});
    s' := GivesUp(hash, R, s', pid);
  }

  /** A failed final rename takes the staging file along, so that no sidecar of the attempt is left. */
  lemma FailedCommitDropsBoth(hash: Bytes -> Digest, R: State -> bool, s: State, pid: nat) returns (s': State)
    requires Closed(hash, R, {}) && R(s) && pid in s.procs && s.procs[pid].pc.Commit?
    ensures R(s') && s'.made == s.made
    ensures s'.disk == s.disk.Unlink(BlobTmp(s.procs[pid].job.sha)).Unlink(Part(s.procs[pid].job.key))
    ensures s'.procs == s.procs[pid := s.procs[pid].(pc := Finished, partLock := false, blobLock := false)]
  {
    var p := s.procs[pid];
    s' := Reach(hash, R, {}, s, pid, Proceed(false), s.disk.Unlink(BlobTmp(p.job.sha)), p.(pc := Cleanup));
    s' := GivesUp(hash, R, s', pid);
  }

  /** A target that cannot be cleared stays: no symlink is placed, and what was installed remains. */
  lemma StubbornTargetStays(hash: Bytes -> Digest, R: State -> bool, s: State, pid: nat) returns (s': State)
    requires Closed(hash, R, {}) && R(s) && pid in s.procs && s.procs[pid].pc.ClearTarget?
    requires Snap(s.procs[pid].job.name) in s.disk.tree
    ensures R(s') && s'.made == s.made && s'.disk == s.disk.Unlink(Part(s.procs[pid].job.key))
    ensures s'.procs == s.procs[pid := s.procs[pid].(pc := Finished, partLock := false, blobLock := false)]
  {
    var p := s.procs[pid];
    s' := Reach(hash, R, {}, s, pid, Proceed(false), s.disk, p.(pc := PlaceLink));
    var m := State(s.disk, s'.procs[pid := p.(pc := Cleanup)], s.made);
    assert StepsTo(hash, s', pid, Proceed(true), m, {});
    s' := GivesUp(hash, R, m, pid);
  }

  /** A file that resists an unlink stays, and the process goes on to the same next operation. */
  lemma StubbornFileStays(hash: Bytes -> Digest, s: State, pid: nat)
    requires pid in s.procs
    requires var pc := s.procs[pid].pc; pc.DropPart? || pc.ClearStage? || pc.ClearTarget? || pc.Cleanup?
    ensures CanStep(s, pid, Proceed(true)) && CanStep(s, pid, Proceed(false))
    ensures Step(hash, s, pid, Proceed(false)) == Step(hash, s, pid, Proceed(true)).(disk := s.disk)
  {
  }

  /** Only a `.part` with something in it is resumed, and cleaning up is not a failure again. */
  lemma ResumesSomething(s: State, pid: nat)
    requires pid in s.procs
    ensures var p, part := s.procs[pid], Part(s.procs[pid].job.key);
            && (CanStep(s, pid, Partial) <==> p.pc.Request? && s.disk.IsFile(part) && s.disk.Content(part) != [])
            && (CanStep(s, pid, Fail) <==> Live(p.pc) && !p.pc.Cleanup?)
  {
  }

  /** Either lock can degrade to none while it is awaited, which differs from a grant in nothing but the lock. */
  lemma LocksCanBeLost(hash: Bytes -> Digest, s: State, pid: nat)
    requires pid in s.procs
    ensures CanStep(s, pid, DegradePart) <==> s.procs[pid].pc.WantPartLock?
    ensures CanStep(s, pid, DegradeBlob) <==> s.procs[pid].pc.WantBlobLock?
    ensures CanStep(s, pid, GrantPart) ==>
              var p := Step(hash, s, pid, GrantPart).procs[pid].(partLock := s.procs[pid].partLock);
              Step(hash, s, pid, DegradePart) == State(s.disk, s.procs[pid := p], s.made)
    ensures CanStep(s, pid, GrantBlob) ==>
              var p := Step(hash, s, pid, GrantBlob).procs[pid].(blobLock := s.procs[pid].blobLock);
              Step(hash, s, pid, DegradeBlob) == State(s.disk, s.procs[pid := p], s.made)
  {
  }
}
