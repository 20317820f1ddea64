/**
 The warm-cache check of `_do_file` (fusion_mlx/_mirror.py): when is a file that already sits in the
 snapshot accepted, and is it sound to accept a symlink by the name of the blob it resolves to?
 */
module WarmCache {
  import opened Common
  import opened BlobInstall

  /** Follows symlinks; `None` when the chain is longer than `hops`. */
  function Resolve(d: Disk, p: Path, hops: nat): Option<Path>
    decreases hops
  {
    if p in d.tree && d.tree[p].Link? then
      if hops == 0 then None else Resolve(d, d.tree[p].to, hops - 1)
    else Some(p)
  }

  /** The longest symlink chain the operating system follows. */
  const MAX_HOPS := 40

  predicate IsLink(d: Disk, p: Path) { p in d.tree && d.tree[p].Link? }

  /** The regular file behind `p`, if there is one. */
  function Target(d: Disk, p: Path): Option<Path> {
    match Resolve(d, p, MAX_HOPS)
    case Some(q) => if d.IsFile(q) then Some(q) else None
    case None => None
  }

  predicate UnderBlobs(p: Path) { p.Blob? || p.BlobTmp? }

  /** Final path component of a file under `blobs/`. */
  function BlobName(p: Path): string
    requires UnderBlobs(p)
  {
    if p.Blob? then p.sha else p.sha + ".tmp"
  }

  /** `Miss`: a directory occupies the path.  `Refetch`: download again. */
  datatype Verdict = Cached(size: nat) | Miss | Refetch

  /** Symlinks that leave `blobs/` or cannot be resolved are dropped before anything is accepted. */
  function DropStray(d: Disk, target: Path): Disk {
    if IsLink(d, target) && !(Resolve(d, target, MAX_HOPS).Some? && UnderBlobs(Resolve(d, target, MAX_HOPS).value))
    then d.Unlink(target) else d
  }

  /** The check; with `shortcut` a symlink to `blobs/<sha>` is accepted without rehashing. */
  function Check(hash: Bytes -> Digest, disk: Disk, target: Path, size: Option<nat>, sha: Option<Digest>,
                 shortcut: bool): (Disk, Verdict)
  {
    if target in disk.tree && disk.tree[target].Dir? then (disk, Miss) else
    var d := DropStray(disk, target);
    var file := Target(d, target);
    if file.None? then (d, Refetch) else
    var bytes := d.Content(file.value);
    if size.None? then (d, if |bytes| > 0 then Cached(|bytes|) else Refetch)
    else if |bytes| != size.value then (d.Unlink(target), Refetch)
    else if sha.None? then (d, Cached(|bytes|))
    else if shortcut && IsLink(d, target) && UnderBlobs(file.value) && BlobName(file.value) == sha.value
      then (d, Cached(|bytes|))
    else if hash(bytes) == sha.value then (d, Cached(|bytes|))
    else (d.Unlink(target), Refetch)
  }

  // ----- What the check decides -----

  /** The symlinks from the first path of `xs` lead to its last, which is none. */
  ghost predicate Leads(d: Disk, xs: seq<Path>) {
    && xs != [] && !IsLink(d, xs[|xs|-1])
    && forall i :: 0 <= i < |xs| - 1 ==> xs[i] in d.tree && d.tree[xs[i]] == Link(xs[i + 1])
  }

  /** Resolving ends where the symlinks lead, if they are not too many. */
  lemma {:induction false} ResolveFollows(d: Disk, xs: seq<Path>, hops: nat)
    requires Leads(d, xs)
    ensures Resolve(d, xs[0], hops) == if |xs| - 1 <= hops then Some(xs[|xs|-1]) else None
    decreases hops
  {
    if |xs| > 1 {
      assert d.tree[xs[0]] == Link(xs[0 + 1]);
      if hops > 0 { ResolveFollows(d, xs[1..], hops - 1); }
    }
  }

  lemma {:induction false} ResolveLeads(d: Disk, p: Path, hops: nat) returns (xs: seq<Path>)
    requires Resolve(d, p, hops).Some?
    ensures Leads(d, xs) && xs[0] == p && Resolve(d, p, hops) == Some(xs[|xs|-1]) && |xs| - 1 <= hops
    decreases hops
  {
    if IsLink(d, p) {
      var rest := ResolveLeads(d, d.tree[p].to, hops - 1);
      xs := [p] + rest;
    } else {
      xs := [p];
    }
  }

  /** Only a directory is a miss, an absent file is fetched, and nothing but the target is ever touched. */
  lemma OnlyDirectoriesMiss(hash: Bytes -> Digest, d: Disk, target: Path, size: Option<nat>, sha: Option<Digest>,
                            shortcut: bool)
    ensures var (d', v) := Check(hash, d, target, size, sha, shortcut);
            && (v.Miss? <==> d.IsDir(target))
            && (v.Miss? || target !in d.tree ==> d' == d)
            && (target !in d.tree ==> v.Refetch?)
            && (d' == d || d' == d.Unlink(target))
  {
  }

  predicate AsAdvertised(hash: Bytes -> Digest, bytes: Bytes, size: Option<nat>, sha: Option<Digest>) {
    if size.None? then bytes != [] else |bytes| == size.value && (sha.Some? ==> hash(bytes) == sha.value)
  }

  predicate NamedBy(q: Path, sha: Option<Digest>) {
    sha.Some? && (q == Blob(sha.value) || (q.BlobTmp? && q.sha + ".tmp" == sha.value))
  }

  /** A regular file is kept exactly if it is as advertised; of known size, it is dropped otherwise. */
  lemma CheckOfFile(hash: Bytes -> Digest, d: Disk, target: Path, size: Option<nat>, sha: Option<Digest>,
                    shortcut: bool)
    requires d.IsFile(target)
    ensures var bytes := d.Content(target);
            Check(hash, d, target, size, sha, shortcut) ==
              if AsAdvertised(hash, bytes, size, sha) then (d, Cached(|bytes|))
              else (if size.None? then d else d.Unlink(target), Refetch)
  {
  }

  /**
   A symlink is dropped unless it leads into `blobs/`.  What it leads to there is judged like a regular
   file, except that with `shortcut` the advertised digest as its name stands for its digest.
   */
  lemma CheckOfLink(hash: Bytes -> Digest, d: Disk, xs: seq<Path>, size: Option<nat>, sha: Option<Digest>,
                    shortcut: bool)
    requires |xs| > 1 && Leads(d, xs)
    ensures var q, (d', v) := xs[|xs|-1], Check(hash, d, xs[0], size, sha, shortcut);
            if |xs| > 41 || !(q.Blob? || q.BlobTmp?) then d' == d.Unlink(xs[0]) && v.Refetch?
            else if !d.IsFile(q) then d' == d && v.Refetch?
            else if AsAdvertised(hash, d.Content(q), size, if shortcut && NamedBy(q, sha) then None else sha) then
              d' == d && v == Cached(|d.Content(q)|)
            else d' == (if size.None? then d else d.Unlink(xs[0])) && v.Refetch?
  {
    assert d.tree[xs[0]] == Link(xs[0 + 1]);
    ResolveFollows(d, xs, MAX_HOPS);
  }

  predicate IsHex(s: string) {
    forall c :: c in s ==> '0' <= c <= '9' || 'a' <= c <= 'f'
  }

  /** The advertised digest is hexadecimal, and the blob named by it, if there, is sound. */
  predicate Trusted(hash: Bytes -> Digest, d: Disk, sha: Option<Digest>) {
    sha.Some? ==> IsHex(sha.value) && BlobOk(hash, d, sha.value)
  }

  /** When the blob of that digest is sound, looking at a blob's name decides exactly what rehashing its bytes would. */
  lemma ShortcutAgreesWithRehash(hash: Bytes -> Digest, d: Disk, target: Path, size: Option<nat>, sha: Option<Digest>)
    requires target.Snap? && Trusted(hash, d, sha)
    ensures Check(hash, d, target, size, sha, true) == Check(hash, d, target, size, sha, false)
  {
    var file := Target(DropStray(d, target), target);
    if file.Some? && file.value.BlobTmp? { StagingNameIsNotHex(file.value.sha); }
  }

  lemma StagingNameIsNotHex(h: Digest)
    ensures !IsHex(h + ".tmp")
  {
    assert (h + ".tmp")[|h|] == '.';
    assert '.' in h + ".tmp";
  }

  /**
   The file behind `target` is one to keep: reached inside `blobs/` if by symlink, with the advertised size
   and digest.
   */
  predicate Acceptable(hash: Bytes -> Digest, d: Disk, target: Path, size: Option<nat>, sha: Option<Digest>) {
    var file := Target(d, target);
    && file.Some?
    && (IsLink(d, target) ==> UnderBlobs(file.value))
    && var bytes := d.Content(file.value);
       if size.None? then bytes != [] else |bytes| == size.value && (sha.Some? ==> hash(bytes) == sha.value)
  }

  /**
   When the blob of the advertised digest is sound, a file is reported as cached exactly when it is
   acceptable, with its true size and the disk untouched; an unacceptable one of known size is dropped so
   that a download can replace it.
   */
  lemma CachedExactly(hash: Bytes -> Digest, d: Disk, target: Path, size: Option<nat>, sha: Option<Digest>)
    requires target.Snap? && Trusted(hash, d, sha)
    ensures var (d', v) := Check(hash, d, target, size, sha, true);
            && (v.Cached? <==> Acceptable(hash, d, target, size, sha))
            && (v.Cached? ==> d' == d && v.size == |d.Content(Target(d, target).value)|)
            && (v.Refetch? && size.Some? && Target(d, target).Some? ==> target !in d'.tree)
  {
    ShortcutAgreesWithRehash(hash, d, target, size, sha);
    if target in d.tree && !d.tree[target].Link? {
      assert Resolve(d, target, MAX_HOPS) == Some(target);
    }
  }

  /** Looking at the blob's name decides what rehashing would. */
  ghost predicate Agrees(hash: Bytes -> Digest, d: Disk, target: Path, size: Option<nat>, sha: Option<Digest>) {
    Check(hash, d, target, size, sha, true) == Check(hash, d, target, size, sha, false)
  }

  /** A file of advertised size and digest is kept only if it has that digest. */
  ghost predicate KeepsOnlyGenuine(hash: Bytes -> Digest, d: Disk, target: Path, size: Option<nat>, sha: Digest) {
    Check(hash, d, target, size, Some(sha), true).1.Cached? ==>
      Target(d, target).Some? && hash(d.Content(Target(d, target).value)) == sha
  }

  predicate IsDigest(sha: Digest) { |sha| == DIGEST_LENGTH && IsHex(sha) }

  lemma WarmPullsAreSound(hash: Bytes -> Digest, s: State, n: nat, s': State, weak: set<nat>,
                          target: Path, size: Option<nat>, sha: Option<Digest>)
    requires Init(hash, s) && NoVictim(hash, s, weak) && Reaches(hash, s, n, s', weak)
    requires target.Snap? && (sha.Some? ==> IsDigest(sha.value))
    ensures Agrees(hash, s'.disk, target, size, sha)
    ensures size.Some? && sha.Some? ==> KeepsOnlyGenuine(hash, s'.disk, target, size, sha.value)
  {
    EveryRunKeepsBlobs(hash, s, n, s', weak);
    ShortcutAgreesWithRehash(hash, s'.disk, target, size, sha);
    CachedExactly(hash, s'.disk, target, size, sha);
  }

  /** A spoilt blob behind a symlink is accepted by its name, and refetched by a rehash. */
  lemma SpoiltIsWarm(hash: Bytes -> Digest, d: Disk, n: string, sha: Digest) returns (size: nat)
    requires Spoilt(hash, d, n, sha)
    ensures Check(hash, d, Snap(n), Some(size), Some(sha), true) == (d, Cached(size))
    ensures Check(hash, d, Snap(n), Some(size), Some(sha), false).1.Refetch?
    ensures !Agrees(hash, d, Snap(n), Some(size), Some(sha)) && !KeepsOnlyGenuine(hash, d, Snap(n), Some(size), sha)
  {
    size := |d.Content(Blob(sha))|;
    assert Resolve(d, Blob(sha), MAX_HOPS - 1) == Some(Blob(sha));
    assert Resolve(d, Snap(n), MAX_HOPS) == Some(Blob(sha));
  }

  /** What the shortcut promises of every cache a run reaches. */
  ghost predicate AlwaysAgrees(hash: Bytes -> Digest, s: State, weak: set<nat>) {
    forall n: nat, s', name, size, sha :: Reaches(hash, s, n, s', weak) && IsDigest(sha) ==>
      Agrees(hash, s'.disk, Snap(name), size, Some(sha))
  }

  ghost predicate AlwaysGenuine(hash: Bytes -> Digest, s: State, weak: set<nat>) {
    forall n: nat, s', name, size: nat, sha :: Reaches(hash, s, n, s', weak) && IsDigest(sha) ==>
      KeepsOnlyGenuine(hash, s'.disk, Snap(name), Some(size), sha)
  }

  /**
   In every cache the installers can produce the shortcut agrees with rehashing, and nothing of a wrong
   digest is reported as cached, if and only if no exposed process has anything to spoil.
   */
  lemma WarmPullsAreSoundIff(hash: Bytes -> Digest, s: State, weak: set<nat>)
    requires Init(hash, s) && forall q :: q in s.procs ==> IsHex(s.procs[q].job.sha)
    ensures AlwaysAgrees(hash, s, weak) <==> NoVictim(hash, s, weak)
    ensures AlwaysGenuine(hash, s, weak) <==> NoVictim(hash, s, weak)
  {
    if NoVictim(hash, s, weak) {
      forall n: nat, s', name, size, sha | Reaches(hash, s, n, s', weak) && IsDigest(sha)
        ensures Agrees(hash, s'.disk, Snap(name), size, Some(sha))
      {
        WarmPullsAreSound(hash, s, n, s', weak, Snap(name), size, Some(sha));
      }
      forall n: nat, s', name, size: nat, sha | Reaches(hash, s, n, s', weak) && IsDigest(sha)
        ensures KeepsOnlyGenuine(hash, s'.disk, Snap(name), Some(size), sha)
      {
        WarmPullsAreSound(hash, s, n, s', weak, Snap(name), Some(size), Some(sha));
      }
    } else {
      var v :| Exposed(s, weak, v) && Vulnerable(hash, s.disk, s.procs[v].job.sha);
      var n, s' := VictimsCorrupt(hash, s, weak, v);
      var size := SpoiltIsWarm(hash, s'.disk, s.procs[v].job.name, s.procs[v].job.sha);
      assert Reaches(hash, s, n, s', weak) && IsDigest(s.procs[v].job.sha);
    }
  }

  /**
   A symlink placed by an installer is a warm hit, whatever locks were lost: the next pull accepts it
   without rehashing, unless a directory lay under the blob's name from the start.
   */
  lemma InstalledIsWarm(hash: Bytes -> Digest, s: State, n: nat, s': State, weak: set<nat>, name: string, h: Digest)
    requires Init(hash, s) && Reaches(hash, s, n, s', weak)
    requires name in s'.made && Snap(name) in s'.disk.tree && s'.disk.tree[Snap(name)] == Link(Blob(h))
    ensures s'.disk.IsFile(Blob(h)) <==> !s.disk.IsDir(Blob(h))
    ensures s'.disk.IsFile(Blob(h)) ==>
              var size := |s'.disk.Content(Blob(h))|;
              Check(hash, s'.disk, Snap(name), Some(size), Some(h), true) == (s'.disk, Cached(size))
    ensures s'.disk.IsFile(Blob(h)) && NoVictim(hash, s, weak) && |h| == DIGEST_LENGTH ==>
              hash(s'.disk.Content(Blob(h))) == h
  {
    EveryRunKeepsLinks(hash, s, n, s', weak);
    assert s'.disk.Present(Blob(h));
    assert Resolve(s'.disk, Blob(h), MAX_HOPS - 1) == Some(Blob(h));
    assert Resolve(s'.disk, Snap(name), MAX_HOPS) == Some(Blob(h));
    if NoVictim(hash, s, weak) && |h| == DIGEST_LENGTH {
      EveryRunKeepsBlobs(hash, s, n, s', weak);
      assert BlobOk(hash, s'.disk, h);
    }
  }

  /** Without an advertised size the advertised digest is never looked at. */
  lemma UnknownSizeIgnoresDigest(hash: Bytes -> Digest, d: Disk, target: Path, sha: Option<Digest>, shortcut: bool)
    ensures Check(hash, d, target, None, sha, shortcut) == Check(hash, d, target, None, None, shortcut)
  {
  }

  /**
   "A cached file has the advertised digest" holds for every cache whose blob of that digest is sound
   exactly when HF advertised a size: otherwise any other non-empty file at the snapshot path is accepted.
   */
  lemma DigestCheckedIffSizeKnown(hash: Bytes -> Digest, size: Option<nat>, sha: Digest, bad: Bytes)
    requires IsHex(sha) && bad != [] && hash(bad) != sha
    ensures size.Some? <==>
            forall d, n :: BlobOk(hash, d, sha) ==> KeepsOnlyGenuine(hash, d, Snap(n), size, sha)
  {
    if size.Some? {
      forall d, n | BlobOk(hash, d, sha) ensures KeepsOnlyGenuine(hash, d, Snap(n), size, sha) {
        CachedExactly(hash, d, Snap(n), size, Some(sha));
      }
    } else {
      var d, target := Disk(map[Snap("w") := File(0)], map[0 := bad]), Snap("w");
      assert BlobOk(hash, d, sha) && Target(d, target) == Some(target);
      assert Check(hash, d, target, size, Some(sha), true).1 == Cached(|bad|);
      assert !KeepsOnlyGenuine(hash, d, target, size, sha);
    }
  }
}
