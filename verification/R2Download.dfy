/**
 One resumable download attempt against an arbitrary server (`_do_r2_download`, fusion_mlx/_mirror.py),
 run with the per-file lock held.  Status codes 200 and 206, `Range` and `Content-Range` are those of
 sections 14.2, 14.4 and 15.3.7 of RFC 9110.
 */
module R2Download {
  import opened Common
  import opened Progress
  import ContentRange

  datatype Length = Absent | Malformed | Announced(n: int)

  /** What the server does, headers already read; `breaks` says the connection fails after the last chunk. */
  datatype Reply =
    | NoReply
    | Reply(status: int, length: Length, range: Option<ContentRange.Range>, chunks: seq<Bytes>, breaks: bool)

  /**
   How the installation goes.  With a digest the file moves to `blobs/`, unless a blob is there to be
   `reused`, then the target is `cleared` and a symlink placed; without one it is renamed to the target,
   and anything but `Linked` is the rename failing.
   */
  datatype Install =
    | Raises                                   // the test whether the blob exists raises
    | NotMoved                                 // no directory, or a rename failed
    | NotLinked(reused: bool, cleared: bool)   // moved or reused, but the symlink could not be placed
    | Linked(reused: bool)

  /**
   Everything else the attempt does not control; functions answer the k-th occurrence.  `lookRaises` says
   that the test whether `.part` exists raises, `others(k)` is the time of a heartbeat other workers
   printed before the k-th credit of this one.
   */
  datatype Env = Env(
    lookRaises: bool, statFails: bool, prefixReadFails: bool, openFails: bool, writeFails: nat -> bool,
    closeFails: bool, finalStatFails: bool, unlinkWorks: bool, install: Install,
    now: nat -> real, others: nat -> Option<real>, printFails: nat -> bool)

  datatype Reason =
    | BadReply | PrefixReadFailed | Interrupted | BrokenOutput | ShortRead | DigestMismatch
    | FinalStatFailed | SizeMismatch | EmptyBody | InstallRefused

  /** `Raised`: an exception left the attempt without any cleanup. */
  datatype Outcome = Success | Failure(reason: Reason) | Raised

  // ----- Reading the response headers -----

  datatype Plan = Reject | Accept(length: int, existing: nat, append: bool)

  /** Reads the `Content-Length` and `Content-Range` headers off the wire. */
  function FromWire(parseInt: string -> Option<int>, status: int, contentLength: string, contentRange: string,
                    chunks: seq<Bytes>, breaks: bool): (r: Reply)
    ensures r.Reply? && r.status == status && r.chunks == chunks && r.breaks == breaks
    ensures r.length.Absent? <==> contentLength == ""
  {
    var n := parseInt(contentLength);
    var length := if contentLength == "" then Absent else if n.None? then Malformed else Announced(n.value);
    Reply(status, length, ContentRange.Parse(parseInt, contentRange), chunks, breaks)
  }

  /** Decides whether to read the body, and whether it extends the `existing` bytes or replaces them. */
  function Negotiate(reply: Reply, existing: nat, size: Option<nat>): Plan
    requires reply.Reply?
  {
    if reply.status != 200 && reply.status != 206 then Reject
    else if reply.length.Malformed? then Reject else
    var n := if reply.length.Absent? then 0 else reply.length.n;
    if reply.status == 206 && !RangeFits(reply.range, existing, n, size) then Reject else
    var total := if reply.status == 206 then existing + n else n;
    if size.Some? && total != 0 && total != size.value then Reject
    else if reply.status == 206 then Accept(n, existing, existing > 0)
    else Accept(n, 0, false)
  }

  predicate RangeFits(range: Option<ContentRange.Range>, existing: nat, length: int, size: Option<nat>) {
    && range.Some? && range.value.first == existing
    && (length > 0 ==> range.value.last == existing + length - 1)
    && (size.Some? ==> range.value.total == Some(size.value))
  }

  /** The body as the read loop sees it: an empty chunk ends it. */
  function Body(chunks: seq<Bytes>): Bytes {
    if chunks == [] || chunks[0] == [] then [] else chunks[0] + Body(chunks[1..])
  }

  /** Which responses are acted on, for every status, length, range, kept piece and advertised size. */
  lemma NegotiatesExactly(reply: Reply, existing: nat, size: Option<nat>)
    requires reply.Reply?
    ensures var plan, n := Negotiate(reply, existing, size), if reply.length.Announced? then reply.length.n else 0;
            && (plan.Accept? ==> reply.status == 200 || reply.status == 206)
            && (reply.status == 200 ==>
                  && (plan.Accept? <==> !reply.length.Malformed? && (size.Some? && n != 0 ==> n == size.value))
                  && (plan.Accept? ==> plan == Accept(n, 0, false)))
            && (reply.status == 206 ==>
                  && (plan.Accept? <==>
                        && !reply.length.Malformed? && reply.range.Some? && reply.range.value.first == existing
                        && (n > 0 ==> reply.range.value.last == existing + n - 1)
                        && (size.Some? ==>
                              && reply.range.value.total == Some(size.value)
                              && (existing + n == 0 || existing + n == size.value)))
                  && (plan.Accept? ==> plan == Accept(n, existing, existing > 0)))
  {
  }

  /** What the read loop gets: the chunks before the first empty one, put together. */
  lemma {:induction false} BodyIsJoined(chunks: seq<Bytes>, rest: seq<Bytes>)
    requires [] !in chunks && (rest == [] || rest[0] == [])
    ensures Body(chunks + rest) == Joined(chunks)
  {
    if chunks == [] {
      assert chunks + rest == rest;
    } else {
      assert (chunks + rest)[0] == chunks[0] && (chunks + rest)[1..] == chunks[1..] + rest;
      assert chunks[0] in chunks;
      BodyIsJoined(chunks[1..], rest);
    }
  }

  // ----- The attempt -----

  /** The `.part` sidecar and the place the finished file is installed at. */
  class Sidecar {
    var part: Option<Bytes>
    var installed: Option<Bytes>
    ghost var images: set<Option<Bytes>>  // every state `.part` went through

    ghost predicate Valid() reads this { part in images }

    constructor ()
      ensures Valid() && part == None && installed == None && images == {None}
    {
      part, installed, images := None, None, {None};
    }

    method SetPart(p: Option<Bytes>)
      modifies this`part, this`images
      ensures Valid() && part == p && images == old(images) + {p}
    {
      part := p;
      images := images + {p};
    }

    /** Best effort: an error is swallowed and leaves the file. */
    method Unlink(works: bool)
      requires Valid()
      modifies this`part, this`images
      ensures Valid() && part == if works then None else old(part)
      ensures images == if works then old(images) + {None} else old(images)
    {
      if works { SetPart(None); }
    }
  }

  /** States `.part` may be found in if the process dies during the attempt. */
  ghost predicate CrashImage(part: Option<Bytes>, base: Bytes, body: Bytes, img: Option<Bytes>) {
    img == part || img == None || (img.Some? && base <= img.value <= base + body)
  }

  ghost predicate CrashImages(before: set<Option<Bytes>>, after: set<Option<Bytes>>, part: Option<Bytes>,
                              base: Bytes, body: Bytes) {
    forall img :: img in after ==> img in before || CrashImage(part, base, body, img)
  }

  function Existing(part: Option<Bytes>, env: Env): nat {
    if part.Some? && !env.statFails then |part.value| else 0
  }

  /** The bytes the response extends. */
  function Base(part: Option<Bytes>, reply: Reply, env: Env): Bytes {
    if Existing(part, env) > 0 && reply.Reply? && reply.status == 206 then part.value else []
  }

  /** The response is acted on: its body goes to `.part`. */
  predicate Accepted(part: Option<Bytes>, reply: Reply, size: Option<nat>, env: Env) {
    reply.Reply? && Negotiate(reply, Existing(part, env), size).Accept?
  }

  function Delivered(part: Option<Bytes>, reply: Reply, size: Option<nat>, env: Env): Bytes {
    if Accepted(part, reply, size, env) then Body(reply.chunks) else []
  }

  predicate LengthKept(plan: Plan, reply: Reply)
    requires reply.Reply? && plan.Accept?
  {
    plan.length > 0 ==> |Body(reply.chunks)| == plan.length
  }

  /** What a completed attempt promises about the file, whatever the server did. */
  ghost predicate Genuine(hash: Bytes -> Digest, content: Bytes, size: Option<nat>, sha: Option<Digest>) {
    && (size.Some? ==> |content| == size.value)
    && (sha.Some? ==> hash(content) == sha.value)
    && (size.None? ==> content != [])
  }

  // ----- Heartbeats -----

  /**
   The progress prints of one attempt: credit 0 is the `resumed` prefix, if any, and credit `i + 1` the
   chunk `i`.  `lastEmit` is when the pull last printed before the attempt.
   */
  datatype Heartbeats = Heartbeats(env: Env, total: nat, lastEmit: real, resumed: nat) {
    /** When any worker last printed, as credit `k` finds it. */
    function Seen(k: nat): real
      decreases k, 0
    {
      if env.others(k).Some? then env.others(k).value else if k == 0 then lastEmit else After(k - 1)
    }

    predicate Due(k: nat)
      decreases k, 1
    {
      (k == 0 ==> resumed > 0) && total > 0 && env.now(k) - Seen(k) >= HEARTBEAT_SECONDS
    }

    /** When any worker last printed, as credit `k` leaves it. */
    function After(k: nat): real
      decreases k, 2
    {
      if Due(k) then env.now(k) else Seen(k)
    }

    predicate Fails(k: nat) { Due(k) && env.printFails(k) }
  }

  /** The read loop gets to chunk `i`. */
  predicate InBody(chunks: seq<Bytes>, i: nat) {
    i < |chunks| && forall j :: 0 <= j <= i ==> chunks[j] != []
  }

  /** The first heartbeat whose print fails is that of credit `k`, and no other fault comes before it. */
  ghost predicate BreaksAt(hb: Heartbeats, chunks: seq<Bytes>, k: nat) {
    && hb.Fails(k) && (forall j: nat :: j < k ==> !hb.Fails(j))
    && (k > 0 ==> !hb.env.openFails && InBody(chunks, k - 1) && forall i: nat :: i < k ==> !hb.env.writeFails(i))
  }

  /** Size of credit `k`. */
  function Amount(hb: Heartbeats, chunks: seq<Bytes>, k: nat): nat {
    if k == 0 then hb.resumed else if k <= |chunks| then |chunks[k - 1]| else 0
  }

  ghost predicate PrintBreaks(hb: Heartbeats, chunks: seq<Bytes>) {
    exists k: nat :: BreaksAt(hb, chunks, k)
  }

  /** What a failed print leaves credited: the chunk it reported. */
  ghost function Unreported(hb: Heartbeats, chunks: seq<Bytes>): nat {
    if PrintBreaks(hb, chunks) then var k: nat :| BreaksAt(hb, chunks, k); Amount(hb, chunks, k) else 0
  }

  lemma BreaksOnce(hb: Heartbeats, chunks: seq<Bytes>, k: nat)
    requires BreaksAt(hb, chunks, k)
    ensures PrintBreaks(hb, chunks) && Unreported(hb, chunks) == Amount(hb, chunks, k) > 0
  {
    var l: nat :| BreaksAt(hb, chunks, l) && Unreported(hb, chunks) == Amount(hb, chunks, l);
    FirstOnly(hb, chunks, k, l);
  }

  lemma FirstOnly(hb: Heartbeats, chunks: seq<Bytes>, k: nat, l: nat)
    requires BreaksAt(hb, chunks, k) && BreaksAt(hb, chunks, l)
    ensures k == l
  {
    assert hb.Fails(k) && hb.Fails(l);
  }

  /** Nothing goes wrong between the first credit and the end of the body. */
  ghost predicate Streams(hb: Heartbeats, reply: Reply)
    requires reply.Reply?
  {
    && !hb.Fails(0) && !hb.env.openFails && !hb.env.closeFails
    && (forall i: nat :: InBody(reply.chunks, i) ==> !hb.env.writeFails(i) && !hb.Fails(i + 1))
    && (reply.breaks ==> [] in reply.chunks)
  }

  // ----- What decides the outcome -----

  /** All that an attempt depends on. */
  datatype Attempt = Attempt(part: Option<Bytes>, reply: Reply, size: Option<nat>, sha: Option<Digest>, env: Env,
                             total: nat, lastEmit: real)
  {
    predicate Accepts() { Accepted(part, reply, size, env) }

    function Agreed(): Plan
      requires Accepts()
    {
      Negotiate(reply, Existing(part, env), size)
    }

    function Beats(): Heartbeats
      requires Accepts()
    {
      Heartbeats(env, total, lastEmit, Agreed().existing)
    }

    /** The file once the body is there. */
    function Content(): Bytes
      requires Accepts()
    {
      Base(part, reply, env) + Body(reply.chunks)
    }

    /** The attempt gets as far as its first credit. */
    predicate Begins() { !env.lookRaises && Accepts() && !(sha.Some? && Agreed().existing > 0 && env.prefixReadFails) }

    /** A due heartbeat cannot be printed, before anything else goes wrong. */
    ghost predicate LosesOutput() { Begins() && PrintBreaks(Beats(), reply.chunks) }

    /** The bytes arrive and pass every check. */
    ghost predicate Verifies(hash: Bytes -> Digest) {
      && Begins() && Streams(Beats(), reply) && LengthKept(Agreed(), reply) && !env.finalStatFails
      && Genuine(hash, Content(), size, sha)
    }

    ghost predicate Succeeds(hash: Bytes -> Digest) { Verifies(hash) && env.install.Linked? }

    /** The exception of the test whether the blob exists leaves the attempt, credits and all. */
    ghost predicate Escapes(hash: Bytes -> Digest) { Verifies(hash) && sha.Some? && env.install.Raises? }

    /** What is left credited although nothing was installed. */
    ghost function Leak(hash: Bytes -> Digest): nat {
      if LosesOutput() then Unreported(Beats(), reply.chunks) else if Escapes(hash) then |Content()| else 0
    }
  }

  /** What success means for the file, whoever the server is, and what cannot have gone wrong. */
  lemma SuccessIsGenuine(hash: Bytes -> Digest, a: Attempt)
    requires a.Succeeds(hash)
    ensures a.size.Some? ==> |a.Content()| == a.size.value
    ensures a.sha.Some? ==> hash(a.Content()) == a.sha.value
    ensures a.size.None? ==> a.Content() != []
    ensures a.Agreed().length > 0 ==> |Body(a.reply.chunks)| == a.Agreed().length
    ensures !a.env.lookRaises && !a.env.openFails && !a.env.closeFails && !a.env.finalStatFails && a.env.install.Linked?
    ensures a.sha.Some? && a.Agreed().existing > 0 ==> !a.env.prefixReadFails
    ensures forall i :: InBody(a.reply.chunks, i) ==> !a.env.writeFails(i)
    ensures a.reply.breaks ==> [] in a.reply.chunks
  {
  }

  /** The target was cleared for a symlink that could not be placed. */
  predicate TargetLost(env: Env, sha: Option<Digest>, out: Outcome) {
    out == Failure(InstallRefused) && sha.Some? && env.install.NotLinked? && env.install.cleared
  }

  /** `.part` survives a success only if a blob was reused and dropping `.part` failed. */
  predicate PartKept(env: Env, sha: Option<Digest>) {
    sha.Some? && env.install.Linked? && env.install.reused && !env.unlinkWorks
  }

  // ----- The attempt, step by step -----

  datatype End = Complete | Broke | OutputBroke(leaked: nat)

  /** `ops` extends `ops0` by solvent changes that add up to `net`. */
  ghost predicate Since(ops0: seq<int>, ops: seq<int>, net: int) {
    ops0 <= ops && Solvent(ops[|ops0|..]) && Sum(ops[|ops0|..]) == net
  }

  lemma SinceChange(ops0: seq<int>, ops: seq<int>, net: int, d: int)
    requires Since(ops0, ops, net) && net + d >= 0
    ensures Since(ops0, ops + [d], net + d)
  {
    SolventAppend(ops[|ops0|..], d);
    assert (ops + [d])[|ops0|..] == ops[|ops0|..] + [d];
  }

  lemma SinceNothing(ops: seq<int>)
    ensures Since(ops, ops, 0)
  {
    assert ops[|ops|..] == [];
  }

  /** Credits `n` bytes; `broke` when printing the heartbeat raised, after the counter had moved. */
  method Credit(tracker: ProgressTracker, env: Env, k: nat, n: nat,
                ghost hb: Heartbeats, ghost ops0: seq<int>, ghost net: nat)
    returns (broke: bool)
    requires tracker.Valid() && Since(ops0, tracker.ops, net) && n > 0
    requires hb.env == env && hb.total == tracker.total && tracker.lastEmit == hb.Seen(k) && (k == 0 ==> hb.resumed > 0)
    modifies tracker
    ensures tracker.Valid() && Since(ops0, tracker.ops, net + n) && tracker.lastEmit == hb.After(k)
    ensures broke <==> hb.Fails(k)
  {
    SinceChange(ops0, tracker.ops, net, n);
    var emit := tracker.Add(n, env.now(k));
    broke := emit.Some? && env.printFails(k);
  }

  /** The first `i` chunks were read and written, and every report before credit `i` went out. */
  ghost predicate Undisturbed(hb: Heartbeats, chunks: seq<Bytes>, i: nat) {
    && i <= |chunks| && (forall j: nat :: j < i ==> chunks[j] != [] && !hb.env.writeFails(j))
    && forall j: nat :: j < i ==> !hb.Fails(j)
  }

  /** Where the loop stands after `i` chunks. */
  ghost predicate Stands(hb: Heartbeats, chunks: seq<Bytes>, i: nat, end: End) {
    && Undisturbed(hb, chunks, i)
    && match end
       case Complete => !hb.Fails(i)
       case Broke => !hb.Fails(i) && i < |chunks| && chunks[i] != [] && hb.env.writeFails(i)
       case OutputBroke(leaked) => BreaksAt(hb, chunks, i) && leaked == Amount(hb, chunks, i)
  }

  lemma OneMoreChunk(hb: Heartbeats, chunks: seq<Bytes>, i: nat, broke: bool)
    requires Stands(hb, chunks, i, Complete) && i < |chunks| && chunks[i] != []
    requires !hb.env.writeFails(i) && !hb.env.openFails && (broke <==> hb.Fails(i + 1))
    ensures Stands(hb, chunks, i + 1, if broke then OutputBroke(|chunks[i]|) else Complete)
  {
  }

  /** Reports the chunk just written. */
  method Report(ghost chunks: seq<Bytes>, i: nat, chunk: Bytes, env: Env, tracker: ProgressTracker,
                ghost hb: Heartbeats, ghost ops0: seq<int>, ghost net: nat)
    returns (broke: bool)
    requires i < |chunks| && chunk == chunks[i] && chunk != [] && !env.writeFails(i) && !env.openFails
    requires hb.env == env && hb.total == tracker.total && Stands(hb, chunks, i, Complete)
    requires tracker.Valid() && tracker.lastEmit == hb.After(i) && Since(ops0, tracker.ops, net)
    modifies tracker
    ensures tracker.Valid() && Since(ops0, tracker.ops, net + |chunk|) && tracker.lastEmit == hb.After(i + 1)
    ensures Stands(hb, chunks, i + 1, if broke then OutputBroke(|chunk|) else Complete)
  {
    tracker.Overtaken(env.others(i + 1));
    broke := Credit(tracker, env, i + 1, |chunk|, hb, ops0, net);
    OneMoreChunk(hb, chunks, i, broke);
  }

  /** Writes the next chunk; `.part` stays the base plus a piece of the body. */
  method Append(side: Sidecar, chunk: Bytes, ghost images0: set<Option<Bytes>>, ghost base: Bytes, ghost body: Bytes)
    requires side.Valid() && side.part.Some? && base <= side.part.value + chunk <= base + body
    requires CrashImages(images0, side.images, Some(base), base, body)
    modifies side`part, side`images
    ensures side.Valid() && side.part == Some(old(side.part).value + chunk)
    ensures CrashImages(images0, side.images, Some(base), base, body)
  {
    side.SetPart(Some(side.part.value + chunk));
  }

  /** What the chunk loop was given, for its invariant. */
  datatype Streaming = Streaming(chunks: seq<Bytes>, hashing: bool, prefix: Bytes, prefixCredit: nat, base: Bytes,
                                 hb: Heartbeats, ops0: seq<int>, images0: set<Option<Bytes>>)

  /** After `i` chunks, `read` bytes of the body are in `.part`, hashed and credited. */
  ghost predicate Streamed(st: Streaming, side: Sidecar, tracker: ProgressTracker, i: nat, read: nat, fed: Bytes,
                           credited: nat, end: End)
    reads side, tracker
  {
    && tracker.Valid() && Since(st.ops0, tracker.ops, st.prefixCredit + read)
    && st.prefixCredit + read == credited + (if end.OutputBroke? then end.leaked else 0)
    && Stands(st.hb, st.chunks, i, end) && (end.Complete? ==> tracker.lastEmit == st.hb.After(i))
    && side.Valid() && side.part.Some? && |side.part.value| == |st.base| + read
    && side.part.value + Body(st.chunks[i..]) == st.base + Body(st.chunks)
    && (st.hashing && st.prefix == st.base ==> fed == side.part.value)
    && CrashImages(st.images0, side.images, Some(st.base), st.base, Body(st.chunks))
  }

  /** One turn of the chunk loop: write, hash, count, credit. */
  method TakeChunk(i: nat, read: nat, fed: Bytes, credited: nat, chunk: Bytes, env: Env, hashing: bool,
                   side: Sidecar, tracker: ProgressTracker, ghost st: Streaming)
    returns (read': nat, fed': Bytes, credited': nat, end: End)
    requires i < |st.chunks| && chunk == st.chunks[i] && chunk != [] && hashing == st.hashing
    requires st.hb.env == env && st.hb.total == tracker.total && !env.openFails && !env.writeFails(i)
    requires Streamed(st, side, tracker, i, read, fed, credited, Complete)
    modifies side`part, side`images, tracker
    ensures Streamed(st, side, tracker, i + 1, read', fed', credited', end) && !end.Broke?
  {
    BodyStep(st.chunks, i, st.base, side.part.value, st.base + Body(st.chunks));
    Append(side, chunk, st.images0, st.base, Body(st.chunks));
    fed' := if hashing then fed + chunk else fed;
    var broke := Report(st.chunks, i, chunk, env, tracker, st.hb, st.ops0, st.prefixCredit + read);
    read' := read + |chunk|;
    if broke {
      credited', end := credited, OutputBroke(|chunk|);
    } else {
      credited', end := credited + |chunk|, Complete;
    }
  }

  /** The chunk loop. */
  method StreamBody(reply: Reply, env: Env, hashing: bool, prefix: Bytes, side: Sidecar, tracker: ProgressTracker,
                    creditedPrefix: nat, ghost base: Bytes, ghost ops0: seq<int>, ghost hb: Heartbeats)
    returns (read: nat, fed: Bytes, credited: nat, end: End)
    requires reply.Reply? && side.Valid() && tracker.Valid() && side.part == Some(base)
    requires Since(ops0, tracker.ops, creditedPrefix)
    requires hb.env == env && hb.total == tracker.total && tracker.lastEmit == hb.After(0)
    requires !hb.Fails(0) && !env.openFails
    modifies side`part, side`images, tracker
    ensures tracker.Valid() && Since(ops0, tracker.ops, creditedPrefix + read)
    ensures creditedPrefix + read == credited + (if end.OutputBroke? then end.leaked else 0)
    ensures end.OutputBroke? <==> PrintBreaks(hb, reply.chunks)
    ensures end.OutputBroke? ==> end.leaked == Unreported(hb, reply.chunks)
    ensures end.Complete? && !env.closeFails <==> Streams(hb, reply)
    ensures side.part.Some? && |side.part.value| == |base| + read
    ensures hashing && prefix == base ==> fed == side.part.value
    ensures end.Complete? ==> side.part == Some(base + Body(reply.chunks))
    ensures side.Valid()
    ensures CrashImages(old(side.images), side.images, Some(base), base, Body(reply.chunks))
  {
    read, fed, credited, end := 0, prefix, creditedPrefix, Complete;
    var i := 0;
    ghost var st := Streaming(reply.chunks, hashing, prefix, creditedPrefix, base, hb, ops0, side.images);
    while end.Complete? && i < |reply.chunks| && reply.chunks[i] != []
      invariant 0 <= i <= |reply.chunks|
      invariant Streamed(st, side, tracker, i, read, fed, credited, end)
      decreases end.Complete?, |reply.chunks| - i
    {
      if env.writeFails(i) {
        end := Broke;
      } else {
        read, fed, credited, end :=
          TakeChunk(i, read, fed, credited, reply.chunks[i], env, hashing, side, tracker, st);
        i := i + 1;
      }
    }
    if end.Complete? {
      BodyEnd(reply.chunks, i, side.part.value, base + Body(reply.chunks));
      if i == |reply.chunks| && reply.breaks { end := Broke; }
    }
    EndsAs(hb, reply, i, end);
  }

  /** How the loop stopped after `i` chunks tells whether a lost output or any other fault came first. */
  lemma EndsAs(hb: Heartbeats, reply: Reply, i: nat, end: End)
    requires reply.Reply? && Undisturbed(hb, reply.chunks, i) && !hb.env.openFails && !hb.Fails(0)
    requires !end.OutputBroke? ==> !hb.Fails(i)
    requires end.Complete? ==> if i == |reply.chunks| then !reply.breaks else reply.chunks[i] == []
    requires end.Broke? ==> if i == |reply.chunks| then reply.breaks else reply.chunks[i] != [] && hb.env.writeFails(i)
    requires end.OutputBroke? ==> BreaksAt(hb, reply.chunks, i) && end.leaked == Amount(hb, reply.chunks, i)
    ensures end.OutputBroke? <==> PrintBreaks(hb, reply.chunks)
    ensures end.OutputBroke? ==> end.leaked == Unreported(hb, reply.chunks)
    ensures end.Complete? && !hb.env.closeFails <==> Streams(hb, reply)
  {
    if end.OutputBroke? {
      BreaksOnce(hb, reply.chunks, i);
      assert InBody(reply.chunks, i - 1) && hb.Fails(i - 1 + 1);
    } else {
      NoBreak(hb, reply.chunks, i);
      if i < |reply.chunks| && reply.chunks[i] != [] {
        assert InBody(reply.chunks, i);
      } else {
        forall j: nat | InBody(reply.chunks, j) ensures !hb.env.writeFails(j) && !hb.Fails(j + 1) {
          assert j < i;
        }
        assert [] in reply.chunks <==> i < |reply.chunks|;
      }
    }
  }

  /** A loop stopped by a failed write or the end of the body, all reports out, loses no output. */
  lemma NoBreak(hb: Heartbeats, chunks: seq<Bytes>, i: nat)
    requires Undisturbed(hb, chunks, i) && !hb.Fails(i)
    requires i < |chunks| && chunks[i] != [] ==> hb.env.writeFails(i)
    ensures !PrintBreaks(hb, chunks)
  {
    forall k: nat ensures !BreaksAt(hb, chunks, k) {
      assert k > i && InBody(chunks, k - 1) ==> i < |chunks| && chunks[i] != [];
    }
  }

  lemma BodyStep(chunks: seq<Bytes>, i: nat, base: Bytes, got: Bytes, whole: Bytes)
    requires i < |chunks| && chunks[i] != [] && got + Body(chunks[i..]) == whole && base <= whole && |base| <= |got|
    ensures (got + chunks[i]) + Body(chunks[i + 1..]) == whole && base <= got + chunks[i] <= whole
  {
    assert chunks[i..][1..] == chunks[i + 1..];
  }

  lemma BodyEnd(chunks: seq<Bytes>, i: nat, got: Bytes, whole: Bytes)
    requires i <= |chunks| && (i < |chunks| ==> chunks[i] == []) && got + Body(chunks[i..]) == whole
    ensures got == whole
  {
    assert Body(chunks[i..]) == [];
  }

  /** Failure path shared by every exit: drop `.part`, take the credits back. */
  method Abandon(side: Sidecar, tracker: ProgressTracker, credited: nat, leaked: nat, env: Env, ghost ops0: seq<int>)
    requires side.Valid() && tracker.Valid() && Since(ops0, tracker.ops, credited + leaked)
    modifies side`part, side`images, tracker
    ensures tracker.Valid() && Since(ops0, tracker.ops, leaked)
    ensures side.part == if env.unlinkWorks then None else old(side.part)
    ensures side.Valid() && side.images <= old(side.images) + {None}
  {
    side.Unlink(env.unlinkWorks);
    if credited > 0 {
      SinceChange(ops0, tracker.ops, credited + leaked, -(credited as int));
      tracker.Subtract(credited);
    }
  }

  /** The checks between the end of the body and the installation. */
  method Validate(hash: Bytes -> Digest, env: Env, size: Option<nat>, sha: Option<Digest>, length: int, read: nat,
                  fed: Bytes, content: Bytes)
    returns (v: Outcome)
    requires sha.Some? ==> fed == content
    ensures v.Success? <==> (length > 0 ==> read == length) && !env.finalStatFails && Genuine(hash, content, size, sha)
    ensures v.Success? || (v.Failure? && v.reason != BrokenOutput && v.reason != InstallRefused)
  {
    if length > 0 && read != length { return Failure(ShortRead); }
    if sha.Some? && hash(fed) != sha.value { return Failure(DigestMismatch); }
    if env.finalStatFails { return Failure(FinalStatFailed); }
    var finalSize := |content|;
    if size.Some? && finalSize != size.value { return Failure(SizeMismatch); }
    if size.None? && finalSize == 0 { return Failure(EmptyBody); }
    return Success;
  }

  /** Moves the verified file into place; says whether that worked. */
  method PlaceFile(env: Env, sha: Option<Digest>, side: Sidecar) returns (ok: bool)
    requires side.Valid() && side.part.Some? && !(sha.Some? && env.install.Raises?)
    modifies side
    ensures side.Valid() && side.images <= old(side.images) + {None}
    ensures ok <==> env.install.Linked?
    ensures ok ==> side.installed == old(side.part) && (side.part == None || PartKept(env, sha))
    ensures side.part == None || side.part == old(side.part)
    ensures !ok ==>
              side.installed == if TargetLost(env, sha, Failure(InstallRefused)) then None else old(side.installed)
  {
    ok := env.install.Linked?;
    var content := side.part;
    if ok || (env.install.NotLinked? && sha.Some?) {
      if sha.Some? && env.install.reused {
        side.Unlink(env.unlinkWorks);
      } else {
        side.SetPart(None);
      }
      if ok {
        side.installed := content;
      } else if env.install.cleared {
        side.installed := None;
      }
    }
  }

  /** After the body: the checks, then the installation. */
  method Settle(hash: Bytes -> Digest, env: Env, size: Option<nat>, sha: Option<Digest>, length: int, read: nat,
                fed: Bytes, credited: nat, side: Sidecar, tracker: ProgressTracker, ghost ops0: seq<int>)
    returns (out: Outcome)
    requires side.Valid() && tracker.Valid() && side.part.Some? && credited == |side.part.value|
    requires sha.Some? ==> fed == side.part.value
    requires Since(ops0, tracker.ops, credited)
    modifies side, tracker
    ensures side.Valid() && tracker.Valid() && side.images <= old(side.images) + {None}
    ensures var verified := && Genuine(hash, old(side.part).value, size, sha) && !env.finalStatFails
                            && (length > 0 ==> read == length);
            && (out.Success? <==> verified && env.install.Linked?)
            && (out.Raised? <==> verified && sha.Some? && env.install.Raises?)
            && out != Failure(BrokenOutput)
    ensures out.Success? ==> side.installed == old(side.part) && (side.part == None || PartKept(env, sha))
    ensures !out.Success? ==> side.installed == if TargetLost(env, sha, out) then None else old(side.installed)
    ensures out.Failure? && env.unlinkWorks ==> side.part == None
    ensures out.Raised? ==> side.part == old(side.part)
    ensures Since(ops0, tracker.ops, if out.Failure? then 0 else credited)
  {
    var verdict := Validate(hash, env, size, sha, length, read, fed, side.part.value);
    if verdict.Failure? {
      Abandon(side, tracker, credited, 0, env, ops0);
      return verdict;
    }
    if env.install.Raises? && sha.Some? {
      return Raised;
    }
    var ok := PlaceFile(env, sha, side);
    if !ok {
      Abandon(side, tracker, credited, 0, env, ops0);
      return Failure(InstallRefused);
    }
    return Success;
  }

  /** From the first credit on: prefix credit, body, and all the checks before the file is installed. */
  method Receive(hash: Bytes -> Digest, env: Env, size: Option<nat>, sha: Option<Digest>, reply: Reply, plan: Plan,
                 prefix: Bytes, side: Sidecar, tracker: ProgressTracker, ghost base: Bytes, ghost hb: Heartbeats)
    returns (out: Outcome)
    requires side.Valid() && tracker.Valid() && reply.Reply? && plan.Accept? && (plan.append <==> plan.existing > 0)
    requires plan.append ==> side.part == Some(base) && |base| == plan.existing
    requires !plan.append ==> base == []
    requires sha.Some? ==> prefix == base
    requires hb == Heartbeats(env, tracker.total, tracker.lastEmit, plan.existing)
    modifies side, tracker
    ensures side.Valid() && tracker.Valid()
    ensures var verified := && Streams(hb, reply) && LengthKept(plan, reply) && !env.finalStatFails
                            && Genuine(hash, base + Body(reply.chunks), size, sha);
            && (out.Success? <==> verified && env.install.Linked?)
            && (out.Raised? <==> verified && sha.Some? && env.install.Raises?)
            && (out == Failure(BrokenOutput) <==> PrintBreaks(hb, reply.chunks))
    ensures out.Success? ==> && side.installed == Some(base + Body(reply.chunks))
                             && (side.part == None || PartKept(env, sha))
    ensures !out.Success? ==> side.installed == if TargetLost(env, sha, out) then None else old(side.installed)
    ensures out.Failure? && env.unlinkWorks ==> side.part == None
    ensures out.Raised? ==> side.part == Some(base + Body(reply.chunks))
    ensures Since(old(tracker.ops), tracker.ops,
                  if out.Failure? then Unreported(hb, reply.chunks) else |base + Body(reply.chunks)|)
    ensures CrashImages(old(side.images), side.images, old(side.part), base, Body(reply.chunks))
  {
    ghost var ops0 := tracker.ops;
    SinceNothing(ops0);
    tracker.Overtaken(env.others(0));
    var credited := 0;
    if plan.existing > 0 {
      var broke := Credit(tracker, env, 0, plan.existing, hb, ops0, 0);
      if broke {
        BreaksOnce(hb, reply.chunks, 0);
        Abandon(side, tracker, 0, plan.existing, env, ops0);
        return Failure(BrokenOutput);
      }
      credited := plan.existing;
    }
    assert !hb.Fails(0);
    if env.openFails {
      Abandon(side, tracker, credited, 0, env, ops0);
      return Failure(Interrupted);
    }
    if !plan.append {
      side.SetPart(Some([]));
    }
    var read, fed, total, end := StreamBody(reply, env, sha.Some?, prefix, side, tracker, credited, base, ops0, hb);
    if !end.Complete? || env.closeFails {
      var leaked := if end.OutputBroke? then end.leaked else 0;
      Abandon(side, tracker, total, leaked, env, ops0);
      return Failure(if end.OutputBroke? then BrokenOutput else Interrupted);
    }
    out := Settle(hash, env, size, sha, plan.length, read, fed, total, side, tracker, ops0);
  }

  /** Measures `.part`; one that cannot be measured is dropped. */
  method Measure(env: Env, side: Sidecar) returns (existing: nat)
    requires side.Valid()
    modifies side`part, side`images
    ensures side.Valid() && side.images <= old(side.images) + {None}
    ensures existing == Existing(old(side.part), env)
    ensures side.part == if env.statFails && env.unlinkWorks then None else old(side.part)
  {
    existing := 0;
    if side.part.Some? {
      if env.statFails {
        side.Unlink(env.unlinkWorks);
      } else {
        existing := |side.part.value|;
      }
    }
  }

  method DoR2Download(hash: Bytes -> Digest, env: Env, size: Option<nat>, sha: Option<Digest>,
                      reply: Reply, side: Sidecar, tracker: ProgressTracker)
    returns (out: Outcome)
    requires side.Valid() && tracker.Valid()
    modifies side, tracker
    ensures side.Valid() && tracker.Valid()
    ensures var a := Attempt(old(side.part), reply, size, sha, env, tracker.total, old(tracker.lastEmit));
            // how it ends
            && (out.Success? <==> a.Succeeds(hash))
            && (out.Raised? <==> env.lookRaises || (a.Verifies(hash) && sha.Some? && env.install.Raises?))
            && (out == Failure(BrokenOutput) <==> a.LosesOutput())
            // the file
            && (out.Success? ==> side.installed == Some(a.Content()))
            && (a.Escapes(hash) ==> side.part == Some(a.Content()))
            // the byte counter
            && Since(old(tracker.ops), tracker.ops, if out.Success? then |a.Content()| else a.Leak(hash))
    // what is left behind: `.part` only if dropping it fails, the target unless cleared for a symlink that failed
    ensures out.Success? ==> side.part == None || (sha.Some? && env.install == Linked(true) && !env.unlinkWorks)
    ensures !out.Success? ==>
              side.installed == if out == Failure(InstallRefused) && sha.Some? && env.install.NotLinked?
                                   && env.install.cleared then None else old(side.installed)
    ensures out.Failure? && env.unlinkWorks ==> side.part == None
    // every state a kill can expose
    ensures CrashImages(old(side.images), side.images, old(side.part), Base(old(side.part), reply, env),
                        Delivered(old(side.part), reply, size, env))
  {
    ghost var a := Attempt(side.part, reply, size, sha, env, tracker.total, tracker.lastEmit);
    ghost var ops0, base := tracker.ops, Base(side.part, reply, env);
    SinceNothing(ops0);
    if env.lookRaises { return Raised; }
    var existing := Measure(env, side);
    var plan := if reply.NoReply? then Reject else Negotiate(reply, existing, size);
    var rehash := sha.Some? && plan.Accept? && plan.existing > 0;
    if plan.Reject? || (rehash && env.prefixReadFails) {
      assert !a.Begins();
      Abandon(side, tracker, 0, 0, env, ops0);
      return Failure(if reply.NoReply? then Interrupted else if plan.Reject? then BadReply else PrefixReadFailed);
    }
    assert a.Begins() && a.Agreed() == plan;
    var prefix := if rehash then side.part.value else [];
    out := Receive(hash, env, size, sha, reply, plan, prefix, side, tracker, base, a.Beats());
  }
}
