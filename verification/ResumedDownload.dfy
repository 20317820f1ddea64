/**
 What resuming amounts to (`_do_r2_download`, fusion_mlx/_mirror.py): against servers that label their
 answers truthfully, and any history of kills and retries, what is accepted is the object itself.
 */
module ResumedDownload {
  import opened Common
  import opened R2Download
  import ContentRange

  /** A 206 of announced length for a file of known size is acted on exactly when it says to be the missing suffix. */
  lemma AcceptedSuffix(reply: Reply, existing: nat, size: nat)
    requires reply.Reply? && reply.status == 206 && reply.length.Announced? && reply.length.n > 0
    ensures var n := reply.length.n;
            && (Negotiate(reply, existing, Some(size)).Accept? <==>
                  reply.range == Some(ContentRange.Range(existing, size - 1, Some(size))) && n == size - existing)
            && (Negotiate(reply, existing, Some(size)).Accept? ==>
                  Negotiate(reply, existing, Some(size)) == Accept(n, existing, existing > 0))
  {
  }

  /** The answer is acted on exactly if its length `n` is right or slips through; a right one as a resume. */
  predicate AcceptedIfMeasured(reply: Reply, length: string, n: Option<int>, existing: nat, size: nat)
    requires reply.Reply?
  {
    var plan := Negotiate(reply, existing, Some(size));
    && (plan.Accept? <==> length != "" && (n == Some(size - existing) || n == Some(-(existing as int))))
    && (length != "" && n == Some(size - existing) ==> plan == Accept(size - existing, existing, true))
  }

  /**
   Which answers to `Range: bytes=<existing>-` whose `Content-Range` names the missing bytes of a file of
   the expected size are acted on: those that announce their length too, though section 15.3.7 of RFC 9110
   does not ask for it.  A length of minus `existing` slips through as well.
   */
  lemma ResumeAcceptedIff(parseInt: string -> Option<int>, length: string, x: string, y: string, z: string,
                          existing: nat, size: nat, chunks: seq<Bytes>, breaks: bool)
    requires '-' !in x && '/' !in x && '/' !in y && z != "*" && 0 < existing < size
    requires parseInt(x) == Some(existing) && parseInt(y) == Some(size - 1) && parseInt(z) == Some(size)
    ensures var range := ContentRange.UNIT + (x + "-" + y + "/" + z);
            var reply := FromWire(parseInt, 206, length, range, chunks, breaks);
            AcceptedIfMeasured(reply, length, parseInt(length), existing, size)
  {
    ContentRange.HeaderReads(parseInt, x, y, z, ContentRange.Range(existing, size - 1, Some(size)));
    var reply := FromWire(parseInt, 206, length, ContentRange.UNIT + (x + "-" + y + "/" + z), chunks, breaks);
    MeasuredIff(reply, length, parseInt(length), existing, size);
  }

  lemma MeasuredIff(reply: Reply, length: string, n: Option<int>, existing: nat, size: nat)
    requires 0 < existing < size && reply.Reply? && reply.status == 206
    requires reply.range == Some(ContentRange.Range(existing, size - 1, Some(size)))
    requires reply.length == if length == "" then Absent else if n.None? then Malformed else Announced(n.value)
    ensures AcceptedIfMeasured(reply, length, n, existing, size)
  {
    WholeRangeAcceptedIff(reply, existing, size);
  }

  lemma WholeRangeAcceptedIff(reply: Reply, existing: nat, size: nat)
    requires 0 < existing < size && reply.Reply? && reply.status == 206
    requires reply.range == Some(ContentRange.Range(existing, size - 1, Some(size)))
    ensures Negotiate(reply, existing, Some(size)).Accept? <==>
              reply.length.Announced? && (reply.length.n == size - existing || reply.length.n == -(existing as int))
    ensures reply.length == Announced(size - existing) ==>
              Negotiate(reply, existing, Some(size)) == Accept(size - existing, existing, true)
  {
  }

  /** `part` is what an interrupted download of `obj` may have left. */
  predicate Fits(part: Option<Bytes>, obj: Bytes) {
    part.Some? ==> part.value <= obj
  }

  /** The server has `obj` and labels what it sends truthfully; it may still stop early, silently or not. */
  predicate Honest(obj: Bytes, reply: Reply) {
    reply.Reply? ==>
      && (reply.status == 200 ==> HonestFull(obj, reply))
      && (reply.status == 206 ==> HonestRange(obj, reply))
  }

  predicate HonestFull(obj: Bytes, reply: Reply)
    requires reply.Reply?
  {
    && Body(reply.chunks) <= obj
    && (reply.length.Announced? ==> reply.length.n == |obj|)
  }

  predicate HonestRange(obj: Bytes, reply: Reply)
    requires reply.Reply?
  {
    reply.range.Some? ==>
      var r := reply.range.value;
      && 0 <= r.first <= r.last < |obj| && Body(reply.chunks) <= obj[r.first..r.last + 1]
      && (r.total.Some? ==> r.total.value == |obj|)
      && (reply.length.Announced? ==> reply.length.n == r.last + 1 - r.first)
  }

  /** One attempt against an honest server, killed or not, keeps `.part` an initial piece of the object. */
  lemma HonestStep(obj: Bytes, part: Option<Bytes>, reply: Reply, size: Option<nat>, env: Env, img: Option<Bytes>)
    requires Fits(part, obj) && Honest(obj, reply)
    requires CrashImage(part, Base(part, reply, env), Delivered(part, reply, size, env), img)
    ensures Fits(img, obj)
  {
    if Accepted(part, reply, size, env) {
      ResumedIsPrefix(obj, part, reply, size, env);
    }
  }

  lemma ResumedIsPrefix(obj: Bytes, part: Option<Bytes>, reply: Reply, size: Option<nat>, env: Env)
    requires Fits(part, obj) && Honest(obj, reply) && Accepted(part, reply, size, env)
    ensures Base(part, reply, env) + Body(reply.chunks) <= obj
  {
    var base, body := Base(part, reply, env), Body(reply.chunks);
    if reply.status == 206 {
      PrefixThenSlice(obj, base, body, reply.range.value.last + 1);
    } else {
      assert base + body == body;
    }
  }

  lemma PrefixThenSlice(obj: Bytes, base: Bytes, body: Bytes, end: nat)
    requires base <= obj && |base| <= end <= |obj| && body <= obj[|base|..end]
    ensures base + body <= obj
  {
  }

  /** `parts[i + 1]` is a state `.part` can be left in by an attempt that found `parts[i]`. */
  ghost predicate AttemptLeaves(obj: Bytes, size: Option<nat>, part: Option<Bytes>, img: Option<Bytes>) {
    exists reply, env ::
      Honest(obj, reply) && CrashImage(part, Base(part, reply, env), Delivered(part, reply, size, env), img)
  }

  /** Attempts against honest servers, each killed at some moment or run to its end, from a `.part` that fits. */
  ghost predicate History(obj: Bytes, size: Option<nat>, parts: seq<Option<Bytes>>) {
    && parts != [] && Fits(parts[0], obj)
    && forall i :: 0 <= i < |parts| - 1 ==> AttemptLeaves(obj, size, parts[i], parts[i + 1])
  }

  /** Any history of kills and retries against honest servers leaves an initial piece of the object, or nothing. */
  lemma {:induction false} HonestHistory(obj: Bytes, size: Option<nat>, parts: seq<Option<Bytes>>)
    requires History(obj, size, parts)
    ensures Fits(parts[|parts|-1], obj)
    decreases |parts|
  {
    if |parts| > 1 {
      var earlier := parts[..|parts|-1];
      HonestHistory(obj, size, earlier);
      var part, img := parts[|parts|-2], parts[|parts|-1];
      assert AttemptLeaves(obj, size, part, img);
      var reply, env :|
        Honest(obj, reply) && CrashImage(part, Base(part, reply, env), Delivered(part, reply, size, env), img);
      HonestStep(obj, part, reply, size, env, img);
    }
  }

  /**
   Whatever history of kills and retries came before, an attempt that succeeds for a file of known size
   installs the object, as one uninterrupted download would.
   */
  lemma SuccessIsTheObject(hash: Bytes -> Digest, obj: Bytes, parts: seq<Option<Bytes>>, a: Attempt)
    requires History(obj, Some(|obj|), parts) && a.part == parts[|parts|-1] && a.size == Some(|obj|)
    requires Honest(obj, a.reply) && a.Succeeds(hash)
    ensures a.Content() == obj
  {
    HonestHistory(obj, Some(|obj|), parts);
    ResumedIsPrefix(obj, a.part, a.reply, a.size, a.env);
  }

  /** No fault outside the server's control. */
  ghost predicate FaultFree(env: Env) {
    && !env.lookRaises && !env.statFails && !env.prefixReadFails && !env.openFails && !env.closeFails
    && !env.finalStatFails && env.install.Linked? && (forall k :: !env.writeFails(k)) && forall k :: !env.printFails(k)
  }

  /** The answer arrives whole: everything its headers say it carries. */
  predicate Delivers(obj: Bytes, reply: Reply) {
    && reply.Reply? && !reply.breaks
    && (reply.status == 200 ==> Body(reply.chunks) == obj)
    && (reply.status == 206 && reply.range.Some? ==>
          var r := reply.range.value;
          0 <= r.first <= r.last < |obj| && Body(reply.chunks) == obj[r.first..r.last + 1])
  }

  /** All of the object; or all that is missing, with its length announced if anything was there. */
  predicate RightAnswer(obj: Bytes, existing: nat, reply: Reply)
    requires reply.Reply?
  {
    if reply.status == 206 then
      && existing < |obj| && reply.range == Some(ContentRange.Range(existing, |obj| - 1, Some(|obj|)))
      && (reply.length == Announced(|obj| - existing) || (reply.length.Absent? && existing == 0))
    else
      reply.status == 200 && !reply.length.Malformed?
  }

  /**
   Which interruptions do harm.  Whatever history of kills and retries came before, a fault-free attempt
   whose truthful answer arrives whole succeeds, and installs the object, if and only if that answer is
   the whole object or exactly what is missing, with its length announced.
   */
  lemma InterruptionsHarmIff(hash: Bytes -> Digest, obj: Bytes, parts: seq<Option<Bytes>>, a: Attempt)
    requires History(obj, Some(|obj|), parts) && a.part == parts[|parts|-1] && a.size == Some(|obj|)
    requires a.sha.Some? ==> hash(obj) == a.sha.value
    requires FaultFree(a.env) && Honest(obj, a.reply) && Delivers(obj, a.reply)
    ensures var kept := if a.part.Some? then |a.part.value| else 0;
            a.Succeeds(hash) <==> RightAnswer(obj, kept, a.reply)
    ensures a.Succeeds(hash) ==> a.Content() == obj
  {
    HonestHistory(obj, Some(|obj|), parts);
    if a.Accepts() {
      ResumedIsPrefix(obj, a.part, a.reply, a.size, a.env);
      forall k: nat ensures !a.Beats().Fails(k) {
      }
      AcceptedWhole(obj, a);
    } else if RightAnswer(obj, Existing(a.part, a.env), a.reply) {
      RightIsAccepted(obj, a);
    }
  }

  /** Of a truthful answer that is acted on and arrives whole, the result is the object exactly for a right one. */
  lemma AcceptedWhole(obj: Bytes, a: Attempt)
    requires Fits(a.part, obj) && a.size == Some(|obj|) && FaultFree(a.env) && a.Accepts()
    requires Honest(obj, a.reply) && Delivers(obj, a.reply)
    ensures |a.Content()| == |obj| <==> RightAnswer(obj, Existing(a.part, a.env), a.reply)
    ensures |a.Content()| == |obj| ==> a.Content() == obj && LengthKept(a.Agreed(), a.reply)
  {
    ResumedIsPrefix(obj, a.part, a.reply, a.size, a.env);
  }

  lemma RightIsAccepted(obj: Bytes, a: Attempt)
    requires Fits(a.part, obj) && a.size == Some(|obj|) && FaultFree(a.env) && Honest(obj, a.reply)
    requires a.reply.Reply? && RightAnswer(obj, Existing(a.part, a.env), a.reply)
    ensures a.Accepts()
  {
  }

  /** A machine on which nothing goes wrong. */
  function Calm(): Env {
    Env(false, false, false, false, _ => false, false, false, true, Linked(false), _ => 0.0, _ => None, _ => false)
  }

  /** A kill at the right moment leaves any initial piece of the object in `.part`. */
  lemma AnyPieceCanBeLeft(obj: Bytes, k: nat)
    requires k <= |obj|
    ensures History(obj, Some(|obj|), [None, Some(obj[..k])])
  {
    var whole := Reply(200, Announced(|obj|), None, if obj == [] then [] else [obj], false);
    assert Body(whole.chunks) == obj by { assert obj != [] ==> whole.chunks[1..] == []; }
    assert CrashImage(None, Base(None, whole, Calm()), Delivered(None, whole, Some(|obj|), Calm()), Some(obj[..k]));
    assert AttemptLeaves(obj, Some(|obj|), None, Some(obj[..k]));
  }

  /** Status of a range request whose start is not inside the object: section 15.5.17 of RFC 9110. */
  const RANGE_NOT_SATISFIABLE := 416

  /**
   With all of the object in `.part`, left by a kill before the installation, an attempt at a truthful
   server acts on nothing but a full 200, so a conforming answer to its range request makes it fail.
   */
  lemma FinishedPartIsRefused(hash: Bytes -> Digest, obj: Bytes, a: Attempt)
    requires obj != [] && a.part == Some(obj) && !a.env.statFails && a.size == Some(|obj|)
    ensures History(obj, Some(|obj|), [None, Some(obj)])
    ensures Honest(obj, a.reply) && a.Accepts() ==> a.reply.status == 200
    ensures a.reply.Reply? && a.reply.status == RANGE_NOT_SATISFIABLE ==>
              Honest(obj, a.reply) && !a.Succeeds(hash) && !a.Escapes(hash)
  {
    AnyPieceCanBeLeft(obj, |obj|);
    assert obj[..|obj|] == obj;
  }

  /**
   For a file of unknown size a full answer that arrives whole is always taken, unless its length cannot
   be read.
   */
  lemma UnknownSizeTakesTheWhole(hash: Bytes -> Digest, obj: Bytes, a: Attempt)
    requires a.size == None && Fits(a.part, obj) && obj != [] && (a.sha.Some? ==> hash(obj) == a.sha.value)
    requires FaultFree(a.env) && Honest(obj, a.reply) && Delivers(obj, a.reply) && a.reply.status == 200
    ensures a.Succeeds(hash) <==> !a.reply.length.Malformed?
    ensures a.Succeeds(hash) ==> a.Content() == obj
  {
    if a.Accepts() {
      assert a.Content() == [] + obj == obj;
      forall k: nat ensures !a.Beats().Fails(k) {
      }
    }
  }

  /**
   A range that arrives whole is taken exactly if it starts where `.part` ends and its headers can be read,
   and, given a digest, if the file then has it; the result ends where the range does.
   */
  lemma UnknownSizeTakesTheRange(hash: Bytes -> Digest, obj: Bytes, a: Attempt)
    requires a.size == None && Fits(a.part, obj)
    requires FaultFree(a.env) && Honest(obj, a.reply) && Delivers(obj, a.reply) && a.reply.status == 206
    ensures var kept, r := if a.part.Some? then |a.part.value| else 0, a.reply.range;
            && (a.Succeeds(hash) <==>
                  && !a.reply.length.Malformed? && r.Some? && r.value.first == kept
                  && (a.sha.Some? ==> hash(obj[..r.value.last + 1]) == a.sha.value))
            && (a.Succeeds(hash) ==> a.Content() == obj[..r.value.last + 1])
  {
    if a.Accepts() {
      ResumedIsPrefix(obj, a.part, a.reply, a.size, a.env);
      assert a.Content() == obj[..a.reply.range.value.last + 1];
      forall k: nat ensures !a.Beats().Fails(k) {
      }
    }
  }

  /** An attempt for `obj` without a digest on a calm machine. */
  function CalmAttempt(obj: Bytes, part: Option<Bytes>, reply: Reply): Attempt {
    Attempt(part, reply, Some(|obj|), None, Calm(), 0, 0.0)
  }

  /**
   With a piece of the object in `.part`, neither the missing rest without a length nor a part of that rest
   helps, truthful and whole as they are; without the piece the same server's full answer does.
   */
  lemma ResumeCanBeWorse(hash: Bytes -> Digest, obj: Bytes, k: nat, m: nat)
    requires 0 < k < m < |obj|
    ensures var part := Some(obj[..k]);
            var rest, some := ContentRange.Range(k, |obj| - 1, Some(|obj|)), ContentRange.Range(k, m - 1, Some(|obj|));
            var unmeasured := Reply(206, Absent, Some(rest), [obj[k..]], false);
            var subset := Reply(206, Announced(m - k), Some(some), [obj[k..m]], false);
            && History(obj, Some(|obj|), [None, part])
            && Honest(obj, unmeasured) && Delivers(obj, unmeasured)
            && !CalmAttempt(obj, part, unmeasured).Succeeds(hash)
            && Honest(obj, subset) && Delivers(obj, subset)
            && !CalmAttempt(obj, part, subset).Succeeds(hash)
            && CalmAttempt(obj, None, Reply(200, Absent, None, [obj], false)).Succeeds(hash)
  {
    AnyPieceCanBeLeft(obj, k);
    OneChunkBody(obj[k..]);
    OneChunkBody(obj[k..m]);
    OneChunkBody(obj);
    var anew := CalmAttempt(obj, None, Reply(200, Absent, None, [obj], false));
    InterruptionsHarmIff(hash, obj, [None], anew);
  }

  lemma OneChunkBody(chunk: Bytes)
    ensures Body([chunk]) == chunk
  {
    assert [chunk][1..] == [];
  }

  /** The response itself says that `content` is everything. */
  predicate AnnouncesEnd(reply: Reply, content: Bytes)
    requires reply.Reply?
  {
    if reply.status == 200 then reply.length.Announced?
    else reply.range.Some? && reply.range.value.total == Some(|content|)
  }

  /**
   With the size unknown, what is accepted is the object whatever honest object is behind it exactly
   when the response announced its end; otherwise a longer object may have been cut short unnoticed.
   */
  lemma HonestUnknownSize(obj: Bytes, part: Option<Bytes>, reply: Reply, env: Env)
    requires Fits(part, obj) && Honest(obj, reply) && Accepted(part, reply, None, env)
    requires LengthKept(Negotiate(reply, Existing(part, env), None), reply)
    ensures AnnouncesEnd(reply, Base(part, reply, env) + Body(reply.chunks)) <==>
            forall o :: Fits(part, o) && Honest(o, reply) ==> Base(part, reply, env) + Body(reply.chunks) == o
  {
    var content := Base(part, reply, env) + Body(reply.chunks);
    if AnnouncesEnd(reply, content) {
      forall o | Fits(part, o) && Honest(o, reply) ensures content == o {
        AnnouncedIsWhole(o, part, reply, env);
      }
    } else if content == obj {
      LongerIsHonestToo(obj, part, reply, env);
    }
  }

  lemma AnnouncedIsWhole(o: Bytes, part: Option<Bytes>, reply: Reply, env: Env)
    requires Fits(part, o) && Honest(o, reply) && Accepted(part, reply, None, env)
    requires LengthKept(Negotiate(reply, Existing(part, env), None), reply)
    requires AnnouncesEnd(reply, Base(part, reply, env) + Body(reply.chunks))
    ensures Base(part, reply, env) + Body(reply.chunks) == o
  {
    ResumedIsPrefix(o, part, reply, None, env);
  }

  lemma LongerIsHonestToo(obj: Bytes, part: Option<Bytes>, reply: Reply, env: Env)
    requires Fits(part, obj) && Honest(obj, reply) && Accepted(part, reply, None, env)
    requires !AnnouncesEnd(reply, obj)
    ensures Fits(part, obj + [0]) && Honest(obj + [0], reply)
  {
    ZeroAtEnd(obj, Body(reply.chunks));
    if part.Some? { ZeroAtEnd(obj, part.value); }
    if reply.status == 206 {
      SliceBelowEnd(obj, reply.range.value.first, reply.range.value.last + 1);
    }
  }

  lemma ZeroAtEnd(obj: Bytes, piece: Bytes)
    ensures piece <= obj ==> piece <= obj + [0]
  {
  }

  lemma SliceBelowEnd(obj: Bytes, from: nat, to: nat)
    requires from <= to <= |obj|
    ensures (obj + [0])[from..to] == obj[from..to]
  {
  }
}
