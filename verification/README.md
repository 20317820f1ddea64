# Verified models of fusion-mlx's small stateful components

These files model, in Dafny 4.11, the parts of fusion-mlx whose promises cover every run rather than
sample inputs: the R2-first downloader and its content-addressed cache, the seeded sampler, guarded
shutdown, the executor watchdog, and four smaller pieces of the same kind (model-name suggestions,
temporary-file ownership, configuration merge, the documentation scanners). Check everything with
`dafny verify dfyconfig.toml`.

| file | models |
|---|---|
| `Progress.dfy` | the byte counter of a pull and interleaved credits and rollbacks |
| `ContentRange.dfy` | the `Content-Range` response header, section 14.4 of RFC 9110 |
| `R2Download.dfy`, `ResumedDownload.dfy` | one resumable download attempt against an arbitrary server; histories of attempts |
| `BlobInstall.dfy` | many processes downloading and installing blobs on one disk, with kills and lost locks |
| `WarmCache.dfy` | accepting a file that is already in the snapshot |
| `SidecarKey.dfy` | names of the `.part` and `.lock` sidecars |
| `Pull.dfy` | the workers of a pull and the loop that pins `refs/main` |
| `SamplerMasks.dfy`, `SamplerKeys.dfy` | top-p / top-k / min-p masks with the argmax rescue; the key chain under concurrency |
| `GuardShutdown.dfy` | signal handlers, deferral threads and busy probes |
| `ExecutorWatchdog.dfy` | the one-slot hang watchdog with its two-phase check |
| `EditDistance.dfy`, `TempfileOwnership.dfy`, `DeepMerge.dfy`, `DocScanners.dfy` | the smaller pieces |

How the environment enters: the server's answers, file-system failures, clock readings, busy probes,
thread and process interleavings and kills are arbitrary parameters or steps. The hash, integer
parsing, lower-casing, the random-number backend and the set of white-space characters are
function-valued parameters. Sampling uses exact reals, and `argsort` is any sorting permutation.

Protocols whose point is interleaving (`BlobInstall`, `GuardShutdown`, and the second halves of
`SamplerKeys`, `ExecutorWatchdog` and `TempfileOwnership`) are step relations over values. Objects and
loops of the code are classes and methods with loops (`ProgressTracker`, `Sidecar`, `DoR2Download`,
`Collect`, `Flags`, `Watchdog`, `SeededSampler`, `Registry`, `TempfileHandle`, `Distance`, `MergeLoop`,
the scanners). The attempt appears twice, at two grains: `R2Download` follows every branch, failure exit
and credit of one attempt, `BlobInstall` every file operation of many attempts with the failure branches
folded into one step.

## Where the code does less than its documentation says

- A cached file of unknown size is accepted without looking at its advertised digest
  (`WarmCache.DigestCheckedIffSizeKnown`), because fusion_mlx/_mirror.py:1413-1416 tests the size first.
- When the lock on `.part` degrades to "no lock" (fusion_mlx/_mirror.py:871-890) a verified `.part` can be
  rewritten before it is renamed. `BlobInstall.BlobsSafeIff` says exactly when: some process installing a
  blob that is not there yet shares its `.part` with another, and one of the two may lose its part lock.
  Losing the blob lock never matters, and no lost lock leaves a placed symlink dangling
  (`BlobInstall.EveryRunKeepsLinks`). On the same condition, and only then, the warm-cache shortcut agrees
  with rehashing in every cache that can arise; otherwise it accepts the rewritten blob by its name
  (`WarmCache.WarmPullsAreSoundIff`).
- A failed `symlink_to` comes after the old target was unlinked (fusion_mlx/_mirror.py:781-792), so that
  failure, and no other, can leave the target absent (the contract of `R2Download.DoR2Download`).
- Credits are not rolled back in full when a due heartbeat cannot be printed (fusion_mlx/_mirror.py:136-138,
  before `chunks_credited` is updated at 601), when the existence test at 756 raises out of the attempt, or
  when the size of an installed file cannot be read back (1441-1443). One lost print is enough for a
  complete and pinned pull to count every byte twice (`Pull.OvercountedPull`).
- Files from HuggingFace or the cache that finish after the completion loop was left by an exception, be it
  a worker's (fusion_mlx/_mirror.py:1503-1511) or that of a print (1523, 1533, 1567), are never credited
  although the final heartbeat still goes out (`Pull.UndercountedPull`). `Pull.ExactIff` shows that the
  counter is exact precisely when the leaks of the previous item make up for what is missed in this one;
  the two can cancel (`Pull.FaultsCancel`), and with only one of them about, exactness means neither happened.
- Resuming can fail where starting over would succeed. A kill after the last chunk and before the
  installation leaves a complete `.part`, and a conforming server's 416 to the range behind its end makes the
  next attempt drop the finished file and fail (fusion_mlx/_mirror.py:467-474;
  `ResumedDownload.FinishedPartIsRefused`). A truthful 206 with the missing bytes but no Content-Length is
  refused, because `total_size` then counts only the kept bytes (517-526), and so is one with a part of the
  missing range, though section 15.3.7 of RFC 9110 allows both (`ResumedDownload.ResumeCanBeWorse`).
  `ResumedDownload.InterruptionsHarmIff` says exactly which answers do.
- A guard deferral with an infinite window, which `FUSION_MLX_GUARD_MAX_DEFER_SEC=inf` spells, never ends
  while work stays in flight (`GuardShutdown.PollingEndsIff`).
- With no advertised size, a short body or a short range is accepted unless the response announced its
  own end (`ResumedDownload.HonestUnknownSize`).
- Sidecar keys collide (`SidecarKey.KeysCollide`), against the docstring at fusion_mlx/_mirror.py:344-346.
- `min_p > 1` makes the seeded sampler greedy (`SamplerMasks.MinPAboveOneIsGreedy`).
- The watchdog fires for a job that sent a heartbeat between the two phases of a check, does not renew
  the defer budget on a heartbeat, and loses sight of a job that overlaps one that ended
  (`ExecutorWatchdog.LateHeartbeatStillFires`, `HeartbeatKeepsOldBudget`, `OverlapHidesTheOther`).
- A temporary file whose name is reused between another handle's unlink and discard escapes the exit hook
  (`TempfileOwnership.ReusedNameLeaks`), and one released after the hook's snapshot is deleted anyway
  (`TempfileOwnership.LateReleaseIsReaped`).
- A failed overwrite of `refs/main` can leave it empty (`Pull.Collect`).

## Model

| member | source | states |
|---|---|---|
| Progress.ProgressTracker.Add | fusion_mlx/_mirror.py:116-138 | credits exactly the positive delta; a heartbeat is due exactly after half a second with a known total, and shows at most the total |
| Progress.ProgressTracker.Subtract | fusion_mlx/_mirror.py:140-151 | takes back the delta, stopping at zero, and prints nothing |
| Progress.ProgressTracker.Flush | fusion_mlx/_mirror.py:153-164 | a final line exactly when the total is known, showing the counter capped at it |
| Progress.ClampNeverBites | fusion_mlx/_mirror.py:150-151 | on any history in which nobody takes back more than was credited, the clamped counter is the plain sum |
| Progress.InterleavingConserves | fusion_mlx/_mirror.py:116-151 | whatever the interleaving of files, if each file's own changes are solvent the clamp never bites and the counter is the sum of the files' nets |
| ContentRange.ParsesTheGrammar | fusion_mlx/_mirror.py:798-834 | a header is accepted with given numbers if and only if it is spelled `bytes x-y/z` with them, `0 <= first <= last`, and a total that is `*` or non-negative |
| ContentRange.RoundTrip | fusion_mlx/_mirror.py:798-834 | a header written by a conforming server is read back as sent |
| R2Download.StreamBody | fusion_mlx/_mirror.py:585-601 | the loop ends on a lost output if and only if some due heartbeat cannot be printed before any other fault, and completes if and only if no chunk meets a fault; the hasher is fed what `.part` holds, credits equal bytes read up to the chunk whose report was lost, and `.part` only ever holds the base plus a piece of the body |
| R2Download.Abandon | fusion_mlx/_mirror.py:167-179 | failure exits drop `.part` and take back exactly what was credited |
| R2Download.Validate | fusion_mlx/_mirror.py:603-680 | passes exactly when the length was kept, the digest and size match when known, and a file of unknown size is not empty |
| R2Download.Settle | fusion_mlx/_mirror.py:603-705 | installs exactly the validated bytes if and only if every check passes and the installation works; escapes if and only if the checks pass and the existence test raises; a failure nets zero credits and leaves the target alone, except that it is gone when a symlink could not be placed after clearing it |
| R2Download.Receive | fusion_mlx/_mirror.py:528-705 | from the reconciled prefix on, which inputs end in success, in an escaping exception and in a lost output, each as an equivalence; success installs prefix plus body, and every other failure nets zero credits |
| R2Download.DoR2Download | fusion_mlx/_mirror.py:431-705 | for every server, kept prefix, clock, interleaved heartbeats and faults: equivalences for success, escaping exception and lost output; success means genuine content equal to the kept prefix plus the body, credited exactly; what every other outcome leaves credited and what it leaves at the target; every state a kill exposes |
| R2Download.NegotiatesExactly | fusion_mlx/_mirror.py:471-540 | which responses are acted on, for every status, length, range, kept piece and known or unknown size, and what the attempt then expects |
| R2Download.BodyIsJoined | fusion_mlx/_mirror.py:585-601 | the bytes read are the chunks before the first empty one, put together |
| R2Download.SuccessIsGenuine | fusion_mlx/_mirror.py:431-705 | success means the advertised size and digest, a non-empty file when no size is advertised, the announced length kept, and none of the faults an attempt can meet |
| ResumedDownload.AcceptedSuffix | fusion_mlx/_mirror.py:490-526 | a 206 of announced length for a file of known size is acted on if and only if its range is exactly the missing suffix with the expected total |
| ResumedDownload.ResumeAcceptedIff | fusion_mlx/_mirror.py:475-540 | a 206 whose Content-Range spells exactly the missing bytes is acted on if and only if its Content-Length spells their number (or, as a quirk, minus the kept bytes), and then as a resume |
| ResumedDownload.HonestStep | fusion_mlx/_mirror.py:448-563 | one attempt against a truthful server, finished or killed, leaves `.part` an initial piece of the object or absent |
| ResumedDownload.HonestHistory | fusion_mlx/_mirror.py:448-650 | so does every history of kills and retries |
| ResumedDownload.SuccessIsTheObject | fusion_mlx/_mirror.py:448-705 | after any history of kills and retries against truthful servers, an attempt that succeeds for a file of known size installs the object |
| ResumedDownload.InterruptionsHarmIff | fusion_mlx/_mirror.py:448-705 | after any such history, a fault-free attempt whose truthful answer arrives whole succeeds, and installs the object, if and only if the answer is a full 200 or a 206 with exactly the missing bytes, announcing their number when anything was kept |
| ResumedDownload.FinishedPartIsRefused | fusion_mlx/_mirror.py:460-474 | a kill can leave the whole object in `.part`, and from there an attempt at a truthful server acts on nothing but a full 200 and fails on a 416 |
| ResumedDownload.ResumeCanBeWorse | fusion_mlx/_mirror.py:475-526 | with a piece of the object kept, a truthful 206 without a length and one with part of the rest both fail, where a fresh attempt at the full object without a length succeeds |
| ResumedDownload.HonestUnknownSize | fusion_mlx/_mirror.py:502-524 | with the size unknown, the accepted bytes are the object behind every truthful server if and only if the response announced its end |
| ResumedDownload.UnknownSizeTakesTheWhole | fusion_mlx/_mirror.py:471-680 | with the size unknown, a full answer of a truthful server that arrives whole is accepted, and is the object, if and only if its length can be read |
| ResumedDownload.UnknownSizeTakesTheRange | fusion_mlx/_mirror.py:471-680 | with the size unknown, a range that arrives whole is accepted if and only if its headers can be read, it starts where `.part` ends and the resulting piece of the object has the advertised digest, if any |
| BlobInstall.LocalStep | fusion_mlx/_mirror.py:756-793 | every file operation keeps blobs sound and shows other processes only harmless changes |
| BlobInstall.CommitStep | fusion_mlx/_mirror.py:770-774 | the final rename puts bytes of the right digest at the blob name, or fails and cleans up |
| BlobInstall.EveryRunKeepsBlobs | fusion_mlx/_mirror.py:738-795 | in every interleaving of processes with kills and lost locks, unless a blob still to come is being installed from a `.part` shared without its lock, every blob named by a SHA-256 digest has that digest, whatever git-named blobs HuggingFace left there |
| BlobInstall.EveryRunKeepsLinks | fusion_mlx/_mirror.py:738-795 | in every interleaving whatsoever, with kills and any locks lost, every placed symlink points at an existing blob: a regular file, or a directory that was under that name from the start |
| BlobInstall.SoloInstalls | fusion_mlx/_mirror.py:738-793 | an undisturbed install ends with the symlink placed, sidecars gone, the blob holding its earlier content or else the downloaded bytes, and nothing else changed |
| BlobInstall.AttemptLeftAlone | fusion_mlx/_mirror.py:431-795 | a whole attempt that nobody disturbs, full or resumed, with the body in any number of pieces: it ends with its locks free and `.part` gone, having placed the symlink to the earlier blob or to exactly the bytes kept and received if their digest is the advertised one, and having installed nothing otherwise; nothing else changes |
| BlobInstall.EveryRunKeepsLocks | fusion_mlx/_mirror.py:855-910 | in every run, with kills and lost locks, a part lock and a blob lock have at most one holder, who is still at work |
| BlobInstall.KillFreesLocks | fusion_mlx/_mirror.py:855-910 | whoever has not ended can be killed, which leaves the disk as it is, and a process waiting for the lock the victim held can then take it |
| BlobInstall.FailureDropsPart | fusion_mlx/_mirror.py:696-705 | a failure at any point of the work ends with `.part` dropped and no other entry changed |
| BlobInstall.FailedCommitDropsBoth | fusion_mlx/_mirror.py:770-774 | a failed final rename leaves neither the staging file nor `.part` |
| BlobInstall.StubbornTargetStays | fusion_mlx/_mirror.py:776-793 | a target that cannot be cleared is left as it is, and no symlink is placed |
| BlobInstall.BlobsSafeIff | fusion_mlx/_mirror.py:855-891 | from any starting cache, whichever processes may lose their part lock, every run keeps blobs sound if and only if no process with something to spoil shares its `.part` with another while one of the two may lose its lock |
| BlobInstall.CorruptingRun | fusion_mlx/_mirror.py:855-891 | otherwise the run that corrupts: one process verifies, the other rewrites the shared `.part`, the first installs it |
| WarmCache.ShortcutAgreesWithRehash | fusion_mlx/_mirror.py:1376-1410 | when the blob of the advertised digest is sound, accepting by the resolved blob name gives the verdict of rehashing |
| WarmCache.CachedExactly | fusion_mlx/_mirror.py:1322-1422 | when the blob of the advertised digest is sound, a file is reported cached if and only if it is reached inside `blobs/` when by symlink, has the advertised size and then digest, or is non-empty when no size is advertised; a wrong one of known size is removed |
| WarmCache.OnlyDirectoriesMiss | fusion_mlx/_mirror.py:1322-1424 | the check answers a miss if and only if a directory occupies the target, asks for a download when nothing is there, and touches no other entry, for every size, digest and with or without the shortcut |
| WarmCache.CheckOfFile | fusion_mlx/_mirror.py:1360-1422 | a regular file is kept if and only if it is as advertised; otherwise it is fetched again, after being dropped if its size is known |
| WarmCache.CheckOfLink | fusion_mlx/_mirror.py:1322-1422 | a symlink, through any chain of at most 40 others, is dropped unless it leads into `blobs/`, and what it leads to is judged like a regular file except that the shortcut takes a blob name for its digest |
| WarmCache.WarmPullsAreSoundIff | fusion_mlx/_mirror.py:1322-1416 | for hexadecimal digests: in every cache the installers produce shortcut and rehash agree, and likewise a cached file of known size has its advertised digest, if and only if nothing can be spoilt through a `.part` shared without its lock |
| WarmCache.InstalledIsWarm | fusion_mlx/_mirror.py:776-793 | whatever locks were lost, a symlink placed by an installer is accepted by the next pull without rehashing, unless a directory lay under the blob's name from the start |
| WarmCache.DigestCheckedIffSizeKnown | fusion_mlx/_mirror.py:1362-1416 | cached files have the advertised digest in every cache whose blob of that digest is sound exactly when a size is advertised |
| SidecarKey.KeyIsQuotedFlatten | fusion_mlx/_mirror.py:336-357 | the key is the percent-encoding of the path with separators turned into double underscores |
| SidecarKey.SharedSidecar | fusion_mlx/_mirror.py:336-357 | two paths share a key if and only if they flatten to the same string |
| SidecarKey.KeysCollide | fusion_mlx/_mirror.py:344-350 | two different paths with one key |
| SidecarKey.DistinctWithoutUnderscores | fusion_mlx/_mirror.py:336-357 | paths without underscores have distinct keys |
| SidecarKey.QuoteIsUndone | fusion_mlx/_mirror.py:336-357 | percent-decoding undoes the encoding of any path |
| SidecarKey.QuoteKeepsUnreserved | fusion_mlx/_mirror.py:336-357 | a path is its own encoding if and only if all its bytes are letters, digits, hyphens, full stops, underscores or tildes, and an encoding contains nothing else but escapes |
| SidecarKey.KeyIsOneName | fusion_mlx/_mirror.py:336-357 | a key contains no directory separator |
| Pull.DoFile | fusion_mlx/_mirror.py:1256-1465 | which inputs end in each worker outcome, with and without R2, as equivalences; an R2 outcome installed genuine content; credits exceed the reported size by exactly what those inputs leave behind |
| Pull.LeaksIffOvercredits | fusion_mlx/_mirror.py:1424-1444 | credits are left behind if and only if a due heartbeat cannot be printed before any other fault, the existence test raises for a non-empty verified file, or the size of one just installed cannot be read |
| Pull.Collect | fusion_mlx/_mirror.py:1491-1643 | for every order of completion, and every print that may raise: when the pull returns true, false, or raises; the ref is untouched unless every file landed and the loop and the final flush got through, then it is the new revision, or empty after a write that failed midway; exactly the completions up to the one that left the loop are credited; otherwise outcome counts add up to the number of files |
| Pull.HandledUpToTheFirstStop | fusion_mlx/_mirror.py:1494-1570 | the loop handles exactly the completions up to the first whose exception is not on the list or whose heartbeat or status line cannot be printed |
| Pull.KindsPartition | fusion_mlx/_mirror.py:1513-1541 | the four outcome counts sum to the number of files, and no misses means everything landed |
| Pull.CountedOnce | fusion_mlx/_mirror.py:1513-1541 | one more completion moves exactly the count of its own kind, a listed exception counting as a miss, and adds its bytes to the total if it landed |
| Pull.OrderDoesNotMatter | fusion_mlx/_mirror.py:1494-1541 | totals and verdict are the same for every completion order |
| Pull.FinalCount | fusion_mlx/_mirror.py:1513-1579 | for every interleaving, and wherever the loop stopped, the counter at the final flush is what was reported by R2 workers, plus what the loop got to credit, plus the leaks |
| Pull.ExactIff | fusion_mlx/_mirror.py:1513-1579 | the counter is exactly the reported bytes if and only if the leaks equal what the loop missed; there are leaks exactly when some file met a lost output, an escaping exception or an unreadable size, misses exactly when a file the loop had to credit finished after it was left, and with only one kind of fault about, exactness means neither happened |
| Pull.OvercountedPull | fusion_mlx/_mirror.py:1424-1463 | one heartbeat that cannot be printed, everything else going well, makes a complete and pinned pull of one file count every byte twice |
| Pull.UndercountedPull | fusion_mlx/_mirror.py:1503-1579 | after a worker exception that is not on the list, a file that lands later is not counted |
| Pull.FaultsCancel | fusion_mlx/_mirror.py:1424-1579 | both faults together can leave the counter at the reported total |
| SamplerMasks.TopPIsUpwardClosed | fusion_mlx/_seeded_sampler.py:236-274 | whatever is likelier than a token kept by top-p is kept |
| SamplerMasks.TopPMass | fusion_mlx/_seeded_sampler.py:261-274 | top-p keeps a suffix of the ascending sort of mass at least top_p |
| SamplerMasks.TopPIsTheNucleus | fusion_mlx/_seeded_sampler.py:236-274 | the kept mass reaches top_p and drops below it without its least likely token |
| SamplerMasks.TopKIsExact | fusion_mlx/_seeded_sampler.py:276-300 | top-k keeps exactly min(top_k, vocab) tokens, none less likely than a dropped one |
| SamplerMasks.MinPExactly | fusion_mlx/_seeded_sampler.py:302-308 | min-p keeps a token if and only if its probability is at least min_p times that of every token |
| SamplerMasks.KeptExactly | fusion_mlx/_seeded_sampler.py:236-321 | the combined mask keeps a token if and only if it passes every active filter: the tokens above it in the ascending sort weigh less than top_p; its place in the descending sort is below top_k; its probability is at least min_p times that of every token |
| SamplerMasks.RescueIsConditional | fusion_mlx/_seeded_sampler.py:60-104 | a non-empty mask is unchanged, an empty one becomes exactly the argmax |
| SamplerMasks.WhenTheRescueFires | fusion_mlx/_seeded_sampler.py:310-340 | with min_p at most one, the masks leave nothing if and only if top-p and top-k are both active and top-k avoids the tied maxima top-p kept; the ties then number at least the effective top-k plus those |
| SamplerMasks.UniqueMaximumNeedsNoRescue | fusion_mlx/_seeded_sampler.py:323-340 | with a unique maximum the rescue changes nothing |
| SamplerMasks.SampledTokensAreLegitimate | fusion_mlx/_seeded_sampler.py:236-344 | a token can be sampled if and only if it passes every active filter, each by its own condition on the probabilities, or no token does and it is the argmax |
| SamplerMasks.MinPAboveOneIsGreedy | fusion_mlx/_seeded_sampler.py:302-340 | with min_p above one only the argmax is left |
| SamplerKeys.SeededSampler.Sample | fusion_mlx/_seeded_sampler.py:346-355 | each call draws the next token of the stream its start key yields and advances the key |
| SamplerKeys.AloneAt | fusion_mlx/_seeded_sampler.py:346-355 | the i-th token uses the i-th subkey of the split chain |
| SamplerKeys.StreamsAreIndependent | fusion_mlx/_seeded_sampler.py:136-140 | in every interleaving of calls to any number of samplers, finished calls drew what the sampler yields alone on its own rows, and no two calls share a subkey position |
| SamplerKeys.SeedsFold | fusion_mlx/_seeded_sampler.py:195-196 | seeds that agree modulo 2^32 give the same stream |
| SamplerKeys.FoldsTo32Bits | fusion_mlx/_seeded_sampler.py:195-196 | seeds below 2^32 are their own key argument, and a seed stands for the one below 2^32 it is congruent to |
| SamplerKeys.OneCall | fusion_mlx/_seeded_sampler.py:346-355 | a call that takes the lock and draws gets the next token of its sampler and advances the key of no other |
| GuardShutdown.JobsInFlight | fusion_mlx/_parent_watchdog.py:108-119 | busy if and only if some probe says so or raises |
| GuardShutdown.Flags.RunGuardDeferral | fusion_mlx/_parent_watchdog.py:122-144 | ends at the first poll that finds nothing in flight or the window over, within ceil(window / interval) + 1 polls when the window is finite; then clears the deferring flag, and raises the force flag before re-delivering the signal |
| GuardShutdown.PollingEndsIff | fusion_mlx/_parent_watchdog.py:122-139 | a deferral ends if and only if its window is finite or some poll finds nothing in flight |
| GuardShutdown.DeferringMeansOther | fusion_mlx/_parent_watchdog.py:445-449 | a handler that finds the deferring flag up meets a deferral still under way, begun by another SIGTERM |
| GuardShutdown.GuardHolds | fusion_mlx/_parent_watchdog.py:434-468 | in guard mode, in every interleaving, shutdown goes back to a moment of the run at which SIGINT arrived, or a SIGTERM asked the probes and nothing was in flight, or read the deferring flag while another SIGTERM's deferral was active, or read the force flag after a deferral had drained or expired |
| GuardShutdown.DecisionHasMoment | fusion_mlx/_parent_watchdog.py:434-468 | every decision to shut down, guarded or not, was taken at a moment of the run at which its reason held |
| GuardShutdown.EndHasMoment | fusion_mlx/_parent_watchdog.py:122-139 | a deferral thread that left its loop saw, at a moment of the run, nothing in flight or its window over |
| GuardShutdown.PollStopsIff | fusion_mlx/_parent_watchdog.py:122-139 | a polling step of the protocol leaves the loop if and only if nothing is in flight or the window is over, and says which; otherwise nothing changes |
| GuardShutdown.UndisturbedDeferral | fusion_mlx/_parent_watchdog.py:122-144 | a deferral thread left alone whose poll drains or expires ends with the deferring flag down, the force flag up and one more SIGTERM arrived; any other keeps polling and changes nothing |
| GuardShutdown.ForcedSignalsShutDown | fusion_mlx/_parent_watchdog.py:438-468 | a signal arriving after the force flag was raised never asks the probes and, once handled, shutdown is set; the flag stays up |
| GuardShutdown.DeferralDeliversForced | fusion_mlx/_parent_watchdog.py:140-144 | the signal a finished deferral sent arrived with the force flag up |
| GuardShutdown.UndisturbedHandler | fusion_mlx/_parent_watchdog.py:434-483 | an undisturbed SIGTERM is put off, starting a deferral, if and only if not forced, not shutting down, guarded, busy and not already deferring; otherwise shutdown is set |
| GuardShutdown.UndisturbedSignal | fusion_mlx/_parent_watchdog.py:434-483 | from the arrival of a signal on: an undisturbed SIGINT sets shutdown, an undisturbed SIGTERM does unless it is put off on the condition above |
| ExecutorWatchdog.Watchdog.BeginJob | fusion_mlx/executor_watchdog.py:87-98 | the new job's id is larger than that of any job that ever fired, and the slot starts afresh |
| ExecutorWatchdog.Watchdog.CheckFirst | fusion_mlx/executor_watchdog.py:119-169 | a ticket is issued if and only if the job is in flight, appears nowhere among the firings, is stale, and is not within the budget of an active defer episode; nothing but the defer episode changes |
| ExecutorWatchdog.Watchdog.CheckSecond | fusion_mlx/executor_watchdog.py:170-177 | a ticket fires if and only if its job is still the one in flight and appears nowhere among the earlier firings |
| ExecutorWatchdog.FiresOncePerJob | fusion_mlx/executor_watchdog.py:155-194 | under any interleaving fired ids strictly increase, their number is fire_count and at most job_count, and each was stale beyond the window when judged |
| ExecutorWatchdog.FiredJobWasInFlight | fusion_mlx/executor_watchdog.py:119-177 | in every run each firing goes back to two events of one checker, a first phase that found the job in flight, stale and unfired and a later second phase that found the same job in flight and unfired |
| ExecutorWatchdog.FiredOnlyAfterSilence | fusion_mlx/executor_watchdog.py:87-169 | in every run, the first phase behind a firing came more than the window after every heartbeat and every beginning of a job before it |
| ExecutorWatchdog.SignsOfLifeSave | fusion_mlx/executor_watchdog.py:87-127 | a check within the window of a heartbeat or of the beginning of the job issues no ticket and changes nothing |
| ExecutorWatchdog.BudgetIsGranted | fusion_mlx/executor_watchdog.py:87-160 | a ticket issued while the defer predicate says active comes at least a budget after a check during the same job at which it said so |
| ExecutorWatchdog.NothingFiresAfterEnd | fusion_mlx/executor_watchdog.py:104-177 | after a job ended nothing fires, whatever heartbeats and checks come, until another is begun |
| ExecutorWatchdog.PoisonedWithinBudget | fusion_mlx/executor_watchdog.py:119-177 | for a silent job, any check a defer budget after the first stale one leaves it fired or about to be, however answers flip and checks interleave |
| ExecutorWatchdog.DoomedIsFired | fusion_mlx/executor_watchdog.py:119-177 | once no checker holds a ticket for such a job any more, it has been fired |
| ExecutorWatchdog.FiredWithinBound | fusion_mlx/executor_watchdog.py:119-177 | in every interleaving of checkers whose first phases are at most d apart, a silent job has been fired from window + budget + 2d after its last sign of life on, as soon as no checker is between its phases with a ticket for it |
| ExecutorWatchdog.DetectionBound | fusion_mlx/executor_watchdog.py:155-177 | the tick thread alone, with ticks at most d apart, fires a silent job within window + budget + 2d of its last sign of life |
| ExecutorWatchdog.BegunJobIsDetected | fusion_mlx/executor_watchdog.py:87-177 | whatever the slot held before, a job that is begun and never heard from again is fired within window + budget + 2d of its beginning |
| ExecutorWatchdog.OverlapHidesTheOther | fusion_mlx/executor_watchdog.py:104-108 | after one of two overlapping jobs ends, no check fires for the other |
| EditDistance.Distance | fusion_mlx/exceptions.py:387-400 | the two-row table computes the recursive Levenshtein distance |
| EditDistance.Symmetric | fusion_mlx/exceptions.py:387-400 | the distance is symmetric |
| EditDistance.ZeroOnlyOnEqual | fusion_mlx/exceptions.py:387-400 | zero exactly on equal strings |
| EditDistance.TriangleInequality | fusion_mlx/exceptions.py:387-400 | the triangle inequality |
| EditDistance.LeastEdits | fusion_mlx/exceptions.py:387-400 | the distance is the least length of a script of insertions, deletions and substitutions |
| EditDistance.FuzzyMatch | fusion_mlx/exceptions.py:370-384 | returns the earliest candidate of least distance within the bound among those that differ after case folding, and none exactly when the query is empty or no such candidate exists |
| TempfileOwnership.ReapAll | fusion_mlx/_tempfile_safe.py:17-27 | the exit hook empties the pending set and deletes exactly the files that were in it, those that resist excepted |
| TempfileOwnership.TempfileHandle.Release | fusion_mlx/_tempfile_safe.py:56-62 | the first release removes the path from the pending set, later ones change nothing |
| TempfileOwnership.TempfileHandle.CloseBlock | fusion_mlx/_tempfile_safe.py:115-120 | the file is still to be deleted exactly when it was not released |
| TempfileOwnership.NothingLeaksBeforeSnapshot | fusion_mlx/_tempfile_safe.py:82-132 | in every run with fresh names before the exit hook's snapshot, a registered existing file is pending if and only if it was not handed to the caller |
| TempfileOwnership.SnapshotCoversTheRest | fusion_mlx/_tempfile_safe.py:17-20 | the hook's snapshot holds exactly the registered existing files that were not handed over |
| TempfileOwnership.HandedFileStays | fusion_mlx/_tempfile_safe.py:56-62 | a file released inside the block before the snapshot is never deleted by an exit path or the hook |
| TempfileOwnership.LeavingTheBlockDeletes | fusion_mlx/_tempfile_safe.py:115-132 | leaving the block deletes and forgets an unreleased file and leaves a released one alone |
| TempfileOwnership.ReleasingHandsOver | fusion_mlx/_tempfile_safe.py:56-62 | a release inside the block takes the path out of the pending set and nothing else, a second one does nothing, and closing the block keeps the file |
| TempfileOwnership.FailedSetup | fusion_mlx/_tempfile_safe.py:82-110 | a setup that fails after the file was made deletes and forgets it, or leaves it pending when it cannot be deleted |
| TempfileOwnership.HookReapsAll | fusion_mlx/_tempfile_safe.py:17-27 | the exit hook takes all that is pending, leaving nothing, and then deletes exactly those paths |
| TempfileOwnership.StubbornFileStaysPending | fusion_mlx/_tempfile_safe.py:120-132 | a file that resists deletion on leaving the block stays pending |
| TempfileOwnership.GoneFileIsForgotten | fusion_mlx/_tempfile_safe.py:115-132 | a file the body deleted itself is forgotten on leaving the block |
| TempfileOwnership.ReleaseAfterTheBlock | fusion_mlx/_tempfile_safe.py:56-62 | in every run, a release after the block was left changes nothing |
| TempfileOwnership.LateReleaseIsReaped | fusion_mlx/_tempfile_safe.py:17-27 | a file released after the snapshot is deleted all the same |
| DeepMerge.MergeLoop | fusion_mlx/config.py:497-504 | the loop over the override's items builds the merge, in any key order |
| DeepMerge.MergeAt | fusion_mlx/config.py:497-504 | what the merge holds at every path: the override's cell, nothing below the override's leaves, otherwise the base's cell |
| DeepMerge.SameAtEveryPath | fusion_mlx/config.py:497-504 | trees that hold the same at every path are equal |
| DeepMerge.EmptyIsIdentity | fusion_mlx/config.py:497-504 | the empty map is an identity on both sides |
| DeepMerge.Idempotent | fusion_mlx/config.py:497-504 | merging the same override twice changes nothing |
| DeepMerge.AssociativeIff | fusion_mlx/config.py:497-504 | merging three maps is associative if and only if no path of the first is hidden by a leaf of the second that an object of the third replaces without covering the path |
| DeepMerge.AssociativeWithoutClash | fusion_mlx/config.py:497-504 | associative when no path is an object in the first and third and a leaf in the second |
| DeepMerge.NotAssociative | fusion_mlx/config.py:497-504 | associativity fails in general |
| DocScanners.StripInline | ci/validate_docs.py:315-322 | the segment loop keeps exactly the characters outside backtick pairs and tracks the parity across lines |
| DocScanners.RedlineProse | ci/validate_docs.py:292-322 | the redline scanner's prose of every line, by the character-level rule |
| DocScanners.LinkText | ci/validate_docs.py:353-372 | the link scanner's output, line by line |
| DocScanners.ScannersAgree | ci/validate_docs.py:292-372 | on every non-blank line outside fences both scanners see the same text, the prose characters of the rule |
| DocScanners.ProseKeepsExactly | ci/validate_docs.py:317-322 | the prose of a line is its characters at the positions the rule keeps, in order |
| DocScanners.FencesAlternate | ci/validate_docs.py:292-298 | a line is inside a fence if and only if an odd number of fence lines come before it |
| DocScanners.FenceIsThreeTicks | ci/validate_docs.py:356-358 | a fence line is one that starts with three backticks after white space |
| DocScanners.StripIs | ci/validate_docs.py:292-322 | stripping removes only white space, from both ends, and all of it |

## Remarks

Small facts read off one definition, kept because the section above refers to them; they are not results.

- `WarmCache.UnknownSizeIgnoresDigest`: without an advertised size the advertised digest has no influence.
- `ExecutorWatchdog.LateHeartbeatStillFires`: a heartbeat between the phases does not save the job.
- `ExecutorWatchdog.HeartbeatKeepsOldBudget`: a heartbeat does not renew the defer budget.
- `TempfileOwnership.ReusedNameLeaks`: why `NothingLeaksBeforeSnapshot` asks for fresh names.

## Left out

- HTTP, HuggingFace calls, `fcntl`, real file I/O, ANSI and display names: replaced by arbitrary replies, a file map, lock steps and failure flags.
- Catalog fetch and mirror selection in fusion_mlx/_mirror.py: short case splits.
- Files fetched by HuggingFace: their size and content are taken as reported; other programs writing to the cache directory are not modelled.
- BlobInstall.EveryRunKeepsBlobs: covers files with an advertised digest; files without one are renamed straight to the snapshot path and are followed only in `R2Download`.
- Pull.ExactIff: "bytes" are those the workers report; a file whose size cannot be read back is reported as empty.
- R2Download.DoR2Download: concurrent workers enter as the times of the heartbeats they print between two credits; the bytes installed when another process already placed the blob are not distinguished from the verified ones; `BlobInstall` follows that case.
- WarmCache.WarmPullsAreSoundIff: digests longer or shorter than 64 characters, which the pull treats as unknown, are outside it.
- WarmCache.CachedExactly: directories inside `blobs/`, read errors while rehashing and symlink loops reported as anything but "cannot be resolved" are not modelled.
- SamplerMasks.TopPIsTheNucleus: floating-point rounding, batch axes and dtype promotion are not modelled; a row is one vector of exact probabilities adding up to one.
- SamplerKeys.StreamsAreIndependent: that the backend's split never repeats a key is a property of the backend; the lemma gives distinct positions in the chain. The greedy sampler for temperature zero and the error for a negative one are not modelled.
- GuardShutdown.Flags.RunGuardDeferral: stated for the inputs on which it returns, which `GuardShutdown.PollingEndsIff` characterises.
- Signal delivery details, PID, status and exit files, and the video abort hook in fusion_mlx/_parent_watchdog.py.
- Labels, logging, snapshots and the tick thread's registry in fusion_mlx/executor_watchdog.py; `on_hang` is the firing itself.
- The sharing of nested values between a merged map and its inputs.
- The placeholder, link, address and word patterns searched in the scanned text, and splitting a document into lines.
- fusion_mlx/admission.py, fd_watchdog.py, compatibility.py, _http_limits.py, config_schema.py: single comparisons and clamps.
- Command line, benchmarks, web and packaging code; the scheduler, paged cache, cluster router and engine pool.
