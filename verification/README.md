# Verification of the plugin repository's protocols and stream algorithms

This project models the parts of the repository whose behaviour spans many steps:
a server start-up protocol between processes, a splitter over an endless sample
stream, an incremental frame decoder, the Plan Inbox and its event log, a nonce
cache, two oracle logs, a managed text block, an audio resampler, and the checks
around context compaction. Each module is one component; code that updates fields
is a class whose methods are tied to a function of the old state, and the main
results are lemmas about those functions over every input or every run.

`dafny verify dfyconfig.toml` checks everything.

| module | component |
|---|---|
| `ServerLifecycle` | reuse-or-host protocol as a state machine over atomic steps |
| `Vad` | voice activity detector with a ghost account of every sample |
| `FrameDecoder` | Content-Length decoder and encoder (Language Server Protocol, Base Protocol, "Header Part") |
| `EngPlan`, `Inbox`, `EventStore` | event lifecycle, halting, reconcile pass, event log |
| `NonceCache`, `Canonical` | replay check and the text a request signature covers |
| `CommitReveal`, `Lineage` | commit/freeze/reveal log and dispatch ledger |
| `Gitignore`, `LegacyMarkdown`, `Audio` | managed block merge, sectioning, resampling |
| `Compaction`, `LoopGuards` | summary and continuity check, pressure hysteresis, watchdog |
| `Common`, `Text`, `Sorting` | shared datatypes, text functions, the stable sort the components call |

## What the proofs found

- **Server start-up.** "At most one server" holds on all runs exactly when none of four
  things can happen: a waiter's unlink hits the lock of a call still at work (lines
  184-185), hosting is torn down (a server stops answering, or a process that hosts or
  hosted once unlinks whatever record stands, lines 139 and 235), a probe misses a live
  server (its record cannot be read, or its health answer is late or bad), or writing the
  record throws after the server listens (line 219; nothing closes that server). For each
  of the four there is a concrete run with two live servers; for the second there are
  two, one through the fall-through at lines 208-212 and one without it. Without the four
  no call is ever stuck: each can still be brought to its end.
- **Reconcile with the default evaluator.** `engplan.js` has no blocked-to-blocked
  move, so a second default pass throws exactly when the first one met an active block.
  Its comment speaks of deferring the rest; the code incorporates it, and so does the model.
- **Gitignore merge.** It is idempotent exactly when the file has neither marker or its
  first end marker follows its first begin marker. A stray end marker makes the file
  grow at every write. The comment above the code promises to preserve the user's text;
  over any number of writes it does so exactly when no begin marker stands alone with
  text behind it other than a start of the block. Otherwise the second write drops that
  text.
- **Bundle hash.** Entries are joined by line breaks and a path may hold one, so every
  bundle of two files or more hashes like one with a file fewer, whatever the digest.
  Between bundles with one-line paths the hash binds; against all bundles it binds one
  with one-line paths exactly when it has at most one file.
- **Nonce window.** Accepting no nonce and timestamp twice needs a window of the skew,
  plus the lead of a passing request's date over the clock (at most another skew), plus
  what readings lose in the order of the checks. The clock is read before the mutex is
  taken (lines 237 and 268), so requests handled side by side lose up to their longest
  wait between the two, even on a clock that never goes back; twice the skew is enough
  when readings reach the cache in order. The pruned cache agrees with the full history
  on all runs exactly when the times that reach it may not step back at all.
- **Siblings.** A ledger read back from its file is not checked, and a recorded parent
  may be unknown. An accepted sibling pair stays one whatever is dispatched later
  exactly when both climbs end at recorded ids; built by dispatches they always do.
- **Legacy Markdown.** The table of used ids is a plain object, so the inherited member
  `constructor` counts as taken from the start. Ids are still pairwise distinct.
- **Post-compact hook.** The continuity check wants some next action, not the token's.
  A successful result says `dispatched` even when no dispatch sink was given.

## Model

| member | source | states |
|---|---|---|
| `ServerLifecycle.CallsConverge` | engineering-plugin/lib/server_lifecycle.js:166-226 | without the four hazards below, any interleaving of any number of calls (with crashes, failing locks, factories and unlinks, and orphaned locks broken) has at most one live server, and every completed call returned the recorded one; once no call is inside, the lock is free or was left behind, and once all have returned it is free unless an unlink failed |
| `ServerLifecycle.OneServerIffNoHazard` | engineering-plugin/lib/server_lifecycle.js:166-226 | at most one live server on all runs if and only if no lock of a working call is broken, no hosting is torn down, no probe misses a live server, and no record write fails |
| `ServerLifecycle.CallCanFinish` | engineering-plugin/lib/server_lifecycle.js:166-226 | in every world reached without hazards each call that did not crash can be brought to its end by permitted steps |
| `ServerLifecycle.InsideFinishes` | engineering-plugin/lib/server_lifecycle.js:213-225 | a call inside finishes by its own steps, touches no other call and frees the lock: it returns the live server it finds and leaves record and servers alone, or starts one server, publishes and returns it |
| `ServerLifecycle.SecondLookReuses` | engineering-plugin/lib/server_lifecycle.js:212-214 | a call that takes the free lock and finds a live record returns it as reused and changes nothing else |
| `ServerLifecycle.CallsEndRight` | engineering-plugin/lib/server_lifecycle.js:197-226 | on every run without hazards: a call throws only when creating its lock or its server failed; at most one call ever returns a server as hosted, having started it itself; every other call that did not throw returns that server as reused |
| `ServerLifecycle.ThrowsOnlyOnFailure` | engineering-plugin/lib/server_lifecycle.js:166-226 | on every run, hazards or not, a call throws only when creating its lock or server, or writing its record, failed |
| `ServerLifecycle.HostedMeansStarted` | engineering-plugin/lib/server_lifecycle.js:217-222 | on every run a call that returns a server as hosted took the step that started it |
| `ServerLifecycle.RunHostsApart` | engineering-plugin/lib/server_lifecycle.js:217-222 | on every run no server is hosted by two calls |
| `ServerLifecycle.NextInv` | engineering-plugin/lib/server_lifecycle.js:197-226 | each protocol step keeps lock ownership, publication and what every waiting call has read in agreement |
| `ServerLifecycle.RunInv` | engineering-plugin/lib/server_lifecycle.js:166-226 | so does every run without hazards |
| `ServerLifecycle.LiveBreakHostsTwo` | engineering-plugin/lib/server_lifecycle.js:181-185 | a run that breaks a working owner's lock reaches two live servers |
| `ServerLifecycle.ExitHostsTwo` | engineering-plugin/lib/server_lifecycle.js:207-212 | a host that ends between a waiter's two probes sends it on to host without the lock, beside the next owner |
| `ServerLifecycle.CleanupHostsTwo` | engineering-plugin/lib/server_lifecycle.js:133-147 | a host ends, another call hosts and publishes, then the first process's exit handler unlinks that record and a third call hosts beside it, without any fall-through |
| `ServerLifecycle.MissHostsTwo` | engineering-plugin/lib/server_lifecycle.js:102-107 | a live server that two probes miss is hosted over |
| `ServerLifecycle.WriteFailureHostsTwo` | engineering-plugin/lib/server_lifecycle.js:215-225 | a record write that throws after the server listens leaves it unseen, and the next call hosts another |
| `ServerLifecycle.LoneCallHosts` | engineering-plugin/lib/server_lifecycle.js:197-226 | undisturbed, a call that finds nothing live hosts one new server, publishes it and frees the lock |
| `ServerLifecycle.LiveRecordReused` | engineering-plugin/lib/server_lifecycle.js:201-203 | a call that finds a live record returns it and changes nothing, even while the lock is held |
| `ServerLifecycle.WaiterReuses` | engineering-plugin/lib/server_lifecycle.js:176-179 | a call waiting for the lock returns a record published meanwhile |
| `Vad.VoiceActivityDetector.constructor` | local-voice-plugin/src/vad.rs:41-51 | a detector starts idle with empty buffers |
| `Vad.VoiceActivityDetector.PushPreroll` | local-voice-plugin/src/vad.rs:104-112 | the pre-roll becomes the last samples of itself and the chunk, up to its cap |
| `Vad.VoiceActivityDetector.TakeValidUtterance` | local-voice-plugin/src/vad.rs:114-133 | everything is reset; the utterance, cut to the cap, is handed out exactly when it held enough speech |
| `Vad.VoiceActivityDetector.ProcessChunk` | local-voice-plugin/src/vad.rs:53-89 | one call moves the whole state and hands out what the step function says |
| `Vad.VoiceActivityDetector.FinishStream` | local-voice-plugin/src/vad.rs:91-97 | ending the stream ends a running segment and nothing else |
| `Vad.InSamples` | local-voice-plugin/src/vad.rs:149-151 | a limit in samples is the configured time at the configured rate, the product saturating at 64 bits, rounded down to whole samples |
| `Vad.RunAccounts` | local-voice-plugin/src/vad.rs:53-134 | every run keeps a gapless account of the input, and between calls no limit is met |
| `Vad.EverySampleOnce` | local-voice-plugin/src/vad.rs:53-134 | every sample heard is in exactly one of emitted, too short, cut off, evicted, or still held at its place |
| `Vad.RunTold` | local-voice-plugin/src/vad.rs:53-134 | everything a run tracks beside the detector is what the input chunks and the speech test alone say: where the last segment ended, the first speech chunk since then, the speech heard since then, the samples after the last speech chunk |
| `Vad.UtterancesAreSlices` | local-voice-plugin/src/vad.rs:53-134 | utterances are contiguous slices of the input, in order and apart; each lasts at most the configured longest utterance, starts the configured pre-roll, or all that was heard since the previous segment, before the first chunk since then that passes the speech test, and its speech chunks fill the configured least speech |
| `Vad.SegmentFits` | local-voice-plugin/src/vad.rs:99-134 | a segment ends only at the configured longest utterance, at the configured silence or with the stream, is cut exactly at the former, and is handed out exactly when its speech fills the configured least speech |
| `Vad.StateBounds` | local-voice-plugin/src/vad.rs:53-112 | in milliseconds of the configuration: while speaking, no pre-roll, below the longest utterance, and less after the last speech chunk than the silence limit; while quiet, no speech since the previous segment, and exactly the last samples since then up to the pre-roll |
| `Vad.SpeechCounts` | local-voice-plugin/src/vad.rs:66-71 | the saturating speech counter decides the minimum as the true count would |
| `FrameDecoder.StdioDecoder.OnData` | engineering-plugin/extensions/plans_server.js:507-523 | the handler's loop yields the bodies and the leftover of decoding the old buffer with the chunk appended |
| `FrameDecoder.DecodeSplit` | engineering-plugin/extensions/plans_server.js:509-519 | decoding two parts with the leftover carried over is decoding at once |
| `FrameDecoder.ChunkingIrrelevant` | engineering-plugin/extensions/plans_server.js:507-523 | for every stream and every way of cutting it, bodies and leftover are those of the stream in one piece |
| `FrameDecoder.RestIsSettled` | engineering-plugin/extensions/plans_server.js:510-517 | the leftover holds no further whole frame |
| `FrameDecoder.FramingStable` | engineering-plugin/extensions/plans_server.js:511-518 | more bytes never change what a whole frame at the front is |
| `FrameDecoder.HeaderVariants` | engineering-plugin/extensions/plans_server.js:513-516 | the header name counts in any letter case with any white space before the number |
| `FrameDecoder.MatchIff` | engineering-plugin/extensions/plans_server.js:513-514 | where the pattern matches, read off the ASCII-decoded header: the name in any letter case, white space, and a digit |
| `FrameDecoder.LeftmostMatchCounts` | engineering-plugin/extensions/plans_server.js:514-516 | the leftmost match names the length; without a match there is none |
| `FrameDecoder.BadHeaderSkipped` | engineering-plugin/extensions/plans_server.js:515 | a header without a length is dropped with its separator and decoding goes on behind it |
| `FrameDecoder.FrameSeparator` | engineering-plugin/extensions/plans_server.js:525-531 | in a written frame the first separator ends the header, whatever the body holds |
| `FrameDecoder.ReplyEncodes` | engineering-plugin/extensions/plans_server.js:525-531 | a written frame is seen whole with exactly its body, whatever follows |
| `FrameDecoder.RepliesRoundTrip` | engineering-plugin/extensions/plans_server.js:507-531 | frames written one after another and cut into any chunks decode to exactly the payloads, nothing left over |
| `EngPlan.ReachesIff` | engineering-plugin/assets/engplan.js:162-189 | the lifecycle in closed form: one status reaches another iff they are equal, or the first is not terminal and the second is not open |
| `EngPlan.DirectIff` | engineering-plugin/assets/engplan.js:162-187 | a transition succeeds iff it changes the status, leaves no terminal one, never goes back to open and resolves nothing still open; then only the status changes |
| `EngPlan.ParseIff` | engineering-plugin/assets/engplan.js:124-154 | an object is admitted as an event iff plan and section are named, type and actor known, and each other field is the event's or may be left out for its default |
| `Inbox.BlockedSections` | engineering-plugin/lib/inbox.js:39-45 | the loop collects exactly the sections of active blocks |
| `Inbox.HaltedTasks` | engineering-plugin/lib/inbox.js:48-68 | the fixed-point loop terminates and returns exactly the plan sections that are blocked or reach a block by a chain of dependencies |
| `Inbox.CanStart` | engineering-plugin/lib/inbox.js:71-73 | a task may start iff it is no plan section that reaches an active block |
| `Inbox.HaltedIsLeast` | engineering-plugin/lib/inbox.js:48-68 | that set is the least one closed under blocking and dependency, cycles and dangling ids included |
| `Inbox.HaltedMonotone` | engineering-plugin/lib/inbox.js:48-68 | more active blocks never free a section |
| `Inbox.HaltedOrderFree` | engineering-plugin/lib/inbox.js:48-68 | order and repetition of sections do not matter |
| `Inbox.ReconcileSpec` | engineering-plugin/lib/inbox.js:83-114 | for every evaluator the pass fails iff an already blocked event is told to block; otherwise the result is by time of creation, equal times as they stood, resolved events are untouched, and every other one has the status, own status, response, sections and time its verdict gives (anything but the four decisions defers), reached along the lifecycle |
| `Inbox.ResolveSpec` | engineering-plugin/lib/inbox.js:92-110 | one event: failure, and the recorded answer from the verdict alone |
| `Inbox.CreationOrder` | engineering-plugin/lib/inbox.js:88-91 | the pass works on the same events ordered by creation time, those of one time as they stood |
| `Inbox.ReconcileFrees` | engineering-plugin/lib/inbox.js:83-114 | the halted set after a pass is within the one before |
| `Inbox.DefaultPassOnce` | engineering-plugin/lib/inbox.js:118-132 | a default pass fails iff some block is in status blocked; after one that passed, a second fails iff the first met an active block |
| `Inbox.DefaultOutcome` | engineering-plugin/lib/inbox.js:83-132 | a default pass that succeeds blocks every unresolved block and incorporates every other unresolved event, naming its section as changed |
| `Inbox.DefaultLeavesBlocks` | engineering-plugin/lib/inbox.js:118-132 | a default pass leaves every active block in status blocked |
| `Sorting.SortOrders` | engineering-plugin/lib/inbox.js:88-91 | the sort orders |
| `Text.LexIff` | engineering-plugin/lib/inbox.js:88-91 | the order of text: a start of the other comes first, and otherwise the first character that differs decides |
| `Text.TrimSpec` | engineering-plugin/lib/cac/summary.js:129 | trimming leaves what stands between the white space at both ends |
| `Sorting.SortKeepsPeers` | engineering-plugin/lib/inbox.js:88-91 | and is stable: equals keep their order |
| `Sorting.StableSortUnique` | engineering-plugin/lib/inbox.js:88-91 | order and stability leave one possible result |
| `Sorting.OrderedUnique` | guest-agent/src/hmac.rs:41-46 | when different elements never compare equal, the contents alone decide the result |
| `EventStore.EventLog.AppendEvent` | engineering-plugin/lib/store.js:140-187 | appends the admitted event or changes nothing, with each refusal in the code's order |
| `EventStore.EventLog.RespondToEvent` | engineering-plugin/lib/store.js:202-224 | replaces the first event of that id by its answered form or changes nothing |
| `EventStore.EventLog.ReconcileAndWrite` | engineering-plugin/extensions/plans_server.js:380-392 | writes back the result of a pass that succeeds |
| `EventStore.AppendSpec` | engineering-plugin/lib/store.js:140-187 | an append adds one event at the end, with missing id and time filled in, iff the object stands for an event of this plan, its text is within the limit and the log below its cap; else nothing changes |
| `EventStore.RespondSpec` | engineering-plugin/lib/store.js:202-224 | an answer succeeds iff an event of that id exists and is unresolved and the status asked for is neither its own nor open; then the first such event has that status and the given answer, and every other is the same; else nothing changes |
| `EventStore.PassSpec` | engineering-plugin/extensions/plans_server.js:380-392 | a pass that succeeds replaces the log, one that fails leaves it |
| `EventStore.RespondKeeps` | engineering-plugin/lib/store.js:202-224 | an answer moves one event along the lifecycle and touches no other |
| `EventStore.ReconcileKeeps` | engineering-plugin/lib/inbox.js:83-114 | a pass loses no event, alters none in what it says, and moves each along the lifecycle |
| `EventStore.ApplyKeeps` | engineering-plugin/lib/store.js:140-224 | every operation keeps every event and the cap |
| `EventStore.HistoryIsKept` | engineering-plugin/lib/store.js:140-224 | over every run from an empty log: whatever stood in the log at any point is still there, unaltered, moved only along the lifecycle, never touched once resolved; the cap holds |
| `NonceCache.Cache.CheckAndRecord` | guest-agent/src/hmac.rs:113-123 | accepts iff the nonce was not recorded within the window; afterwards holds exactly the entries inside the window, and an accepted nonce with the time now |
| `NonceCache.CacheMatchesHistory` | guest-agent/src/hmac.rs:97-123 | when times reach the cache in order, the pruned cache answers as the full history of acceptances would: refused iff accepted at most `window` seconds ago |
| `NonceCache.BackwardClockForgets` | guest-agent/src/hmac.rs:113-123 | for every window, a run whose times step back by one second on which cache and history differ |
| `NonceCache.CacheFaithfulIff` | guest-agent/src/hmac.rs:97-123 | for every window, cache and history agree on all runs whose times step back at most `back` seconds iff `back` is zero |
| `NonceCache.Verifier.Verify` | guest-agent/src/hmac.rs:233-274 | accepts iff the date is within the skew either way, the other checks pass and the nonce was not recorded within the window; a request refused before the cache leaves it alone |
| `NonceCache.VerifierRemembers` | guest-agent/src/hmac.rs:233-274 | however the clock moves and whatever is refused, every acceptance the window has not passed is in the cache with its own time |
| `NonceCache.NoReplayIff` | guest-agent/src/hmac.rs:233-274 | when passing requests are dated at most `ahead` seconds after the clock and their readings lose at most `back` seconds in the order of the checks, no nonce and timestamp is accepted twice in any run iff the window is at least skew + min(ahead, skew) + back; refused requests are unrestricted |
| `NonceCache.TwiceTheSkewIff` | guest-agent/src/hmac.rs:233-274 | when readings reach the cache in order, no nonce and timestamp is accepted twice in any run iff the window is at least twice the skew |
| `NonceCache.LockOrderIff` | guest-agent/src/hmac.rs:233-274 | requests handled side by side on a clock that never goes back, each taking the mutex at most `late` seconds after it read the clock: no nonce and timestamp is accepted twice in any run iff the window is at least skew + min(ahead, skew) + late |
| `NonceCache.WaitingLoses` | guest-agent/src/hmac.rs:237-268 | in the order of taking the mutex, readings lose at most the longest wait |
| `NonceCache.WindowSuffices` | guest-agent/src/hmac.rs:233-274 | the one half, for every run in milliseconds against a window in seconds |
| `NonceCache.WindowNecessary` | guest-agent/src/hmac.rs:233-274 | the other half, by one request met early and late and one between them that prunes the cache |
| `Canonical.SameQueryIff` | guest-agent/src/hmac.rs:37-48 | two queries have one canonical form iff they have the same multiset of non-empty segments |
| `Canonical.CanonicalIdempotent` | guest-agent/src/hmac.rs:37-48 | canonicalising twice is canonicalising once |
| `Canonical.CanonicalSorted` | guest-agent/src/hmac.rs:41-46 | the canonical form's segments stand by what is before their first equals sign, ties by the whole segment |
| `Canonical.KeyIff` | guest-agent/src/hmac.rs:43-45 | a segment's key is what stands before its first equals sign, or all of it |
| `Canonical.CanonicalKeeps` | guest-agent/src/hmac.rs:41-47 | of pieces joined by ampersands the canonical form keeps each non-empty one as often as it stands |
| `Canonical.CanonicalStringDetermines` | guest-agent/src/hmac.rs:65-78 | for newline-free fields the nine-line text determines every field, the method up to case and the query up to its canonical form |
| `Canonical.SignedLines` | guest-agent/src/hmac.rs:65-78 | for newline-free fields the signed text is nine lines in this order: method in capitals, path, canonical query, timestamp, nonce, account, machine, session, body hash |
| `CommitReveal.Protocol.CommitBundle` | engineering-plugin/tools/oracle/commit_reveal.js:64-73 | records the bundle's hash unless the round is frozen |
| `CommitReveal.Protocol.FreezeBuild` | engineering-plugin/tools/oracle/commit_reveal.js:76-83 | records a freeze only after a commit |
| `CommitReveal.Protocol.RevealBundle` | engineering-plugin/tools/oracle/commit_reveal.js:86-98 | only after commit and freeze; a mismatch is recorded and then refused |
| `CommitReveal.CommitSpec` | engineering-plugin/tools/oracle/commit_reveal.js:64-73 | a commit is recorded, with the bundle's hash and nonce, iff no freeze of its round is in the log |
| `CommitReveal.FreezeSpec` | engineering-plugin/tools/oracle/commit_reveal.js:76-83 | a freeze is recorded, with its implementation hash, iff a commit of its round is in the log |
| `CommitReveal.RevealSpec` | engineering-plugin/tools/oracle/commit_reveal.js:86-98 | a reveal is recorded iff a commit and a freeze of its round are in the log, with the last commit's hash, the hash under its nonce, and whether they are equal |
| `CommitReveal.WholeRound` | engineering-plugin/tools/oracle/commit_reveal.js:64-98 | for all digests, files, nonces and enumeration orders, commit, freeze and reveal from an empty log end in a verified reveal |
| `CommitReveal.BundleHashBinds` | engineering-plugin/tools/oracle/commit_reveal.js:17-46 | the hash does not depend on enumeration order; with one-line paths equal hashes mean equal bundles, unless the texts hashed for these two contain a collision |
| `CommitReveal.CoveredText` | engineering-plugin/tools/oracle/commit_reveal.js:39-45 | the bundle hash is the digest of the salt followed by each file on a line of its own, path, colon and content digest, in order |
| `CommitReveal.LineBreakConfuses` | engineering-plugin/tools/oracle/commit_reveal.js:17-46 | since paths may hold line breaks, every bundle of two files or more hashes like one with a file fewer, under every digest and salt |
| `CommitReveal.BindsAloneIff` | engineering-plugin/tools/oracle/commit_reveal.js:17-46 | a bundle with one-line paths is bound against all bundles, with paths of any kind, iff it has at most one file |
| `CommitReveal.RunInOrder` | engineering-plugin/tools/oracle/commit_reveal.js:64-98 | in every log, for every round, commits precede the first freeze and a freeze precedes every reveal |
| `CommitReveal.CommitOrigin` | engineering-plugin/tools/oracle/commit_reveal.js:61-73 | every recorded commit was written by one commit call, on the log up to it |
| `CommitReveal.VerifiedRevealBinds` | engineering-plugin/tools/oracle/commit_reveal.js:86-98 | after any run, a verified reveal shows the very text covered by a commit made before the round's first freeze, and with one-line paths in both its very files, or hashing the two bundles met a collision |
| `CommitReveal.HonestRevealVerifies` | engineering-plugin/tools/oracle/commit_reveal.js:86-98 | in every run a frozen round has a last commit, and revealing its files verifies, in any enumeration order |
| `Lineage.LineageLedger.constructor` | engineering-plugin/tools/oracle/lineage.js:21-31 | a ledger starts from whatever its file holds |
| `Lineage.LineageLedger.Dispatch` | engineering-plugin/tools/oracle/lineage.js:55-79 | adds the admitted entry or changes nothing, with each refusal in the code's order |
| `Lineage.LineageLedger.IsAncestor` | engineering-plugin/tools/oracle/lineage.js:36-46 | the walk decides the transitive closure of parent links on every ledger, and its cycle guard is never taken on one in dispatch order |
| `Lineage.LineageLedger.AssertSiblings` | engineering-plugin/tools/oracle/lineage.js:86-95 | succeeds iff both are known, distinct, have a parent, and neither is an ancestor of the other |
| `Lineage.DispatchSpec` | engineering-plugin/tools/oracle/lineage.js:55-79 | a dispatch is recorded iff its role is known, an agent or prompt is given, its id is new and its parent, if any, recorded; the new id has the parent asked for and every other id its own as before |
| `Lineage.OrderedIsAcyclic` | engineering-plugin/tools/oracle/lineage.js:36-79 | in dispatch order every ancestor stands earlier, so no id is its own ancestor |
| `Lineage.DispatchKeepsOrder` | engineering-plugin/tools/oracle/lineage.js:55-79 | a dispatch keeps ids unique and parents earlier |
| `Lineage.LedgerIsForest` | engineering-plugin/tools/oracle/lineage.js:55-79 | every run of dispatches from an empty ledger has unique ids and no ancestry cycle |
| `Lineage.RunKeepsAncestry` | engineering-plugin/tools/oracle/lineage.js:36-79 | whatever is dispatched later, an id whose climb ends at a root keeps its parent and gains no ancestor |
| `Lineage.SiblingsForGood` | engineering-plugin/tools/oracle/lineage.js:55-95 | on a ledger built by dispatches an accepted sibling pair stays one after any further dispatches |
| `Lineage.SiblingsForGoodIff` | engineering-plugin/tools/oracle/lineage.js:21-95 | on any stored ledger it does so iff every ancestor of both is recorded |
| `Lineage.SiblingsUnderOne` | engineering-plugin/tools/oracle/lineage.js:55-95 | two dispatches in a row under one recorded parent are accepted as siblings |
| `Gitignore.NewFile` | engineering-plugin/lib/store.js:78-84 | a file that is missing or cannot be read becomes heading and block, and stays so |
| `Gitignore.AppendedFile` | engineering-plugin/lib/store.js:99-102 | a file without markers keeps every character in front of the block, with a line feed between only when the text does not end with one, and a second merge changes nothing |
| `Gitignore.ReplacedFile` | engineering-plugin/lib/store.js:87-97 | a file with a block keeps every character outside it, holds the current block, and a second merge changes nothing |
| `Gitignore.StrayEndGrows` | engineering-plugin/lib/store.js:87-102 | a first end marker with no begin marker before it: every merge appends another block |
| `Gitignore.StrayBeginLoses` | engineering-plugin/lib/store.js:87-102 | a lone begin marker: the second merge replaces the user's text from it on |
| `Gitignore.MergeSettlesIff` | engineering-plugin/lib/store.js:74-104 | a second merge changes nothing iff the file has neither marker or its first end marker follows its first begin marker |
| `Gitignore.KeptForeverIff` | engineering-plugin/lib/store.js:74-104 | over any number of writes the user's text is kept iff no lone begin marker has text behind it other than a start of the block; else the second write already loses it |
| `Gitignore.PlansAreProper` | engineering-plugin/lib/store.js:38-61 | the plugin's own markers, rules and heading meet the conditions the results ask of markers |
| `Gitignore.PlansBlock` | engineering-plugin/lib/store.js:38-55 | the block is the begin marker, the eight rules and the end marker, each on a line |
| `LegacyMarkdown.Slugify` | engineering-plugin/assets/plan.js:241-247 | returns the base when it is free, and otherwise the base, a dash and the first number from 2 that gives a free name, within one more attempt than names are taken |
| `LegacyMarkdown.ParseLegacyMarkdown` | engineering-plugin/assets/plan.js:236-261 | the line loop computes the sections and the title of the reading function |
| `LegacyMarkdown.TakenBound` | engineering-plugin/assets/plan.js:243-244 | n candidates taken means at least n names taken: the search terminates |
| `LegacyMarkdown.CandidatesDiffer` | engineering-plugin/assets/plan.js:243-244 | the numbered candidates of a base are pairwise different |
| `LegacyMarkdown.BaseShaped` | engineering-plugin/assets/plan.js:242 | every base is a non-empty run of slug characters joined by single dashes, and such a text is its own base |
| `LegacyMarkdown.BaseIsWords` | engineering-plugin/assets/plan.js:242 | the base is the heading's runs of ASCII letters and digits, in small letters, with dashes between, or "section" when there are none |
| `LegacyMarkdown.HeadingIff` | engineering-plugin/assets/plan.js:249-250 | a heading line is one to six hash signs, white space, and the text, which starts with none and holds no line separator |
| `LegacyMarkdown.LinesReadBack` | engineering-plugin/assets/plan.js:237 | lines written with line feeds, returns or both between them are read back as those lines |
| `LegacyMarkdown.LegacySections` | engineering-plugin/assets/plan.js:236-261 | for every document the sections are its headings in order, each with the text up to the next, after an introduction when text comes first; each id is the first candidate of its heading's base, or of `intro`, that is neither `constructor` nor an earlier section's id, so ids are pairwise distinct |
| `Audio.PositionInside` | local-voice-plugin/src/audio.rs:42-49 | every position read lies inside the input |
| `Audio.Resample` | local-voice-plugin/src/audio.rs:32-56 | fails iff a rate is zero; otherwise max(1, floor(n*to/from)) samples, each on the straight line between the two input samples around i*from/to, the last held; the input itself for equal rates or no input |
| `Audio.ReadWithin` | local-voice-plugin/src/audio.rs:47-51 | a value read lies between the least and greatest sample |
| `Audio.ReadsRamps` | local-voice-plugin/src/audio.rs:47-51 | a straight ramp is read exactly |
| `Audio.AveragesAt` | local-voice-plugin/src/audio.rs:26-29 | the j-th frame, the last one possibly short, averages to the mean of its samples |
| `Audio.MonoSpec` | local-voice-plugin/src/audio.rs:20-30 | one channel or none is taken as it is; more are averaged to one mean for each frame |
| `Audio.SumParts` | local-voice-plugin/src/audio.rs:28 | a frame's sum is the sum of its parts, and one sample's is itself |
| `Audio.MeanIs` | local-voice-plugin/src/audio.rs:28 | the mean times the frame's length is the sum |
| `Audio.AveragesCount` | local-voice-plugin/src/audio.rs:26-29 | one average for every frame, a shorter last one included |
| `Audio.AveragesWithin` | local-voice-plugin/src/audio.rs:20-30 | averages, also that of a shorter last frame, stay within the input's bounds |
| `Audio.Convert` | local-voice-plugin/src/audio.rs:58-61 | the result is the channel average resampled to 16000 Hz; every output stays between the least and greatest input sample, so a constant signal stays constant |
| `Compaction.DedupePreserveOrder` | engineering-plugin/lib/cac/summary.js:201-211 | the loop computes the first appearances |
| `Compaction.FirstsSpec` | engineering-plugin/lib/cac/summary.js:201-211 | none twice, none lost, none added, in the order of first appearance |
| `Compaction.ResolveVerdicts` | engineering-plugin/lib/cac/summary.js:150-199 | collects the work of all usable verdicts and then of all open inbox events, in order |
| `Compaction.SummaryCarries` | engineering-plugin/lib/cac/summary.js:228-304 | the summary's work list holds the token's items, the verdicts' and the open events', none twice and none else; the rest is the token's own |
| `Compaction.SummaryFrom` | engineering-plugin/lib/cac/summary.js:125-304 | from the inputs: the work list is the token's items, each verdict's outstanding items and survivors, then each open event's text, each once in order of first appearance; the landed commits are the log's lines with text, in order and trimmed; the plan is the one read |
| `Compaction.ValidateIff` | engineering-plugin/lib/cac/resume_token.js:44-100 | an object validates to a token iff the token is in normal form and the object is its written form, or that with the default of loop.continue left out |
| `Compaction.BuildsIff` | engineering-plugin/lib/cac/summary.js:107-304 | a summary is built iff the source offers the written form of some token in normal form with a non-blank next action and plan, log and transcript can be read; no verdict or inbox event ever stops it, and passed or stored makes no difference |
| `Compaction.SummaryPassesOwnToken` | engineering-plugin/lib/cac/postgate.js:101-127 | whatever the other artifacts, a summary that is built passes the continuity check against its own token |
| `Compaction.GapIff` | engineering-plugin/lib/cac/postgate.js:101-127 | no gap is reported iff the summary names the token's phase, some next action and every outstanding item |
| `Compaction.PostCompactHook.Raise` | engineering-plugin/lib/cac/postgate.js:184-196 | a violation sends one note and dispatches nothing |
| `Compaction.PostCompactHook.Verify` | engineering-plugin/lib/cac/postgate.js:199-278 | once token and head are known: ok iff continuity holds; every other result sends exactly one note and no task; ok sends no note, and iff the loop continues one task with the token's own fields |
| `Compaction.PostCompactHook.PostCompact` | engineering-plugin/lib/cac/postgate.js:169-278 | throws iff there is too little to check, and then sends nothing; otherwise as above |
| `Compaction.OwnSummaryContinues` | engineering-plugin/lib/cac/postgate.js:80-127 | with head and tree in place the hook passes a summary built from its own token iff it can be built |
| `LoopGuards.Pressure.Update` | engineering-plugin/lib/cac/pressure.js:64-85 | arms at the high mark, disarms at the low mark, and reports a change iff there was one |
| `LoopGuards.ArmedIff` | engineering-plugin/lib/cac/pressure.js:64-89 | armed iff the latest sample outside the open band since the last reset was high |
| `LoopGuards.ArmingsApart` | engineering-plugin/lib/cac/pressure.js:64-89 | between two armings lies a low sample or a reset |
| `LoopGuards.Watchdog.FireNow` | engineering-plugin/lib/cac/watchdog.js:106-118 | re-issues only when armed and not fired; no timer is pending afterwards |
| `LoopGuards.Watchdog.ArmNow` | engineering-plugin/lib/cac/watchdog.js:124-130 | opens a new window with its timer |
| `LoopGuards.Watchdog.RunningReached` | engineering-plugin/lib/cac/watchdog.js:135-141 | cancels unless the task was re-issued already; no timer is pending afterwards |
| `LoopGuards.Watchdog.DisarmNow` | engineering-plugin/lib/cac/watchdog.js:146-151 | cancels and bars late callbacks; no timer is pending afterwards |
| `LoopGuards.ArmedMeans` | engineering-plugin/lib/cac/watchdog.js:90-159 | the watchdog is armed, with its guard down, exactly right after an arming |
| `LoopGuards.ReissuesIff` | engineering-plugin/lib/cac/watchdog.js:90-159 | a callback re-issues iff it is the first call since an arming: at most once per arming, never after running was reached or a disarm |
| `LoopGuards.ReissuedIff` | engineering-plugin/lib/cac/watchdog.js:106-151 | running counts as reached too late exactly from a re-issue until the next arming |

## Left out

- Real files, sockets, HTTP, server-sent events, signals and timers: a file is a value, a timer callback a step.
- `stopServer`, `serverStatus` and `reapStale`: teardown and reporting; a host's end is an `Exit` step and, at any time, a `CleansUp` step that unlinks the record.
- `ServerLifecycle.CallsConverge`: why a waiter unlinks (age, deadline, or a lock gone between two looks) is not modelled; it may unlink at any time after its probe, and hitting a working call's lock is the hazard. Creating the server and listening are one step. A process that dies while it hosts counts as an exit.
- `ServerLifecycle.NextInv`: the calls and the retry loop of `acquireLock` are steps of a state machine and not methods, because other processes act between any two of their steps; the loop's waits and its ending under contention are not modelled.
- `Canonical.SameQueryIff`: the vector sorted in place is a value here, sorted by the library's stable sort; update in place is not captured.
- `CommitReveal.BundleHashBinds`: likewise the array that entries are pushed into and sorted in.
- `EventStore.HistoryIsKept`: sequential runs only; `respondToEvent` and `writeEvents` take no lock, so races between processes are not promised anything. The retry loop of the append lock is left out with them.
- SHA-256 and HMAC: the digest is an arbitrary function with a hexadecimal alphabet, its collisions stated in the results; body hash, account binding, header presence and signature are one Boolean of a request.
- Random ids, clocks and generated nonces are parameters.
- `Gitignore.NewFile`: any failed read counts as no file, so a file that exists and cannot be read, but can be written, is overwritten; the user's text is then not kept, and errors of writing are not modelled.
- `Gitignore.AppendedFile`: speaks of decoded text; the program reads and writes UTF-8, so bytes that do not decode come back as replacement characters when the file is written.
- `Gitignore.ReplacedFile`: the same.
- JSON: frame bodies are bytes and parsed objects are records; a frame whose body is not JSON is decoded and then dropped by the caller.
- `FrameDecoder.HeaderVariants`: lengths beyond 2^53, which the program would round, are exact here.
- Loudness and floating point: the speech test is an arbitrary predicate, resampling is exact over reals, and the 64-bit product in the output length does not wrap.
- Validation of the detector's configuration: the results hold for every configuration, the refused ones included.
- Case mapping outside ASCII in slugs and in the request method; the order of characters beyond the Basic Multilingual Plane in JavaScript sorts.
- `EventStore.EventLog.AppendEvent`: an event's payload field and events hand-edited to an unknown status are not part of the model.
- `computeAttention`, `parseEngPlan`, `parseSection`: counters and long lists of field checks.
- Evaluators that throw, and the wording of messages: no result speaks of error texts, gap reasons or the default evaluator's response texts.
- Walking directories for a bundle: the files are given with their relative paths.
- `Lineage.SiblingsForGoodIff`: asks that ids are not empty, as every dispatch ensures.
- Grades, checkpoints, conflicts and the rendered text of a summary, and reading or writing the token file.
- The watchdog's deadline value, its callbacks calling back into it, and samples that are not finite numbers.
- Rendering, routing, theming, the bridge, and the other plugins.
