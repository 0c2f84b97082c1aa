# SwiftLoad download engine: model and proofs

This project models the part of SwiftLoad that decides which bytes to fetch, who fetches them,
when they may be recorded, and how many connections to use, and proves what that part promises.
It assumes a file of known length on a server with working ranges.

| file | module | what it models |
|---|---|---|
| `common.dfy` | `Common` | an option type, minimum, maximum, subtraction that stops at zero |
| `spans.dfy` | `Spans` | spans, canonical lists of spans, the set of bytes they stand for |
| `rangeset.dfy` | `RangeSets` | the mutable completed-ranges record |
| `codec.dfy` | `Codec` | its varint encoding |
| `plan.dfy` | `Plans` | claims and the allocator behind its mutex |
| `protocol.dfy` | `Protocol` | workers and allocator as interleaved steps; what every step keeps |
| `protocol_safety.dfy` | `ProtocolSafety` | no byte is lost, writes stay inside claims |
| `protocol_exhaustion.dfy` | `ProtocolExhaustion` | what has been handed over when everybody has left, for lack of work or otherwise; nothing complete is fetched again |
| `protocol_overlap.dfy` | `ProtocolOverlap` | exactly when a byte comes to be planned, fetched or held twice |
| `protocol_sent.dfy` | `ProtocolSent` | what is sent under a claim whose end was lowered, and how often |
| `protocol_requests.dfy` | `ProtocolRequests` | the steps of an undisturbed call are the call; two runs in which ranges overlap, one that ends with work left |
| `chunks.dfy` | `Chunks` | bytes on their way to the file |
| `media.dfy` | `Media` | file and stored row as a crash sees them, over any number of runs |
| `coalescing.dfy` | `Coalescing` | what one flush writes |
| `checkpoints.dfy` | `Checkpoints` | what a run's log says about its rows and about what a crash can cost |
| `writer.dfy` | `Writers` | the writer task over a disk that may fail at any call |
| `session.dfy` | `Sessions` | one download from record to publication, also after any number of interrupted ones |
| `governor.dfy` | `Governors` | the adaptive-concurrency state machine |
| `governor_answers.dfy` | `GovernorAnswers` | what it answers to a sample, in every case |
| `governor_runs.dfy` | `GovernorRuns` | its bounds, settling and final states over every run |
| `regimes.dfy`, `regimes_flat.dfy` | `Regimes`, `FlatRegimes` | where it settles on a network that behaves |
| `governor_settling.dfy` | `GovernorSettling` | when settling raises the level |
| `governor_cases.dfy` | `GovernorCases` | runs in which it does, and in which a stall does not stop growth |
| `start.dfy` | `Starting` | the connection count to start with |
| `retire.dfy` | `Retiring` | standing workers down |
| `windows.dfy`, `identity.dfy` | `Windows`, `Identity` | verification windows and the check of a replacement link |
| `exchange.dfy` | `Exchange` | the range request and reply on the wire |
| `content.dfy` | `Contents` | the test server's synthetic file |

How the pieces meet: `Sessions.Download` loads the record, builds the plan, lets *any* interleaving
of worker steps produce *any* sequence of messages, runs the writer on them over a disk with *any*
faults, and checks coverage. What the workers can send comes from `ProtocolSafety`, what the writer
does with it from `Writers`, what that means for the file and the row from `Media`.
`Sessions.DownloadAgain` closes the circle: it starts from a fresh medium after any runs and crashes,
and is, wherever it is cut off, one more such run.

Numbers are unbounded unless the width matters: spans and varints carry explicit 64-bit bounds,
including the saturating addition in `insert` and the shift in `get_varint` that drops bits.
Times are nanoseconds, rates exact reals.

## What the proofs found

The code keeps its central promises. These smaller claims in its comments are not true as written;
each is settled by an exact condition or a concrete run.

* *A steal wastes no bytes* (plan.rs:208-219). The thief reads cursor and end, computes the split and
  only then lowers the victim's end, while the victim goes on; and release reads a claim back outside
  the mutex. The cut is the only step after which a byte can be planned, fetched or held twice
  (`ProtocolOverlap.OnlyACutOverlaps`), and it is clean exactly when the victim is still answered for
  and neither what it has fetched nor what it has in hand reaches past the split
  (`ProtocolOverlap.CutKeepsApartIff`, over whole runs `ProtocolOverlap.ApartIffCutsAreClean`). A victim
  that has given its claim back finished is no better: the thief fetches its bytes again. Past the new
  end the victim sends at most what it had in hand, `ProtocolSent.OvershootIsInHand`; if all cuts are
  clean no byte is sent twice, `ProtocolSent.CleanCutsSendOnce`. Both kinds of unclean cut are reached
  from the start: `ProtocolRequests.StealUnderAChunkSendsTwice`,
  `ProtocolRequests.ReleaseAndStealCanOverlap`. Nothing is ever lost by it.
* *Seeding never produces a piece smaller than a minimum segment* (plan.rs:127-128). A split does
  exactly if the gap is at least 4 MiB and two bytes and less than 5 MiB long, `Plans.UndercutsIff`.
  The largest gap is split first, so `Plans.Plan.Seed` can say from gaps and worker count alone how many
  such pieces it makes; a lone gap of 4 MiB + 2 for two workers makes one, `Plans.SeedMayUndercut`.
* *A checkpoint may only claim durable bytes*, after the part file was deleted (task/mod.rs:240-248):
  the run restarts from nothing but the stored row keeps its claims. `Media.AfterDeletionIff` says
  exactly when the row is true again. If a run starts from the row before that, it publishes the
  right-sized file of wrong bytes that the restart was to prevent: what is published is the source
  exactly if every byte started from was (`Sessions.CompleteIsRightIff`, on which
  `Sessions.Download` rests), and `Sessions.StaleRowIsPublished` is a run in which it is not.
* *`decode` rejects what is not canonical* (intervals.rs:218-234): it accepts touching spans, exactly
  where the bytes have a zero gap after the first pair, `Codec.DecodedIsCanonicalIff`,
  `Codec.DecodeAcceptsTouchingSpans`. And a varint is read as what its bytes say exactly if it has no
  tenth byte or that byte is 0 or 1, `Codec.ReadIsExactIff`, `Codec.TenBytesMisread`.
* *Settle back at the last level that paid* (governor.rs:343-367) may raise the level, over every run
  exactly when a window closes without the gain asked for while the level compared with is above the
  one tried, the ceiling leaves room and no midpoint is preferred (`GovernorSettling.SettlingRaisesIff`),
  and only in a ramp that a reprobe opened (`GovernorSettling.RaisesOnlyAfterAReprobe`).
  `GovernorCases.SettlingCanRaise` is such a run from the start.
* *Growth is refused under backpressure* (governor.rs:398-413) holds for ramping but not for
  reprobes. `GovernorRuns.GrowthUnderBackpressureIff` says exactly when a stall does not stop growth,
  `GovernorCases.GrowsUnderBackpressure` is a run from the start in which it does not.
* The start level is not limited by the 32 that limits the governor, and with a limit of zero it is
  one (task/mod.rs:163-200, 271-277). `Starting.StartIsWithinCapIff` says for which inputs the cap holds
  it, `Starting.LevelStaysWithinCapIff` that these are the inputs for which the level stays within the
  cap in every run, `Starting.HintsMayStartAboveTheCap` gives one for which it does not.
* *Stand workers down to a target* (task/mod.rs:606-618): the target is at least one, but a worker told
  to stop is counted as live until its claim is done, so every tick in the meantime cancels more, and
  the tokens of workers long gone are cancelled like any other. `Retiring.SomebodyStaysIff` says exactly
  when a live worker is left that may go on; `Retiring.TwoTicksMayStopEverybody`,
  `Retiring.GoneWorkersTakeCancellations` and, for the endgame, `Retiring.EndgameLeavesSomebodyIff` show
  it going wrong both ways. A download may then end incomplete with no fault anywhere: on a healthy disk,
  without failure or cancellation, `Sessions.Download` publishes exactly if nothing was left free
  unsent, and `ProtocolRequests.RetirementsLeaveAHole` is a run from the start in which something was.
* *All windows lie inside downloaded data* (identity.rs:210) holds for one span only:
  `Windows.WindowIsSolidIff`, `Windows.WindowsMayStraddleHoles`.
* *The absolute offset of the first difference* (identity.rs:258): buffers of different length that
  also differ earlier are reported at the end of the shorter one, `Identity.DifferenceIsReported`,
  `Identity.DifferenceReportedLate`.
* *Neighbouring chunks become one write* (writer.rs:275-278). Not if an empty chunk comes between them
  in the sort and lies elsewhere than where they meet; the writes are as few as their size allows
  exactly when those that meet at such a place were too big together,
  `Coalescing.CoalescingIsMaximalIff`, and for a batch of up to 1 MiB exactly when there is no such
  place, `Coalescing.SmallBatchIsMaximalIff`. `Coalescing.EmptyChunkSplits`: three chunks in the
  order one claim sends them, which the unstable sort may or may not turn into one write.

## Model

| member | source | states |
|---|---|---|
| `Spans.CanonicalIsUnique` | crates/swiftload-core/src/util/intervals.rs:1-20 | two canonical lists that cover the same bytes are the same list |
| `Spans.TotalIsCardinality` | crates/swiftload-core/src/util/intervals.rs:44-46 | `total` is the number of covered bytes |
| `Spans.SolidStretchIsOneSpan` | crates/swiftload-core/src/util/intervals.rs:85-94 | a stretch without holes lies in one span, so looking at spans one by one is enough |
| `Spans.GapsComplementCoverage` | crates/swiftload-core/src/util/intervals.rs:116-145 | the gaps of a window and what is covered inside it add up to the window |
| `Spans.NoGapsIffCovered` | crates/swiftload-core/src/util/intervals.rs:85-145 | a window has no gaps exactly when every byte of it is covered |
| `RangeSets.RangeSet.FromPairs` | crates/swiftload-core/src/util/intervals.rs:27-33 | any pairs that end within 64 bits, in any order, overlapping or touching, give a canonical record of exactly their bytes |
| `RangeSets.OrderIndependent` | crates/swiftload-core/src/util/intervals.rs:27-33 | records built from the same pairs in any order are equal |
| `RangeSets.RangeSet.Insert` | crates/swiftload-core/src/util/intervals.rs:57-82 | insertion is union and keeps canonical form, by two binary searches and a splice; past the last u64 the exact clipped result, and exactly when the record still fits 64 bits |
| `RangeSets.RangeSet.FirstEndingAtOrAfter` | crates/swiftload-core/src/util/intervals.rs:63-65 | the binary search finds the first span ending at or after the insertion |
| `RangeSets.RangeSet.FirstStartingAfter` | crates/swiftload-core/src/util/intervals.rs:66-67 | the binary search finds the first span starting after its end |
| `RangeSets.RangeSet.End` | crates/swiftload-core/src/util/intervals.rs:49-51 | one past the last covered byte; zero exactly for the empty record |
| `RangeSets.RangeSet.ContainsAll` | crates/swiftload-core/src/util/intervals.rs:85-94 | true exactly when every byte asked for is covered |
| `RangeSets.RangeSet.FirstGapAtOrAfter` | crates/swiftload-core/src/util/intervals.rs:100-113 | the least missing byte at or after a position, and how far the hole reaches |
| `RangeSets.RangeSet.GapsIn` | crates/swiftload-core/src/util/intervals.rs:119-145 | exactly the missing bytes of the window, as a sorted list of maximal disjoint holes |
| `RangeSets.RangeSet.Remove` | crates/swiftload-core/src/util/intervals.rs:148-168 | removal is difference and keeps canonical form |
| `RangeSets.RangeSet.TruncateTo` | crates/swiftload-core/src/util/intervals.rs:172-182 | truncation is intersection with the bytes below the limit |
| `RangeSets.RangeSet.RewindTails` | crates/swiftload-core/src/util/intervals.rs:190-201 | the in-place loop leaves every span short by the margin |
| `RangeSets.RewoundKeeps` | crates/swiftload-core/src/util/intervals.rs:190-201 | a rewind keeps a byte exactly when it and the whole margin after it were covered |
| `RangeSets.RewindsAdd` | crates/swiftload-core/src/util/intervals.rs:190-201 | rewinding twice is rewinding by the sum |
| `Codec.PutVarint` | crates/swiftload-core/src/util/intervals.rs:260-266 | appends the base-128 groups of the value, low first, with continuation bits |
| `Codec.GetVarint` | crates/swiftload-core/src/util/intervals.rs:268-285 | the reading loop, with its truncation and overflow errors |
| `Codec.ReadWhole` | crates/swiftload-core/src/util/intervals.rs:260-285 | reading undoes writing for every 64-bit value, wherever it stands, and consumes exactly its bytes |
| `Codec.AtMostTenBytes` | crates/swiftload-core/src/util/intervals.rs:260-266 | a 64-bit value takes at most ten bytes |
| `Codec.TenthByteLosesBits` | crates/swiftload-core/src/util/intervals.rs:268-285 | of a tenth byte only the lowest bit survives the shift |
| `Codec.ReadIsExactIff` | crates/swiftload-core/src/util/intervals.rs:268-285 | what is read is what the bytes say in base 128 exactly if there is no tenth byte or it is 0 or 1; at most ten are read |
| `Codec.TenBytesMisread` | crates/swiftload-core/src/util/intervals.rs:268-285 | ten bytes that are read without an error as something else |
| `Codec.ReadEnds` | crates/swiftload-core/src/util/intervals.rs:268-285 | when a varint is read, how many bytes it takes, and which error is reported otherwise, by the number of continuation bytes |
| `Codec.Encode` | crates/swiftload-core/src/util/intervals.rs:207-216 | the loop writes gap and length of every span |
| `Codec.Decode` | crates/swiftload-core/src/util/intervals.rs:218-234 | the loop reads them back, with its errors |
| `Codec.DecodeUndoesEncode` | crates/swiftload-core/src/util/intervals.rs:207-234 | every canonical record that fits 64 bits survives encoding and decoding |
| `Codec.EncodeIsInjective` | crates/swiftload-core/src/util/intervals.rs:207-216 | different records have different encodings |
| `Codec.DecodedIsOrdered` | crates/swiftload-core/src/util/intervals.rs:218-234 | whatever decodes is sorted, disjoint, without empty spans and within 64 bits |
| `Codec.DecodedIsCanonicalIff` | crates/swiftload-core/src/util/intervals.rs:218-234 | a decoded record is canonical exactly when no gap varint after the first pair is zero |
| `Codec.DecodeAcceptsTouchingSpans` | crates/swiftload-core/src/util/intervals.rs:218-234 | four bytes that decode to two touching spans |
| `Codec.DecodeRefuses` | crates/swiftload-core/src/util/intervals.rs:218-234 | an empty span, half a pair and a span past the last u64 are refused, each with its error |
| `Plans.Plan.constructor` | crates/swiftload-core/src/task/plan.rs:106-119 | the plan holds exactly the missing bytes, as maximal holes |
| `Plans.Plan.Seed` | crates/swiftload-core/src/task/plan.rs:122-146 | splitting terminates, tiles exactly the same bytes, cuts every gap at whole MiB from its start, every new piece is longer than 1 MiB, it stops only with enough pieces or none worth splitting, and from the gaps and the count alone how many pieces fall below a minimum segment |
| `Plans.UndercutsIff` | crates/swiftload-core/src/task/plan.rs:133-143 | one split leaves less than a minimum segment exactly for gaps from 4 MiB + 2 to below 5 MiB |
| `Plans.SeedMayUndercut` | crates/swiftload-core/src/task/plan.rs:127-143 | a gap of 4 MiB + 2 for two workers leaves one such piece |
| `Plans.Plan.Request` | crates/swiftload-core/src/task/plan.rs:178-222 | takes the largest gap whole, the last if several are as large, or else the upper half of the largest live claim, or reports that nothing is left; the new state in full |
| `Plans.LargestGapGoesFirst` | crates/swiftload-core/src/task/plan.rs:181-187 | with something free, the range granted is a free gap, none is longer and none after it as long; the rest stays free and every claim as it was |
| `ProtocolSafety.LargestGapIsTaken` | crates/swiftload-core/src/task/plan.rs:181-187 | the same of the step in which a worker of the machine takes a gap |
| `Plans.RequestKeepsBytes` | crates/swiftload-core/src/task/plan.rs:178-222 | a request neither drops nor invents a byte that is still to be fetched |
| `Plans.RequestKeepsDisjoint` | crates/swiftload-core/src/task/plan.rs:178-222 | a request never plans a byte twice |
| `Plans.RequestConservesOutstanding` | crates/swiftload-core/src/task/plan.rs:164-222 | a request moves work around without changing the outstanding total |
| `Plans.OutstandingCounts` | crates/swiftload-core/src/task/plan.rs:164-174 | in a plan without overlap the outstanding total is the number of bytes free or held by an active claim |
| `Plans.StealIsFair` | crates/swiftload-core/src/task/plan.rs:189-221 | a steal cuts the active claim with the most left, the last such, at the first 1 MiB boundary at or after its middle: the victim keeps at least half and a minimum segment, the thief gets the rest, more than 1 MiB, and no other claim changes |
| `Plans.ExhaustedIff` | crates/swiftload-core/src/task/plan.rs:181-206 | work is refused exactly when nothing is free and every live claim is below two minimum segments |
| `Plans.Plan.Release` | crates/swiftload-core/src/task/plan.rs:225-239 | the unfetched tail returns to the free list, which is merged to canonical form; the claim is gone |
| `Plans.Plan.ReturnRange` | crates/swiftload-core/src/task/plan.rs:242-250 | a returned range is added to the free bytes |
| `Plans.ReleaseKeepsBytes` | crates/swiftload-core/src/task/plan.rs:225-239 | a release neither drops nor invents a byte that is still to be fetched |
| `Plans.ReleaseKeepsDisjoint` | crates/swiftload-core/src/task/plan.rs:225-239 | an undisturbed release never plans a byte twice |
| `Plans.ReleaseConservesOutstanding` | crates/swiftload-core/src/task/plan.rs:164-174 | a release does not change the outstanding total |
| `Plans.MergeFree` | crates/swiftload-core/src/task/plan.rs:263-275 | merging a sorted list keeps its bytes and yields canonical form |
| `Plans.SortedArrangementIsUnique` | crates/swiftload-core/src/task/plan.rs:142-144 | sorting the free list has one possible result |
| `Plans.Plan.UsefulWorkers` | crates/swiftload-core/src/task/plan.rs:253-256 | at least one, and otherwise as many as get a minimum segment each |
| `ProtocolSafety.StepKeeps` | crates/swiftload-core/src/task/worker.rs:133-376 | every single step of any worker, of the allocator and of the un-locked release keeps the invariant |
| `ProtocolSafety.NoByteIsLost` | crates/swiftload-core/src/task/plan.rs:178-239 | under every interleaving each byte is complete, sent, free, held by a live or releasing claim, or on its way back; what was sent is the file's bytes at their place, inside the claim it was fetched under |
| `ProtocolSafety.OpenStep` | crates/swiftload-core/src/task/worker.rs:275-320 | a body that passes the checks holds the file's bytes from the cursor on, and a stated total is the right one |
| `ProtocolSafety.LoadStep` | crates/swiftload-core/src/task/worker.rs:344-356 | a chunk starts at the cursor, ends at or before the claim's end as it stands, holds the file's bytes there, and is the whole of what arrived unless it was clipped |
| `ProtocolSafety.InterruptedAsksAgain` | crates/swiftload-core/src/task/worker.rs:180-232 | a transfer may break off at any time and is asked for again from the cursor |
| `ProtocolSafety.ShortBodyAsksAgain` | crates/swiftload-core/src/task/worker.rs:370-375 | so is the rest of a body that ends short, unless the worker was told to stop; then it is given back |
| `ProtocolSafety.ChunkIsDelivered` | crates/swiftload-core/src/task/worker.rs:344-375 | undisturbed, a chunk is sent and the cursor passes it; a chunk that reaches past the claim fills it exactly, and nothing more is asked of the server for it |
| `ProtocolSafety.CancelReachesEverybody` | crates/swiftload-core/src/task/worker.rs:147-232 | once the run is cancelled, a worker about to ask for work may leave and one about to ask the server gives its claim back |
| `ProtocolExhaustion.ExhaustedMeansHandedOver` | crates/swiftload-core/src/task/worker.rs:146-176 | if everyone left for lack of work, undisturbed, every missing byte was handed to the writer |
| `ProtocolExhaustion.GoneMeansSentOrFree` | crates/swiftload-core/src/task/worker.rs:146-176 | whatever made the workers leave, every missing byte was handed to the writer or is free |
| `ProtocolExhaustion.OnlyTheMissingIsFetched` | crates/swiftload-core/src/task/plan.rs:102-112 | under every interleaving only bytes missing at the start are sent or left free; nothing complete is fetched again |
| `ProtocolOverlap.OnlyACutOverlaps` | crates/swiftload-core/src/task/plan.rs:178-239 | no step but the lowering of another's end can give a byte two holders, counting what is fetched or in hand |
| `ProtocolOverlap.CutKeepsApartIff` | crates/swiftload-core/src/task/plan.rs:189-221 | and that one does not exactly when the victim is still answered for and has neither fetched nor in hand anything past the split |
| `ProtocolOverlap.OverlapIff` | crates/swiftload-core/src/task/plan.rs:189-239 | so in every reachable state, for every step |
| `ProtocolOverlap.ApartIffCutsAreClean` | crates/swiftload-core/src/task/plan.rs:178-239 | a run never plans, fetches or holds a byte twice exactly when each of its cuts was clean |
| `ProtocolSent.OvershootIsInHand` | crates/swiftload-core/src/task/worker.rs:344-361 | from a cut on nothing is sent under the victim past the new end beyond what it had fetched or in hand then |
| `ProtocolSent.CleanCutsSendOnce` | crates/swiftload-core/src/task/worker.rs:344-361 | if all cuts of a run are clean, no byte is sent to the writer twice |
| `ProtocolRequests.UndisturbedRequest` | crates/swiftload-core/src/task/plan.rs:178-222 | the steps of one request, uninterrupted, do what the call does |
| `ProtocolRequests.UndisturbedRelease` | crates/swiftload-core/src/task/plan.rs:225-239 | and so do those of one release |
| `ProtocolRequests.ReleaseAndStealCanOverlap` | crates/swiftload-core/src/task/plan.rs:225-239 | a run from the start in which a byte is both free and claimed |
| `ProtocolRequests.StealUnderAChunkSendsTwice` | crates/swiftload-core/src/task/plan.rs:208-219 | a run from the start, without any release, in which victim and thief send the same byte |
| `ProtocolRequests.RetirementsLeaveAHole` | crates/swiftload-core/src/task/mod.rs:556-566 | a run from the start, without failure or cancellation, in which every worker leaves because it was told to and a byte stays free unsent |
| `Media.SafeThroughout` | crates/swiftload-core/src/task/writer.rs:116-225 | in a run that writes the source's bytes and commits only right after a sync, every stored row is true at every moment |
| `Media.CrashSafety` | crates/swiftload-core/src/store/mod.rs:99-109 | over any number of runs, each cut off anywhere, with any of the unsynced bytes surviving and the row rolled back to any earlier commit, every byte of every stored row is durable and equals the source |
| `Media.AnyBytesMaySurvive` | crates/swiftload-core/src/store/mod.rs:99-109 | a power loss may spare any of the bytes written since the last sync and lose the others |
| `Media.PowerLossLeaves` | crates/swiftload-core/src/store/mod.rs:99-109 | and leaves the row of some earlier commit |
| `Media.AnyCutIsALife` | crates/swiftload-core/src/store/mod.rs:291-301 | a run may be cut off after any event |
| `Media.ResumeReadsRight` | crates/swiftload-core/src/store/mod.rs:291-301 | what a resume starts from, rewound or not, reads back as the source |
| `Media.ViewOfARun` | crates/swiftload-core/src/task/writer.rs:254-293 | whatever the medium was like, after a run what it wrote reads back as the source and everything else as before |
| `Media.RewindCoversLostTails` | crates/swiftload-core/src/store/mod.rs:285-301 | on a disk that lied about a sync, a rewound resume is right exactly when every wrong byte lies within the margin of a byte the record does not claim |
| `Media.DeletedPartLeavesAFalseRow` | crates/swiftload-core/src/task/mod.rs:237-248 | a deleted part file leaves a false row behind |
| `Media.AfterDeletionIff` | crates/swiftload-core/src/task/mod.rs:237-248 | the row is true again exactly once the run has committed one of its own, or the stale one happens to claim only rewritten and synced bytes or zeros |
| `Coalescing.CoalescingKeepsTheFile` | crates/swiftload-core/src/task/writer.rs:254-293 | merged writes leave the file as the chunks written one at a time |
| `Coalescing.CoalescingKeepsBytes` | crates/swiftload-core/src/task/writer.rs:254-293 | they cover exactly the bytes of the chunks |
| `Coalescing.CoalescingKeepsTotal` | crates/swiftload-core/src/task/writer.rs:254-293 | and count the same number of bytes |
| `Coalescing.CoalescingShape` | crates/swiftload-core/src/task/writer.rs:269-291 | no write is empty; none exceeds 1 MiB unless a chunk came that big |
| `Coalescing.CoalescingIsMaximalIff` | crates/swiftload-core/src/task/writer.rs:266-291 | for every order of chunks, no two neighbouring writes could have been one exactly when, wherever an empty chunk parts two chunks that touch, the writes that meet there were too big together |
| `Coalescing.SmallBatchIsMaximalIff` | crates/swiftload-core/src/task/writer.rs:266-291 | for a batch that fits one write: exactly when no empty chunk parts two chunks that touch |
| `Coalescing.EmptyChunkSplits` | crates/swiftload-core/src/task/writer.rs:264-291 | an empty chunk at the offset of the next one: one arrangement by offset gives one write, the other two |
| `Coalescing.ArrivalOrderDoesNotMatter` | crates/swiftload-core/src/task/writer.rs:254-293 | with one source behind the chunks, arrival order and the order of equal offsets leave the same file |
| `Coalescing.ConflictingChunksDepend` | crates/swiftload-core/src/task/writer.rs:264 | without one source the unstable sort shows |
| `Coalescing.SortUnstable` | crates/swiftload-core/src/task/writer.rs:264 | some arrangement by offset; ties stay open |
| `Writers.Writer.FlushPending` | crates/swiftload-core/src/task/writer.rs:254-293 | writes exactly the coalesced chunks and records exactly their bytes; if a write fails, the ones before it are done and recorded, and at most a prefix of it is on disk |
| `Writers.Writer.DurableCheckpoint` | crates/swiftload-core/src/task/writer.rs:296-313 | sync, then one row with the ranges and their byte count; nothing recorded if the sync fails |
| `Writers.Writer.HandleControl` | crates/swiftload-core/src/task/writer.rs:228-251 | the reply is good exactly when the ranges were synced and then committed; `Sync` restarts the count either way, `Finish` ends the task |
| `Writers.Writer.Run` | crates/swiftload-core/src/task/writer.rs:116-225 | whatever fails and however messages batch: only written bytes are claimed, every row claims exactly what was resumed or written before it; every `Sync` gets one reply, a good one listing all that came before it; everything received before a good end is written and recorded. Whenever it waits, all it received is written; it has drained the queue as far as the batch allows, and ended with a row if the interval was over or 8 MiB were written since the last row, and only then; less than 8 MiB are at stake as long as no `Sync` failed, and at most a batch more in between |
| `Writers.CrashWhileWaiting` | crates/swiftload-core/src/task/writer.rs:131-190 | so a crash at such a moment costs less than 8 MiB against the row that is stored |
| `Writers.CrashWhenDue` | crates/swiftload-core/src/task/writer.rs:184-190 | and once the interval was over when the last data came in, nothing, whatever failed before |
| `Checkpoints.RowsOnlyGrowInARun` | crates/swiftload-core/src/task/writer.rs:184-190 | checkpoints of a run only grow and never lose what it resumed with |
| `Checkpoints.CrashCosts` | crates/swiftload-core/src/task/writer.rs:131-214 | the recorded progress lags by at most the bytes written since the last commit |
| `Sessions.Download` | crates/swiftload-core/src/task/mod.rs:203-320 | what is published has the source's length and equals it exactly if every byte started from did, so always on a safe medium, and on any other exactly if every byte of the record that does not read right is given up by the rewind; the run keeps the discipline that keeps rows true; on a healthy disk, without failure or cancellation, it publishes exactly if the workers left nothing free unsent, and so in every undisturbed run; a refusal names real holes |
| `Sessions.CompleteIsRightIff` | crates/swiftload-core/src/task/mod.rs:296-320 | a complete file is the source exactly if what the run started from was |
| `Sessions.StaleRowIsPublished` | crates/swiftload-core/src/task/mod.rs:237-248 | a run that takes the row of a deleted part file at its word publishes zeros |
| `Sessions.DownloadAgain` | crates/swiftload-core/src/task/mod.rs:203-320 | from a fresh medium, after any runs and crashes: what is published is the source, a crash while the writer waits costs less than 8 MiB, and cut off anywhere this is one more such run |
| `Sessions.Prepare` | crates/swiftload-core/src/task/mod.rs:231-265 | the run starts from nothing if the part file is gone, from the whole record after a clean stop, and after an unclean one from exactly the bytes with a whole MiB of the record behind them; it plans exactly the holes, split for the workers to start with |
| `Sessions.StartIsRightIff` | crates/swiftload-core/src/store/mod.rs:285-301 | a run starts right exactly if every byte of the record does, or after an unclean stop lies within 1 MiB of one the record does not claim |
| `Sessions.Conclude` | crates/swiftload-core/src/task/mod.rs:296-320 | publishes exactly when nobody failed, nothing was cancelled and every byte is covered; otherwise says which of the three it was, in that order, with the number of holes |
| `Starting.StartRespectsLimits` | crates/swiftload-core/src/task/mod.rs:163-200 | the start is at least one, within every limit given, and leaves each connection a minimum segment |
| `Starting.StartIsTheMost` | crates/swiftload-core/src/task/mod.rs:163-200 | for a file worth splitting the start is the most that was asked for, by the user, by what is remembered of the host or by the 2 or 4 of its size, and that every limit and the minimum segment allow |
| `Starting.SingleStart` | crates/swiftload-core/src/task/mod.rs:169-177 | one connection for a file that cannot be resumed, is of unknown size or small |
| `Starting.StartIsWithinCapIff` | crates/swiftload-core/src/task/mod.rs:163-200 | by the inputs alone: the governor's cap holds the start exactly if the limit is not zero and not everything that bounds the start is above 32 |
| `Starting.LevelStaysWithinCapIff` | crates/swiftload-core/src/task/mod.rs:271-277 | exactly then the level stays within the cap in every run |
| `Starting.HintsMayStartAboveTheCap` | crates/swiftload-core/src/task/mod.rs:184-194 | a remembered 40 connections start above it |
| `Starting.SmallLimitsKeepTheBounds` | crates/swiftload-core/src/task/mod.rs:271-277 | with a limit of 1 to 32 the level stays within it for the whole download |
| `Retiring.RetireDownTo` | crates/swiftload-core/src/task/mod.rs:606-618 | the loop cancels the first tokens not yet cancelled, as many as are live beyond the target and beyond one, or all that are left |
| `Retiring.CancelsTheExcess` | crates/swiftload-core/src/task/mod.rs:606-618 | exactly the excess is cancelled, or every token; none twice |
| `Retiring.SomebodyStaysIff` | crates/swiftload-core/src/task/mod.rs:547-568 | after ticks with any excesses, a live worker that may go on is left exactly if the excesses add up to less than the uncancelled tokens up to its last one |
| `Retiring.TwoTicksMayStopEverybody` | crates/swiftload-core/src/task/mod.rs:547-568 | two live workers, one gone, a target of one, two ticks: nobody is left, though a token is |
| `Retiring.GoneWorkersTakeCancellations` | crates/swiftload-core/src/task/mod.rs:422-428 | the token of a worker long gone takes the cancellation meant for a live one |
| `Retiring.EndgameLeavesSomebodyIff` | crates/swiftload-core/src/task/governor.rs:466-474 | endgame ticks before any worker is done leave one that may go on exactly if their excesses do not use the workers up; below a minimum segment and from two workers on, exactly if there is at most one tick |
| `Governors.Governor.constructor` | crates/swiftload-core/src/task/governor.rs:137-158 | the initial state |
| `GovernorAnswers.StartsExploring` | crates/swiftload-core/src/task/governor.rs:137-158 | a new governor explores from its start below the cap, with nothing measured, warming up from the first byte and its creation |
| `Governors.Governor.Observe` | crates/swiftload-core/src/task/governor.rs:188-238 | the state changes as the function that `GovernorAnswers` and `GovernorRuns` are about says, and so is the decision |
| `GovernorAnswers.RateLimitAnswer` | crates/swiftload-core/src/task/governor.rs:191-204 | a rate limit halves level and ceiling, at least one, ends all growing and asks for the wait named by the server or a second |
| `GovernorAnswers.SixthStallAnswer` | crates/swiftload-core/src/task/governor.rs:206-218 | the sixth stall in a row makes the level reached the ceiling |
| `GovernorAnswers.StallsAreCounted` | crates/swiftload-core/src/task/governor.rs:206-218 | stalls count as long as they follow each other |
| `GovernorAnswers.BurstAnswer` | crates/swiftload-core/src/task/governor.rs:220-227 | a burst of errors takes one connection, settles, and makes the level of before the ceiling |
| `GovernorAnswers.BurstsShed` | crates/swiftload-core/src/task/governor.rs:220-227 | n bursts in a row take n connections, down to the last |
| `GovernorAnswers.BurstIsForever` | crates/swiftload-core/src/task/governor.rs:220-227 | the level of before a burst is never exceeded again |
| `GovernorAnswers.BackingOffEnds` | crates/swiftload-core/src/task/governor.rs:229-234 | after a rate limit the next sample without trouble ends the backing off at the level reached |
| `GovernorAnswers.ReprobeAnswer` | crates/swiftload-core/src/task/governor.rs:434-462 | exactly when a settled governor probes, by how much, what it compares with and when it will next |
| `GovernorAnswers.ClosesIff` | crates/swiftload-core/src/task/governor.rs:241-290 | when a measurement window opens and closes, in bytes and times alone |
| `GovernorAnswers.WaitingAnswer` | crates/swiftload-core/src/task/governor.rs:250-285 | until then nothing changes but the window |
| `GovernorAnswers.MeasurementIs` | crates/swiftload-core/src/task/governor.rs:286-292 | what is measured is the bytes over the time since the window opened |
| `GovernorAnswers.BestIsKept` | crates/swiftload-core/src/task/governor.rs:290-292 | the best level measured is kept, and a tie does not replace it |
| `GovernorAnswers.PaidAnswer` | crates/swiftload-core/src/task/governor.rs:303-430 | a level that paid becomes the one to compare with; the next is the most up to double that ceiling, cap and work allow; without the token, in a stall or without room the governor settles, and why |
| `GovernorAnswers.UnpaidAnswer` | crates/swiftload-core/src/task/governor.rs:318-367 | a level that did not pay: saturation by the share per connection, one midpoint if there is one, then settling at the winner within the ceiling, which falls below the level tried |
| `Governors.Governor.Measure` | crates/swiftload-core/src/task/governor.rs:241-300 | warmup, window and closing |
| `Governors.Governor.Judge` | crates/swiftload-core/src/task/governor.rs:303-368 | keep, try the midpoint, or settle |
| `Governors.Governor.TryGrow` | crates/swiftload-core/src/task/governor.rs:392-430 | the next level up and its refusals |
| `Governors.Governor.MaybeReprobe` | crates/swiftload-core/src/task/governor.rs:434-462 | the reprobe and its refusals |
| `GovernorRuns.ObserveIsSafe` | crates/swiftload-core/src/task/governor.rs:188-462 | every observation keeps the level between one and the ceiling and the ceiling within the cap, never raises the ceiling, and grows only with the token, without a rate limit, to at most double or two more, within ceiling and work |
| `GovernorRuns.BoundsHoldForever` | crates/swiftload-core/src/task/governor.rs:105-158 | so over every run from a start within the cap |
| `GovernorRuns.RateLimitIsForever` | crates/swiftload-core/src/task/governor.rs:191-205 | after a rate limit the level never again exceeds half of what it was |
| `GovernorRuns.GrowthUnderBackpressureIff` | crates/swiftload-core/src/task/governor.rs:188-462 | during a stall connections are added exactly when a settled governor's reprobe is due and there is room below ceiling, cap and work |
| `GovernorCases.GrowsUnderBackpressure` | crates/swiftload-core/src/task/governor.rs:434-462 | a run from the start in which it adds two in a stall |
| `GovernorRuns.EpisodesAreShort` | crates/swiftload-core/src/task/governor.rs:303-368 | a ramp closes at most two windows per connection of the cap, plus one, the window that ends it included, whatever is measured |
| `GovernorRuns.ExploringEndsInTime` | crates/swiftload-core/src/task/governor.rs:241-389 | with samples no further apart than a gap, the sample that ends a ramp comes within that many times a warmup, a window and two gaps |
| `GovernorRuns.ReprobesThinOut` | crates/swiftload-core/src/task/governor.rs:434-462 | the n-th reprobe, from 0, comes no sooner than 2^n intervals after the start |
| `GovernorRuns.SaturationIsFinal` | crates/swiftload-core/src/task/governor.rs:434-437 | once saturation is known and the governor has settled or backed off, nothing is ever spawned again |
| `GovernorSettling.SettlingRaisesIff` | crates/swiftload-core/src/task/governor.rs:343-367 | over every run: the level rises without a spawn exactly when a window of the ramp closes without the gain asked for, the level compared with and the ceiling are above the one tried, and no midpoint is preferred |
| `GovernorSettling.RaisesOnlyAfterAReprobe` | crates/swiftload-core/src/task/governor.rs:434-462 | and only in a ramp opened by a reprobe |
| `GovernorCases.SettlingCanRaise` | crates/swiftload-core/src/task/governor.rs:353-367 | a run from the start in which it rises from 19 to 23 |
| `Regimes.SettlesNearTheKnee` | crates/swiftload-core/src/task/governor.rs:241-462 | if throughput grows in proportion up to a knee and is flat beyond, then whenever settled the level is between the start and the larger of start and twice the knee, and nothing the cap allows would pay another threshold; saturation is recorded only if the knee lies within the saturation share of the cap |
| `Regimes.PerConnectionCapIsClimbed` | crates/swiftload-core/src/task/governor.rs:303-430 | with a per-connection cap, saturation is never seen and the governor settles within one threshold of the cap |
| `FlatRegimes.FlatNetworkSettlesAtTheStart` | crates/swiftload-core/src/task/governor.rs:303-368 | on a flat network it settles where it started and records saturation exactly if the first step looked like resharing |
| `FlatRegimes.FlatNetworkIsLeftAlone` | crates/swiftload-core/src/task/governor.rs:434-437 | with room to double it then never grows again, whatever follows |
| `Windows.LocateFinds` | crates/swiftload-core/src/task/identity.rs:227-235 | a position is located at a covered byte with that many covered bytes below it |
| `Windows.RankLocates` | crates/swiftload-core/src/task/identity.rs:227-235 | every covered byte is located from its rank |
| `Windows.LocateGrows` | crates/swiftload-core/src/task/identity.rs:227-235 | locating keeps order |
| `Windows.ChooseWindows` | crates/swiftload-core/src/task/identity.rs:219-256 | exactly the first, the last and the drawn starts, strictly increasing, of one common length, at most the larger of two and the count |
| `Windows.PickedByWhatIsBelow` | crates/swiftload-core/src/task/identity.rs:219-256 | the starts are the covered bytes with nothing below, all but a window's worth below, or a drawn number of covered bytes short of that below |
| `Windows.WindowsAreUseful` | crates/swiftload-core/src/task/identity.rs:209-256 | windows start at covered bytes and end within the covered extent; none is before the first covered byte, and exactly a window's worth of covered bytes lies from the last start on |
| `Windows.WindowIsSolidIff` | crates/swiftload-core/src/task/identity.rs:209-256 | a window holds downloaded bytes only exactly when its last byte is as far ahead in covered bytes as in the file |
| `Windows.OneSpanWindowsAreSolid` | crates/swiftload-core/src/task/identity.rs:209-256 | with one span every window lies inside it |
| `Windows.WindowsMayStraddleHoles` | crates/swiftload-core/src/task/identity.rs:228-255 | with several it need not |
| `Identity.ResumesUnaskedIff` | crates/swiftload-core/src/task/identity.rs:145-208 | a link is taken without asking exactly when nothing on disk contradicts it, it can resume, sizes are known and equal, and tags agree or, without tags, dates do |
| `Identity.VerdictIff` | crates/swiftload-core/src/task/identity.rs:145-313 | each of the other verdicts by signals and content alone: wrong content before wrong size, with both sizes in their places, before a link that cannot resume, before asking |
| `Identity.DifferenceIsReported` | crates/swiftload-core/src/task/identity.rs:258-268 | no difference exactly for equal buffers; the offset is the first difference exactly when the lengths agree or one buffer is a prefix of the other |
| `Identity.DifferenceReportedLate` | crates/swiftload-core/src/task/identity.rs:258-268 | two bytes against one that differ at 0 are reported at 1 |
| `Identity.CheckWindows` | crates/swiftload-core/src/task/identity.rs:680-721 | the first window that does not match decides, and how |
| `Identity.Validate` | crates/swiftload-core/src/task/identity.rs:632-732 | windows are fetched exactly if something is on disk and the headers leave the question open; if all match the signals alone decide, otherwise the first that does not: wrong content at its first difference, or the error of the request |
| `Identity.SameFileMatchesIff` | crates/swiftload-core/src/task/identity.rs:684-717 | against the same file a window matches exactly when the bytes on disk are right |
| `Exchange.RequestIsUnderstood` | crates/swiftload-testserver/src/lib.rs:489-502 | the server reads the printed request back, clipped to the file, and refuses exactly what starts past its end |
| `Exchange.OpenRequestIsTheRest` | crates/swiftload-testserver/src/lib.rs:489-502 | a request without a last byte means the rest of the file, and is refused past its end |
| `Exchange.ContentRangeRoundTrip` | crates/swiftload-core/src/http/headers.rs:26-47 | the printed `Content-Range` parses back to the same numbers if they are a range inside their total, and not at all otherwise |
| `Exchange.UnsizedReplyIsRead` | crates/swiftload-core/src/http/headers.rs:26-47 | a reply that leaves the total open is read as its range without a total |
| `Exchange.PlusIsReadOver` | crates/swiftload-core/src/http/headers.rs:30-37 | a number may carry a plus sign |
| `Exchange.WireFormats` | crates/swiftload-core/src/http/headers.rs:26-47 | the texts exchanged are those of sections 14.1.2 and 14.4 of RFC 9110 |
| `Exchange.ParsedIsConsistent` | crates/swiftload-core/src/http/headers.rs:26-47 | what parses has its start at or before its end and its end below a stated total |
| `Exchange.ExchangeDeliversTheRange` | crates/swiftload-core/src/task/worker.rs:252-304 | asked for a range of the file, an honest server's reply passes the worker's check and carries exactly those bytes |
| `Exchange.RequestIsAnswered` | crates/swiftload-testserver/src/lib.rs:504-603 | what a worker's request gets from the server as it is set up: status, place, length and `Content-Range` |
| `Exchange.WholeFileIsServed` | crates/swiftload-testserver/src/lib.rs:518-603 | without a range in bytes the whole file is sent, and an empty file as one byte |
| `Exchange.AcceptedRepliesAreHonest` | crates/swiftload-testserver/src/lib.rs:504-621 | however the server is set up, whatever is asked, wherever the body breaks off and whatever length is expected: a reply is accepted exactly if ranges are honoured, nothing is transformed, no connection is refused, the range asked for starts at the cursor of a file that is not empty, and the file is as long as expected; its bytes belong where they will be written |
| `Contents.Fill` | crates/swiftload-testserver/src/content.rs:40-64 | head, whole words and tail agree with the byte-wise definition at every position |
| `Contents.BlockIsWord` | crates/swiftload-testserver/src/content.rs:33-37 | the eight bytes of a block are its word, lowest byte first |
| `Contents.ChunkAt` | crates/swiftload-testserver/src/content.rs:67-71 | a generated chunk holds the file's bytes at its place |
| `Contents.OutOfOrderAssembly` | crates/swiftload-testserver/src/content.rs:96-105 | chunks assembled in any order rebuild the stream where they lie and touch nothing else |

## Left out

- Unknown sizes and servers without ranges: one open-ended claim and whole-body requests, for which the invariants proved here do not hold.
- Workers as tasks: their loops are steps of one machine, so that every interleaving is covered; a worker's attempt counter, client and metrics are not part of it.
- Retry limits, back-off delays, time-outs and error classes: a worker may retry or give up at any point; a retried request starts at the cursor.
- Memory orders: accesses to a claim's atomics and to the cancel tokens are single, totally ordered steps.
- Bodies: a partial reply is trusted to carry the file's bytes from the offset it names, possibly cut short; `Exchange` shows this of the test server, of which delays, throttling and entity tags are left out.
- Task spawning and stand-down: workers may be spawned and told to retire at any time, so nothing is said about how many run; the governor's decisions are not fed into the worker machine, and `Retiring` follows ticks between which nobody is spawned.
- The samples the download loop takes: it always reports no rate limit and grants the probe token (task/mod.rs:526-535); the governor is modelled for every sample.
- The 256-message queue between workers and writer: the order of messages is arbitrary, how many wait is not modelled.
- SQL, schema and URL history: the stored row is one record committed atomically, held decoded; `Codec` covers its encoding.
- The clean-shutdown flag: whether a resume rewinds is arbitrary in every run.
- Rename, preallocation, free space and hashing after the coverage check: publishing means passing that check.
- Memory limits of 64-bit and machine-size counters outside spans and varints: byte totals, connection counts and durations do not wrap.
- Floating-point rounding in the governor: rates are exact.
- The number drawn for a window and the generator behind the synthetic file: arbitrary functions.
- File names, content types and the evidence shown to a user in the identity check.
- Progress display, speed meters, the command line and the benchmark harness.
- Plans.AlignUp: does not model the wrap of a position within 1 MiB of the largest u64, because no file is that long.
- RangeSets.RangeSet.FromPairs: does not cover pairs that run past the last u64, because once such a pair is stored unclipped the sum of its start and length overflows in the source at the next insertion; `RangeSets.RangeSet.Insert` gives the exact result of the insertion itself.
- Plans.Plan.Seed: does not say which of several equally long gaps is split beyond what the code's tie-break gives, because the free bytes are the same.
- Writers.Writer.Run: does not bound the bytes at stake after a failed `Sync`, because the code restarts its count there although nothing was recorded.
- Writers.Disk.SyncData: a failed sync leaves earlier writes pending, and the next sync that succeeds makes them durable; on a system that drops unwritten pages when a sync fails, a row committed after a failed `Sync` (writer.rs:238-243) could claim lost bytes.
- Media.CrashSafety: does not cover a part file deleted between runs, because the stored row is false there; `Media.AfterDeletionIff` says for how long.
