# QCBridge: sync lanes, splitter, frame ring and friends

QCBridge keeps a replica Blender in step with a host Blender over two ordered lanes. The cold lane
carries bootstraps and datablock blobs in chunks, the fast lane property deltas and tombstones.
Nothing orders one lane against the other, so every fast message names the cold number it must
follow (`after`) and the replica parks it until that number has been applied. A hole on the fast
lane is repaired without a bootstrap: a bounded log says what was sent since, and the host
re-asserts it. Beside the lanes, an agent splits the HEVC stream into access units (Annex B of
Rec. ITU-T H.265), an encoder reads frames from a shared-memory ring under a seqlock, and the
agent keeps a Blender running while the host is in session.

This project models that logic and proves what it promises, over every run: every interleaving of
the lanes, every pattern of refused sends and lost messages, every way of cutting a stream, every
interleaving of a ring's writer and reader, of an event loop and the threads around it.

| file | what it holds |
|---|---|
| `Wire.dfy`, `Wrappers.dfy` | messages, blob ids, `Option` |
| `AnnexB.dfy`, `AuSplitter.dfy`, `BuiltStream.dfy` | start codes, NAL units, the streaming splitter, parameter-set re-insertion, and what comes out of a stream an encoder wrote |
| `SeqTracker.dfy`, `LaneMerge.dfy` | per-lane bookkeeping and the two-lane merger |
| `ReplicaApply.dfy`, `ReplicaGate.dfy`, `ReplicaLoop.dfy` | the replica as a step system, what its gate guarantees and when, and its loops |
| `AtState.dfy` | the "@" registers a blob does not carry, and what the replica shows of them |
| `TwoLanes.dfy`, `Convergence.dfy` | the order in which a run applies blobs and fast messages, and where that leaves a datablock |
| `FastLog.dfy`, `FastRepair.dfy` | the bounded log, and what one re-assert does to two scenes |
| `LaneHoles.dfy` | which hole a replica reports on each lane, and what closes it |
| `RepairRuns.dfy`, `HoleRuns.dfy`, `RepairCases.dfy` | convergence of the repair over runs of both lanes, its hole, and three histories it does not mend |
| `EveryOrder.dfy` | when every interleaving converges, by what was sent alone |
| `ShadowFlush.dfy` | the host's shadow against what has left |
| `Reassembly.dfy`, `Outbox.dfy`, `BlobDrops.dfy` | chunking, in-place reassembly, the chunk queues, and the drop of superseded blobs |
| `HostSend.dfy`, `HostLanes.dfy`, `HostRuns.dfy`, `HostDrains.dfy`, `HostShips.dfy`, `HostSync.dfy` | the host's send sites, their invariants, the theorems over runs, how far its queues drain, what it counts as sent, and the methods as loops |
| `LaneOrder.dfy` | host and replica together: send order end to end |
| `DirtySet.dfy`, `FlushTick.dfy`, `FlushRuns.dfy`, `FlushTiers.dfy`, `FlushLoop.dfy` | dirty set, debouncer, the flush tick, runs of it, and the tiers and order in which entries leave |
| `FrameRing.dfy` | the shared-memory ring, word by word |
| `Lifecycle.dfy`, `LifecycleRuns.dfy` | the Blender lifecycle, and what each of its variables means over a run |
| `PathMap.dfy`, `PathForms.dfy`, `RowOrder.dfy`, `PathRoundTrip.dfy`, `WinRows.dfy` | path translation, the forms a path may take, the row it uses, the way back, and what a table's order means for Windows paths |
| `Liveness.dfy` | the resync rate limiter |
| `CivilTime.dfy` | the log timestamp against the Gregorian calendar |

Code that updates state is a class whose methods, loops included, are proved to compute a
specification function of the old state; the theorems are lemmas about those functions and about
runs of them. Concurrent parts (the two lanes, the ring, the lifecycle) are step systems. A
transport's answers, clocks, launch results and what serialisation yields are parameters: arbitrary
in every theorem.

## Where the code gives less than its words

- `replica_apply.py:991` marks a cold seq done while an earlier completed blob may still wait, so the
  mark can run ahead of what has applied. `ReplicaGate.GateExact` gives the exact condition,
  `ReplicaGate.EarlyRelease` the harm.
- `host_handlers.py:696` raises the stamp for one message's pointer targets only, so a datablock's
  stamps can fall again: exactly when is `HostRuns.StampFallsExactly`, an instance
  `HostRuns.PointerStampFalls`, the consequence `ReplicaApply.FallingStampsReorder`.
- Nothing orders a blob behind the deltas sent before it (`merge.py:60-69` orders the fast lane only), so
  an older delta can land on a newer blob, and no repair names it: `RepairCases.OvertakenDelta`. When it
  matters, exactly, is `RepairRuns.RepairConverges` for one run and `EveryOrders.EveryRepairExact` for all.
- A blob does not carry the "@" registers (view-layer flags and pointers set by setters). The replica
  writes back the ones it last received (`replica_apply.py:447-452` and `:597-611`), but the host's
  shadow advances past a changed one when a blob is flushed (`host_handlers.py:632`, `:654` and `:845`)
  and nothing sends it: `ShadowFlush.EyeToggledWithAModifier`, `ShadowFlush.HiddenNewcomer`, and on the
  replica, repair included, `RepairCases.ShippedEyeIsLost`. Exactly when is
  `ShadowFlush.ShadowIsWhatLeft` for the host and `RepairRuns.EverythingConverges` for the replica.
- A resync end carries stamp 0 and moves the applied mark over what is still parked, so the pong claims
  messages not yet applied: `ReplicaGate.PongRunsAhead`, exactly when is `ReplicaGate.EndJumpsOverRuns`.
- `host_handlers.py:654` and `:838` send the tier-1 half of a structural change without the old shadow, so
  its refusal loses the edit: `ShadowFlush.RefusedFallbackIsLost`. The unchanged-blob skip at `:851`
  forgets deltas sent since: `ShadowFlush.SkippedBlobLeavesTheDelta`. The exact condition is
  `ShadowFlush.ShadowIsWhatLeft`.
- A refused delta or re-assert goes back to the dirty set without a debounce entry
  (`host_handlers.py:692` and `:712`), which strands it: `FlushRuns.StrandedOverRuns`,
  `FlushTicks.StrandedForGood`.
- A window whose last entry for a uuid is a tombstone deletes a datablock created again since:
  `RepairCases.RevivalDefeatsRepair`; `resync_end` also closes a hole inside the re-assert itself:
  `FastRepair.LossInsideReassertIsSilent`.
- `blender.rs` says Blender is closed once the session ends. An exit event handled behind a newer
  child's session cancels that child's grace, and it stays up: `Lifecycles.LateExitLingers`, exactly
  when is `LifecycleRuns.LingersOverRuns`.
- `pathmap.py` says row order never decides between overlapping roots. For Windows sources it sorts by a
  length that counts the drive and matches without the drive, so a longer key can be passed over:
  `WinRows.LongerKeyPassedOver`, exactly when is `WinRows.LongestKeyIffAligned`. For the same reason some
  tables lose paths on the way to Windows and back: `PathRoundTrips.BareDriveLosesAPath`, exactly which is
  `WinRows.RoundTripsIffOrdered`.
- `Reassembler` says a blob is returned exactly once; a blob whose chunks all arrive again is
  returned again: `Reassembly.RepeatComesOutAgain`. `Reassembly.ReassemblesExactly` says how often, by
  counting from the last completion.

## Model
| member | source | states |
|---|---|---|
| `AnnexB.FindStartCode` | agent/src/lib.rs:207-222 | the scan that skips three bytes when the third cannot end a code returns the first `00 00 01` at or after `from`, or none if there is none |
| `AnnexB.NextStartFirst` | agent/src/lib.rs:207-222 | no start code lies before the one the search returns, and none exists when it returns none |
| `AnnexB.CollectStarts` | agent/src/lib.rs:226-232 | the first loop lists every start code once, in order, each searched for from three past the last |
| `AnnexB.NalUnits` | agent/src/lib.rs:225-241 | the two loops return exactly the units of the access unit: each start code, with its leading zero, up to the next |
| `AnnexB.UnitsSound` | agent/src/lib.rs:225-241 | every listed unit sits on a start code and holds at least its header byte |
| `AnnexB.UnitsComplete` | agent/src/lib.rs:225-241 | every start code that carries a header byte is listed: codes cannot overlap, so none is skipped |
| `AnnexB.SeamTypes` | agent/src/lib.rs:225-241 | where a string without an open zero run meets one that opens with a start code, no start code appears or disappears: the type lists concatenate |
| `AnnexB.UnitAlone` | agent/src/lib.rs:225-241 | a unit cut out of its access unit re-parses to itself alone |
| `AnnexB.FirstUnitTypes` | agent/src/lib.rs:320-325 | cutting behind the first unit splits the type list into that one type and the rest |
| `AuSplitting.CutsExact` | agent/src/lib.rs:282-291 | a position is cut iff an AUD start code begins there and it is not the very front of the stream |
| `AuSplitting.CutsIncrease` | agent/src/lib.rs:282-291 | cuts strictly increase and lie inside the stream, so pieces are never empty |
| `AuSplitting.ExtendCuts` | agent/src/lib.rs:271-293 | the cuts of a longer stream are the cuts already made followed by those found from the resumable search index: what chunk independence rests on |
| `AuSplitting.RawsConcatenate` | agent/src/lib.rs:285-301 | before parameter sets are added, the units of a flushed stream concatenate back to it |
| `AuSplitting.AuSplitter.Advance` | agent/src/lib.rs:273-292 | one turn of the push loop stops for lack of data, emits the next piece, or steps past a start code, and moves on by at least one byte |
| `AuSplitting.AuSplitter.Push` | agent/src/lib.rs:271-293 | whatever was pushed before and however it was cut up, the units emitted so far are those of the finished pieces of the whole stream; the loop ends |
| `AuSplitting.AuSplitter.Flush` | agent/src/lib.rs:295-301 | the rest of the stream leaves as the last unit and the splitter starts over with its parameter cache |
| `AuSplitting.AuSplitter.Finish` | agent/src/lib.rs:303-339 | an access unit leaves with the cached parameter sets it lacks if it is a key frame and all three are cached, and as it came otherwise; the cache takes its last set of each kind |
| `AuSplitting.AuSplitter.Scan` | agent/src/lib.rs:304-318 | the loop over the units says whether the access unit is a key frame and which parameter sets it carries, and caches the last of each kind |
| `AuSplitting.AuSplitter.SplitOff` | agent/src/lib.rs:284-288 | the bytes in front of the AUD leave as one unit and the search index moves with them |
| `AuSplitting.SplitChunks` | agent/src/lib.rs:271-301 | for every way of cutting a byte stream into chunks, pushing them and flushing gives the units of the stream pushed whole |
| `AuSplitting.SplitSound` | agent/src/lib.rs:271-339 | unit by unit: each piece gives one unit, finished with the cache the earlier pieces left, and that cache is sound |
| `AuSplitting.CacheStaysSound` | agent/src/lib.rs:307-316 | a cached parameter set is always one whole unit of its own type that cannot merge with what follows it |
| `AuSplitting.InsertPoint` | agent/src/lib.rs:320-325 | the insertion point leaves the AUD alone, or nothing, in front of it |
| `AuSplitting.AppendMissing` | agent/src/lib.rs:328-332 | appending the missing sets appends exactly their types |
| `AuSplitting.ReinsertionSound` | agent/src/lib.rs:303-339 | a rebuilt key frame re-parses to its own types with exactly the missing set types right after the AUD; every other unit is unchanged |
| `AuSplitting.KeyFramesCarryParameterSets` | agent/src/lib.rs:253-256 | once VPS, SPS and PPS have been seen, every key frame that starts with an AUD carries all three |
| `BuiltStreams.HeaderType` | agent/src/lib.rs:243-245 | the type is the six bits behind the forbidden bit, whatever the forbidden bit and the layer |
| `BuiltStreams.RawsAreGroups` | agent/src/lib.rs:271-301 | the bytes of any list of well-formed NAL units, cut by the splitter, fall into the groups that begin at the type-35 units |
| `BuiltStreams.SplitBuilt` | agent/src/lib.rs:271-339 | for any list of well-formed NAL units an encoder may write: the splitter's units are its groups at the type-35 delimiters, `key` where a group has a type from 16 to 23, each byte for byte as written, but for a key group that lacks a type 32, 33 or 34, which gets the newest of each it lacks, behind its delimiter, once all three have been seen |
| `SeqTracking.SeqTracker.Observe` | qcbridge/ring1/protocol.py:317-326 | the last seq, the gap count and the first missing seq after one arrival, and whether it was contiguous |
| `SeqTracking.FirstMissingExact` | qcbridge/ring1/protocol.py:317-329 | on an increasing lane from a primed baseline `first_missing` is the least seq since the last repair that never arrived, and there is none iff none is missing |
| `SeqTracking.GapsCountHoles` | qcbridge/ring1/protocol.py:317-326 | on such a lane the gap count is the number of separate stretches that never arrived, repaired or not |
| `SeqTracking.LateArrivalLeavesTheHole` | qcbridge/ring1/protocol.py:317-326 | on a lane that reorders, a late arrival does not close the hole it fills |
| `LaneMerge.LaneMerger.Observe` | qcbridge/ring1/merge.py:52-58 | an arrival is tracked on its own lane only, and a message without a number on neither |
| `LaneMerge.LaneMerger.Admit` | qcbridge/ring1/merge.py:60-69 | a fast message passes iff the cold seq it names has been applied, and is parked behind the others otherwise |
| `LaneMerge.LaneMerger.MarkColdDone` | qcbridge/ring1/merge.py:71-79 | the parked messages that the new mark reaches come out in their order, the others stay in theirs |
| `LaneMerge.LaneMerger.MarkFastDone` | qcbridge/ring1/merge.py:81-91 | the applied mark advances over the done set and stops at the first hole |
| `LaneMerge.LaneMerger.ClearFastGap` | qcbridge/ring1/merge.py:93-99 | a repaired fast lane has no hole, and its applied mark catches up with what was seen |
| `LaneMerge.LaneMerger.ClearColdGap` | qcbridge/ring1/merge.py:101-102 | a repaired cold lane has no hole, and nothing else changes |
| `LaneMerge.LaneMerger.GapLaneOf` | qcbridge/ring1/merge.py:42-47 | cold, fast or both are named exactly when those lanes have an unresolved hole |
| `LaneMerge.LaneMerger.Reset` | qcbridge/ring1/merge.py:104-110 | a new session forgets both lanes, the marks and what was parked |
| `LaneMerge.FastAppliedExact` | qcbridge/ring1/merge.py:81-91 | for any order of applications `fast_applied` is the largest k with everything from the baseline to k applied, and the set beside it holds just the applied seqs above k |
| `LaneMerge.OrderNeverMatters` | qcbridge/ring1/merge.py:81-91 | two orders of the same applications leave the same state |
| `LaneMerge.ExactMarkUnique` | qcbridge/ring1/merge.py:81-91 | that mark and set are the only ones that describe what was applied |
| `LaneMerge.SplitParked` | qcbridge/ring1/merge.py:71-79 | what is released and what stays parked are together what was parked, message for message |
| `ReplicaLoop.ReplicaLoop.Dispatch` | qcbridge/ring0/replica_apply.py:930-943 | a fast message applied: it counts as done, and a resync end has closed the lane's hole first |
| `ReplicaLoop.ReplicaLoop.Release` | qcbridge/ring0/replica_apply.py:1006-1010 | released messages are dispatched in order |
| `ReplicaLoop.ReplicaLoop.ProcessFast` | qcbridge/ring0/replica_apply.py:778-812 | a fast message is observed, then dispatched or parked |
| `ReplicaLoop.ReplicaLoop.ProcessCold` | qcbridge/ring0/replica_apply.py:944-991 | a cold message applies at once and releases what it reaches, or joins the pending blobs when it completes one; a bootstrap supersedes the pending blobs |
| `ReplicaLoop.ReplicaLoop.ApplyOne` | qcbridge/ring0/replica_apply.py:655-733 | one pending blob applied and counted done; a bootstrap also clears both gaps |
| `ReplicaLoop.ReplicaLoop.ApplyPendingBatch` | qcbridge/ring0/replica_apply.py:706-757 | the batch applies oldest first and its parked followers are dispatched after it |
| `ReplicaApply.NothingLost` | qcbridge/ring0/replica_apply.py:767-812 | over every interleaving of the lanes each fast message that arrived is dispatched once or parked once, never both or neither, and none stays parked once the cold mark reaches its stamp |
| `ReplicaApply.DueIsPrefix` | qcbridge/ring1/merge.py:71-79 | with rising stamps, what becomes due of a datablock is the front of what is parked of it |
| `ReplicaApply.SendOrderKept` | qcbridge/ring0/replica_apply.py:767-812 | if a datablock's stamps never decrease, its messages are dispatched in send order for every interleaving, parked releases included |
| `ReplicaApply.FallingStampsReorder` | qcbridge/ring1/merge.py:60-69 | with a falling stamp some interleaving dispatches the later message first |
| `ReplicaGate.GateHolds` | qcbridge/ring1/merge.py:60-79 | in every run that marks no cold seq done while a completed blob waits, no fast message is dispatched before a cold message it must follow |
| `ReplicaGate.NothingComesLate` | qcbridge/ring1/merge.py:71-79 | in every state such a run reaches, any cold message still to come is later than every stamp let through |
| `ReplicaGate.GateExact` | qcbridge/ring0/replica_apply.py:980-991 | a cold message marked done at once keeps the mark true iff no completed blob is waiting: the batched caller's contract, both ways |
| `ReplicaGate.EarlyRelease` | qcbridge/ring0/replica_apply.py:980-991 | when a blob is waiting, a fast message that must follow it is dispatched ahead of it |
| `ReplicaGate.PongIsExact` | qcbridge/ring1/merge.py:81-91 | until a repair ends or a bootstrap applies, the fast mark a pong reports is the largest k with every fast seq from the session's baseline to k applied, releases included |
| `ReplicaGate.RunTopped` | qcbridge/ring1/merge.py:81-99 | over every run, repairs and bootstraps included, the mark never passes the newest number seen, and the numbers kept beside it lie between the two |
| `ReplicaGate.EndJumpsExactly` | qcbridge/ring1/merge.py:93-99 | a repair's end moves the mark to its own seq and forgets the set beside it; the mark then claims only what has been applied iff nothing is parked |
| `ReplicaGate.EndJumpsOverRuns` | qcbridge/ring1/merge.py:93-99 | over every run of a fast lane numbered upwards, the pong sent right after a repair's end claims only what has been applied iff nothing was parked when the end came |
| `ReplicaGate.PongRunsAhead` | qcbridge/ring0/replica_apply.py:911-943 | a run in which the pong claims a message that is still parked |
| `LaneHoles.StepLane` | qcbridge/ring0/replica_apply.py:906-943 | one step, for either lane: a number of that lane is observed, and then a bootstrap's application or that lane's repair end closes the hole |
| `LaneHoles.HoleExact` | qcbridge/ring1/protocol.py:317-329 | over every run, bootstraps, repair ends and batches included, and on either lane: there is a hole iff some step skipped a number and neither a bootstrap nor, on that lane, a repair's end has closed it since; the hole is the first number so skipped |
| `LaneHoles.BootClosesBoth` | qcbridge/ring0/replica_apply.py:679-683 | from the batch that applies a bootstrap on, neither lane has a hole until it skips a number again |
| `LaneHoles.ColdEndShutsHole` | qcbridge/ring0/replica_apply.py:911-923 | from a cold repair's end on, the cold lane has no hole until it skips a number again |
| `LaneHoles.PongNamesHoles` | qcbridge/ring1/merge.py:42-47 | over every run the lanes a pong names are those with a hole in that sense |
| `LaneHoles.AnyBatchMayApply` | qcbridge/ring0/replica_apply.py:778-784 | over every run at most a full batch of blobs waits and a bootstrap waits alone, so any number of the waiting blobs may apply next |
| `FastLogs.FastLog.Record` | qcbridge/ring1/fastlog.py:21-23 | the newest entries up to the capacity, in order |
| `FastLogs.FastLog.Covers` | qcbridge/ring1/fastlog.py:32-34 | true iff the log still holds everything from that seq on |
| `FastLogs.FastLog.WindowSince` | qcbridge/ring1/fastlog.py:36-44 | the loop that fills a dict returns the window of the entries from that seq on |
| `FastLogs.WindowMeans` | qcbridge/ring1/fastlog.py:36-44 | the window names each datablock sent at or after the hole once, with the kind of its last message |
| `FastLogs.WindowOrder` | qcbridge/ring1/fastlog.py:36-44 | a later message never moves a datablock already named |
| `FastLogs.CoveredWindowComplete` | qcbridge/ring1/fastlog.py:32-44 | from a hole it covers, the bounded log's window is the window of everything ever sent |
| `FastLogs.CoversExactly` | qcbridge/ring1/fastlog.py:21-34 | of everything ever sent, the log covers exactly the newest entries up to its capacity |
| `FastLogs.UncoveredWindowMisses` | qcbridge/ring1/fastlog.py:32-34 | from a hole it does not cover, the window misses the newest entry dropped |
| `ShadowFlush.FlushExact` | qcbridge/ring0/host_handlers.py:621-664 | one flush, tier 1 or tier 2, accepted or refused, leaves every shadow equal to what the peer shows of what has left, iff it takes none of the silent branches: an unused new datablock, a new one or a lost path of a type without blob, a refused fallback delta, a skipped blob that differs from the shadow, a blob that leaves while an "@" register, which it does not carry, is not the value last sent (or, never sent, a fresh copy's) |
| `ShadowFlush.ShadowIsWhatLeft` | qcbridge/ring0/host_handlers.py:621-856 | for every run of flushes and every pattern of refused sends, at each moment the shadows are exactly what the messages that left amount to on a peer that writes back its "@" registers after a blob, iff no flush took a silent branch |
| `ShadowFlush.FlushBringsUp` | qcbridge/ring0/host_handlers.py:621-664 | a flush that is not refused and takes no silent branch leaves the peer, and the shadow, with the datablock as it was serialised |
| `ShadowFlush.RefusedDeltaIsSentLater` | qcbridge/ring0/host_handlers.py:690-715 | a refused property delta leaves no trace: the next flush finds the same changes |
| `ShadowFlush.EyeToggledWithAModifier` | qcbridge/ring0/host_handlers.py:631-655 | an eye toggled in the flush of a structural change: the blob leaves without it, the peer writes back the value it last received, and no later flush of that state sends the new one |
| `ShadowFlush.HiddenNewcomer` | qcbridge/ring0/host_handlers.py:636-645 | a hidden datablock made mid-session: the shadow has it hidden, the peer shows a fresh copy's eye |
| `ShadowFlush.RefusedFallbackIsLost` | qcbridge/ring0/host_handlers.py:831-842 | the refused tier-1 half of a structural change of a type without blob: the shadow has moved on, and no later flush of that state sends it |
| `ShadowFlush.SkippedBlobLeavesTheDelta` | qcbridge/ring0/host_handlers.py:851-854 | shipped at one state, changed by a delta, flushed as a blob back in that state: nothing leaves, and the peer keeps the delta |
| `FastRepair.HoleIsFirstLoss` | qcbridge/ring1/protocol.py:317-326 | the hole the tracker reports is at or before every loss |
| `FastRepair.AfterReassert` | qcbridge/ring0/host_handlers.py:953-959 | after the re-assert each named datablock is the host's, or gone if the window calls it a tombstone, and the rest are untouched |
| `FastRepair.ReassertExact` | qcbridge/ring0/host_handlers.py:938-969 | the re-assert makes the replica equal to the host iff no datablock whose last message was a tombstone lives on the host |
| `FastRepair.WindowReassertExact` | qcbridge/ring1/fastlog.py:36-44 | the same against the log itself: re-asserting its window from a hole leaves host and replica equal iff no datablock whose last message since that hole was a tombstone lives on the host |
| `TwoLanes.LogIsRun` | qcbridge/ring0/replica_apply.py:706-757 | the log of a run holds the fast messages in the order they were dispatched and the completed blobs in theirs |
| `TwoLanes.LogGated` | qcbridge/ring0/replica_apply.py:767-812 | in a quiet run no fast message is applied before a blob it must follow |
| `Convergence.BlobExact` | qcbridge/ring0/replica_apply.py:427-455 | from a blob on, with the "@" registers written back: messages applied on the other side of it leave the same registers iff a later tombstone removes the datablock, or they hold none, each path they write is written again or is an "@" register or already has that value, and each "@" register nothing writes again is the value last said |
| `Convergence.LastBlobIsLastShip` | qcbridge/ring0/replica_apply.py:706-757 | the last blob of a datablock the replica applies is the last one the host shipped |
| `Convergence.ReplicaExact` | qcbridge/ring1/merge.py:60-79 | against the yardstick of send order with blobs that bring everything: for every interleaving and batching of the lanes the replica, which writes back its "@" registers after a blob, ends with the yardstick's registers iff no message that was sent on one side of the datablock's last blob and applied on the other leaves a mark and the "@" registers of that blob are current |
| `RepairRuns.OrderedTracks` | qcbridge/ring0/host_handlers.py:938-969 | a statement about the yardstick, not the replica: applied in send order with losses, blobs bringing everything, it never lacks a datablock the host has nor holds a path it has not, and equals it once a re-assert or a blob follows the last loss, unless a re-assert's tombstone took it |
| `RepairRuns.TrackerIs` | qcbridge/ring1/protocol.py:317-329 | the replica's fast tracker has seen just what arrived, until a repair ends |
| `RepairRuns.HoleBeforeLosses` | qcbridge/ring1/protocol.py:317-329 | the hole a replica reports at any moment of its run is at or before every loss |
| `RepairRuns.RepairCleans` | qcbridge/ring0/host_handlers.py:938-969 | re-asserting the bounded log's window from a hole it covers, among whatever edits, reaches every datablock that lost a message |
| `RepairRuns.RepairConverges` | qcbridge/ring0/host_handlers.py:938-969 | whatever was lost, however the lanes interleave and whatever is edited meanwhile, the replica ends with the host's registers of a datablock iff no message of it that changed sides of its last blob leaves a mark and the "@" registers of that blob are current; the yardstick does iff no re-assert's tombstone took it from under the host |
| `RepairRuns.OnlyOldStrays` | qcbridge/ring1/merge.py:60-69 | in a quiet run only older messages change sides: those a newer blob overtook |
| `RepairRuns.QuietRepairConverges` | qcbridge/ring0/host_handlers.py:938-969 | in a quiet run the replica ends with the host's registers of a datablock iff no message its last blob overtook leaves a mark, the "@" registers of that blob are current, and no re-assert's tombstone took it |
| `RepairRuns.EverythingConverges` | qcbridge/ring0/host_handlers.py:938-969 | while no blob overtakes an older message and no deleted datablock is made again, a repair leaves the replica with all the host has, iff every datablock's last blob has its "@" registers current |
| `RepairRuns.WithoutRevivals` | qcbridge/ring1/fastlog.py:36-44 | while no datablock is shipped again after its tombstone, no re-assert takes one from under the host |
| `RepairCases.RevivalDefeatsRepair` | qcbridge/ring1/fastlog.py:36-44 | a datablock made again after a lost tombstone is deleted by the repair |
| `RepairCases.OvertakenDelta` | qcbridge/ring1/merge.py:60-69 | a whole repair run in which a blob overtakes an older delta: the delta lands last, the hole another datablock left does not name it, and when the repair has ended the replica still has the old value |
| `RepairCases.ShippedEyeIsLost` | qcbridge/ring0/replica_apply.py:597-611 | a whole repair run with nothing of the datablock lost or overtaken: a blob ships a changed "@" register, the replica writes back the value it last received, and the repair never names it |
| `HoleRuns.RepairClosesHole` | qcbridge/ring1/merge.py:93-99 | at the end of every such run the tracker has no hole iff the host sent a repair's end after the window was taken, parked or not when it came; otherwise it has the hole it reported |
| `HoleRuns.EndShutsHole` | qcbridge/ring0/replica_apply.py:920-946 | over every run, once a repair's end has been applied and no number is skipped after it, no hole is left |
| `EveryOrders.EveryOrderExact` | qcbridge/ring1/merge.py:60-79 | every quiet run that brings what was sent ends, for a datablock, as send order and whole blobs would, iff a condition on what was sent alone holds: all that was sent before its last blob could land behind that blob without a mark, and the "@" registers nothing writes again are those last said |
| `EveryOrders.EveryRepairExact` | qcbridge/ring0/host_handlers.py:938-969 | every quiet run of a repair leaves the replica with what the host has of a datablock, iff that condition holds and no re-assert's tombstone took it |
| `EveryOrders.ColdFirstRuns` | qcbridge/ring0/replica_apply.py:983-1003 | for every history the two lanes can carry there is a run that takes the whole cold lane first, with one more cold message numbered above every stamp; it is quiet and brings everything |
| `FastRepair.LossInsideReassertIsSilent` | qcbridge/ring1/merge.py:93-99 | a loss inside the re-assert is cleared with the hole, and the ends are equal iff the lost entries had nothing to repair |
| `Reassembly.ChunkBlob` | qcbridge/ring1/protocol.py:233-251 | the generator's chunks: as many as the size needs and at least one, each the slice its index names |
| `Reassembly.ByteInChunk` | qcbridge/ring1/protocol.py:241-251 | every byte lies in the chunk its position names, and that chunk exists |
| `Reassembly.Reassembler.Feed` | qcbridge/ring1/protocol.py:275-295 | one chunk written into its blob's buffer in place: the table after it, and the blob iff this completed it; an overrunning chunk drops its blob |
| `Reassembly.Reassembler.Write` | qcbridge/ring1/protocol.py:290 | the copy puts the payload at its offset and leaves every other byte and every other blob alone |
| `Reassembly.Reassembler.Drop` | qcbridge/ring1/protocol.py:297-298 | one blob forgotten, the others kept |
| `Reassembly.ReassemblesExactly` | qcbridge/ring1/protocol.py:275-295 | fed in any order, mixed with other blobs' chunks and with repeats, a chunk returns the exact original bytes iff it completes the set of numbers seen, and nothing before that |
| `Reassembly.ChunkThenReassemble` | qcbridge/ring1/protocol.py:233-295 | chunk, then reassemble in order, is the identity at the last chunk, for empty blobs and short last chunks too |
| `Reassembly.RepeatComesOutAgain` | qcbridge/ring1/protocol.py:263-295 | the chunks of any blob fed once more return it once more |
| `Outbox.SoundStreamReassembles` | qcbridge/ring1/protocol.py:275-295 | a stream in which every blob's chunks come in order under an id of its own reassembles each blob at its last chunk and returns nothing elsewhere |
| `Outbox.NoneLost` | qcbridge/ring0/host_handlers.py:903-923 | a chunk leaving loses no blob: each is complete, or has all its other chunks queued |
| `HostSync.HostSync.SendBootstrap` | qcbridge/ring0/host_handlers.py:466-515 | a new file's chunks replace what is left of an older file's |
| `HostSync.HostSync.ServeLib` | qcbridge/ring0/host_handlers.py:777-783 | a library file's chunks queue behind the others |
| `HostSync.HostSync.FlushBoot` | qcbridge/ring0/host_handlers.py:536-553 | bootstrap chunks leave in order until one is refused, which is then numbered again; the last one moves the bootstrap mark and forgets the per-blob marks |
| `HostSync.HostSync.FlushLib` | qcbridge/ring0/host_handlers.py:554-562 | library chunks leave in order until one is refused |
| `HostSync.HostSync.DrainUuid` | qcbridge/ring0/host_handlers.py:910-922 | one datablock's chunks leave in order, each moving its mark; it counts as shipped only when the last has left |
| `HostSync.HostSync.DrainT2Outbox` | qcbridge/ring0/host_handlers.py:903-923 | the queued blobs drain in order until a refusal, or one datablock's alone |
| `HostSync.HostSync.SendT2` | qcbridge/ring0/host_handlers.py:854-867 | the datablock's newest blob replaces what is left of an older one, in its place in the queue |
| `HostSync.HostSync.SendColdMsg` | qcbridge/ring0/host_handlers.py:785-794 | a library message takes the next cold number, and gives it back when refused |
| `HostSync.HostSync.SendDeltaEnd` | qcbridge/ring0/host_handlers.py:1098-1103 | the cold resync end takes the next cold number, and gives it back when refused |
| `HostSync.HostSync.SendDelta` | qcbridge/ring0/host_handlers.py:665-715 | pointer targets the replica may lack are shipped first; the delta waits while one is leaving, and is stamped by its datablock and its targets |
| `HostSync.HostSync.SendTombstone` | qcbridge/ring0/host_handlers.py:925-934 | a tombstone takes the next fast number and its datablock's stamp |
| `HostSync.HostSync.SendResyncEnd` | qcbridge/ring0/host_handlers.py:962-969 | the fast resync end takes the next fast number, and gives it back when refused |
| `HostLanes.RunFine` | qcbridge/ring0/host_handlers.py:534-619 | every operation of the host, in any order and under any refusals, keeps the numbering, the queues, the blobs made and the stamps sound, and no stamp base goes down |
| `HostRuns.LanesNumbered` | qcbridge/ring0/host_handlers.py:536-563 | on each lane the accepted messages are numbered 1, 2, 3, ... without a hole or a repeat, across every site that sends |
| `HostRuns.ChunksInOrder` | qcbridge/ring0/host_handlers.py:903-923 | each blob's chunks leave in index order from 0, none skipped or repeated, and two different blobs with a chunk on the wire never share an id |
| `HostRuns.NoBlobAbandoned` | qcbridge/ring0/host_handlers.py:903-923 | every blob ever queued has left whole, or waits with all its remaining chunks, or a newer one for the same datablock or a newer file replaced it; library blobs are never dropped |
| `HostRuns.WaitingHoldsTheRest` | qcbridge/ring0/host_handlers.py:903-923 | a waiting blob's queue holds every chunk that has not left |
| `HostDrains.DrainBootExact` | qcbridge/ring0/host_handlers.py:536-553 | the bootstrap loop: the chunks that left are the front of its queue up to the first refusal, in order and numbered on; true comes back iff the queue is empty; the stamp base moves iff the last chunk left |
| `HostDrains.DrainLibExact` | qcbridge/ring0/host_handlers.py:554-562 | the library loop: the chunks that left are the front of its queue up to the first refusal; true iff it is empty |
| `HostDrains.DrainSlotExact` | qcbridge/ring0/host_handlers.py:910-923 | one datablock's loop: its chunks leave up to the first refusal; its slot goes and it counts as shipped iff all of them left |
| `HostDrains.DrainFromExact` | qcbridge/ring0/host_handlers.py:903-924 | the drain of the datablock queue: of the selected slots' chunks the front left, up to the first refusal; true iff no selected slot is left; the others are as they were |
| `HostDrains.FlushLeavesNothing` | qcbridge/ring0/host_handlers.py:534-567 | whatever was refused before, once the transport accepts what is queued one flush of the three queues leaves every blob ever queued complete on the lane or superseded |
| `HostDrains.DeltaLeaves` | qcbridge/ring0/host_handlers.py:665-715 | with nothing waiting and a transport that accepts, a delta leaves in the same call, behind every chunk its targets need, numbered next |
| `HostDrains.SingleSends` | qcbridge/ring0/host_handlers.py:925-969 | a library message, a tombstone and either resync end leave iff the transport accepts, as one message numbered next; refused, nothing is left changed |
| `HostShips.FilesNumbered` | qcbridge/ring0/host_handlers.py:488-514 | over every run a file's id carries the number of files queued before it, and library files are numbered apart |
| `HostShips.FileCountsAsShipped` | qcbridge/ring0/host_handlers.py:497-500 | from a bootstrap until the next, no delta that points at what the file holds ships it again |
| `HostShips.NewestKeepsThePlace` | qcbridge/ring0/host_handlers.py:854-867 | a datablock's newest blob takes over the older one's place in the queue, one without a place goes to the end, and the others keep their places and chunks |
| `BlobDrops.StreamAlike` | qcbridge/ring0/replica_apply.py:966-977 | in a stream where a newer blob of a datablock ends the older one, dropping superseded partials changes the table for no blob still to come |
| `BlobDrops.BlobsArriveExactly` | qcbridge/ring0/replica_apply.py:966-977 | end to end: whatever is refused, the replica's receiver, its drops of superseded partials included, returns every blob byte for byte at its last chunk and nothing anywhere else |
| `BlobDrops.OneAtATime` | qcbridge/ring0/replica_apply.py:962-977 | whatever chunks come, the replica holds at most one unfinished blob of a datablock and one unfinished file |
| `HostRuns.DeltaFollowsWhatItNeeds` | qcbridge/ring0/host_handlers.py:676-697 | a delta that leaves is stamped at or past every chunk of its own and its targets' blobs, every whole file and every library message that left, and no target has a chunk left to send |
| `HostRuns.TargetsShippedFirst` | qcbridge/ring0/host_handlers.py:686-695 | a delta never leaves before every pointer target that can be shipped has been, whole |
| `HostRuns.TombFollowsItsBlobs` | qcbridge/ring0/host_handlers.py:925-930 | a tombstone is stamped at or past every chunk of its datablock's blobs that left |
| `HostRuns.NoStampAhead` | qcbridge/ring0/host_handlers.py:717-718 | over every run no stamp names a cold number that has not left |
| `HostRuns.StampFallsExactly` | qcbridge/ring0/host_handlers.py:696-697 | a later stamp of a datablock is below an earlier one iff a pointer target had lifted the earlier one past it |
| `HostRuns.PointerStampFalls` | qcbridge/ring0/host_handlers.py:696-697 | a run in which it does fall |
| `LaneOrder.OrderExactly` | qcbridge/ring1/merge.py:60-79 | a datablock's messages are applied in the order they came in every interleaving of the lanes iff their stamps never decrease |
| `LaneOrder.SendOrderEndToEnd` | qcbridge/ring0/host_handlers.py:717-718 | host to replica: whatever is refused or lost, a datablock's arriving messages are applied in send order in every interleaving iff no pointer target lifted one of them past a later one |
| `LaneOrder.NothingStaysParked` | qcbridge/ring1/merge.py:60-79 | end to end: once the replica has applied the whole cold lane, every fast message that arrived has been applied once and none is parked |
| `DirtySets.DirtySet.MarkDirty` | qcbridge/ring1/dirtyset.py:31-35 | the tier only rises, and a tombstone stays one |
| `DirtySets.DirtySet.MarkDeleted` | qcbridge/ring1/dirtyset.py:37-41 | a tombstone if the peer may know the uuid, nothing at all otherwise |
| `DirtySets.DirtySet.Drain` | qcbridge/ring1/dirtyset.py:43-57 | everything comes out, tombstones apart, in the order it went in; what is drained becomes known, what is deleted unknown |
| `DirtySets.DirtySet.AssumeKnown` | qcbridge/ring1/dirtyset.py:64-68 | the uuid counts as one the peer may hold, and nothing else changes |
| `DirtySets.DirtySet.RequeueTombstone` | qcbridge/ring1/dirtyset.py:70-75 | a refused tombstone is a tombstone again, and its uuid known |
| `DirtySets.Debouncer.Ready` | qcbridge/ring1/classifier.py:30-34 | exactly the uuids left alone for the window, taken out |
| `DirtySets.DrainLists` | qcbridge/ring1/dirtyset.py:43-57 | a drain lists each entry once, on the side its mark puts it |
| `DirtySets.MarkRatchets` | qcbridge/ring1/dirtyset.py:31-35 | a mark makes an entry a blob's iff it asks for one or the entry was one, loses none but on a tombstone, and touches no other |
| `FlushTiers.TierOverRuns` | qcbridge/ring1/dirtyset.py:31-56 | over every run of edits, deletions, re-asserts and ticks: a datablock waits iff some edit asked for it, with no tombstone standing, since it last left or was deleted; and it waits as a blob iff one of those edits was structural |
| `FlushTiers.LeavesAsAsked` | qcbridge/ring0/host_handlers.py:594-617 | what a tick sends of a datablock was asked for since it last left, and is the blob iff a structural edit was among what asked |
| `FlushTiers.LeavesInOrder` | qcbridge/ring0/host_handlers.py:594-619 | a tick sends every tombstone before every edit, and each of the two in the order their entries were made |
| `FlushLoops.FlushLoop.RunTick` | qcbridge/ring0/host_handlers.py:590-619 | the tick's loops: tombstones, then ready deltas and up to two blobs; refused or surplus entries go back |
| `FlushLoops.FlushLoop.TouchReady` | qcbridge/ring0/host_handlers.py:355-359 | touched back so that the next look finds it ready |
| `FlushTicks.TickTomb` | qcbridge/ring0/host_handlers.py:599-600 | a drained tombstone is back iff it was refused |
| `FlushTicks.TickDirty` | qcbridge/ring0/host_handlers.py:602-618 | a drained entry is handed over or kept with its tier, never both; it keeps its debounce entry unless its delta was refused |
| `FlushTicks.TickNone` | qcbridge/ring0/host_handlers.py:590-619 | a tick invents no entry |
| `FlushTicks.StrandedExactly` | qcbridge/ring0/host_handlers.py:709-715 | an entry has no debounce entry after a tick iff it had none, or its delta was due and refused |
| `FlushTicks.StrandedForGood` | qcbridge/ring0/host_handlers.py:602-605 | such an entry is never sent by any later tick until something touches it |
| `FlushRuns.StrandedOverRuns` | qcbridge/ring0/host_handlers.py:709-715 | over every run of edits, deletions, refused re-asserts and ticks: an entry waits with no debounce entry iff a due delta or a re-assert of it was refused and nothing has edited or deleted it since |
| `FlushRuns.BacklogDrains` | qcbridge/ring0/host_handlers.py:590-619 | with nothing refused and no new edits, a ready backlog loses every delta in the first tick and two blobs in each |
| `FlushRuns.BacklogGone` | qcbridge/ring0/host_handlers.py:590-619 | so n blobs are gone after ceil(n/2) ticks, every entry having left with its own tier |
| `FlushRuns.NothingDropped` | qcbridge/ring0/host_handlers.py:602-618 | over any ticks and refusals, an entry is still there as it was or has left as it was |
| `FlushRuns.DeletionsHonest` | qcbridge/ring1/dirtyset.py:31-75 | over any edits, deletions, seedings and refused sends, everything the peer may hold is known at tick boundaries, and tombstones exist only for uuids assumed known or drained |
| `FlushRuns.DeletionLeavesTombstone` | qcbridge/ring1/dirtyset.py:37-41 | deleting what the peer may hold leaves a tombstone; deleting what it never heard of leaves nothing |
| `FlushRuns.TombstoneKept` | qcbridge/ring1/dirtyset.py:31-35 | a tombstone stays pending through edits, deletions and refusals until the transport accepts it |
| `FrameRings.RunInv` | qcbridge/ring0/frame_ring.py:79-103 | every interleaving of writer and reader steps keeps the ring's invariant, the reader's claim included: it names the slot the reader is in, from its first look to its release, and none otherwise |
| `FrameRings.NoTornFrame` | agent/encode-mac/qcb-encode-mac.swift:583-648 | a frame the reader accepts has descriptor and pixels of one single publish and is never older than the `latest` word that led to it, for every interleaving and every choice of slots |
| `FrameRings.OnlyUsableFrames` | agent/encode-mac/qcb-encode-mac.swift:622-625 | every frame handed over is 32-bit float RGBA with even sides of at least 16 and rows that fit, all its pixels there; a whole publish is turned away only if it is not |
| `FrameRings.NewestFrameHandled` | agent/encode-mac/qcb-encode-mac.swift:583-648 | when the reader has caught up with `latest`, that frame or a newer one from its slot was handed over, or turned away as a whole publish that really is malformed, or overwritten while its descriptor was read |
| `FrameRings.NextSlotSteersClear` | qcbridge/ring1/ring_layout.py:167-174 | the writer never takes the claimed slot, nor, with three slots, the one it published last |
| `FrameRings.NoBeginUnderReader` | qcbridge/ring0/frame_ring.py:79-80 | with at least two slots no publish begins in the slot the reader has claimed |
| `FrameRings.PassEndsWell` | agent/encode-mac/qcb-encode-mac.swift:612-645 | for every interleaving: a pass that found an even seqlock after its claim, with no writer in that slot, ends with the frame handed over or turned away for what it is, never torn |
| `FrameRings.LooksUndisturbed` | agent/encode-mac/qcb-encode-mac.swift:612-620 | that look leaves the claim standing and the seqlock the one the pass began with |
| `FrameRings.Publish` | qcbridge/ring0/frame_ring.py:79-103 | run alone, a publish becomes the newest frame, whole in its slot, and `latest` names it |
| `FrameRings.Follow` | agent/encode-mac/qcb-encode-mac.swift:583-648 | with the writer idle, one pass hands over exactly the newest frame of the slot `latest` names |
| `Lifecycles.AlwaysServed` | agent/src/blender.rs:220-302 | at every point of every interleaving: session on means a SessionOn on its way, or Blender wanted and present or its exit about to be handled, or the link going down, save for a manual stop, a failed launch or shutdown |
| `Lifecycles.NeverAbandoned` | agent/src/blender.rs:220-302 | a host in session never ends up with no Blender and nothing pending |
| `Lifecycles.AlwaysTidy` | agent/src/blender.rs:232-286 | at every point, a Blender without a session is on its way to being closed, was started by hand, or had its grace cancelled by an earlier child's exit |
| `Lifecycles.LingersExactly` | agent/src/blender.rs:232-286 | at rest, a Blender with no session, neither started by hand nor asked to quit, stays up for good iff a late exit stands; otherwise its grace is running |
| `Lifecycles.StaleExactly` | agent/src/blender.rs:245-286 | a late exit stands from an exit handled with a child present and no session to relaunch for, until a session starts, a session's end finds the child, or another child is launched |
| `LifecycleRuns.FlagStep` | agent/src/blender.rs:220-302 | one step, for each variable of the loop and for the child: which steps raise it, which lower it, and no other step changes it |
| `LifecycleRuns.FlagOverRuns` | agent/src/blender.rs:220-302 | over every run each of them says what has happened and nothing else: some step raised it and no step since has lowered it; a late exit, too, stands iff some step was one and none since has made it good |
| `LifecycleRuns.LingersOverRuns` | agent/src/blender.rs:232-286 | over every run, at rest, a Blender with no session, neither started by hand nor asked to quit, stays up for good iff some step handled an exit while it was up and no step since has made that good; otherwise its grace is running |
| `Lifecycles.LateExitLingers` | agent/src/blender.rs:277-286 | a run in which it happens |
| `LifecycleRuns.StopHolds` | agent/src/blender.rs:291-295 | over every run: once a manual stop has been handled, and until a session starts or someone starts Blender by hand, it is not wanted and, while still up, has been asked to quit |
| `Lifecycles.Lifecycle.Session` | agent/src/blender.rs:94-97 | the flag is stored, then the event sent |
| `Lifecycles.Lifecycle.PeerIsUp` | agent/src/blender.rs:80-84 | the flag is stored, then the event sent |
| `Lifecycles.Lifecycle.PeerIsDown` | agent/src/blender.rs:86-90 | both flags fall, then the event is sent |
| `Lifecycles.Lifecycle.SpawnBlender` | agent/src/blender.rs:124-196 | nothing if a child is there; else a child or a failed launch |
| `Lifecycles.Lifecycle.EndSession` | agent/src/blender.rs:245-260 | the grace is armed iff there is a Blender to close |
| `Lifecycles.Lifecycle.TimerBranch` | agent/src/blender.rs:232-240 | the grace runs out: Blender is closed unless a session is on again |
| `Lifecycles.Lifecycle.ExitBranch` | agent/src/blender.rs:277-286 | a relaunch iff Blender is wanted, the session on and the peer up; else the grace is forgotten |
| `Lifecycles.Lifecycle.HandleNext` | agent/src/blender.rs:261-299 | each event's whole effect on the loop's variables and the child slot |
| `PathMaps.Collect` | qcbridge/ring1/pathmap.py:130-138 | the loop collects the enabled rows with a root on both sides, in table order |
| `PathMaps.Translate` | qcbridge/ring1/pathmap.py:117-176 | collecting, the stable sort and the match loop choose a row and rewrite by it, or convert separators only |
| `PathMaps.SortKeeps` | qcbridge/ring1/pathmap.py:140-142 | sorting loses and adds no candidate |
| `PathMaps.SortFalls` | qcbridge/ring1/pathmap.py:140-142 | sorted, no candidate is longer than one before it |
| `PathMaps.ChosenIsHeaviest` | qcbridge/ring1/pathmap.py:139-176 | no matching candidate has a longer source prefix than the one used |
| `PathMaps.LongestRootUsed` | qcbridge/ring1/pathmap.py:139-176 | from a mac path the row used is the enabled row with the longest root matching on a component boundary, and some row is used whenever a root matches |
| `PathMaps.OrderNeverDecides` | qcbridge/ring1/pathmap.py:140-142 | two tables with the same rows translate alike, whatever their order |
| `PathMaps.ComesOutNative` | qcbridge/ring1/pathmap.py:117-176 | whichever row is used, the result has no separator of the other system |
| `PathMaps.UnmatchedKeeps` | qcbridge/ring1/pathmap.py:173-176 | a path no usable row holds keeps every character but its separators, which become the target's |
| `PathForms.CaseNeverDecides` | qcbridge/ring1/pathmap.py:145-165 | two Windows paths that differ only in case use the same row, whatever the table |
| `PathForms.DriveNeverDecides` | qcbridge/ring1/pathmap.py:103-108 | without bare drives in the table, a rooted Windows path a row holds goes to the same place on every drive and on none |
| `PathForms.TildeIsHome` | qcbridge/ring1/pathmap.py:88-93 | on the machine's own side `~` is its home, alone or with a name below it behind either separator |
| `PathForms.OtherwiseKept` | qcbridge/ring1/pathmap.py:88-100 | the other machine's side, and a name that merely begins with `~`, stay as they are |
| `PathForms.TildeRowMaps` | qcbridge/ring1/pathmap.py:96-100 | a row whose mac side is below `~` maps the paths below that directory |
| `PathRoundTrips.OutIs` | qcbridge/ring1/pathmap.py:169-174 | the Windows form is the row's Windows root followed by the same tail |
| `PathRoundTrips.StripUnderRoot` | qcbridge/ring1/pathmap.py:101-106 | stripping the drive and slashes of a path under a rooted row leaves the row's key and the same tail |
| `PathRoundTrips.BackByOwnRow` | qcbridge/ring1/pathmap.py:150-174 | by its own row the Windows form goes back to the path it came from, case and bare drives included |
| `RowOrders.ChosenExactly` | qcbridge/ring1/pathmap.py:139-176 | the row used is the one that holds the path and goes before every other that does: longer source, or as long and named earlier |
| `WinRows.HoldsMeets` | qcbridge/ring1/pathmap.py:145-165 | a row that holds the Windows form of a path under another row meets that row: keys on one another's components, the same bare drive, or any rooted row beside a bare drive |
| `WinRows.CrossingHolds` | qcbridge/ring1/pathmap.py:145-165 | and wherever two rows meet, some path under the one is held by the other |
| `WinRows.RoundTripsIffOrdered` | qcbridge/ring1/pathmap.py:117-176 | every normalised path under a mapped mac root goes to its Windows form and back unchanged iff, for every pair of usable rows whose Windows sides meet, the path's own row is tried first |
| `PathRoundTrips.BareDriveLosesAPath` | qcbridge/ring1/pathmap.py:139-176 | a row for a bare drive above a row with a longer rooted Windows side: the path below that drive that spells the other row's key never comes back |
| `WinRows.LongestKeyIffAligned` | qcbridge/ring1/pathmap.py:139-165 | every Windows path uses the longest stripped key that holds it iff, wherever two rows' keys nest, a row with the longer one is tried first |
| `WinRows.LongerKeyPassedOver` | qcbridge/ring1/pathmap.py:139-165 | a two-row table and a Windows path on which the shorter key is used |
| `Liveness.ResyncPolicy.Decide` | qcbridge/ring1/liveness.py:52-92 | which repair is granted, in the order fast, delta, full, with its clock and the served state moved only when one is |
| `Liveness.ResyncPolicy.AllowFull` | qcbridge/ring1/liveness.py:94-106 | a full bootstrap as a fallback: granted under the same limit, or the decision un-served |
| `Liveness.ResyncPolicy.Reset` | qcbridge/ring1/liveness.py:113-120 | the served state replaced, the clocks kept |
| `Liveness.GrantsSpan` | qcbridge/ring1/liveness.py:80-106 | k full bootstraps, decided or allowed, span at least (k-1) minimum intervals, and fast and delta repairs together their own |
| `Liveness.CheapestWhenDue` | qcbridge/ring1/liveness.py:52-100 | over every run only the cheapest repair that can answer is granted, and only for a state not yet served; and it is granted once every earlier grant of its kind lies the interval back |
| `Liveness.AllowedWhenDue` | qcbridge/ring1/liveness.py:94-106 | a file asked for as a delta's fallback is granted iff every earlier file lies the interval back |
| `Liveness.ServedExact` | qcbridge/ring1/liveness.py:52-120 | over every run the state that counts as served is what the last granting, un-serving or resetting call made it |
| `Liveness.AnsweredOnce` | qcbridge/ring1/liveness.py:71-73 | with growing counters, two answers to one replica state have a refused `allow_full` or a reset between them |
| `CivilTime.Ranges` | agent/src/lib.rs:138-142 | year of era and day of year stay in their ranges |
| `CivilTime.MonthRange` | agent/src/lib.rs:143-144 | the month index and the day of month stay in theirs |
| `CivilTime.CivilCounts` | agent/src/lib.rs:135-147 | the date is a real one and its day number is the day count |
| `CivilTime.DaysFromCivil` | agent/src/lib.rs:135-147 | a date is what its day number turns back into |
| `CivilTime.NotBeforeTheEpoch` | agent/src/lib.rs:135-147 | every date from 1970 on has a day count |
| `CivilTime.CivilIsTheCalendar` | agent/src/lib.rs:135-147 | the date is what counting day by day from the epoch arrives at, with month lengths and the leap rule |
| `CivilTime.TimeOfDayExact` | agent/src/lib.rs:135-147 | a stamp's time of day is in range and, with the day count its date is made from, gives the second back |

## Left out

- RepairRuns.RepairConverges: no bootstrap in the run and nothing lost once the window is taken (losses inside the re-assert have their own lemma); the history of what left is given, with stamps that do not fall, which `LaneOrder.SendOrderEndToEnd` makes exact. The "@" values a replica received before the session, and a blob's dependencies, which it also replaces on the replica and whose "@" registers are not written back, are outside it.
- RepairRuns.QuietRepairConverges: that fast messages name the blobs before them is `HostRuns.DeltaFollowsWhatItNeeds` and `HostRuns.TombFollowsItsBlobs`, not derived again for this form of the history.
- ShadowFlush.ShadowIsWhatLeft: a queued blob counts as left, since none is abandoned (`HostRuns.NoBlobAbandoned`); deletions, shape-key datablocks (whose owner is flushed), the dependencies a blob brings along and the automatic bootstrap that follows an unsupported type are outside the run.
- ReplicaGate.GateHolds: holds for runs that keep the caller's contract; the calling code does not always, and the two lemmas beside it say exactly when.
- AuSplitting.ReinsertionSound: a key unit that starts with neither an AUD nor a start code (bytes before the first code of a stream) gets its sets in front of those bytes; the re-parse is not claimed there.
- EveryOrders.EveryOrderExact: quiet runs only, and a datablock the replica has from the start or is shipped before anything is said of it; a delta for one it never had changes nothing there but its place decides whether the "@" values in it count.
- FrameRings.Follow: the reader copies the first `w * 4` bytes of each row; the model's frame is all the words of the slot, so row padding is not told apart.
- FrameRings.NoTornFrame: sequential consistency with atomic 8-byte words; the number in a seqlock or `latest` word is unbounded, not modulo 2^64 or 2^56.
- BlobDrops.BlobsArriveExactly: the cold lane delivers what the transport accepts, and blob ids are structured values, so a uuid that spells another id's text is outside it.
- HostRuns.NoBlobAbandoned: whether a datablock serialises, is unchanged or is of a type that is never resent is a parameter; exceptions raised inside a send are not modelled.
- Reassembly.Reassembler.Feed: the header kept from a blob's first chunk, unchunked messages, and a missing offset field are not modelled.
- FlushRuns.DeletionsHonest: what the peer learns from the bootstrap beyond `assume_known`, and tombstones of a delta or a re-assert that are accepted, are outside the run.
- FlushTicks.TickDirty: an entry whose datablock has died or has nothing to send counts as handed over, and a delta that turns out structural leaves as a blob outside the tick's budget, as in the code.
- FlushRuns.BacklogDrains: times are real numbers, so touching back by the window and finding it elapsed is exact, which binary floating point only approximates.
- Lifecycles.NeverAbandoned: one link calls the observer at a time, and each flag read and store is one step; the grace may run out at any moment once armed.
- PathMaps.LongestRootUsed: mac sources without `~` (rows with one have `PathForms.TildeRowMaps`); letters and case are ASCII, where Python's `isalpha` and `lower` are Unicode.
- WinRows.RoundTripsIffOrdered: mac roots not under one another, paths without a doubled slash right behind the root, and tables without `~`.
- WinRows.LongestKeyIffAligned: tables without `~`.
- The order of the flush tick's loops is one of the orders the host's runs range over; auto-bootstrap timing, sweeps and manifests are not modelled.
- A batch's time budget is an arbitrary number of blobs per tick; a burst hold and hot-lane messages are not modelled.
- Everything that touches Blender data, QUIC, TLS, sockets, compression, ffmpeg, VideoToolbox and the tray is I/O and is not part of this model.
- `classify_update`, `replica_restarted`, `merge_tables`, `rows_from_wire`, `localize_any`, `peer_forgot_everything`, hello checks, hot packets and the registry would only add easy members.
- `transport_zmq.py` and `link.rs` are not part of this model: a send accepts or refuses.
