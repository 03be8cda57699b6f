# Models of the perception pipeline's buffers, pairing and encoding

A Dafny model of the parts of a GPU camera pipeline whose correctness is a matter of
protocol rather than of image processing, and proofs of what those parts promise.
`dafny verify dfyconfig.toml` checks all of it.

Most components appear twice. A class follows the code statement by statement: its fields
are the object's, its methods are the object's methods, or their critical sections where
the code takes a lock twice. Each method is proved to do to the state exactly what a named
function says. A transition system built from those same functions then interleaves the
threads, one critical section (on the device ring: one atomic operation) per step, and the
theorems quantify over all finite runs of it. `Runs(...)` is the state after a list of
actions, so a theorem about `Runs` is a theorem about every reachable state.

## The parts

**Device ring** (`DeviceRing*`, `GpuLog`, `RingLease`, `RingPairConsumer`, `PairRuns`). One producer,
any number of lease attempts, both write policies, both ways of waiting for reuse, blocking
and non-blocking acquisition; every load and store of the ring's atomics is a step. The GPU
is one log of everything enqueued: a stream is the entries that carry its name, recording an
event captures the length of the log, and a wait orders what comes later on its stream
behind what the event captured. `DeviceRingSafety` proves that read and write leases exclude
each other and that a leased frame does not change; `DeviceRingGpu` that no GPU work on a
slot races; `DeviceRingOrder` what `latest_` names under ScanForFree and in which order a
pair consumer takes frames; `DeviceRingAttempts` why an attempt brings nothing;
`DeviceRingAbandons` when a lease is of an abandoned slot. The
class `DeviceRingBuffer` is tied to the transition system by `Leads(c, s, t)`: some list of
its actions leads from `s` to `t`. Before every atomic operation of a lease attempt the
method `Elapse` stands for the other threads: its contract allows any run of theirs, and
nothing more is known behind it. The ghost argument `calm` says that there are no other
threads, and then the methods are proved to do one exact thing. `RingPairConsumer` calls two
such rings. (The model has at most one outstanding WriteLease, one stream per consumer id
and one producer stream, as the ring demands of its callers.)

**Host stages.** `HostFrameRing`/`TapRuns` (the tap every CPU consumer reads),
`McapRecorder`/`RecorderRuns` (per-topic budgets, buffer pool, writer thread),
`HostIngress`/`StagedRuns` (ingress slots in turn), `HostIngress`/`ReplayRuns`/`ReplaySource`
(ingress slots picked by the replay), `UploadStage` (captured graphs against the eager path),
`DownloadStage` (pool, events and copies in flight), `StreamWriting`/`StreamRuns`/`StreamFailures`
and `RecordingFormat`/`RecordingReading` (a recording written and read back).

**Pairing.** `FramePairing` is the offline merge, `StereoPairing`/`StereoRuns` the live one.

**Encoding.** `Cdr`, `CdrRoundTrip`, `CdrStreams`: the CDR printer and parser (section 15.3
of the OMG CORBA 3.0 specification, with the little-endian encapsulation header of section
10 of the DDSI-RTPS specification). `RosMessages`, `RosCodec`: the ROS messages on top.
`CdrLayout`, `RosLayout`: which byte of a message is which, stated from the bytes alone.
`SchemaGen`: the order in which a schema lists its message definitions.

## Where the code and its documentation disagree

The model follows the code. Each of these is a lemma.

- `lease_latest` can lease an abandoned slot. Under RoundRobin `latest_` names one if and only
  if the last `slots` write leases were all given up (`DeviceRingAbandons.LatestIsAbandoned`),
  which the producer can count; under ScanForFree it never does. A lease that finds `latest_`
  where it loaded it is of an abandoned slot exactly then (`DeviceRingAbandons.AbandonedLease`,
  and without any interruption `DeviceRingAbandons.FreshLease`). Otherwise it takes a stale
  load of `latest_`, under either policy and on a ring of any size
  (`DeviceRingRuns.StalePickHappens`). Reads under such a lease are not ordered behind the
  writes that were given up (`DeviceRingRuns.AbandonedRace`, `DeviceRingAbandons.FreshRace`),
  only behind those its data_ready event stands for; all other reads are ordered
  (`DeviceRingGpu.NoSlotRace`). The lease says so: its stamp is kNoTimestamp.
- A pair consumer can step back to an older frame: a lease validated between the store that
  makes a slot's sequence number even and the store to `latest_` is ahead of `latest_`, and
  the next step then sees an older slot (`DeviceRingRuns.OutOfOrderHappens`, and from any
  such state `DeviceRingRuns.AheadGoesBack`). Without such a lease frames come in publish
  order, each at most once (`DeviceRingOrder.TakenInOrder`).
- `pipeline/README.md:20-21` says a ring that is too shallow makes `acquire_write` throw.
  Under ScanForFree that throw is unreachable; the producer parks instead
  (`DeviceRingOrder.NeverOutOfSlots`).
- `pipeline/include/host_frame_ring.hpp:48-49` sizes the tap at `consumers + 2`. That is not
  enough for a consumer that still has its old frame when it takes a new one
  (`TapRuns.SizingRuleDrops`). Exact: a publish drops its frame if and only if every slot is
  held or the newest (`TapRuns.DropsIffAllPinned`); it never does while consumers hold at
  most `slots - 2` frames (`TapRuns.NeverDropsWithRoom`).
- `stereo/include/stereo_pairer.hpp:56-58` says every frame pushed comes out exactly once. A
  frame dropped by a full queue never does (`StereoRuns.EveryFrameOnce`).
- `recording/include/recording_writer.hpp:74-76` says the writer stops after an error and
  counts the rest as drops. Pushes begun later are dropped, but the frames staged or being
  copied at that point are still written (`StreamFailures.AfterFailure`): the writer stops if
  and only if there are none once the failed slot is released
  (`StreamFailures.StopsWritingExactly`; `StreamRuns.WritesAfterFailure` has a run where it does
  not). A frame whose write failed is in no counter (`StreamRuns.PushesAccounted`).
- A write of an index record that fails half way leaves what it wrote of it. The reader
  refuses the index if and only if these rests are no whole number of records, and finds as
  many records as frames were written if and only if there are none, and then the right ones
  (`StreamRuns.RecordingReads`).
- A push that overlaps `StreamWriter::close` can return true and lose its frame
  (`StreamRuns.LatePushHappens`); exactly such frames are lost (`StreamRuns.LatePushIsLost`).
- A recorded payload's length is kept in 32 bits: a recording gives whole frames back if and
  only if a frame is smaller than 2^32 bytes (`StreamRuns.ClosedRecordingIsComplete`).
- `recording/include/mcap_recorder.hpp:131-132` counts every refused push in drops(topic); a
  push to a topic that does not exist is refused and counted nowhere (the contract of
  `McapRecorder.McapRecorder.Push`, through `SpareFor` and `TookSpare`).
- A header's stamp survives the split into sec and nanosec if and only if it is below 2^31
  seconds (`RosMessages.StampRoundTrip`); strings, blobs and sequences survive if and only if
  their counted length fits 32 bits (`CdrRoundTrip.RoundTrip`).
- `recording/include/cdr_reader.hpp:20-22` says reads after a failure return zero; array reads
  then leave the caller's array as it was (`CdrStreams.CdrReader.TakeMany`).
- Ingress of kind Staged recognises a double commit only while one slot is outstanding
  (`StagedRuns.CommitAcceptsOutstanding`): the slot acquired last is accepted once for every
  slot outstanding (`StagedRuns.AcceptedOncePerOutstanding`, `StagedRuns.TwoOutstandingDoubleCommit`).
- The frames a pair consumer took and its `reference_skipped` add up to the frames published
  since the first one taken if and only if the publication count grew between any two takes;
  every take at an unchanged count, which an ordinary run has, adds one
  (`PairRuns.SkipsAddUp`, `PairRuns.StillHappens`).
- "A free slot implies a free event" in `DownloadStage::enqueue` holds if and only if no stop
  has found a copy in flight (`DownloadStage.SlotImpliesEvent`, `LostByStops`, and, for the
  other direction, `LossIsFelt`).

## Model

| member | source | states |
|---|---|---|
| `DeviceRingSafety.LeasesExclude` | pipeline/src/device_ring_buffer.cpp:241-278 | in every reachable state no slot is under a write lease and a live read lease at once, and a hold shows in its slot's reader count |
| `DeviceRingSafety.LeasedFrameIsStable` | pipeline/src/device_ring_buffer.cpp:317-407 | for as long as a lease lives its slot carries the stamp and content it was validated with, those of one publication or an abandoned slot's kNoTimestamp; a lease by timestamp is of a published frame within the tolerance |
| `DeviceRingGpu.NoSlotRace` | pipeline/src/device_ring_buffer.cpp:216-293 | two pieces of GPU work on one slot, one of them a write, happen in the order they were enqueued, for both reuse waits and both policies; the one exception is a read whose lease is stamped kNoTimestamp against the writes that data_ready did not stand for when it was enqueued |
| `DeviceRingGpu.ReadFindsItsFrame` | pipeline/src/device_ring_buffer.cpp:306-348 | a GPU read finds the content its lease was validated with: the last one enqueued before it, with every earlier write of the slot finished, but for that exception, and no later one started |
| `DeviceRingGpu.OrderingGpu` | pipeline/src/device_ring_buffer.cpp:216-224 | waiting for a consumer's read_done event puts every read that consumer enqueued on the slot behind the producer |
| `DeviceRingGpu.DropGpu` | pipeline/src/device_ring_buffer.cpp:306-315 | recording read_done before the count falls keeps every read of the slot covered by a live lease or a recorded event |
| `DeviceRingOrder.NeverOutOfSlots` | pipeline/src/device_ring_buffer.cpp:171-214 | under ScanForFree "no writable slot" is never thrown, whatever is leased |
| `DeviceRingOrder.LatestIsPublished` | pipeline/src/device_ring_buffer.cpp:280-304 | under ScanForFree `latest_` names an even slot no writer targets, holding the newest published frame, or the one before it while a publish has yet to store it |
| `DeviceRingOrder.TakenInOrder` | pipeline/src/ring_pair_consumer.cpp:43-62 | under ScanForFree a pair consumer takes frames in publish order, each at most once, unless it took one before `latest_` reached it; or takes an abandoned slot, which its stamp says |
| `DeviceRingRuns.AheadGoesBack` | pipeline/src/ring_pair_consumer.cpp:43-62 | from every state in which a pair consumer holds a frame ahead of `latest_`, its next step can take an older one |
| `DeviceRingRuns.OutOfOrderHappens` | pipeline/src/device_ring_buffer.cpp:280-289 | on a ring of any size, a run in which a pair consumer takes a frame and then an older one |
| `DeviceRingRuns.StalePickHappens` | pipeline/src/device_ring_buffer.cpp:327-333 | on a ring of any size and policy, a run in which a consumer has loaded `latest_` and the slot it names is being rewritten |
| `DeviceRingRuns.AbandonedRace` | pipeline/src/device_ring_buffer.cpp:300-345 | from every state in which an attempt has picked the slot being written, giving that lease up leads to a read, under a lease stamped kNoTimestamp, that is not ordered behind a write enqueued under the lease given up |
| `DeviceRingAbandons.LatestIsAbandoned` | pipeline/src/device_ring_buffer.cpp:241-304 | in every run latest_ names an abandoned slot if and only if the policy is RoundRobin and the last `slots` write leases were all given up (but for a new frame in that slot that only lacks the store of latest_) |
| `DeviceRingAbandons.FreshLease` | pipeline/src/device_ring_buffer.cpp:326-348 | with `latest_` at rest an uninterrupted lease_latest brings kNoTimestamp exactly in that case and else the stamp of the publication latest_ stands for |
| `DeviceRingAbandons.AbandonedLease` | pipeline/src/device_ring_buffer.cpp:326-345 | lease_latest's re-check passes: if `latest_` still is what was loaded, the lease is of an abandoned slot exactly in that case, under ScanForFree never |
| `DeviceRingAbandons.NewestIsWritten` | pipeline/src/device_ring_buffer.cpp:243-246 | under RoundRobin, on a ring of any size, a run in which the slot being written is the newest |
| `DeviceRingAbandons.FreshRace` | pipeline/src/device_ring_buffer.cpp:300-345 | the same for a consumer that loads `latest_` only afterwards, whenever the slot being written is the newest |
| `DeviceRingBuffer.DeviceRingBuffer.Scan` | pipeline/src/device_ring_buffer.cpp:174-192 | one pass over the candidates, as a run of the transition system: the slot found is the first in ring order from the cursor that is not the newest, has no readers and whose read_done events are all complete; else the first that only the GPU still reads and the first leased one |
| `DeviceRingBuffer.DeviceRingBuffer.ReadsRetired` | pipeline/src/device_ring_buffer.cpp:160-169 | true exactly if every one of the slot's read_done events is complete |
| `DeviceRingBuffer.DeviceRingBuffer.ClaimFreeSlot` | pipeline/src/device_ring_buffer.cpp:171-214 | the claim ClaimIsRight states, with the cursor behind a claimed slot, as a run of the transition system |
| `DeviceRingBuffer.ClaimIsRight` | pipeline/src/device_ring_buffer.cpp:171-214 | the first slot from the cursor that is not the newest, not leased and not read by the GPU is claimed whenever there is one; if there is none a non-blocking call gets none and a blocking one claims the first that is not leased, parks on the first leased one only if there is none of those either, and throws only if there is no such slot at all |
| `DeviceRingBuffer.ClaimFree` | pipeline/src/device_ring_buffer.cpp:178-193 | a slot claimed by the scan has no readers and is not the newest; a slot parked on has readers |
| `DeviceRingBuffer.DeviceRingBuffer.FenceAndTake` | pipeline/src/device_ring_buffer.cpp:254-277 | from a claimed slot: granted if nobody reads it, else blocked behind an odd sequence number, or backed out to an even one and dropped |
| `DeviceRingBuffer.DeviceRingBuffer.TakeSlot` | pipeline/src/device_ring_buffer.cpp:254-277 | with no readers the fence, the waits and the lease are one run of the transition system; what is enqueued is one wait for each consumer's last read of the slot and, on the device, one for its previous content |
| `DeviceRingBuffer.DeviceRingBuffer.AcquireNext` | pipeline/src/device_ring_buffer.cpp:241-278 | under RoundRobin the slot next in line is granted unless it is leased, and the cursor moves on |
| `DeviceRingBuffer.DeviceRingBuffer.AcquireScanned` | pipeline/src/device_ring_buffer.cpp:226-278 | under ScanForFree the slot is the one ClaimIsRight states; whatever other threads do before the fence, it is granted, or readers have come and a blocking call waits and another is dropped; without a claim nothing changes, the call blocks or it throws |
| `DeviceRingBuffer.DeviceRingBuffer.PublishSlot` | pipeline/src/device_ring_buffer.cpp:280-293 | the event stands for everything enqueued, the slot has the stamp and an even number, `latest_` names it and one more frame is published, as a run of the transition system |
| `DeviceRingBuffer.DeviceRingBuffer.AbandonSlot` | pipeline/src/device_ring_buffer.cpp:300-304 | the stamp becomes kNoTimestamp and the slot even; `latest_` stays |
| `DeviceRingBuffer.DeviceRingBuffer.LeaseLatest` | pipeline/src/device_ring_buffer.cpp:317-348 | other threads run between any two atomic operations: it ends with a live lease, which is the one returned, or missed; without interruption it leases the slot `latest_` names if it is at rest |
| `DeviceRingBuffer.DeviceRingBuffer.FindByTimestamp` | pipeline/src/device_ring_buffer.cpp:359-389 | the search loop, interrupted anywhere, is a run of the transition system; without interruption it finds the specified best slot |
| `DeviceRingBuffer.DeviceRingBuffer.LeaseByTimestamp` | pipeline/src/device_ring_buffer.cpp:350-407 | other threads run between any two atomic operations: it ends with a live lease, which is the one returned, or missed; without interruption it leases the specified best slot |
| `DeviceRingBuffer.DeviceRingBuffer.HoldSlot` | pipeline/src/device_ring_buffer.cpp:335-346 | from the choice of a slot: the count is raised, and then either the slot is leased under the sequence number seen or the count is lowered and the attempt goes on; without interruption it is leased |
| `DeviceRingBuffer.LeasesBestMatch` | pipeline/src/device_ring_buffer.cpp:364-392 | a slot is leased if and only if one is within the tolerance (for the closest match also not exactly 2^64 - 1 away), and then no usable slot is closer, or, if the first match was asked for, none comes earlier |
| `DeviceRingAttempts.MissesExactly` | pipeline/src/device_ring_buffer.cpp:317-407 | in every run an attempt that ends without a lease saw that there was nothing to lease, or lost each of the rounds it was given to the producer, the slot being written or rewritten; rounds lost, under way and to come are those it was given |
| `DeviceRingBuffer.DeviceRingBuffer.DropSlotHold` | pipeline/src/device_ring_buffer.cpp:306-315 | the consumer's event is recorded behind everything enqueued, then its hold is given back, as a run of the transition system |
| `RingLease.ReadLease.Hold` | pipeline/src/device_ring_buffer.cpp:344-346 | a lease returned carries a live hold of its ring |
| `RingLease.ReadLease.Move` | pipeline/src/ring_lease.cpp:21-32 | the hold moves, the source is left without one, and the ring sees nothing |
| `RingLease.ReadLease.DropHold` | pipeline/src/ring_lease.cpp:11-66 | a hold is given back exactly once; a lease without one does nothing |
| `RingLease.ReadLease.MoveFrom` | pipeline/src/ring_lease.cpp:34-55 | the target's own hold is given back once, the source's moves, self-assignment changes nothing |
| `RingLease.WriteLease.Move` | pipeline/src/ring_lease.cpp:72-75 | the slot moves and the source is spent |
| `RingLease.WriteLease.Publish` | pipeline/src/ring_lease.cpp:89-93 | publishes once; a spent lease is refused |
| `RingLease.WriteLease.Destroy` | pipeline/src/ring_lease.cpp:68-70 | an unpublished slot is abandoned, once; a published or moved one is not |
| `RingLease.WriteLease.MoveFrom` | pipeline/src/ring_lease.cpp:77-87 | the target's slot is abandoned, the source's moves |
| `RingPairConsumer.RingPairConsumer.Step` | pipeline/src/ring_pair_consumer.cpp:43-98 | one step on two rings that other threads use: the consumer changes as specified by what the rings answered; the reference frame was leased by an attempt that goes on from the frame taken last, a partner by a lookup near its stamp, unpaired means all retries were made, the publication count read never falls, both leases are given back; if nobody interrupts, a pair is handed on exactly if the other ring has a frame within the tolerance, and it is the best match |
| `RingPairConsumer.PartnerIsNear` | pipeline/src/ring_pair_consumer.cpp:64-74 | a live lease by timestamp, in any reachable state of a ring, is within the tolerance of the stamp asked for |
| `PairRuns.PairsWithinTolerance` | pipeline/src/ring_pair_consumer.cpp:64-98 | over any run of steps on two rings pairs are numbered in turn, their skew is within the tolerance and the largest is kept, every frame taken was paired or counted unpaired, and the late and missed counters are the pairs that took a retry and the new frames not leased |
| `PairRuns.SkipsAddUp` | pipeline/src/ring_pair_consumer.cpp:54-62 | frames taken plus frames skipped are all published since the first one taken, plus one for every take at an unchanged publication count; equal if and only if there is none |
| `PairRuns.StillHappens` | pipeline/src/ring_pair_consumer.cpp:48-62 | on rings of any size, a run with such a take: a frame is leased, the next is published before the count is read and then taken at that count |
| `FramePairing.PairByTimestamp` | capture/include/frame_pairing.hpp:51-102 | the loops compute the merge's pairs and singles: pairs numbered in stream order with their stamps, skews and indices, of each stream the frames in no pair in order, and statistics that account for every frame |
| `FramePairing.FirstTimestampRegression` | capture/include/frame_pairing.hpp:42-47 | the first index smaller than its predecessor; the length exactly if the stamps never go back |
| `FramePairing.EachFrameOnce` | capture/include/frame_pairing.hpp:20-26 | the merge disposes of every frame of either stream exactly once, in order |
| `FramePairing.ListsRight` | capture/include/frame_pairing.hpp:51-102 | the merge's lists hold pairs within the tolerance, numbered and in stream order, and of either stream exactly the frames in no pair, in order |
| `FramePairing.MaximumMatching` | capture/include/frame_pairing.hpp:51-102 | for non-decreasing streams the pairs are within the tolerance, use no frame twice, and no such set of pairs is larger |
| `FramePairing.SpacedMergeFindsAll` | capture/include/frame_pairing.hpp:49-102 | with consecutive stamps more than twice the tolerance apart the merge returns exactly the set of all pairs within the tolerance |
| `StereoPairing.StereoPairer.Push` | stereo/src/stereo_pairer.cpp:19-50 | the frame, its bytes, stamp and arrival, is queued behind the others, a full queue dropping and counting its oldest; the other stream is untouched; buffers are recycled |
| `StereoPairing.StereoPairer.HoldEntry` | stereo/src/stereo_pairer.cpp:52-66 | the oldest frame of one stream becomes the one held, and the buffer held before goes back; the other stream is untouched |
| `StereoPairing.StereoPairer.TryPop` | stereo/src/stereo_pairer.cpp:68-138 | something comes out if and only if both queues have a frame, or the head of the only one that does is `hold` old; it is both heads if their stamps are within the tolerance, else the older, and leaves the queue |
| `StereoPairing.ChoiceIsRight` | stereo/src/stereo_pairer.cpp:68-138 | the same of the choice the runs are made of |
| `StereoRuns.StepsAreCalls` | stereo/src/stereo_pairer.cpp:68-138 | a step of a run is what try_pop does |
| `StereoRuns.LoneFramesHaveWaited` | stereo/src/stereo_pairer.cpp:121-137 | in every run a pop adds a result if and only if both streams have frames queued, or only one has and its oldest is `hold` old; the result is as above, and numbered in turn; otherwise nothing changes |
| `StereoRuns.EveryFrameAccounted` | stereo/src/stereo_pairer.cpp:19-66 | per stream: pushes are paired, unpaired, overrun or queued; at most queue_frames + 1 buffers are alive |
| `StereoRuns.EveryFrameOnce` | stereo/include/stereo_pairer.hpp:54-59 | every frame of either stream that left the queue is in exactly one result, or was dropped by the full queue and is in none |
| `StereoRuns.LiveIsOfflinePrefix` | stereo/src/stereo_pairer.cpp:68-119 | for any interleaving without overrun and hold expiry the results are a prefix of the offline merge of the full streams, whatever is still to come |
| `StereoRuns.DrainedIsOffline` | stereo/src/stereo_pairer.cpp:121-138 | drained at the end, the live pairer has done exactly what the offline merge does |
| `StereoRuns.LivePairsAreOfflinePairs` | stereo/include/stereo_pairer.hpp:16-19 | with stamps spaced more than twice the tolerance apart every live pair is an offline pair, even with overruns and hold expiry |
| `HostFrameRing.Tap.constructor` | pipeline/src/host_frame_ring.cpp:42-62 | a new tap is empty and running, its slots free |
| `HostFrameRing.Tap.AddConsumer` | pipeline/src/host_frame_ring.cpp:66-74 | a consumer joins with a cursor at zero, and none once publishing has begun |
| `HostFrameRing.FirstFree` | pipeline/src/host_frame_ring.cpp:87-92 | the slot found is the first that nobody holds and that is not the newest; none is found only if there is none |
| `HostFrameRing.Tap.Reserve` | pipeline/src/host_frame_ring.cpp:79-101 | publish's first critical section |
| `HostFrameRing.Tap.Copy` | pipeline/src/host_frame_ring.cpp:110 | the bytes land in the reserved slot and no other changes |
| `HostFrameRing.Tap.Finalise` | pipeline/src/host_frame_ring.cpp:112-128 | the slot becomes the newest, the reservation ends, the one before goes free unless held |
| `HostFrameRing.Tap.Publish` | pipeline/src/host_frame_ring.cpp:76-130 | stopped, without room, too large or done, each with its exact condition; done leaves the bytes in the newest slot under the next number |
| `HostFrameRing.Tap.AcquireLatest` | pipeline/src/host_frame_ring.cpp:132-162 | a running tap hands out its newest frame if and only if its number is above the consumer's cursor, whatever was passed over: one hold more, the cursor on it, the frames between counted skipped; else it waits |
| `HostFrameRing.Tap.Release` | pipeline/src/host_frame_ring.cpp:36-39 | one hold less; the slot is free with the last one unless it is the newest |
| `TapRuns.InUseExact` | pipeline/src/host_frame_ring.cpp:31-39 | in_use always is the number of slots held, being copied into, or newest; it never exceeds the peak nor the peak the slots |
| `TapRuns.HeldFrameNeverChanges` | pipeline/src/host_frame_ring.cpp:76-162 | from when it is taken until it is released a frame's bytes and description do not change and are those of its publication |
| `TapRuns.DropsIffAllPinned` | pipeline/include/host_frame_ring.hpp:79-80 | a publish drops its frame if and only if every slot is held or the newest |
| `TapRuns.NeverDropsWithRoom` | pipeline/include/host_frame_ring.hpp:48-49 | no publish drops while consumers hold at most slots - 2 frames |
| `TapRuns.TakesNewest` | pipeline/src/host_frame_ring.cpp:144-155 | a consumer that is behind by any number of frames gets the newest publication, and what it took and skipped adds up to its cursor |
| `TapRuns.ServedExactly` | pipeline/src/host_frame_ring.cpp:139-142 | in every run a consumer that asks is served if and only if the tap runs and anything was published since it last took a frame |
| `TapRuns.PeakExact` | pipeline/src/host_frame_ring.cpp:31-33 | the peak is the most slots that were ever in use at once |
| `TapRuns.SizingRuleDrops` | pipeline/include/host_frame_ring.hpp:48-49 | with one consumer and three slots a publish can drop |
| `McapRecorder.DepthWithinBudget` | recording/src/mcap_recorder.cpp:125-134 | a topic has room for a message, and a derived depth keeps its queue within its memory unless one message exceeds it |
| `McapRecorder.DepthIsUsed` | recording/src/mcap_recorder.cpp:123-134 | the depth is the one given, or the one asked for and at least four, or as much as the memory holds: with one message more it would not |
| `McapRecorder.McapRecorder.AddTopic` | recording/src/mcap_recorder.cpp:91-138 | refused exactly after start, without a message size and for a type declared before with another schema text; else a topic with the derived depth and no buffers, and the type's text is on record |
| `McapRecorder.McapRecorder.Start` | recording/src/mcap_recorder.cpp:140-165 | every topic gets depth + 1 buffers, once; refused without topics |
| `McapRecorder.McapRecorder.TakeSpare` | recording/src/mcap_recorder.cpp:167-186 | a buffer exactly if the topic exists, the recorder runs, fewer messages are queued than the depth and the pool is not empty; it is the pool's last; else a drop |
| `McapRecorder.McapRecorder.Enqueue` | recording/src/mcap_recorder.cpp:188-215 | queued and counted, or, if the recorder was closed meanwhile, the buffer returned and a drop counted |
| `McapRecorder.McapRecorder.Push` | recording/include/mcap_recorder.hpp:234-246 | accepted exactly if the recorder runs, fewer messages are queued than the depth and a buffer is free; the message is that buffer with the encoder's bytes behind it; else a drop, or nothing for a topic that does not exist |
| `McapRecorder.McapRecorder.TakeMessage` | recording/src/mcap_recorder.cpp:231-246 | the oldest message leaves the queue and the counts |
| `McapRecorder.McapRecorder.Drain` | recording/src/mcap_recorder.cpp:223-287 | after close the writer thread hands everything queued to the file, in order, and ends |
| `McapRecorder.McapRecorder.Close` | recording/src/mcap_recorder.cpp:289-301 | stops the recorder once |
| `RecorderRuns.PoolNeverRunsDry` | recording/include/mcap_recorder.hpp:187-192 | with one pusher per topic spare + queued + being encoded + in the writer's hand is depth + 1, the empty-pool branch is unreachable, queued never exceeds depth, bytes_in_flight is the size of the queue |
| `RecorderRuns.BufferWhileRoom` | recording/src/mcap_recorder.cpp:167-186 | in every run a push by a topic's idle pusher gets a buffer if and only if the recorder runs and fewer messages are queued than the topic's depth |
| `RecorderRuns.BuffersAreClean` | recording/src/mcap_recorder.cpp:217-221 | every message accepted is the encapsulation header and what its own encoder wrote, nothing its buffer carried before, and a free buffer holds the header alone: buffers are cleared and used again |
| `RecorderRuns.EachBufferOnce` | recording/src/mcap_recorder.cpp:140-246 | each of a topic's depth + 1 buffers is at any moment in exactly one place: free, being encoded into, queued, or with the writer |
| `RecorderRuns.InOrderAndAccounted` | recording/src/mcap_recorder.cpp:188-287 | messages reach the file in the order accepted, numbered without a gap per topic (in 32 bits), and every push is written, dropped or on its way |
| `RecorderRuns.CloseHandlesEverything` | recording/src/mcap_recorder.cpp:289-301 | when the writer has ended every accepted message has been handed over, every finished push is written or dropped, and nothing is accepted any more |
| `Cdr.LittleNumber` | recording/include/cdr_writer.hpp:98-102 | a number that fits comes back from its little-endian bytes |
| `CdrLayout.LittleByte` | recording/include/cdr_writer.hpp:98-102 | byte i of a number is the number divided by 256 to the i, modulo 256 |
| `CdrLayout.NumberIsWeighted` | recording/include/cdr_reader.hpp:129-140 | a number read is the sum of its bytes, byte i times 256 to the i |
| `CdrLayout.MessageOnWire` | recording/include/cdr_writer.hpp:24-109 | a message of any fields is the bytes 0, 1, 0, 0 and then each field behind the one before, a number at the next multiple of its size behind zeros, lowest byte first; strings with count and terminator, sequences with their count, an empty array nothing |
| `CdrLayout.ReadsWhatIsThere` | recording/include/cdr_reader.hpp:42-154 | on any bytes, a field the reader takes stands there in that form, and the reader goes on right behind it |
| `CdrLayout.FindsWhatIsThere` | recording/include/cdr_reader.hpp:42-154 | and a field that stands there in that form is read |
| `CdrStreams.CdrWriter.Clear` | recording/include/cdr_writer.hpp:78-83 | leaves the encapsulation header alone |
| `CdrStreams.CdrWriter.Align` | recording/include/cdr_writer.hpp:94-96 | the padding loop yields the specified padding |
| `CdrStreams.CdrWriter.WriteStr` | recording/include/cdr_writer.hpp:38-42 | one string field more |
| `CdrStreams.CdrWriter.WriteF64Array` | recording/include/cdr_writer.hpp:44-50 | one fixed array more |
| `CdrStreams.CdrWriter.WriteF64Seq` | recording/include/cdr_writer.hpp:53-57 | one sequence more |
| `CdrStreams.CdrWriter.WriteBoolSeq` | recording/include/cdr_writer.hpp:63-67 | the flags as octets, one field more |
| `CdrStreams.CdrWriter.WriteOctets` | recording/include/cdr_writer.hpp:69-74 | one byte blob more |
| `CdrStreams.CdrReader.constructor` | recording/include/cdr_reader.hpp:32-40 | opens behind the header; shorter messages have failed |
| `CdrStreams.CdrReader.TakeOne` | recording/include/cdr_reader.hpp:129-140 | an aligned number, or zero and failure |
| `CdrStreams.CdrReader.TakeMany` | recording/include/cdr_reader.hpp:142-154 | an aligned run into the caller's array, which a failed read leaves alone |
| `CdrStreams.CdrReader.TakeCounted` | recording/include/cdr_reader.hpp:85-96 | a sequence whose count is the array's, or failure |
| `CdrStreams.CdrReader.ReadStr` | recording/include/cdr_reader.hpp:57-66 | a string; a zero length fails |
| `CdrStreams.CdrReader.ReadOctets` | recording/include/cdr_reader.hpp:105-115 | a byte blob |
| `CdrRoundTrip.PaddedIsAligned` | recording/include/cdr_reader.hpp:126-131 | the writer's padding loop ends where the reader's closed form aligns to |
| `CdrRoundTrip.GetPut` | recording/include/cdr_writer.hpp:98-109 | reading one field back gives it, and the reader stands where the writer stood |
| `CdrRoundTrip.RoundTrip` | recording/include/cdr_reader.hpp:117-121 | any list of fields comes back if and only if every counted length fits 32 bits, and then the message is exhausted |
| `CdrRoundTrip.ReadsStayInside` | recording/include/cdr_reader.hpp:117-154 | on arbitrary bytes reading never goes back nor past the end; the fields read are good up to some field and nothing behind it, and good to the last exactly if ok() |
| `CdrRoundTrip.FailureSticks` | recording/include/cdr_reader.hpp:19-24 | after a failure all reads yield nothing, move nothing, and exhausted() is false |
| `RosMessages.StampRoundTrip` | recording/src/ros_messages.cpp:18-22 | the stamp is rejoined if and only if it is below 2^31 seconds |
| `RosMessages.ImageRoundTrip` | recording/src/image_replay_source.cpp:36-51 | decoding an encoded image gives it back if and only if its stamp is below 2^31 seconds |
| `RosMessages.ImuRoundTrip` | recording/src/ros_messages.cpp:69-106 | the same for Imu |
| `RosMessages.MagneticFieldRoundTrip` | recording/src/ros_messages.cpp:78-111 | the same for MagneticField |
| `RosMessages.FluidPressureRoundTrip` | recording/src/ros_messages.cpp:83-116 | the same for FluidPressure |
| `RosLayout.HeaderLayout` | recording/src/ros_messages.cpp:18-22 | seconds in 32 bits at byte 4, nanoseconds at byte 8, then the frame id |
| `RosLayout.ImuLayout` | recording/src/ros_messages.cpp:69-76 | each double of an Imu message at its byte offset: orientation, angular velocity, linear acceleration, each with its covariance behind it |
| `RosLayout.MagneticLayout` | recording/src/ros_messages.cpp:78-81 | the same for MagneticField |
| `RosLayout.PressureLayout` | recording/src/ros_messages.cpp:83-86 | the same for FluidPressure |
| `RosLayout.ImageLayout` | recording/src/ros_messages.cpp:6-14 | the same for Image: height before width, encoding, byte order, row length, pixels |
| `RosCodec.EncodeImage` | recording/src/ros_messages.cpp:6-47 | the writer calls produce the message of the image's fields |
| `RosCodec.DecodeImageMessage` | recording/src/image_replay_source.cpp:36-51 | the reader calls produce what parsing the fields gives |
| `RosCodec.EncodeImu` | recording/src/ros_messages.cpp:69-76 | as EncodeImage |
| `RosCodec.DecodeImuMessage` | recording/src/ros_messages.cpp:88-106 | as DecodeImageMessage, negative seconds giving stamp 0 |
| `RosCodec.EncodeMagneticField` | recording/src/ros_messages.cpp:78-81 | as EncodeImage |
| `RosCodec.DecodeMagneticFieldMessage` | recording/src/ros_messages.cpp:108-111 | as DecodeImuMessage |
| `RosCodec.EncodeFluidPressure` | recording/src/ros_messages.cpp:83-86 | as EncodeImage |
| `RosCodec.DecodeFluidPressureMessage` | recording/src/ros_messages.cpp:113-116 | as DecodeImuMessage |
| `RecordingFormat.DecodeEncode` | recording/include/recording_format.hpp:36-65 | an index record comes back from its 32 bytes |
| `RecordingFormat.RecordLayout` | recording/include/recording_format.hpp:36-65 | stamp, arrival, offset, length and frame id at bytes 0, 8, 16, 24 and 28 of a record, each lowest byte first |
| `RecordingFormat.IndexRoundTrip` | recording/src/recording_reader.cpp:131-138 | an index file of any records parses to those records |
| `RecordingFormat.IndexLayout` | recording/include/recording_format.hpp:32-33 | record i of an index is at byte 32 i |
| `StreamWriting.StreamWriter.Reserve` | recording/src/recording_writer.cpp:126-138 | a slot exactly if the stream runs, has no error and has room; else a drop |
| `StreamWriting.StreamWriter.Push` | recording/src/recording_writer.cpp:120-159 | wrong size, no room, or staged in the slot behind the others with its record |
| `StreamWriting.StreamWriter.WriteFrame` | recording/src/recording_writer.cpp:196-215 | the payload goes to the current offset; offset and counters move only if all landed; a failed write leaves part of the payload, or all of it and part of its record |
| `StreamWriting.StreamWriter.Advance` | recording/src/recording_writer.cpp:177-185 | the slot is free again; the first failure is kept |
| `StreamWriting.StreamWriter.Close` | recording/src/recording_writer.cpp:217-240 | everything published is written first, then the file is cut to the grid; once |
| `StreamRuns.WriterOffTheCopy` | recording/src/recording_writer.cpp:140-143 | the writer never is on the slot a copy is running into |
| `StreamRuns.PushGetsSlot` | recording/src/recording_writer.cpp:126-138 | in every run a push of the right size gets a slot if and only if the stream runs, no write has failed and fewer frames are staged than there are slots |
| `StreamRuns.PushesAccounted` | recording/src/recording_writer.cpp:120-215 | pushes are written, dropped, failed, staged or in progress |
| `StreamRuns.RecordingReads` | recording/src/recording_reader.cpp:131-176 | at any moment the index is refused exactly if the rests of torn records are no whole number of records, and has as many records as frames were written exactly if there are none; then record i names, at i strides, the whole payload and metadata of an accepted frame, in the order accepted |
| `StreamRuns.ClosedRecordingIsComplete` | recording/src/recording_writer.cpp:217-233 | closed without failures and late pushes, reading frame i gives the i-th accepted push; its bytes whole if and only if a frame is below 2^32 bytes |
| `StreamRuns.LatePushIsLost` | recording/src/recording_writer.cpp:153-169 | when the writer has left, accepted frames are written or failed, but for one whose copy was still running |
| `StreamRuns.LatePushHappens` | recording/src/recording_writer.cpp:153-169 | a run in which a push succeeds and its frame is lost |
| `StreamRuns.WritesAfterFailure` | recording/src/recording_writer.cpp:161-215 | a run in which a frame is written after another's write failed, behind any rest of a record it may have left |
| `StreamFailures.AfterFailure` | recording/include/recording_writer.hpp:74-76 | from any point after a failed write: every push begun later is dropped, and the frames tried since and still to be tried are exactly those staged or being copied at that point, in order; a writer that has left has tried them all but a late push |
| `StreamFailures.StopsWritingExactly` | recording/src/recording_writer.cpp:161-185 | once a write has failed the writer tries no further one, in any continuation, if and only if nothing was staged or being copied when the failed slot was released, or it had left |
| `RecordingReading.Records` | recording/src/recording_reader.cpp:136-138 | the bytes of an index as records |
| `RecordingReading.StreamReader.constructor` | recording/src/recording_reader.cpp:131-144 | refused exactly if the index is no whole number of records |
| `RecordingReading.StreamReader.ReadFrame` | recording/src/recording_reader.cpp:159-176 | out of range, the record's payload, or a short read if the data ends before it, however the reads are split |
| `RecordingReading.Pair` | recording/src/recording_reader.cpp:178-194 | two streams that never go back are merged, to a maximum matching; otherwise says why not |
| `RecordingReading.Epoch` | recording/src/recording_writer.cpp:294-303 | the smallest first stamp of the streams that have one |
| `HostIngress.HostIngressRing.Acquire` | pipeline/src/host_ingress_ring.cpp:55-73 | the next slot in turn, waiting exactly while depth slots are out |
| `HostIngress.HostIngressRing.Commit` | pipeline/src/host_ingress_ring.cpp:80-104 | accepted exactly for the slot acquired last, while something is outstanding |
| `HostIngress.HostIngressRing.Abandon` | pipeline/src/host_ingress_ring.cpp:106-115 | likewise; the acquisition is undone |
| `HostIngress.HostIngressRing.CommitExternal` | pipeline/src/host_ingress_ring.cpp:124-147 | accepted exactly for an idle slot; "still in flight" exactly for any other |
| `HostIngress.HostIngressRing.SlotConsumed` | pipeline/src/host_ingress_ring.cpp:149-163 | true exactly if idle or released with its upload finished, and then idle |
| `HostIngress.HostIngressRing.TakeReady` | pipeline/src/host_ingress_ring.cpp:165-176 | the oldest committed slot with its frame |
| `HostIngress.HostIngressRing.Release` | pipeline/src/host_ingress_ring.cpp:195-208 | event recorded, then the slot released |
| `StagedRuns.AcquiredSlotIsFree` | pipeline/src/host_ingress_ring.cpp:55-73 | every frame ever committed in the slot being filled was released and its upload has retired |
| `StagedRuns.AcquiresWhileFree` | pipeline/src/host_ingress_ring.cpp:55-73 | in every run an acquire goes on if and only if the ring runs and fewer frames than slots are committed and not released; it then waits for that slot's last upload and no longer |
| `StagedRuns.ReadyIsCommittedUnpopped` | pipeline/src/host_ingress_ring.cpp:99-176 | the queue is exactly the committed frames not popped, in order, modulo depth, across commits and abandons |
| `StagedRuns.CommitAcceptsOutstanding` | pipeline/src/host_ingress_ring.cpp:90-96 | with one acquire at a time commit and abandon accept the slot being filled and no other |
| `StagedRuns.AcceptedOncePerOutstanding` | pipeline/src/host_ingress_ring.cpp:90-122 | the slot acquired last is accepted by as many commits in a row as slots are outstanding and no more, and queued by each |
| `StagedRuns.AbandonAcceptsTheOneBefore` | pipeline/src/host_ingress_ring.cpp:93-96 | after an abandon the slot acquired before it is accepted exactly if it is still outstanding, the abandoned one itself only in a ring of one |
| `StagedRuns.TwoOutstandingDoubleCommit` | pipeline/src/host_ingress_ring.cpp:93-96 | with two outstanding, one slot is accepted twice and queued without having been filled again |
| `ReplaySource.ImageReplaySource.Reclaim` | recording/src/image_replay_source.cpp:116-120 | exactly the consumed slots are given back |
| `ReplaySource.ImageReplaySource.AcquireSlot` | recording/src/image_replay_source.cpp:122-135 | the first slot not held after reclaiming; none exactly if all are still held |
| `ReplaySource.ImageReplaySource.Deliver` | recording/src/image_replay_source.cpp:152-162 | the pixels are in the slot, the slot held and committed; the commit cannot be refused |
| `ReplaySource.ImageReplaySource.OnMessage` | recording/src/image_replay_source.cpp:137-163 | not started, undecodable or too large (counted), no slot, or delivered with the player's stamp |
| `ReplayRuns.ReplayNeverOverwrites` | recording/src/image_replay_source.cpp:116-162 | the slot filled and committed is idle: not queued, not popped, not read by an upload |
| `ReplayRuns.UploadsReadTheFrame` | pipeline/src/host_ingress_ring.cpp:124-208 | what is popped, and what an upload reads until it retires, is the frame committed |
| `ReplayRuns.ConsumedStays` | capture/include/frame_sink.hpp:103-110 | once consumed() would be true it is, for every asker, until the slot is committed again |
| `ReplayRuns.ConsumedExactly` | pipeline/src/host_ingress_ring.cpp:149-163 | in every run a slot counts as consumed if and only if it is not queued, not popped and no upload reads it |
| `ReplayRuns.ReclaimPass` | recording/src/image_replay_source.cpp:114-122 | over a whole pass, whatever other threads do meanwhile: a slot consumed when it began is given back, one not consumed when it ends is not |
| `ReplayRuns.GivesUpOnlyWhenFull` | recording/src/image_replay_source.cpp:124-148 | a message is given up for want of a slot only if every slot was held and none consumed when its last pass began; the slot found otherwise was free or is consumed |
| `UploadStage.Uploader.CaptureGraphs` | pipeline/src/upload_stage.cpp:111-140 | one graph per output slot, with the ingress and scratch slots it is congruent to |
| `UploadStage.Uploader.EnqueueEager` | pipeline/src/upload_stage.cpp:142-151 | copy, slot given back, transform |
| `UploadStage.Uploader.ProcessEager` | pipeline/src/upload_stage.cpp:208-234 | without graphs: through the next scratch slot, or dropped if no output slot is free |
| `UploadStage.Uploader.Process` | pipeline/src/upload_stage.cpp:189-260 | refused exactly if larger than the input; otherwise direct, eager, graph or fallback as specified |
| `UploadStage.UploadedIsTransformed` | pipeline/src/upload_stage.cpp:142-260 | after any run, on every path, the frame's output slot holds the transform of its bytes, over what the scratch slot held behind them, and no other output slot changes; a frame to be transformed that gets no output slot is counted dropped |
| `UploadStage.GraphRefinesEager` | pipeline/src/upload_stage.cpp:236-260 | over any frames the stage with graphs leaves the same outputs as the stage without |
| `UploadStage.FallsBackExactly` | pipeline/src/upload_stage.cpp:78-90 | fed by a Staged ring a frame falls back if and only if it is short or the refused frames are no whole number of ingress rounds |
| `UploadStage.SlotsGoBackOnce` | pipeline/src/upload_stage.cpp:189-260 | every popped slot goes back exactly once, in order, whichever way its frame went |
| `DownloadStage.DownloadStage.AcquireSlot` | pipeline/src/host_frame_pool.cpp:51-67 | the slot given back last, or a drop |
| `DownloadStage.DownloadStage.Enqueue` | pipeline/src/download_stage.cpp:67-100 | succeeds exactly with a slot and an event, which are then in flight together; else the slot goes back |
| `DownloadStage.DownloadStage.Poll` | pipeline/src/download_stage.cpp:102-146 | only the oldest copy is published, and only once its event says so; its event is free again |
| `DownloadStage.CopyTargetIsExclusive` | pipeline/src/download_stage.cpp:67-100 | a slot being copied into is not free, not in flight and not handed out |
| `DownloadStage.HandedOutInOrder` | pipeline/src/download_stage.cpp:102-146 | in any run, stops included, frames are handed out in the order their copies were enqueued, each once and only when its copy has retired; none is left out as long as no stop finds a copy in flight |
| `DownloadStage.SlotImpliesEvent` | pipeline/src/download_stage.cpp:76-84 | if no stop found a copy in flight, a reserved slot has a free event |
| `DownloadStage.LostByStops` | pipeline/src/download_stage.cpp:54-65 | events are lost if and only if a stop finds copies in flight |
| `DownloadStage.LossIsFelt` | pipeline/src/download_stage.cpp:79-84 | once an event is lost some further run gives up a frame that had a slot |
| `DownloadStage.StopLosesEvents` | pipeline/src/download_stage.cpp:54-65 | a run in which a stop loses an event |
| `SchemaGen.SchemaOrder` | tools/ros_schemas/ros_schema_gen.cpp:122-150 | the order has the root first, no duplicate, and exactly the types reachable from the root, cycles or not; there is none if and only if a reachable type has no definition |
| `SchemaGen.DepthFirst` | tools/ros_schemas/ros_schema_gen.cpp:122-134 | depth first in field order: each type is the first unlisted dependency of the type listed last that has one, and at the end there is none |
| `SchemaGen.Collector.Collect` | tools/ros_schemas/ros_schema_gen.cpp:125-134 | the recursive visit terminates on every graph and is the depth-first search, one type at a time |
| `SchemaGen.BuildSchema` | tools/ros_schemas/ros_schema_gen.cpp:136-150 | the schema text of that order, or failure exactly if a definition is missing |
| `SchemaGen.SectionText` | tools/ros_schemas/ros_schema_gen.cpp:142-149 | behind the root's text each type has, on lines of their own, the rule, its name and its own definition's text |

## Left out

- Memory orders: the ring's atomics are sequentially consistent here.
- Progress: that a blocking acquire returns, that a parked producer is woken (`pipeline/src/device_ring_buffer.cpp:211` can park on a count that is already zero), that a waiting consumer is notified.
- CUDA errors, including a read_done event that could not be recorded, kernels, textures and transfers themselves: a transform is a function of its input, a copy is instantaneous or a sequence of byte stores.
- Events as the stage's `scratch_free` and the host side of `HostSync` waits: the ring's log orders reuse on the producer's stream.
- Unleased inspection of the ring (`get_view_by_timestamp`, `read_was_clean`), wait_seq and the counters kept for printing.
- Wrap-around of 64-bit counters and sequence numbers; stamps are below 2^63 in pairing, so that signed differences are exact.
- DeviceRingBuffer.DeviceRingBuffer.AcquireScanned: other threads run between the scan and the fence; the scan itself, publishing, abandoning and dropping a hold are each one uninterrupted call of the class, and interleaved in the transition system.
- RingPairConsumer.RingPairConsumer.Step: the stamp read by the peek, which the code does not use; the pause before a retry is other threads running.
- RecorderRuns.PoolNeverRunsDry: one pushing thread per topic, which is the recorder's contract.
- The MCAP container and its failures, chunk flushing, buffer capacity (`grew`); a message buffer is an identity and its bytes, moved as the code moves it.
- Failures inside the file system beyond failed writes: opening, cutting and closing files succeed, and bytes written stay.
- ReplaySource.ImageReplaySource.AcquireSlot: nothing else runs between its polls; the interleaving is in `ReplayRuns`. A stopped player looks like no time left. Frame ids and receive stamps of a replayed frame are not modelled.
- The player itself: pacing, rebasing of stamps, reading MCAP files.
- UploadStage.SlotsGoBackOnce: uploading without a transform waits for an output slot; that it gets one is assumed there.
- DownloadStage: a slot returned by stop() may still be written by a copy that has not retired; sinks, the pool's peak counter and the thread's sleep.
- The manifest and the formatting of times, `is_reconnect_seam`, health lines, YAML, the topic graph.
- `DisparityImage` is only encoded by the code, never decoded, so there is no round trip to state.
- SchemaGen.SchemaOrder: a definition's dependency list is given; how lines of a .msg file are split into it, name normalisation and header generation are not modelled.
- Cameras, PTP, calibration, viewers, debayering, inference, LatencyProbe and LatestFrame.
