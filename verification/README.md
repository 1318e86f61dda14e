# Janus FTL plugin: a verified model

The Janus FTL plugin takes live video from streamers over the FTL protocol and hands it to
Janus viewers. This project models, in Dafny, the parts of it that carry state, and proves
what they keep over every run. `dafny verify dfyconfig.toml` checks everything.

Each stateful part is given twice: as a class (or a method) that works in place with the loops of
the original, and as functions on values that specify it. The class is proved to do what the
functions say; the lemmas about the functions then hold of it.

| files | part of the plugin |
|---|---|
| `SequenceCounter`, `SequenceTracking`, `SequenceHistory`, `SequenceDepartures`, `SequenceTimeouts`, `NackProvenance`, `SequenceRestarts` | unwrapping 16-bit RTP sequence numbers; finding lost packets; asking for them again; following a source that starts over |
| `RtpPackets`, `H264Depacketizer`, `Keyframes`, `MediaConnection` | the way of a packet from the tracker to the viewers, the keyframe store and the decoder's byte stream |
| `ServerModel`, `ServerInvariants`, `ServerLifetimes`, `ServerStreams`, `ServerTasks`, `ServerRequests`, `FtlServer` | the server's event loop, its asynchronous tasks, media ports and stream ids |
| `ControlFraming`, `ControlText`, `ControlConnection`, `FtlControlConnection`, `RelayRoundTrip`, `ControlHandshake`, `ControlRuns` | finding commands in the received bytes, the handshake, the stream attributes, and the client that prints them on a relay |
| `JanusRegistry`, `JanusFtl` | which sessions watch which channel, what the service and the orchestrator are told |
| `StreamLifecycle`, `StreamsAtRest` | server and plugin together: the callbacks of the one, the stops asked for by the other |
| `StreamAdmission` | server and control connections together |
| `Collections` | options, bytes, sets and sequences |

## Main results

- **The bounded tracker is as good as the whole history.** On every run over any 16-bit input,
  `missing` is exactly the numbers after the first and up to 17 below the highest, minus those
  received, those given up in a dropout and those a NACK timeout erased (`MissingIsUnreceived`).
  For a well-behaved source these are the source's own numbers (`EndToEnd`).
- **Every NACK is accounted for.** On every run and any clock, each outstanding NACK was sent by one
  packet, at that packet's time, for a number missing then (`NacksAreSent`); it stays until it is
  answered, timed out, evicted with a number of the same 16 bits, or tracking starts over
  (`NackStaysIff`); and it times out exactly when the packet that sent it came at least the timeout
  before (`ExpiresIff`, `ErasedWasAskedFor`).
- **A source may start over.** On every run the counter starts over exactly at a packet far from the
  highest that is one above the last such packet since it was reset (`ResyncIff`); tracking then
  begins anew there and follows the source (`RestartEndToEnd`, `RestartInOrder`).
- **A keyframe reaches the decoder.** NAL units packetized by section 5.8 of RFC 3984, sent as one
  frame by a well-behaved source and delivered in any order among other video and any audio, come out of
  tracker, keyframe store and depacketizer as the byte stream of those NAL units
  (`VideoReachesDecoder`).
- **The current keyframe is the latest complete frame** that has ended, on every run
  (`LatestKeyframe`); packets make a complete frame exactly when their numbers are that many in a
  row and the highest has the marker (`CompleteIff`).
- **Ports and stream ids are conserved** over every interleaving of events and tasks
  (`PortConservation`, `SingleFate`), and a started stream is held exactly until its close or a stop
  for it is handled (`HeldUntilReleased`).
- **Every task has its cause.** In every reachable state a step starts each task exactly when it is
  called for, and once (`StartedIff`); over every run no request of a connection is lost or served
  twice (`RequestsAreServed`), streams and keys are served only to the connection and channel that
  asked (`EverythingIsAsked`), and the streams asked to stop are exactly those counted as stopped
  (`StoppedAreAsked`).
- **Server and plugin agree**: on every run of the two together the ids are the same, and every live
  stream is known to the server (`ServerAndPluginAgree`). After every run that comes to rest, the
  live streams are exactly the active ones, except those whose stop was handled while they were
  being started (`LiveIffActive`); the server keeps such a stream until its close, or another stop
  for it, is handled (`KeptUntilFreed`).
- **Every stream is admitted**: on every run of the server and its connections, each stream id was
  issued for a connection that asked for the key of the stream's channel and was provided one that
  matched its client's hash (`EveryStreamIsAdmitted`).
- **Framing does not depend on chunking**, for exactly the commands `Framable` describes
  (`FramingIgnoresChunking`, `FramedIff`).
- **Relayed metadata is rebuilt** field for field exactly when the vendor strings allow it
  (`RelayRoundTripIff`), and **no media port is requested without a key that turns the payload last
  sent into the hash the client gave**
  (`HandshakeSafety`).
- **The handshake succeeds exactly with the right key**: whatever the hash function, the payload and
  the chunks, a client that answers the payload is authenticated for its channel when a key with its
  hash is given, and stopped otherwise (`HandshakeIff`); a relay's whole connection, from the first
  byte to the media port, follows (`RelayConnects`).
- **Viewers, streams and subscriptions are accounted for** over every run of the registry
  (`ViewerConservation`, `StreamAccounting`, `SubscriptionsDoNotLeak`). An Edge node subscribes when
  the first viewer comes to a channel without a stream, unsubscribes when the last one goes, and
  sends nothing else (`EdgeTells`).

## Where the code departs from its intent

The model does what the code does. Each point is a lemma with the exact condition,
followed by a failing case where the condition does not show one.

- A packet reordered across a wrap of the sequence number is placed in the new cycle, and numbers
  past 32 bits are misplaced: `ExactIff`, `ReorderedAcrossWrapIsMisplaced`.
- A wrap among the first three packets is not counted; starting at 65535 the counter locks one cycle
  low: `FirstThreeIff`.
- The NACK timeout erases the 16-bit key from `missing`, not the extended number. An expired number
  of 65536 or more stays, and another number can be erased in its place: `TimeoutExactIff`,
  `TimeoutForgetsIff`, `CollateralIff`. Runs in which this happens: `ExpiredRowStays`,
  `SecondCycleIsKept`, `BurstErasesSeven`, `TimeoutErasesAnother`.
- A NACK outstanding for a whole cycle captures the new packet with the same low 16 bits, which
  happens to every source that loses one packet for good and is otherwise in order: `TrackExactIff`,
  `LostPacketCapturesNextCycle`, `OldNackCapturesNewPacket`.
- A stray packet, far from the highest number, is tracked although it is not valid, and the buffer's
  eviction can forget the NACK of another number with the same low 16 bits: `StrayIsHeld`,
  `EvictionForgetsNack`.
- A channel id of 2^32 or more is taken for its low 32 bits: `HandshakeIff`.
- The delimiter scan starts over without looking again at the character that did not match, and
  looks back only four characters when a chunk arrives: a command that ends in a carriage return
  can be missed: `FramedIff`, `TrailingReturnIsMissed`.
- The port search counts in 16 bits. With the range ending at 65535 and full it goes on at port 0:
  `ReservedInRangeIff`, `FullRangeGoesOnAtZero`. With all ports taken it does not end:
  `SearchNeverEnds`.
- The close of a stream that is handled before its start is lost; the stream is then held until a
  stop for it, or another close, is handled: `CloseReleasesIff`, `HeldUntilReleased`,
  `StopAfterLostClose`.
- The stop of a replaced stream is lost if the stream is still being started:
  `StopMissesIff`, `ReplacedWhileStarting`. The server then keeps it until its close, unless the
  report thread asks to stop it again: `KeptUntilFreed`, `OverlookedUntilClosed`, `AskedAgainIsFreed`.
- A session that goes on to watch a second channel stays in the first: `WatchKeepsConsistentIff`.
- On an Edge node a viewer can wait for a channel that is not subscribed, exactly when a stream with
  viewers ends on a channel that is not: `StepKeepsWaitersIff`, `WaitersSubscribedIff`,
  `WaitingUnsubscribed`.
- With one SSRC for audio and video no packet is ever passed on: `NothingForwardedIff`.
- RTP padding is not removed from the payload: `PayloadReadsBack`.
- Fragments of picture parameter sets are not recognised as parts of a keyframe: `RecognisedIff`.
  A packet received twice keeps its keyframe from being complete: `CompleteIff`.
- The comment on `highestChecked` says every lower number is buffered or missing; numbers lost in a
  dropout, or erased by a timeout, are neither: `AgreementIsExact`.

## Model

| member | source | states |
|---|---|---|
| `SequenceCounter.CyclesOrSeq` | src/Rtp/ExtendedSequenceCounter.cpp:119-128 | the bitwise or of cycles and sequence number is their sum whenever `cycles` is whole cycles |
| `SequenceCounter.ExtendKeepsWellFormed` | src/Rtp/ExtendedSequenceCounter.cpp:13-129 | every call keeps `cycles` whole, and zero before lock; the number returned has the low 16 bits of the packet and stays below 2^32 |
| `SequenceCounter.ExactIff` | src/Rtp/ExtendedSequenceCounter.cpp:71-129 | for a packet at most 3000 ahead of or 99 behind the highest, the true number is returned if and only if it is not in an earlier cycle than the highest and below 2^32 |
| `SequenceCounter.InWindowIsExact` | src/Rtp/ExtendedSequenceCounter.cpp:71-129 | such a packet is valid, causes no resync, and moves the counter to the higher of the two numbers |
| `SequenceCounter.FirstThree` | src/Rtp/ExtendedSequenceCounter.cpp:13-66 | three consecutive first packets that do not wrap end the probation, each numbered exactly |
| `SequenceCounter.FirstThreeIff` | src/Rtp/ExtendedSequenceCounter.cpp:37-66 | for every first number, the three numbers are exact and the counter stands at the third if and only if they do not wrap; starting at 65535 it locks one cycle low |
| `SequenceCounter.LockedRunIsExact` | src/Rtp/ExtendedSequenceCounter.cpp:13-129 | past probation, every packet of every run within the window is numbered exactly and the counter stays locked |
| `SequenceCounter.CounterExactness` | src/Rtp/ExtendedSequenceCounter.cpp:13-159 | from the initial state, after three consecutive first packets, all numbers of every well-behaved run are exact, valid and without resync |
| `SequenceCounter.ReorderedAcrossWrapIsMisplaced` | src/Rtp/ExtendedSequenceCounter.cpp:119-128 | number 65530 arriving after 65541 is returned as 131066 |
| `SequenceCounter.ExtendedSequenceCounter.constructor` | src/Rtp/ExtendedSequenceCounter.h:35-46 | the fields start as declared |
| `SequenceCounter.ExtendedSequenceCounter.ExtendSeq` | src/Rtp/ExtendedSequenceCounter.cpp:13-129 | in place, field by field, the state and result that `ExactIff`, `ValidIff`, `StableIff` and `ResyncIff` determine for every packet of every run |
| `SequenceCounter.ExtendedSequenceCounter.ResetTo` | src/Rtp/ExtendedSequenceCounter.cpp:151-159 | whole new state of a reset |
| `SequenceTracking.OldestIsChecked` | src/Rtp/SequenceTracker.cpp:152-180 | a full buffer of 2048 evicts only a number already checked for losses, never the highest |
| `SequenceTracking.InsertEffect` | src/Rtp/SequenceTracker.cpp:152-180 | after an insertion the number is buffered and not missing, nothing above `highestChecked` was forgotten, the buffer is within its bound, every NACK is for a missing number |
| `SequenceTracking.CheckKeepsInvariant` | src/Rtp/SequenceTracker.cpp:182-217 | the check for missing packets restores `highestReceived <= highestChecked + 17` and the disjointness of buffer and `missing` |
| `SequenceTracking.GapStep` | src/Rtp/SequenceTracker.cpp:205-214 | the gap between neighbours in the buffer adds exactly the unseen numbers between them, counted once |
| `SequenceTracking.FinalGap` | src/Rtp/SequenceTracker.cpp:205-245 | the walk over all gaps marks exactly the unseen numbers short of a dropout |
| `SequenceTracking.NackedIsLost` | src/Rtp/SequenceTracker.cpp:117-127 | when a NACKed packet arrives `lostCount` is above zero, so the unsigned decrement does not wrap |
| `SequenceTracking.TrackKeepsInvariant` | src/Rtp/SequenceTracker.cpp:14-27 | Track keeps the tracker's invariant on every input |
| `SequenceTracking.TopDownIsTop` | src/Rtp/SequenceTracker.cpp:60-73 | the NACK list is strictly descending, within the budget, and whatever eligible is left out is smaller than all of it, with the budget full |
| `SequenceTracking.TopIsUnique` | src/Rtp/SequenceTracker.cpp:60-73 | only one list meets that description |
| `SequenceTracking.DropExpiredKeepsInvariant` | src/Rtp/SequenceTracker.cpp:38-57 | the timeout leaves every remaining NACK's number in `missing` |
| `SequenceTracking.PollKeepsInvariant` | src/FtlMediaConnection.cpp:224-236 | polling for NACKs and marking the list sent keeps the invariant, at most 64 being outstanding |
| `SequenceTracking.PacketKeepsInvariant` | src/FtlMediaConnection.cpp:220-236 | so does the whole handling of a packet |
| `SequenceTracking.SequenceTracker.constructor` | src/Rtp/SequenceTracker.h:118-140 | empty tracker satisfying the invariant |
| `SequenceTracking.SequenceTracker.TrackPacket` | src/Rtp/SequenceTracker.cpp:14-27 | retransmit or new packet: new state and number as specified, invariant kept |
| `SequenceTracking.SequenceTracker.TrackRetransmit` | src/Rtp/SequenceTracker.cpp:117-127 | whole new state: one less lost, the number inserted |
| `SequenceTracking.SequenceTracker.TrackNew` | src/Rtp/SequenceTracker.cpp:129-150 | whole new state, through counter, resync, insertion and check |
| `SequenceTracking.SequenceTracker.InsertPacket` | src/Rtp/SequenceTracker.cpp:152-180 | whole new state, with eviction of the least number |
| `SequenceTracking.SequenceTracker.CheckMissing` | src/Rtp/SequenceTracker.cpp:182-217 | the loop marks missing exactly the overdue set of the specification and moves both marks |
| `SequenceTracking.SequenceTracker.WalkGaps` | src/Rtp/SequenceTracker.cpp:205-214 | the loop over buffered numbers adds exactly the lost numbers, and as many to both counts |
| `SequenceTracking.SequenceTracker.CheckGap` | src/Rtp/SequenceTracker.cpp:219-245 | marks all numbers strictly between, or none if the gap is a dropout |
| `SequenceTracking.SequenceTracker.MissedPacket` | src/Rtp/SequenceTracker.cpp:247-253 | one more missing, missed and lost |
| `SequenceTracking.SequenceTracker.ResyncAll` | src/Rtp/SequenceTracker.cpp:255-264 | everything but counter and statistics is reset |
| `SequenceTracking.SequenceTracker.NackList` | src/Rtp/SequenceTracker.cpp:38-74 | timeouts dropped, then the greatest eligible numbers within the budget |
| `SequenceTracking.SequenceTracker.TimeOutNacks` | src/Rtp/SequenceTracker.cpp:42-57 | the erasing loop removes exactly the expired keys from both containers |
| `SequenceTracking.SequenceTracker.LatestMissing` | src/Rtp/SequenceTracker.cpp:60-73 | the backward loop collects exactly the greatest eligible numbers |
| `SequenceTracking.SequenceTracker.MarkSent` | src/Rtp/SequenceTracker.cpp:29-36 | an outstanding NACK under the 16-bit key with the time it is sent, unless there is one: the sending that `NacksAreSent` and `ExpiresIff` are about |
| `SequenceTracking.SequenceTracker.MarkListSent` | src/FtlMediaConnection.cpp:228-235 | the loop marks the list from its end |
| `SequenceTracking.SequenceTracker.HandleMediaPacket` | src/FtlMediaConnection.cpp:220-236 | track, poll, mark: whole new state, invariant kept |
| `SequenceHistory.CheckAgrees` | src/Rtp/SequenceTracker.cpp:182-217 | checking after an insertion finds missing exactly the numbers the unbounded history says are |
| `SequenceHistory.TrackAgrees` | src/Rtp/SequenceTracker.cpp:14-27 | Track keeps the tracker in agreement with the unbounded history |
| `SequenceHistory.Run` | src/FtlMediaConnection.cpp:220-236 | in every run on any input, tracker and history agree |
| `SequenceHistory.AgreementIsExact` | src/Rtp/SequenceTracker.h:130-132 | agreement means: `missing` is the numbers after the first and up to 17 below the highest, minus received, given up and erased |
| `SequenceHistory.MissingIsUnreceived` | src/Rtp/SequenceTracker.cpp:152-217 | so it is after every run, and nothing returned since the last resync is missing |
| `SequenceHistory.ReturnedIsReceived` | src/Rtp/SequenceTracker.cpp:14-27 | the received set of the history is what Track returned since the last resync |
| `SequenceHistory.LossAccounting` | src/Rtp/SequenceTracker.cpp:117-127 | on every run, NACKs are at most 64 and at most the missing, the missing at most `lostCount`, which is `missedCount` minus retransmits and never wraps; no number is counted missed twice in an epoch |
| `SequenceHistory.TrackExactIff` | src/Rtp/SequenceTracker.cpp:14-27 | Track returns the true number of a nearby packet if and only if an outstanding NACK with its key is for that number, or there is none and the packet is in the counter's window |
| `SequenceHistory.FollowsSource` | src/Rtp/SequenceTracker.cpp:14-264 | after every well-behaved source, all delivered packets are received under their true numbers |
| `SequenceHistory.EndToEnd` | src/Rtp/SequenceTracker.cpp:129-245 | and `missing` is exactly the undelivered numbers up to 17 below the highest, minus those a timeout erased |
| `SequenceHistory.ReturnsTrueNumber` | src/Rtp/SequenceTracker.cpp:14-27 | Track returned the true number of every packet on the way |
| `SequenceHistory.InOrderIsWellBehaved` | src/Rtp/SequenceTracker.cpp:14-264 | every source whose packets come in order, from below 2^16 and up to 2^32, is well behaved |
| `SequenceDepartures.TimeoutForgetsIff` | src/Rtp/SequenceTracker.cpp:46-57 | an expired number leaves `missing` if and only if it is below 2^16 |
| `SequenceDepartures.TimeoutExactIff` | src/Rtp/SequenceTracker.cpp:46-57 | the timeout takes exactly the expired NACKs' numbers out of `missing` if and only if all of them are below 2^16 |
| `SequenceDepartures.CollateralIff` | src/Rtp/SequenceTracker.cpp:50-50 | a number that has not expired is erased if and only if it is the low 16 bits of an expired one of 2^16 or more |
| `SequenceTimeouts.LaterCyclesAreKept` | src/Rtp/SequenceTracker.cpp:46-57 | with nothing missing from the first cycle, no timeout takes anything out of `missing` |
| `SequenceTimeouts.FewAreAllNacked` | src/Rtp/SequenceTracker.cpp:60-73 | while at most 64 numbers are missing, a poll at any time leaves a NACK outstanding for each of them |
| `SequenceTimeouts.ExpiredRowStays` | src/Rtp/SequenceTracker.cpp:38-74 | every source that loses 64 numbers of the second cycle within one timeout, at any time, and is polled after the next: all 64 NACKs expire and all 64 numbers stay missing |
| `SequenceTimeouts.SecondCycleIsKept` | src/Rtp/SequenceTracker.cpp:46-57 | one such run, from number 200 to 65701 |
| `SequenceTimeouts.BurstGoesOn` | src/Rtp/SequenceTracker.cpp:60-73 | after the loss of 3 to 2000 the 64 NACKs for 1921 to 1984 stay out, and nothing else is asked for, for a whole cycle |
| `SequenceTimeouts.BurstErasesSeven` | src/Rtp/SequenceTracker.cpp:46-57 | on every such run that also loses 65543: two packets later, the second after the timeout, 65543 has expired and stays missing, 7 has not and is erased |
| `SequenceTimeouts.TimeoutErasesAnother` | src/Rtp/SequenceTracker.cpp:46-57 | one such run, of 65460 packets |
| `NackProvenance.MarkAllSends` | src/FtlMediaConnection.cpp:228-235 | marking the list keeps the NACKs that are out, and sends each new one for a number of the list, at the time of the poll |
| `NackProvenance.NacksAreSent` | src/Rtp/SequenceTracker.cpp:29-36 | on every run and any clock, each outstanding NACK was sent when one packet was handled, bears that packet's time, was for a number missing and not asked for then, and has stayed since |
| `NackProvenance.ExpiresIff` | src/Rtp/SequenceTracker.cpp:42-57 | it times out at a packet if and only if at least 64 numbers are missing or asked for and the packet that sent it came at least 2000 before |
| `NackProvenance.ErasedWasAskedFor` | src/Rtp/SequenceTracker.cpp:46-57 | what a step erases from `missing` are low 16 bits of numbers asked for at least 2000 before |
| `NackProvenance.NackStaysIff` | src/Rtp/SequenceTracker.cpp:14-57 | in every state, handling a packet leaves a NACK as it is if and only if the packet does not answer it, tracking does not start over, no number of the same 16 bits is evicted and no poll finds it timed out; without polling nothing else happens |
| `NackProvenance.EvictionForgetsNack` | src/Rtp/SequenceTracker.cpp:163-169 | an eviction forgets a NACK if and only if its key is that of the evicted number; the NACK's own number stays missing and may be asked for again |
| `NackProvenance.CountsAreTrue` | src/Rtp/SequenceTracker.cpp:152-180 | on every run the packets are those counted received and those already buffered; the NACK count is the number of requests over all polls |
| `SequenceRestarts.StrayIsHeld` | src/Rtp/ExtendedSequenceCounter.cpp:89-117 | a packet too far from the highest that does not follow the last such one is not valid, and moves nothing |
| `SequenceRestarts.TwoInARowRestart` | src/Rtp/ExtendedSequenceCounter.cpp:89-117 | two such packets in a row: the first leaves the position, the second resyncs, is returned as it is, and locks the counter there |
| `SequenceRestarts.WaitsForSuccessor` | src/Rtp/ExtendedSequenceCounter.cpp:89-117 | on every run the counter waits for the successor of the packet last held back since it was last reset, or for none |
| `SequenceRestarts.ResyncIff` | src/Rtp/ExtendedSequenceCounter.cpp:89-117 | on every run a packet resyncs if and only if it is far from the highest and one above the last held back since the counter was last reset |
| `SequenceRestarts.ValidIff` | src/Rtp/ExtendedSequenceCounter.cpp:13-129 | on every run a packet is valid if and only if it is not far from the highest of a locked counter |
| `SequenceRestarts.StableIff` | src/Rtp/ExtendedSequenceCounter.cpp:13-129 | `stable` is false exactly for the first packet, the one that ends the probation, and those that resync |
| `SequenceRestarts.RestartBeginsAnew` | src/Rtp/SequenceTracker.cpp:129-150 | after any run, two such packets that answer no NACK: tracking begins anew at the second, with nothing missing |
| `SequenceRestarts.RestartEndToEnd` | src/Rtp/SequenceTracker.cpp:129-264 | from there on `missing` is exactly what has not been delivered since, minus what timeouts erased, for every source the counter can follow |
| `SequenceRestarts.RestartInOrder` | src/Rtp/SequenceTracker.cpp:129-264 | a restarted source that sends in order is followed packet for packet up to 2^32 |
| `SequenceRestarts.InOrderMayRestart` | src/Rtp/SequenceTracker.cpp:129-150 | a source that has sent in order may restart anywhere far enough from its last number |
| `SequenceDepartures.SkippingIsWellBehaved` | src/Rtp/SequenceTracker.cpp:14-264 | a source that loses one packet is followed exactly until a whole cycle later |
| `SequenceDepartures.LostPacketCapturesNextCycle` | src/Rtp/SequenceTracker.cpp:17-24 | for every such source, the packet a whole cycle after the lost one is taken for it, though the counter would number it correctly |
| `SequenceDepartures.OldNackCapturesNewPacket` | src/Rtp/SequenceTracker.cpp:17-24 | after packets 0 to 65542 without 7, packet 65543 is taken for packet 7 |
| `RtpPackets.HeaderReadsBack` | src/Rtp/Types.h:26-47 | marker, sequence number, timestamp and SSRC of a packet laid out by section 5.1 of RFC 3550 are read back |
| `RtpPackets.IndexReadsBack` | src/Rtp/RtpPacket.cpp:36-52 | the payload is found behind any contributing sources and header extension |
| `RtpPackets.PayloadReadsBack` | src/Rtp/RtpPacket.cpp:23-61 | the payload read is payload and padding, hence the payload if and only if there is no padding |
| `H264Depacketizer.BuildBuffer` | src/VideoDecoders/H264VideoDecoder.cpp:38-94 | the loop over the packets builds the contributions of their payloads in order |
| `H264Depacketizer.AppendPayload` | src/VideoDecoders/H264VideoDecoder.cpp:45-92 | one turn: nothing, start code and payload, start code and rebuilt header and rest, or rest |
| `H264Depacketizer.PushRest` | src/VideoDecoders/H264VideoDecoder.cpp:75-78 | the byte loop appends the rest of the payload |
| `H264Depacketizer.FragmentContributes` | src/VideoDecoders/H264VideoDecoder.cpp:52-79 | of a fragment only its part is added, before the first one start code and original header byte |
| `H264Depacketizer.UnitContributes` | src/VideoDecoders/H264VideoDecoder.cpp:45-92 | the packets of one NAL unit, whole or fragmented, add start code and unit |
| `H264Depacketizer.ContributionsInvertPacketize` | src/VideoDecoders/H264VideoDecoder.cpp:38-94 | for every list of NAL units, depacketizing undoes packetizing |
| `H264Depacketizer.DepacketizeInvertsPacketize` | src/VideoDecoders/H264VideoDecoder.cpp:38-94 | also through well-formed RTP packets with any contributing sources and extensions |
| `Keyframes.InsertPacketInSequenceOrder` | src/FtlMediaConnection.cpp:456-483 | the backward search inserts behind the last smaller number |
| `Keyframes.IsComplete` | src/FtlMediaConnection.cpp:429-454 | true if and only if not empty, consecutive, and the last packet has the marker |
| `Keyframes.KeyframeStore.constructor` | src/FtlMediaConnection.h:70-78 | no keyframe yet |
| `Keyframes.KeyframeStore.CaptureH264VideoKeyframe` | src/FtlMediaConnection.cpp:308-368 | only parts of keyframes change the store, and as specified |
| `Keyframes.KeyframeStore.StorePart` | src/FtlMediaConnection.cpp:348-368 | a new timestamp moves a complete pending frame to current and starts over; the part is inserted |
| `Keyframes.InOrderSorts` | src/FtlMediaConnection.cpp:456-483 | inserted one by one, packets come out ascending and are the same packets |
| `Keyframes.OrderIsUnique` | src/FtlMediaConnection.cpp:456-483 | packets with one content per number can be put in order in only one way |
| `Keyframes.ArrivalOrderIsIrrelevant` | src/FtlMediaConnection.cpp:456-483 | the list built depends on the packets only, not on their order of arrival |
| `Keyframes.CompleteIff` | src/FtlMediaConnection.cpp:429-483 | packets in any order make a complete frame if and only if their numbers are that many in a row and the highest has the marker |
| `Keyframes.LatestKeyframe` | src/FtlMediaConnection.cpp:308-368 | after every run, current is the last frame that ended complete, or none did; pending is all parts since the timestamp changed, in order |
| `Keyframes.KeyframeSoundness` | src/FtlMediaConnection.cpp:308-368 | after every run, current is empty or consecutive with the marker last; both frames hold received parts of one timestamp |
| `Keyframes.RecognisedIff` | src/FtlMediaConnection.cpp:313-346 | all packets of a NAL unit are recognised if and only if it is a keyframe, a sequence parameter set, or a whole picture parameter set |
| `Keyframes.PartIff` | src/FtlMediaConnection.cpp:313-346 | a payload is a part of a keyframe if and only if its unit is an IDR slice or a sequence parameter set, whole or in fragments of either kind, or it is a whole picture parameter set |
| `Keyframes.FrameBecomesCurrent` | src/FtlMediaConnection.cpp:348-368 | after any run, a complete frame delivered in any order becomes current when a part of another timestamp arrives |
| `Keyframes.KeyframeReachesDecoder` | src/FtlMediaConnection.cpp:308-368 | and the depacketizer turns it into the byte stream of the NAL units sent |
| `Keyframes.AnyOrderIsCollected` | src/FtlMediaConnection.cpp:313-346 | no packet of such a keyframe is overlooked |
| `MediaConnection.SsrcData.constructor` | src/FtlMediaConnection.h:70-78 | nothing received, tracked or captured |
| `MediaConnection.SsrcData.AcceptPacket` | src/FtlMediaConnection.cpp:219-241 | tracker first, then count and keyframe store under the tracker's number |
| `MediaConnection.FtlMediaConnection.constructor` | src/FtlMediaConnection.cpp:28-57 | a store for each SSRC, one if they are the same |
| `MediaConnection.FtlMediaConnection.HandleMediaPacket` | src/FtlMediaConnection.cpp:195-247 | unknown SSRCs and early audio ignored, the rest stored for its SSRC alone and passed on |
| `MediaConnection.VideoIsUndisturbed` | src/FtlMediaConnection.cpp:195-247 | whatever traffic comes between, the video data is that of the video packets alone |
| `MediaConnection.PassesIff` | src/FtlMediaConnection.cpp:201-218 | after every run, a packet is passed on if and only if it is video, or audio after a number of video packets that is not a multiple of 2^32 |
| `MediaConnection.ForwardedAreRelayed` | src/FtlMediaConnection.cpp:238-246 | the viewers get exactly the packets that pass, unchanged and in order |
| `MediaConnection.NothingForwardedIff` | src/FtlMediaConnection.cpp:211-218 | nothing is ever passed on if and only if the SSRCs are the same or there was no video |
| `MediaConnection.SourceIsTrue` | src/FtlMediaConnection.cpp:195-247 | for a well-behaved source tracker and keyframe store see every packet under its sender's number |
| `MediaConnection.VideoReachesDecoder` | src/FtlMediaConnection.cpp:195-247 | through any traffic, a keyframe of a well-behaved source delivered in any order is captured whole and becomes the decoder's byte stream |
| `MediaConnection.LaidOutIsRead` | src/FtlMediaConnection.cpp:198-199 | packets laid out with the low 16 bits of their numbers and the SSRC of the source are read with these, and all taken for that source's |
| `MediaConnection.SentVideoReachesDecoder` | src/FtlMediaConnection.cpp:195-247 | the same keyframe result, stated with the sequence and SSRC fields the sender lays out |
| `ServerInvariants.StopStreamKeeps` | src/FtlServer.cpp:347-373 | StopStream releases the port and settles the id of the stream it removes |
| `ServerInvariants.IdAssignedKeeps` | src/FtlServer.cpp:524-619 | an assigned id ends at once if the connection is gone or no port is free, else it moves with a fresh port into the start task |
| `ServerInvariants.StartedKeeps` | src/FtlServer.cpp:639-645 | a started stream takes over port and id |
| `ServerInvariants.FailedKeeps` | src/FtlServer.cpp:647-658 | a failed start releases the port and ends the id |
| `ServerInvariants.ClosedKeeps` | src/FtlServer.cpp:660-679 | a closed stream releases port and id; an unknown one changes nothing |
| `ServerInvariants.StepKeeps` | src/FtlServer.cpp:237-688 | every step keeps the balance of ports, ids, streams and connections |
| `ServerInvariants.PortConservation` | src/FtlServer.cpp:296-323 | in every reachable state the used ports are, each once, those of start tasks, queued started or failed events and active streams; no two streams share one |
| `ServerInvariants.SingleFate` | src/FtlServer.cpp:347-373 | every issued id is in exactly one place: held, ended once, or stopped once; a connection is handed to at most one stream |
| `ServerInvariants.AtMostOneMatch` | src/FtlServer.cpp:347-373 | the order in which StopStream searches is of no matter |
| `ServerInvariants.ReserveIsLeast` | src/FtlServer.cpp:296-308 | with the range below 65535, the least free port, or none exactly when all are used |
| `ServerInvariants.ReservedInRangeIff` | src/FtlServer.cpp:299-306 | the port lies in the range if and only if not (the range ends at 65535 and is full) |
| `ServerInvariants.FullRangeGoesOnAtZero` | src/FtlServer.cpp:299-306 | a full range that ends at 65535 makes the search return port 0 |
| `ServerInvariants.SearchNeverEnds` | src/FtlServer.cpp:299-306 | when the search does not end, every port the counter reaches is within the bound and taken |
| `ServerInvariants.SweepTerminatesOverdue` | src/FtlServer.cpp:253-279 | the sweep terminates exactly the connections pending too long, each once, and changes nothing else |
| `ServerLifetimes.LeavesIff` | src/FtlServer.cpp:347-373 | a stream leaves the table if and only if its close, or a stop for its channel and id, is handled |
| `ServerLifetimes.EarlyCloseIsLost` | src/FtlServer.cpp:660-672 | the close of a stream not in the table changes nothing but the queue |
| `ServerLifetimes.ReleaseGivesBack` | src/FtlServer.cpp:310-323 | a release frees the port, and the id is ended by a close, stopped by a stop |
| `ServerLifetimes.PresentStepIff` | src/FtlServer.cpp:639-645 | a started stream, announced or in the table, stays so over every step but its release |
| `ServerLifetimes.HeldUntilReleased` | src/FtlServer.cpp:639-679 | over every run, port and id of a started stream are held if and only if no step handled its close, or a stop for it, while it was in the table |
| `ServerLifetimes.CloseReleasesIff` | src/FtlServer.cpp:660-679 | in every state, handling a started stream's close releases port and id if and only if its start was handled before |
| `ServerLifetimes.StopAfterLostClose` | src/FtlServer.cpp:347-373 | a later stop does release it, for good |
| `ServerStreams.StepKeepsStream` | src/FtlServer.cpp:347-679 | the server keeps a stream, being started or active, until it reports its end or handles a stop for it |
| `ServerStreams.StepBringsNone` | src/FtlServer.cpp:347-679 | the server has no stream it did not have before, but for one whose callback just succeeded |
| `ServerStreams.StopMissesIff` | src/FtlServer.cpp:347-373 | the server goes on with a stream after handling a stop for it if and only if the stream was still being started |
| `ServerTasks.PendingIff` | src/FtlServer.cpp:253-279 | a connection is pending from the event that announces it, with its time, until it closes, is terminated, takes too long, goes to a stream, or the server stops |
| `ServerTasks.OverdueIff` | src/FtlServer.cpp:253-279 | on every run the sweep is due for a pending connection if and only if the event that announced it was handled more than 5000 before |
| `ServerTasks.StartedIff` | src/FtlServer.cpp:347-688 | in every reachable state and step, each task is started if and only if it is called for by the event taken and by what becomes of connections, ports and streams, once; and it is gone exactly when it completes |
| `ServerTasks.AskedToStopIff` | src/FtlServer.cpp:359-364 | a stream is asked to stop if and only if it leaves the table and its id is counted as stopped, and once |
| `ServerTasks.StoppedAreAsked` | src/FtlServer.cpp:347-373 | over every run the streams that tasks were ever started for to ask them to stop are exactly those counted as stopped |
| `ServerTasks.QueuedIff` | src/FtlServer.cpp:128-181 | in every state and step, each event is queued if and only if it arrives or a task or a full port range brings it, once; and it is gone exactly when it is handled |
| `ServerTasks.RequestsAreServed` | src/FtlServer.cpp:391-522 | over every run, the key and port requests of a connection are those waiting, those being served and those served: none is lost, doubled or served as another's |
| `ServerRequests.EverythingIsAsked` | src/FtlServer.cpp:391-645 | on every run: streams are started, and keys fetched, for the connection and channel that asked; keys are provided only to a connection that asked; every active stream is of a channel that was asked for |
| `FtlServer.Server.constructor` | src/FtlServer.cpp:17-38 | empty server |
| `FtlServer.Server.DispatchAsyncCall` | src/FtlServer.h:264-280 | one more task |
| `FtlServer.Server.DispatchOnStreamEnded` | src/FtlServer.cpp:681-688 | the id is recorded as ended and the callback is a task |
| `FtlServer.Server.ReserveMediaPort` | src/FtlServer.cpp:296-308 | the loop with its wrapping counter finds the port of the declarative specification and reserves only that |
| `FtlServer.Server.RemoveRecord` | src/FtlServer.cpp:310-323 | record and port are removed |
| `FtlServer.Server.EventStopStream` | src/FtlServer.cpp:347-373 | the loop removes the stream with that channel and id, if there is one, and asks it to stop: the removal and the task of `LeavesIff` and `AskedToStopIff` |
| `FtlServer.Server.EventNewControlConnection` | src/FtlServer.cpp:375-389 | a fresh connection is pending since now |
| `FtlServer.Server.EventTerminateControlConnection` | src/FtlServer.cpp:452-473 | only a pending connection is terminated |
| `FtlServer.Server.EventStreamIdAssigned` | src/FtlServer.cpp:524-619 | connection gone, no port, or start task: whole new state |
| `FtlServer.Server.EventStreamStarted` | src/FtlServer.cpp:639-645 | whole new state |
| `FtlServer.Server.EventStreamStartFailed` | src/FtlServer.cpp:647-658 | whole new state |
| `FtlServer.Server.EventStreamClosed` | src/FtlServer.cpp:660-679 | whole new state |
| `FtlServer.Server.Process` | src/FtlServer.cpp:249-250 | one event is taken and handled; ports, ids and connections stay accounted for |
| `FtlServer.Server.HandleEvent` | src/FtlServer.cpp:40-84 | every event goes to its handler |
| `FtlServer.Server.Enqueue` | src/FtlServer.cpp:128-181 | events from outside are queued, the invariant kept |
| `FtlServer.Server.Shutdown` | src/FtlServer.cpp:104-126 | no connection stays pending, all else is as it was, the invariant kept |
| `FtlServer.Server.TaskDone` | src/FtlServer.cpp:475-616 | what a task queues when it is done, the invariant kept |
| `FtlServer.Server.ExpirePending` | src/FtlServer.cpp:253-279 | the loop over pending connections does as the sweep, the invariant kept |
| `ControlFraming.ScanDelivers` | src/FtlControlConnection.cpp:152-186 | one pass delivers the first commands in order and leaves the rest of the stream |
| `ControlFraming.FramingIgnoresChunking` | src/FtlControlConnection.cpp:146-187 | for all framable commands and every split into chunks, exactly the commands are delivered and exactly the tail stays buffered |
| `ControlFraming.PlainTextIsFramable` | src/FtlControlConnection.cpp:146-187 | text without carriage returns is framable |
| `ControlFraming.EarlyDelimiterCuts` | src/FtlControlConnection.cpp:163-179 | an earlier delimiter cuts the command under some chunking |
| `ControlFraming.TrailingReturnIsMissed` | src/FtlControlConnection.cpp:181-185 | a final carriage return loses the command under some chunking |
| `ControlFraming.FramedIff` | src/FtlControlConnection.cpp:146-187 | a command is framed correctly under every chunking if and only if it is framable |
| `ControlText.FormatParses` | src/FtlClient.cpp:209-230 | decimal printing and parsing are inverse |
| `ControlText.StoulReadsFormat` | src/FtlControlConnection.cpp:287-410 | a printed number is read by stoul |
| `ControlText.LastSeparatorIsLast` | src/FtlControlConnection.cpp:18-18 | the greedy pattern splits at the last colon and space with text on both sides |
| `ControlText.SplitGivesOneValue` | src/FtlControlConnection.cpp:18-18 | a value read contains no line break and no inner colon and space |
| `ControlText.PrintedAttributeSplits` | src/FtlControlConnection.cpp:301-312 | a printed attribute with such a value splits into its key and value; with an empty one it does not match |
| `ControlText.CodecNamesParse` | src/Utilities/FtlTypes.h:38-106 | the codec names printed are the ones parsed |
| `ControlText.FindConnect` | src/FtlControlConnection.cpp:16-17 | what the connect pattern captures is digits and hexadecimal digits |
| `ControlConnection.HonestConnect` | src/FtlControlConnection.cpp:242-285 | a connect command requests the key only the first time, for the channel it then keeps |
| `ControlConnection.HonestAttribute` | src/FtlControlConnection.cpp:287-410 | attributes leave handshake and log alone |
| `ControlConnection.HonestKey` | src/FtlControlConnection.cpp:50-90 | only a key whose hash matches authenticates |
| `ControlConnection.HonestProcess` | src/FtlControlConnection.cpp:204-230 | no command breaks the handshake |
| `ControlConnection.HandshakeSafety` | src/FtlControlConnection.cpp:204-453 | in every interleaving of bytes, keys and ports: the key is requested at most once, and each port request is for that channel, after a key that turned the payload last sent into the hash of that one CONNECT, with metadata a stream can be started with |
| `ControlConnection.LastPayloadIsLast` | src/FtlControlConnection.cpp:232-240 | the payload checked is the one sent last, or empty when none was sent |
| `FtlControlConnection.ProcessIgnoresBuffer` | src/FtlControlConnection.cpp:204-230 | processing a command neither reads nor changes the command buffer |
| `FtlControlConnection.FtlControlConnection.constructor` | src/FtlControlConnection.cpp:21-31 | a fresh connection |
| `FtlControlConnection.FtlControlConnection.OnTransportBytesReceived` | src/FtlControlConnection.cpp:146-187 | the scanning loop, which processes each command as it is found, does as framing the bytes first and processing the commands then |
| `FtlControlConnection.FtlControlConnection.ProcessCommand` | src/FtlControlConnection.cpp:204-230 | whole new state |
| `FtlControlConnection.FtlControlConnection.ProcessHmacCommand` | src/FtlControlConnection.cpp:232-240 | whole new state |
| `FtlControlConnection.FtlControlConnection.RequestStop` | src/FtlControlConnection.cpp:199-202 | the stop is logged, nothing else changes |
| `FtlControlConnection.FtlControlConnection.ProcessConnectCommand` | src/FtlControlConnection.cpp:242-285 | whole new state, which `ConnectIsTaken` gives for every printed request and `CommandIsAnswered` for every other |
| `FtlControlConnection.FtlControlConnection.ProcessAttributeCommand` | src/FtlControlConnection.cpp:287-410 | whole new state |
| `FtlControlConnection.FtlControlConnection.ProcessDotCommand` | src/FtlControlConnection.cpp:412-453 | whole new state |
| `FtlControlConnection.FtlControlConnection.StartPort` | src/FtlControlConnection.cpp:92-102 | whole new state |
| `FtlControlConnection.FtlControlConnection.ProvideHmacKey` | src/FtlControlConnection.cpp:50-90 | whole new state |
| `RelayRoundTrip.AttributeIsRead` | src/FtlControlConnection.cpp:287-410 | a printed attribute changes just the field it is for |
| `RelayRoundTrip.PrintedRebuilds` | src/FtlClient.cpp:209-230 | reading all printed attributes rebuilds the metadata field by field |
| `RelayRoundTrip.ReceiveIsFrameThenProcess` | src/FtlControlConnection.cpp:146-187 | receiving chunk by chunk is framing all and then processing all |
| `RelayRoundTrip.RelayRoundTripIff` | src/FtlClient.cpp:209-230 | printed, sent in any chunks to an authenticated connection with any history, the metadata is rebuilt if and only if the vendor strings have no line break and no inner colon and space; then the dot raises the media port request |
| `RelayRoundTrip.RelayedStreamStarts` | src/JanusFtl.cpp:941-957 | every stream that could be started on the ingest node is started on the node it is relayed to |
| `ControlHandshake.HexReadsBack` | src/Utilities/Util.h:20-55 | bytes printed as hex digits are read back |
| `ControlHandshake.OddDigitReads` | src/Utilities/Util.h:27-34 | an odd last digit is read as a byte of its own |
| `ControlHandshake.ByteArrayToHexString` | src/Utilities/Util.h:42-55 | the loop prints two digits for every byte |
| `ControlHandshake.HexStringToByteArray` | src/Utilities/Util.h:20-37 | the loop reads two digits at a time |
| `ControlHandshake.ConnectIsFound` | src/FtlControlConnection.cpp:16-17 | a printed CONNECT request is found with the channel and hash printed; with an empty hash there is none |
| `ControlHandshake.ConnectIsTaken` | src/FtlControlConnection.cpp:242-285 | on a connection that has not asked for a key, it makes the connection ask for the key of the channel's low 32 bits with that hash; a channel of 2^64 or more or an empty hash stops it |
| `ControlHandshake.HandshakeIff` | src/FtlControlConnection.cpp:50-90 | after any history without a request, in any chunks, for every hash function and payload: the key for the channel is asked for; a key given authenticates it for that channel, with OK sent, if it turns the payload into the client's hash, and else stops it |
| `ControlHandshake.HandshakeFails` | src/FtlControlConnection.cpp:252-284 | a request that cannot be read stops the connection, and no key authenticates it |
| `ControlHandshake.RelayConnects` | src/FtlClient.cpp:167-230 | a relay that holds the key: payload, key request, match, OK, and the media port request with the stream's metadata under the plugin's name, and nothing else |
| `ControlRuns.CommandIsAnswered` | src/FtlControlConnection.cpp:204-453 | for every command and state, the one entry added to the log, or none: payload, key request, port request for a stream all of whose media are described, stop, or pong |
| `ControlRuns.ConnectionSettles` | src/FtlControlConnection.cpp:242-410 | in every run, at every moment: no metadata before authentication, and all of it within the types of its fields; from then on the connection keeps its channel, hash and authentication |
| `ControlRuns.PayloadsAreDrawn` | src/FtlControlConnection.cpp:232-240 | in every run the payloads sent are, in order, those drawn, each drawn anew and sent once |
| `ControlRuns.MetadataIsFinal` | src/FtlControlConnection.cpp:287-299 | once the media port is open, the metadata never changes |
| `ControlRuns.PortsAreForDescribedStreams` | src/FtlControlConnection.cpp:412-453 | in every run each port request is for media with payload type, SSRC and known codec, after a matching key |
| `ControlRuns.FoundIsFirst` | src/FtlControlConnection.cpp:246-246 | the CONNECT request taken is the first one anywhere in the command |
| `ControlRuns.RequestIff` | src/FtlControlConnection.cpp:16-17 | channel and hash are captured at a place if and only if the pattern is there: the word, one or more digits, dollar sign, one or more hex digits, as many as there are |
| `ControlRuns.StoulReads` | src/FtlControlConnection.cpp:335-410 | a number is read through space, sign and what follows; a minus sign wraps at 2^64, and 2^64 or more is refused |
| `ControlRuns.StoulRefuses` | src/FtlControlConnection.cpp:335-410 | without a digit there is no number |
| `ControlRuns.BadNumberIsIgnored` | src/FtlControlConnection.cpp:335-410 | an attribute whose number cannot be read leaves everything as it was |
| `ControlRuns.CodecsIgnoreCase` | src/Utilities/FtlTypes.h:38-106 | codec names are recognised in any mixture of cases, and no others are |
| `JanusRegistry.EndAccounted` | src/JanusFtl.cpp:657-699 | ending a stream passes its id to EndStream once and unpublishes it |
| `JanusRegistry.StartAccounted` | src/JanusFtl.cpp:338-397 | starting one ends the channel's previous stream first |
| `JanusRegistry.StreamAccounting` | src/JanusFtl.cpp:338-403 | on every run, ids started are those live, each on one channel, and those ended, each once; on an Ingest node the publish messages fold to the live streams |
| `JanusRegistry.LateEndIsIgnored` | src/JanusFtl.cpp:666-672 | on every run, at any time after a stream has ended or been replaced, another report of its end changes nothing |
| `JanusRegistry.ReplacedIsEnded` | src/JanusFtl.cpp:351-376 | a replaced stream is ended once, the server is asked to stop it, and all its viewers move to the new one |
| `JanusRegistry.WatchConsistent` | src/JanusFtl.cpp:724-814 | watching puts the session in just one list of the channel |
| `JanusRegistry.DestroyConsistent` | src/JanusFtl.cpp:250-323 | destroying a session takes it out of both |
| `JanusRegistry.EndConsistent` | src/JanusFtl.cpp:657-699 | when a stream ends its viewers wait |
| `JanusRegistry.StartConsistent` | src/JanusFtl.cpp:338-397 | when one starts the waiting become its viewers |
| `JanusRegistry.WatchKeepsConsistentIff` | src/JanusFtl.cpp:738-814 | this survives a watch message if and only if the session watched nothing or the same channel before |
| `JanusRegistry.ViewerConservation` | src/JanusFtl.cpp:250-323 | on every run with one channel per session, the watchers of a channel are the disjoint union of live and waiting, and none waits where there is a stream |
| `JanusRegistry.SubscriptionsDoNotLeak` | src/JanusFtl.cpp:741-781 | on every such run of an Edge node, the channels with a stream key are those the messages leave subscribed, and each has a viewer |
| `JanusRegistry.DestroyNoLeak` | src/JanusFtl.cpp:250-323 | the last viewer's leaving clears key and subscription together |
| `JanusRegistry.WatchNoLeak` | src/ServiceConnections/EdgeNodeServiceConnection.cpp:20-35 | the first waiting viewer's coming provisions both together |
| `JanusRegistry.EndKeepsWaitersIff` | src/JanusFtl.cpp:674-698 | the end of a stream leaves every waiting viewer's channel subscribed if and only if the stream had no viewers or its channel is subscribed |
| `JanusRegistry.StepKeepsWaitersIff` | src/JanusFtl.cpp:250-323 | every other step keeps it |
| `JanusRegistry.WaitersSubscribedIff` | src/JanusFtl.cpp:741-781 | over every run with one channel per session, everybody always waits for a subscribed channel if and only if no stream with viewers ends on a channel that is not |
| `JanusRegistry.WaitingUnsubscribed` | src/JanusFtl.cpp:270-281 | one way it happens: the only viewer leaves, another comes, the stream ends |
| `JanusRegistry.CreatedCanWatch` | src/JanusFtl.cpp:98-108 | a created session can watch any channel, and nobody else is affected |
| `JanusRegistry.LastViewerIff` | src/JanusFtl.cpp:270-297 | a session is the last viewer by either list if and only if it is the channel's only watcher |
| `JanusRegistry.DestroyUnsubscribesIff` | src/JanusFtl.cpp:264-312 | when a session goes, an Edge node unsubscribes and drops the key if and only if nobody watches the channel then, and else sends nothing |
| `JanusRegistry.EdgeTells` | src/JanusFtl.cpp:250-323 | over every run with one channel per session, the messages of an Edge node are a subscription for each first viewer of a channel without a stream and a cancellation when the last one goes |
| `JanusRegistry.WatchedStaysSubscribed` | src/JanusFtl.cpp:270-312 | on every such run, no step unsubscribes a channel somebody still watches |
| `JanusRegistry.StandaloneIsSilent` | src/JanusFtl.cpp:338-403 | a Standalone node tells the orchestrator nothing |
| `JanusFtl.JanusStream.constructor` | src/JanusStream.cpp:11-20 | a stream without viewers |
| `JanusFtl.JanusStream.AddViewerSession` | src/JanusStream.cpp:37-41 | one more viewer |
| `JanusFtl.JanusStream.RemoveViewerSession` | src/JanusStream.cpp:43-47 | one less |
| `JanusFtl.JanusStream.RemoveAllViewerSessions` | src/JanusStream.cpp:49-55 | all taken out and returned |
| `JanusFtl.JanusFtl.constructor` | src/JanusFtl.cpp:34-81 | nothing registered |
| `JanusFtl.JanusFtl.CreateSession` | src/JanusFtl.cpp:98-108 | one more session, watching nothing |
| `JanusFtl.JanusFtl.DestroySession` | src/JanusFtl.cpp:250-323 | whole new state, over stream objects that stay distinct: by `DestroyUnsubscribesIff` the channel is unsubscribed exactly when nobody watches it any more |
| `JanusFtl.JanusFtl.RemoveViewer` | src/JanusFtl.cpp:260-298 | the session leaves both lists; on an Edge node, whether it was the only watcher (`LastViewerIff`) |
| `JanusFtl.JanusFtl.HandleWatchMessage` | src/JanusFtl.cpp:724-814 | whole new state |
| `JanusFtl.JanusFtl.WaitForStream` | src/JanusFtl.cpp:741-781 | subscribe if first, and wait |
| `JanusFtl.JanusFtl.EndStream` | src/JanusFtl.cpp:657-699 | whole new state |
| `JanusFtl.JanusFtl.DetachStream` | src/JanusFtl.cpp:674-698 | the stream object leaves the table, its viewers leave the object |
| `JanusFtl.JanusFtl.AttachStream` | src/JanusFtl.cpp:362-375 | the loop moves all waiting viewers into the new stream object |
| `JanusFtl.JanusFtl.StartStream` | src/JanusFtl.cpp:338-397 | whole new state |
| `JanusFtl.JanusFtl.VacateChannel` | src/JanusFtl.cpp:351-360 | the previous stream is stopped on the server and ended |
| `JanusFtl.JanusFtl.ForgetLive` | src/JanusFtl.cpp:264-281 | the session leaves the stream; whether it was the last viewer |
| `JanusFtl.JanusFtl.ForgetWaiting` | src/JanusFtl.cpp:283-298 | the session leaves the waiting list; whether it was the last |
| `StreamLifecycle.ReplacingIsAsked` | src/JanusFtl.cpp:351-360 | the stops queued on the server are those the plugin asks for |
| `StreamLifecycle.StepInStep` | src/JanusFtl.cpp:338-403 | every step of server and plugin keeps them in step |
| `StreamLifecycle.ServerAndPluginAgree` | src/JanusFtl.cpp:338-403 | on every run: same ids; a live stream is on the server, about to be reported ended, or being stopped by the report thread; an id that is not live was ended once |
| `StreamLifecycle.LiveIsActiveAtRest` | src/JanusFtl.cpp:338-403 | when nothing is queued or running, every live stream is active on the server |
| `StreamLifecycle.ReplacedWhileStarting` | src/JanusFtl.cpp:351-360 | a stream replaced while being started has ended for service and viewers, and the server goes on starting it |
| `StreamLifecycle.KeptUntilFreed` | src/FtlServer.cpp:347-679 | over every run of server and plugin, record, port and id of a started stream are kept if and only if no step handled its close, or a stop for it, while it was in the table |
| `StreamLifecycle.OverlookedUntilClosed` | src/JanusFtl.cpp:351-360 | while the report thread does not ask, a replaced stream whose stop was missed is freed by its close only |
| `StreamLifecycle.AskedAgainIsFreed` | src/JanusFtl.cpp:544-655 | the stop the report thread asks for frees it for good, once it is in the table |
| `StreamsAtRest.StepSettled` | src/JanusFtl.cpp:338-403 | every step keeps: a stream the server has that is not live, or condemned, has a stop queued or missed; a missed stop was meant for such a stream |
| `StreamsAtRest.LiveIffActive` | src/JanusFtl.cpp:338-403 | after every run that comes to rest, a stream is live if and only if it is active on the server and no stop for it was handled while it was being started |
| `StreamAdmission.CallIsAsked` | src/FtlServer.cpp:475-522 | the service is called only for a connection and channel a request was queued for |
| `StreamAdmission.RequestIsVouched` | src/FtlControlConnection.cpp:412-453 | a connection that asked for a port has authenticated for the channel |
| `StreamAdmission.StepSound` | src/FtlServer.cpp:139-167 | every step of server and connections keeps requests and ids admitted and traced |
| `StreamAdmission.EveryStreamIsAdmitted` | src/FtlServer.cpp:139-167 | on every run, whatever clients send: every id was issued for a connection that asked for the channel's key and was provided one that matched the client's hash, and the server has the stream on that channel |
| `StreamAdmission.EveryConnectionIsMade` | src/FtlServer.cpp:375-389 | on every run there is a connection object for exactly the connections announced, so for every pending one |
| `StreamAdmission.EveryRequestIsQueued` | src/FtlServer.cpp:139-167 | whatever a connection gets, exactly the key and port requests it then logs are queued on the server, as its own and for their channel |

## Left out

- H264Depacketizer.BuildBuffer: requires packets whose header claims no more than they hold; for others the original reads outside the packet.
- MediaConnection.FtlMediaConnection.HandleMediaPacket: requires the same of H264 video, of which alone the payload is read.
- FtlServer.Server.ReserveMediaPort: requires a search that ends; `SearchNeverEnds` says what the other one does.
- Concurrency below the level of a locked method or an event handler: each is one step. The callback that starts a stream and the queueing of its result are one step too.
- Which key the service provides for a channel: any key may be provided at any time.
- Clocks, random payloads and the keyed hash are parameters; one clock reading serves a whole packet.
- The calls a shutdown makes itself, without a task: it terminates the pending connections and asks the active streams to stop, which stay in the table until they close.
- `FtlStream`'s close-once flag: the server's results hold for any number of closed reports, from any stream, at any time.
- In runs of the server, pending connections expire one at a time, as separate steps, whenever they are old enough.
- The server's identities: connections, streams and stream ids are taken to be new when they are made, handles when a session is created.
- Fragments of type FU-B, which the keyframe store accepts and the depacketizer treats as whole units.
- Pings and sender reports, which come under other SSRCs.
- `sinceLastMissed`, the time a packet was received, and the `stable` flag's use in log output.
- Unsigned 64-bit overflow of statistics and of extended numbers; `lostCount--` is modelled with its wrap.
- The bytes of NACK packets, and the text of replies to a control client, which are entries of a log.
- `std::regex` is modelled by what the two patterns match, with line breaks as the characters a dot does not match.
- JanusStream's relays, sending RTP to viewers, SDP offers, Janus messages and RTCP.
- Sockets, listeners, connection creators, `Configuration`, `Watchdog`, the service connections that speak HTTP, `FtlClient`'s sockets and threads.
- Decoding the byte stream with libav, JPEG previews, bitrate and stream statistics, `GetNackCount`, which returns the count of missed packets.
