# SynchroSonic, verified

SynchroSonic captures the sound of one computer and plays it on others. This project models its
audio path and its device discovery in Dafny 4.11 and proves what they promise, over every run.
`dafny verify dfyconfig.toml` checks all of it.

## What is modelled

**The receiver** queues packets in a bounded buffer and writes each one to a playback sink when the
sender's capture time, moved to the receiver's clock, has come. The worker is an object with fields
updated in place (`ReceiverWorker.dfy`, `PacketBuffers.dfy`); each of its methods is proved equal to
a function on values (`Playout.dfy`), and the properties of runs are proved about these functions
(`PlayoutInvariants.dfy`, `PlayoutGuarantees.dfy`, `PlayoutAccounts.dfy`, `PlayoutSchedule.dfy`,
`PlayoutTicks.dfy`): when it is ready (`PlayoutReadiness.dfy`), when a session begins and ends
(`PlayoutTransport.dfy`), and what it publishes meanwhile (`PlayoutStates.dfy`).
`PlayoutLimits.dfy` has two expectations that the code does not meet, with their exact conditions.
The clock and the sink are inputs: every reading and every answer is arbitrary.

**The sender** keeps a map of targets, connects to them in the background with capped retries, and
offers every captured frame to every active branch. Its steps may come in any order, and the report
of an attempt may arrive at any time, also after its target was removed or added again
(`SenderTargets.dfy`, `SenderGuarantees.dfy`, `SenderManager.dfy`). What becomes of a device is told
by its own story (`SenderOutcomes.dfy`); how far one target's failure reaches is stated exactly
(`SenderIsolation.dfy`). Each branch has a queue that drops its oldest frame and races with the
thread that empties it (`BranchQueue.dfy`), and a writer thread (`NetworkWriter.dfy`). The local
mirror is one more branch (`LocalMirror.dfy`).

**The wire** is a stream of length-prefixed frames (`Framing.dfy`) with messages in their metadata
(`Messages.dfy`), which the receiver's session loop turns into events (`ReceiverSession.dfy`) for as
long as the session lasts (`SessionLife.dfy`). `EndToEnd.dfy` joins all of it: what is played is an
in-order selection of what was captured (`JourneyExample.dfy` follows one frame all the way).

**Discovery** merges announcements into a registry that reports its material changes
(`Discovery.dfy`, `DeviceRegistry.dfy`, and seen from one device `DeviceStories.dfy`); the application
rebuilds its own view from these events, and the view is proved to agree with the registry
(`DiscoveryView.dfy`).

Some records have fields for an observer: logs of packets, of attempts, of announcements. No
operation reads them; they let the properties speak about what happened.

Where the code and its documentation disagree, the model follows the code:

- `docs/receiver-mode.md` calls `max_buffer_ms` a hard ceiling for queued audio. The code limits the
  number of packets, so packets of the announced size may exceed it by part of a packet, very short
  ones by more because their duration is rounded, and packets longer than announced by a multiple
  (`PlayoutLimits.MaximumIsOvershot` and `ShortPacketsOvershoot`, exactly when in
  `MaximumHoldsExactly`).
- `docs/multi-device-streaming.md` says that a full queue drops its oldest packet. If the consumer
  empties the queue during the push, the new packet is dropped (`BranchQueues.NewestLostExactly`).
- `docs/synchronization.md` gives the deadline as a plain sum. A timestamp before the anchor is
  clamped (`PlayoutGuarantees.DeadlineSpacing`).
- `docs/receiver-mode.md` describes Playing as buffered packets being drained. Dropping the last
  packet as late leaves the state at Playing with an empty queue, and nothing else leads there
  (`PlayoutLimits.PlayingFromEmptyFollowsLateDrop`, `TickEntersExactly`).

## Model

| member | source | states |
|---|---|---|
| `LatencyProfiles.PacketNanosIsNearest` | crates/synchrosonic-core/src/receiver.rs:126-132 | the packet duration is frames / rate to within half a nanosecond |
| `LatencyProfiles.CapacityCoversMaximum` | crates/synchrosonic-core/src/receiver.rs:83-95 | the capacity is the least number of packets that lasts for the preset's maximum duration, and at least one |
| `LatencyProfiles.FullBufferReachesTarget` | crates/synchrosonic-core/src/receiver.rs:46-95 | a full complement of full-size packets has reached the target duration if and only if the packet duration does not round to zero nanoseconds, through ceiling, rounding and flooring |
| `LatencyProfiles.FrameCountBound` | crates/synchrosonic-core/src/receiver.rs:152-166 | an accepted payload is exactly frame count times frame size, and the 32-bit count of a payload the wire can carry is the true one |
| `LatencyProfiles.QueuedAudioFits` | crates/synchrosonic-core/src/receiver.rs:83-95 | however short the packets, a full buffer of maximal payloads stays below 2^31 milliseconds and the 64-bit product does not saturate |
| `LatencyProfiles.PresetsAreCoherent` | crates/synchrosonic-core/src/receiver.rs:46-82 | the presets trade latency for stability in every figure at once, and each is coherent: late before dropped, dropped before a target has gone by, room for two targets, patience beyond the buffer |
| `PacketBuffers.FullBufferIsReady` | crates/synchrosonic-receiver/src/buffer.rs:50-53 | buffering cannot wedge: a full buffer of full-size packets is ready exactly when packets last at least one nanosecond |
| `PacketBuffers.TinyPacketsNeverReady` | crates/synchrosonic-receiver/src/buffer.rs:50-53 | the failing case exists: one frame per packet at 4 GHz fills the buffer without making it ready |
| `PacketBuffers.QueueStaysNearMaximum` | crates/synchrosonic-receiver/src/buffer.rs:55-82 | whatever the size of the packets: with at most a given number of frames each, the queued audio exceeds the maximum, scaled by that number over the announced size, by at most one packet and half a nanosecond of rounding for each packet of capacity |
| `PacketBuffers.ReceiverPacketBuffer.constructor` | crates/synchrosonic-receiver/src/buffer.rs:32-43 | a new buffer is empty and shaped by profile and stream |
| `PacketBuffers.ReceiverPacketBuffer.Clear` | crates/synchrosonic-receiver/src/buffer.rs:45-48 | the queue becomes empty, its shape stays |
| `PacketBuffers.ReceiverPacketBuffer.QueuedMs` | crates/synchrosonic-receiver/src/buffer.rs:94-101 | the counter updated in place yields the milliseconds of the packets really queued; saturating subtraction never fires |
| `PacketBuffers.ReceiverPacketBuffer.IsReady` | crates/synchrosonic-receiver/src/buffer.rs:50-53 | readiness as seen through the counter is readiness of the queue itself |
| `PacketBuffers.ReceiverPacketBuffer.Push` | crates/synchrosonic-receiver/src/buffer.rs:55-82 | rejects exactly the malformed payloads without effect; otherwise appends, evicting the oldest from a full buffer and naming it |
| `PacketBuffers.ReceiverPacketBuffer.Pop` | crates/synchrosonic-receiver/src/buffer.rs:84-88 | takes the oldest packet, if any |
| `ReceiverWorkers.ReceiverWorker.constructor` | crates/synchrosonic-receiver/src/service.rs:221-247 | a new worker is listening, unconnected, with empty buffer and fresh counters |
| `ReceiverWorkers.ReceiverWorker.StopPlaybackSink` | crates/synchrosonic-receiver/src/service.rs:645-652 | no sink remains |
| `ReceiverWorkers.ReceiverWorker.ResetSyncTimeline` | crates/synchrosonic-receiver/src/service.rs:581-590 | clock, deadline and sender timestamps are forgotten, everything else stays, the reset is counted on request |
| `ReceiverWorkers.ReceiverWorker.RefreshSyncBufferMetrics` | crates/synchrosonic-receiver/src/service.rs:574-579 | the published buffer metrics are those of the queue |
| `ReceiverWorkers.ReceiverWorker.WriteDeadlineFor` | crates/synchrosonic-receiver/src/service.rs:568-572 | anchor instant plus media offset plus target, or none without a clock |
| `ReceiverWorkers.ReceiverWorker.HandleDisconnect` | crates/synchrosonic-receiver/src/service.rs:604-629 | the whole state after a disconnect, the discarded packets included |
| `ReceiverWorkers.ReceiverWorker.SetError` | crates/synchrosonic-receiver/src/service.rs:631-643 | the whole state after an error |
| `ReceiverWorkers.ReceiverWorker.HandleConnect` | crates/synchrosonic-receiver/src/service.rs:316-351 | a new session replaces the old one; a sink that does not start leaves the error state |
| `ReceiverWorkers.ReceiverWorker.HandlePlaybackTargetChange` | crates/synchrosonic-receiver/src/service.rs:274-314 | the sink is replaced or kept, an idle error state is left, nothing else changes |
| `ReceiverWorkers.ReceiverWorker.HandlePacket` | crates/synchrosonic-receiver/src/service.rs:353-437 | anchors the clock, stores or rejects the packet, and re-arms the schedule |
| `ReceiverWorkers.ReceiverWorker.DrainTurn` | crates/synchrosonic-receiver/src/service.rs:473-565 | one turn of the drain loop: underrun, late drop, wait, failed write or write |
| `ReceiverWorkers.ReceiverWorker.DrainReadyPackets` | crates/synchrosonic-receiver/src/service.rs:446-566 | the popping loop comes to the recursive drain, for every sequence of clock readings and sink answers, and terminates |
| `ReceiverWorkers.ReceiverWorker.CheckTransportTimeout` | crates/synchrosonic-receiver/src/service.rs:592-602 | disconnects exactly a connected worker whose silence has reached the grace period |
| `ReceiverWorkers.ReceiverWorker.OnTick` | crates/synchrosonic-receiver/src/service.rs:439-444 | drain, then timeout, then metrics |
| `ReceiverWorkers.ReceiverWorker.NextWaitDuration` | crates/synchrosonic-receiver/src/service.rs:654-670 | the wait ends by deadline, timeout or 200 ms, and lasts at least 5 ms |
| `ReceiverWorkers.ReceiverWorker.Handle` | crates/synchrosonic-receiver/src/service.rs:249-272 | each command takes the worker to the state of the step function |
| `ReceiverWorkers.ReceiverWorker.Shutdown` | crates/synchrosonic-receiver/src/service.rs:687-696 | the worker's last state: idle, everything torn down |
| `ReceiverWorkers.ReceiverWorkerLoop` | crates/synchrosonic-receiver/src/service.rs:707-728 | the loop's final state is that of the run of its commands, shut down |
| `PlayoutInvariants.StepKeeps` | crates/synchrosonic-receiver/src/service.rs:249-643 | every command keeps the invariant: structure, ledger of packets, priming and schedule |
| `PlayoutGuarantees.ReachableStates` | crates/synchrosonic-receiver/src/service.rs:249-351 | connection, sink and state agree in every reachable state; the clock is set exactly while packets are queued; a deadline implies a queue; the queue is bounded |
| `PlayoutGuarantees.SinkIsNeverMissing` | crates/synchrosonic-receiver/src/service.rs:523-526 | from every reachable state, draining into a sink that accepts never ends the session: the branch for a vanished sink is dead |
| `PlayoutGuarantees.PlayoutTiming` | crates/synchrosonic-receiver/src/service.rs:473-565 | in every run, each write happens in [deadline, deadline + late_packet_drop_ms + 1 ms) and each late drop after it |
| `PlayoutGuarantees.DeadlineSpacing` | crates/synchrosonic-receiver/src/service.rs:196-200 | deadlines are spaced as the sender's timestamps if and only if neither saturating operation fires |
| `PlayoutGuarantees.ReorderedTimestampsLoseSpacing` | crates/synchrosonic-receiver/src/service.rs:196-200 | a timestamp before the anchor collapses two deadlines into one |
| `PlayoutGuarantees.PlayoutDrift` | crates/synchrosonic-receiver/src/service.rs:473-565 | two packets played under one clock, in whatever order they are stamped, are as far apart as they were captured, up to late_packet_drop_ms + 1 ms, unless a deadline was clamped |
| `PlayoutGuarantees.SortedSessionsStayInRange` | crates/synchrosonic-receiver/src/service.rs:196-200 | with timestamps that do not decrease, a deadline is clamped only beyond the 64-bit range counted from the anchor |
| `PlayoutGuarantees.Conservation` | crates/synchrosonic-receiver/src/service.rs:316-437 | since the last connect, received minus played minus overruns minus late drops is the queue length, and removed packets followed by the queue are the accepted ones in order |
| `PlayoutGuarantees.PlayedInOrder` | crates/synchrosonic-receiver/src/service.rs:498-547 | what a session wrote to the sink is an in-order, duplicate-free part of what it accepted |
| `PlayoutGuarantees.WritesArePrimed` | crates/synchrosonic-receiver/src/service.rs:397-492 | between a timeline reset and the next write there is a moment at which the buffer was ready; no write escapes the record |
| `PlayoutGuarantees.SyncMetricsExact` | crates/synchrosonic-receiver/src/service.rs:574-579 | with payloads the wire can carry the i32 cast, the subtraction and the 64-bit product are exact in every reachable state |
| `PlayoutGuarantees.FullBufferSchedules` | crates/synchrosonic-receiver/src/service.rs:388-406 | in every run, the full-size packet that fills the buffer schedules playback if and only if packets last at least a nanosecond |
| `PlayoutReadiness.ReadyExactly` | crates/synchrosonic-receiver/src/buffer.rs:50-53 | a queue is ready if and only if it is not empty, its stream has a rate, its packets at their announced duration and its frames at the stream's rate both last for the target, through ceiling, flooring, rounding and saturation |
| `PlayoutReadiness.ThreePacketsAreReady` | crates/synchrosonic-receiver/src/buffer.rs:50-53 | low latency, default stream: three packets of ten milliseconds, not two |
| `PlayoutReadiness.ArrivalArmsExactly` | crates/synchrosonic-receiver/src/service.rs:388-406 | in every run a packet arms an idle schedule, for the packet in front, if and only if the target is queued with it, and leaves an armed one alone |
| `PlayoutReadiness.RecoveryEndsExactly` | crates/synchrosonic-receiver/src/service.rs:397-437 | a recovering synchroniser primes again with the packet that completes the target, and not before |
| `PlayoutReadiness.WritesFollowTarget` | crates/synchrosonic-receiver/src/service.rs:397-547 | in every run, for each write to the sink there was a moment since the last timeline reset at which the queue held the preset's target, in packets and in milliseconds |
| `PlayoutTransport.GivenUpExactly` | crates/synchrosonic-receiver/src/service.rs:592-629 | in every run, a tick leaves the session open if and only if the sink took what it was given and the last sign of life is less than the grace period ago: an error if the sink refused, else, at the end of the grace period, listening with sink closed, queue empty and one reconnect more |
| `PlayoutTransport.SilentSenderIsGivenUp` | crates/synchrosonic-receiver/src/service.rs:592-602 | low latency and nothing but a connection: the session is there at 750 ms less a nanosecond and gone at 750 ms |
| `PlayoutTransport.TickEndsExactly` | crates/synchrosonic-receiver/src/service.rs:439-444 | the same for any connected worker, clock and sink, and what stays as it was if the session goes on |
| `PlayoutTransport.StepEndsExactly` | crates/synchrosonic-receiver/src/service.rs:249-272 | which other commands end a session: a connection whose sink does not start, a malformed packet, a disconnect, a transport error; with state and counter afterwards |
| `PlayoutTransport.StepBeginsExactly` | crates/synchrosonic-receiver/src/service.rs:249-351 | without a session only a connection whose sink starts begins one; the state and counters after anything else |
| `PlayoutTransport.WakesForFirstReason` | crates/synchrosonic-receiver/src/service.rs:654-670 | the worker sleeps between 5 and 200 ms, and within these limits until exactly the first of the armed deadline and the end of the sender's grace period |
| `PlayoutTransport.SilenceEndsInTime` | crates/synchrosonic-receiver/src/service.rs:592-670 | in every run, a worker left alone in silence goes on with its session, or gives the sender up less than 5 ms after the grace period |
| `PlayoutTransport.ShutdownLeavesNothing` | crates/synchrosonic-receiver/src/service.rs:687-696 | after shutdown the service is idle and every packet any session accepted has its fate |
| `PlayoutStates.FiguresAreRight` | crates/synchrosonic-receiver/src/service.rs:353-437 | in every state: queued milliseconds are those of the queue, the sender's times those of the packet queued last, the requested latency that of the connection; an error leaves the synchroniser recovering |
| `PlayoutStates.DistanceIsRight` | crates/synchrosonic-receiver/src/service.rs:574-579 | after every tick the distance to the target is that of the queue |
| `PlayoutStates.ErrorIsPublished` | crates/synchrosonic-receiver/src/service.rs:488-521 | after every tick the schedule error is the whole milliseconds still to go to the armed deadline, or zero |
| `PlayoutStates.ServiceStateFollows` | crates/synchrosonic-receiver/src/service.rs:249-566 | the service state of an open session from one command to the next, in every run: when it buffers, when it plays, when it stops playing |
| `PlayoutStates.TroubleIsCounted` | crates/synchrosonic-receiver/src/service.rs:439-629 | in every run: underruns are the ticks that played the last queued packet, timeline resets the ticks since the last connection that emptied the queue, reconnects the suggested disconnects and the senders given up |
| `PlayoutLimits.MaximumHoldsExactly` | crates/synchrosonic-receiver/src/service.rs:353-437 | over every run, the preset's maximum bounds the queued audio of a stream with packets of at most a given number of frames if and only if the buffer's capacity in such packets fits into it |
| `PlayoutLimits.MaximumIsOvershot` | crates/synchrosonic-receiver/src/service.rs:353-437 | two runs beyond the maximum of 110 ms: 117 ms of packets of the announced size, and 220 ms of packets twice the announced size |
| `PlayoutLimits.ShortPacketsOvershoot` | crates/synchrosonic-receiver/src/service.rs:353-437 | a run of very short packets of the announced size that queues 137 ms against a maximum of 110 ms |
| `PlayoutLimits.PlayingFromEmptyFollowsLateDrop` | crates/synchrosonic-receiver/src/service.rs:498-518 | in every reachable state that plays from an empty queue, the last packet to leave it was dropped as late |
| `PlayoutLimits.TickEntersExactly` | crates/synchrosonic-receiver/src/service.rs:439-566 | a tick enters that state if and only if its drain drops the last packet as late while playing, and neither sink nor timeout ends the session; for every clock and sink |
| `PlayoutLimits.TickPlaysFromEmptyExactly` | crates/synchrosonic-receiver/src/service.rs:439-566 | told beforehand, with a standing clock and sorted timestamps: a playing, armed service all of whose packets are too late, and no timeout |
| `PlayoutLimits.PlayingFromEmptyIsReachable` | crates/synchrosonic-receiver/src/service.rs:439-566 | a run that gets there: two packets, a tick in time and a tick 27 ms too late |
| `PlayoutAccounts.CountersAddUp` | crates/synchrosonic-receiver/src/service.rs:379-387 | since the last connect, the frame and byte counters are the sums over exactly the accepted and the played packets |
| `PlayoutAccounts.SyncStateIsTelling` | crates/synchrosonic-receiver/src/service.rs:498-547 | the sync state is Locked only if the packet timed last was written within the tolerance, Late only if it was not |
| `PlayoutAccounts.LockedExactly` | crates/synchrosonic-receiver/src/service.rs:498-547 | in every run the synchroniser is locked if and only if something was written since the last timeline reset and the packet timed last was within the tolerance; else, once something was written, it is late, and the service plays |
| `PlayoutSchedule.DrainPartitions` | crates/synchrosonic-receiver/src/service.rs:446-566 | a primed drain with a standing clock and sorted timestamps splits the queue into dropped, played and kept by lateness alone |
| `PlayoutSchedule.DrainIsIdempotent` | crates/synchrosonic-receiver/src/service.rs:446-566 | a second drain at the same instant plays and drops nothing |
| `PlayoutSchedule.QuietTick` | crates/synchrosonic-receiver/src/service.rs:439-444 | one undisturbed wait and tick plays exactly what is due and goes on waiting for the rest |
| `PlayoutSchedule.QuietRun` | crates/synchrosonic-receiver/src/service.rs:654-725 | left alone, the receiver plays every queued packet, each less than 5 ms late, drops none and finishes |
| `PlayoutSchedule.WaitingIsReachable` | crates/synchrosonic-receiver/src/service.rs:388-406 | the situation QuietRun starts from is reached by a connection and one packet |
| `PlayoutTicks.FirstTickDecides` | crates/synchrosonic-receiver/src/service.rs:446-566 | however keep-alives and ticks fall while nothing new arrives, the first tick at or after a packet's deadline removes it: played within the drop tolerance, dropped as late beyond it; without such a tick it is still queued |
| `PlayoutTicks.PromptTicksPlayAll` | crates/synchrosonic-receiver/src/service.rs:707-725 | ticks that come less than a delay within the drop tolerance after every deadline play every packet that early, drop none and leave none |
| `PlayoutTicks.WakesContinueRun` | crates/synchrosonic-receiver/src/service.rs:249-272 | being woken up so is part of a run of the worker |
| `BranchQueues.NextKeeps` | crates/synchrosonic-transport/src/fanout.rs:67-88 | every atomic channel operation keeps bound, order and accounting, at every point of a push |
| `BranchQueues.NothingUnaccounted` | crates/synchrosonic-transport/src/fanout.rs:67-88 | under every interleaving: length within capacity, and offered = delivered + queued + dropped + cleared + in progress |
| `BranchQueues.OrderKept` | crates/synchrosonic-transport/src/fanout.rs:67-88 | under every interleaving, delivered followed by queued is an in-order part of offered |
| `BranchQueues.RetrySucceeds` | crates/synchrosonic-transport/src/fanout.rs:79-86 | with one producer the second full-channel arm is unreachable |
| `BranchQueues.NewestLostExactly` | crates/synchrosonic-transport/src/fanout.rs:72-78 | the pushed item itself is lost if and only if the consumer received the whole capacity during the push |
| `BranchQueues.PushFullQueue` | crates/synchrosonic-transport/src/fanout.rs:67-88 | what a push into a full queue comes to, for every number of concurrent receives before and after the eviction |
| `BranchQueues.PushWithRoom` | crates/synchrosonic-transport/src/fanout.rs:67-71 | a push that finds room queues its item behind the others and loses nothing, whatever the consumer does |
| `BranchQueues.BufferedBranchQueue.constructor` | crates/synchrosonic-transport/src/fanout.rs:39-49 | a requested capacity of zero becomes one |
| `BranchQueues.BufferedBranchQueue.PushFrame` | crates/synchrosonic-transport/src/fanout.rs:67-88 | the push in place performs the channel operations of the machine, and returns the outcome it records |
| `BranchQueues.BufferedBranchQueue.Clear` | crates/synchrosonic-transport/src/fanout.rs:63-65 | the channel ends empty; every item in it is counted as cleared, none as delivered |
| `BranchQueues.BranchQueueLastsTargetLatency` | crates/synchrosonic-transport/src/sender.rs:1763-1772 | between its limits the capacity without headroom is the least that lasts for the target latency in whole-millisecond packets |
| `LocalMirrors.MirrorIsHonest` | crates/synchrosonic-transport/src/fanout.rs:182-299 | in every run: enabled, having a sink and the state told by the events agree, so a frame never meets a missing sink; no sink leaks; what is played is in order and reported byte for byte |
| `LocalMirrors.MirrorFollows` | crates/synchrosonic-transport/src/fanout.rs:182-299 | in every run the mirror is on from each start that works to the next stop or failure, plays exactly the frames that come meanwhile, opens one sink for each start and names its target, and reports state and each failure once |
| `LocalMirrors.LocalMirrorWorker.HandleControl` | crates/synchrosonic-transport/src/fanout.rs:193-242 | the whole state after a control taken at once |
| `LocalMirrors.LocalMirrorWorker.HandleIdleControl` | crates/synchrosonic-transport/src/fanout.rs:244-272 | the whole state after a control awaited while disabled |
| `LocalMirrors.LocalMirrorWorker.PlayFrame` | crates/synchrosonic-transport/src/fanout.rs:274-298 | the whole state after a frame: written, refused, or met without a sink |
| `LocalMirrors.LocalMirrorWorker.WorkerLoop` | crates/synchrosonic-transport/src/fanout.rs:182-299 | the thread does exactly its turns until it is shut down, and keeps the invariant of all runs |
| `Framing.BigEndianRoundTrip` | crates/synchrosonic-transport/src/protocol.rs:133-166 | a length survives its four bytes |
| `Framing.BigEndianCanonical` | crates/synchrosonic-transport/src/protocol.rs:168-214 | four bytes are the one encoding of the length they decode to |
| `Framing.ReadWritten` | crates/synchrosonic-transport/src/protocol.rs:133-214 | reading a written frame gives it back and stops behind it |
| `Framing.ReadIsCanonical` | crates/synchrosonic-transport/src/protocol.rs:168-214 | whatever the reader accepts re-encodes to the very bytes it consumed, within the limits |
| `Framing.TruncatedFrame` | crates/synchrosonic-transport/src/protocol.rs:168-214 | a frame cut short reads as end of input, never as something else |
| `Framing.HeaderDecides` | crates/synchrosonic-transport/src/protocol.rs:168-214 | how any stream that begins with a header reads: unknown kind, metadata over 8 KiB, payload over 256 KiB, missing body, or else the frame |
| `Framing.MagicComesFirst` | crates/synchrosonic-transport/src/protocol.rs:168-190 | thirteen bytes without the magic fail on it and on nothing else |
| `Framing.PrefixFree` | crates/synchrosonic-transport/src/protocol.rs:133-166 | no encoding is a strict prefix of another |
| `Framing.PartialStream` | crates/synchrosonic-transport/src/protocol.rs:168-214 | however a stream of frames is cut, the reader gets a prefix of the frames and then runs out |
| `Framing.StreamRoundTrip` | crates/synchrosonic-transport/src/protocol.rs:133-214 | reading a concatenation of frames gives exactly those frames, wire bytes adding up |
| `Framing.FrameWriter.WriteFrame` | crates/synchrosonic-transport/src/protocol.rs:133-166 | appends exactly the encoding and reports its length, or writes nothing and says which limit is exceeded |
| `Framing.FrameReader.ReadFrame` | crates/synchrosonic-transport/src/protocol.rs:168-214 | the reading in pieces gives the result of parsing the rest of the stream, consuming the reported bytes |
| `Messages.HandshakeAgrees` | crates/synchrosonic-transport/src/receiver.rs:424-443 | the receiver takes a hello if and only if it advertises its codec and the sender takes the answer |
| `Messages.OwnHelloIsAccepted` | crates/synchrosonic-transport/src/protocol.rs:65-86 | every hello the sender builds is accepted, with an answer the sender then accepts |
| `Messages.AnswerIsFitting` | crates/synchrosonic-transport/src/receiver.rs:279-292 | the answer keeps session, codec and stream, its keepalive interval suits both ends, and its latency is 80, 150 or 230 ms by preset |
| `ReceiverSessions.TraceGrammar` | crates/synchrosonic-transport/src/receiver.rs:271-414 | every session emits nothing, or Connected, then audio and keepalives, then at most one ending |
| `ReceiverSessions.SessionForwardsAudio` | crates/synchrosonic-transport/src/receiver.rs:324-349 | the session hands on the audio it reads, in order, payloads unchanged, up to where it ends |
| `SessionLife.ActiveExactly` | crates/synchrosonic-transport/src/receiver.rs:248-414 | a session is still active if and only if a good hello opened it and every later turn was a timeout, a decodable audio frame that was handed on, or a decodable heartbeat that was handed on and answered; and then its events and replies are exactly those |
| `SessionLife.EndsExactly` | crates/synchrosonic-transport/src/receiver.rs:305-414 | the first other turn ends it, with its last words and reply, and nothing later is looked at |
| `SessionLife.RefusedExactly` | crates/synchrosonic-transport/src/receiver.rs:248-303 | a connection without a good first turn reports nothing, and what it is told |
| `ReceiverSessions.HandleReceiverSession` | crates/synchrosonic-transport/src/receiver.rs:248-422 | the loop stops reading when the session ends and yields the session of all its turns |
| `ReceiverSessions.ReceiverListenerLoop` | crates/synchrosonic-transport/src/receiver.rs:178-215 | consecutive sessions never interleave: the whole trace is their grammatical traces one after the other |
| `NetworkWriters.AudioSurvives` | crates/synchrosonic-transport/src/sender.rs:1470-1478 | an audio frame decodes to the captured packet and is within the limits exactly if its payload is |
| `NetworkWriters.WriterKeepsOrder` | crates/synchrosonic-transport/src/sender.rs:1422-1501 | the audio on the wire is a prefix of the frames taken from the queue, all of them until the first failure |
| `NetworkWriters.WritingExactly` | crates/synchrosonic-transport/src/sender.rs:1422-1501 | the writer is still at work if and only if every turn was idle or a heartbeat or packet that fits and gets out, and then exactly these are on the wire |
| `NetworkWriters.WritingEndsExactly` | crates/synchrosonic-transport/src/sender.rs:1422-1501 | the first other turn ends the loop: a stop, a shutdown, an oversized message or a failure; and what it still writes |
| `NetworkWriters.NetworkWriterLoop` | crates/synchrosonic-transport/src/sender.rs:1422-1501 | the loop's bytes are the encoding of exactly those frames |
| `NetworkWriters.SendFrame` | crates/synchrosonic-transport/src/protocol.rs:122-131 | a message over the limits or a broken socket ends the loop |
| `EndToEnd.WireFromOffered` | crates/synchrosonic-transport/src/sender.rs:1422-1501 | queue and writer: the audio on the wire is an in-order part of what was offered to the branch |
| `EndToEnd.EventsFromWire` | crates/synchrosonic-transport/src/receiver.rs:324-349 | framing and session: the audio events are a prefix of the audio on the wire, wherever TCP has got to |
| `EndToEnd.AcceptedFromSession` | crates/synchrosonic-receiver/src/service.rs:353-437 | worker: what a session accepted is an in-order part of its audio events, with ticks in between |
| `EndToEnd.PlayedIsInOrderOfOffered` | crates/synchrosonic-receiver/src/service.rs:353-566 | what a session writes to the sink is an in-order, duplicate-free selection, unchanged, of the frames offered to its branch |
| `EndToEnd.PlayedIsInOrderOfCaptured` | crates/synchrosonic-transport/src/sender.rs:1254-1310 | the same of the frames captured since the target became active, through every run of the manager |
| `JourneyExample.SomeJourneyPlays` | crates/synchrosonic-receiver/src/service.rs:353-566 | the premises of the end-to-end theorem are met by a journey whose one frame is played |
| `SenderGuarantees.StepKeepsInv` | crates/synchrosonic-transport/src/sender.rs:1006-1370 | every step of the manager, in any order, keeps credit, entries and pending attempts consistent |
| `SenderGuarantees.BoundedRetries` | crates/synchrosonic-transport/src/sender.rs:1046-1198 | under every race: attempts launched are at most three per accepted insert, for each device and in total, no attempt number exceeds the cap, and the 3000 ms backoff is never used |
| `SenderGuarantees.NoTargetIsForgotten` | crates/synchrosonic-transport/src/sender.rs:729-744 | in every run a pending target has an attempt still to be reported, or its next attempt is where the last step that set it put it: at an accepted insertion, or 500 or 1500 ms after the report that its first or second attempt failed |
| `SenderManagers.DueTargetIsLaunched` | crates/synchrosonic-transport/src/sender.rs:1046-1071 | processing pending targets at or after that time launches the target, in whatever order they are visited |
| `SenderGuarantees.StreamsFromOpenCapture` | crates/synchrosonic-transport/src/sender.rs:1254-1310 | whatever streams does so from an open capture, and has been offered each captured frame since its activation exactly once, in order |
| `SenderIsolation.FailuresAreIsolated` | crates/synchrosonic-transport/src/sender.rs:1143-1370 | exactly how far one target's failure reaches: whatever is done about other targets afterwards, their entries are at every moment what they would be without it, if and only if no known target connects while the capture is closed that would be open without the failure, and starting it fails |
| `SenderIsolation.StreamingTargetIsIsolated` | crates/synchrosonic-transport/src/sender.rs:1230-1252 | the same for a target that streams in a reachable state, with the condition read off the run with the failure alone |
| `SenderIsolation.RefusalsAreIsolated` | crates/synchrosonic-transport/src/sender.rs:1288-1309 | the same if the failure is that a branch refuses a frame |
| `SenderIsolation.FailureMayCloseCapture` | crates/synchrosonic-transport/src/sender.rs:1323-1361 | two runs that differ in one failure: with it the next target is in error, without it that target streams |
| `SenderGuarantees.DerivedStateIsTelling` | crates/synchrosonic-transport/src/sender.rs:1689-1721 | the published state is idle, streaming, connecting or error exactly as the targets are: none, some streaming, else some pending, else none of these; and streaming only with an open capture |
| `SenderOutcomes.DevicesLiveAlone` | crates/synchrosonic-transport/src/sender.rs:1006-1370 | in every run, under every race, each device is in the phase to which its own story takes it: a life of six phases, told without any other device |
| `SenderOutcomes.KnownExactly` | crates/synchrosonic-transport/src/sender.rs:1026-1087 | a device is known if and only if it was requested and not removed since |
| `SenderOutcomes.CaptureFollows` | crates/synchrosonic-transport/src/sender.rs:1323-1361 | the capture opens with a known target's connection and closes when an idle check finds nobody alive |
| `SenderOutcomes.SuccessActivatesExactly` | crates/synchrosonic-transport/src/sender.rs:1143-1170 | what a connection makes of its target, and of others if the capture fails |
| `SenderOutcomes.FailureIsRetriedExactly` | crates/synchrosonic-transport/src/sender.rs:1172-1198 | a pending device's first failed attempt is repeated 500 ms later, its second 1500 ms later; the third, or one not worth retrying, is final |
| `SenderOutcomes.ThreeAttempts` | crates/synchrosonic-transport/src/sender.rs:1046-1198 | in every run, a device that stays known and keeps failing gets its first, second and third attempt, each launched once, whatever is done about others in between, and is then given up |
| `SenderManagers.RequestIsTriedAtOnce` | crates/synchrosonic-transport/src/sender.rs:1006-1071 | a device requested as a turn of the loop begins has its attempt launched in that turn |
| `SenderManagers.NewcomerIsOffered` | crates/synchrosonic-transport/src/sender.rs:1006-1024 | a target that streams once a turn's reports are in is offered that turn's frame |
| `SenderManagers.ManagedSession.Tick` | crates/synchrosonic-transport/src/sender.rs:573-647 | the session ends the tick in error exactly if a channel or the heartbeat said so |
| `SenderManagers.SenderManager.constructor` | crates/synchrosonic-transport/src/sender.rs:932-1004 | no targets, no capture, nothing in flight |
| `SenderManagers.SenderManager.QueueTargetConnect` | crates/synchrosonic-transport/src/sender.rs:1026-1044 | a busy target is left alone, any other is replaced by a fresh pending one |
| `SenderManagers.SenderManager.RemoveTarget` | crates/synchrosonic-transport/src/sender.rs:1080-1087 | exactly that entry is gone; attempts in flight go on |
| `SenderManagers.SenderManager.ProcessPendingTargets` | crates/synchrosonic-transport/src/sender.rs:1046-1071 | each due target gets exactly one attempt, nobody else does, in the table's own order |
| `SenderManagers.SenderManager.EnsureCaptureRunning` | crates/synchrosonic-transport/src/sender.rs:1323-1343 | an open capture is kept; a failing start or mirror fails every active target |
| `SenderManagers.SenderManager.FailAllActiveTargets` | crates/synchrosonic-transport/src/sender.rs:1363-1370 | exactly the active entries turn to error |
| `SenderManagers.SenderManager.ProcessConnectResult` | crates/synchrosonic-transport/src/sender.rs:1143-1200 | the whole state after one report, also for a target removed or added again meanwhile |
| `SenderManagers.SenderManager.ProcessConnectResults` | crates/synchrosonic-transport/src/sender.rs:1143-1200 | reports take effect in their order of arrival |
| `SenderManagers.SenderManager.TickTargets` | crates/synchrosonic-transport/src/sender.rs:1230-1252 | ticking all and moving the failed ones afterwards gives each entry its own tick and nothing else |
| `SenderManagers.SenderManager.CaptureAndFanOut` | crates/synchrosonic-transport/src/sender.rs:1254-1321 | a frame is offered once to every active branch, a refusing one is dropped, and a broken capture fails them all |
| `SenderManagers.SenderManager.StopCaptureIfIdle` | crates/synchrosonic-transport/src/sender.rs:1345-1361 | the capture closes exactly without pending and active targets |
| `SenderManagers.SenderManager.RunOnce` | crates/synchrosonic-transport/src/sender.rs:1006-1024 | a turn of the loop is exactly its phases in order, one attempt for each due target and one tick for each target, and leaves the capture open only for a live target |
| `SenderManagers.SenderManager.RunLoop` | crates/synchrosonic-transport/src/sender.rs:1006-1024 | the loop's state is that of a run, so all promises about runs hold of it, and between turns the capture is open only for a pending or active target |
| `SenderManagers.LaunchAllMarks` | crates/synchrosonic-transport/src/sender.rs:855-867 | in whatever order due targets are started, each is marked and no other |
| `SenderManagers.TickAllSteps` | crates/synchrosonic-transport/src/sender.rs:1230-1252 | the two-pass tick is the same as ticking one target after the other |
| `Addresses.CandidatesRankHigh` | crates/synchrosonic-discovery/src/lib.rs:891-903 | the candidate filter admits exactly the addresses of quality two and above |
| `Addresses.PreferredIpIsLastBest` | crates/synchrosonic-discovery/src/lib.rs:843-851 | the selection is the last best-ranked candidate, and empty exactly without candidates |
| `Addresses.RanksInOrder` | crates/synchrosonic-discovery/src/lib.rs:853-889 | the ranking orders addresses by kind: private IPv4, public IPv4, global IPv6, unique local, link-local, container bridge, reserved |
| `Addresses.MostWantedIsSelected` | crates/synchrosonic-discovery/src/lib.rs:843-851 | the selected address is the last of the most wanted kind on offer, and there is none exactly if all are bridges or reserved |
| `Addresses.MergeKeepsEarliestBest` | crates/synchrosonic-discovery/src/lib.rs:827-841 | merging announcements leaves the earliest endpoint of maximal rank, none exactly if none was announced |
| `Announcements.ResolvedIsConnectable` | crates/synchrosonic-discovery/src/lib.rs:531-600 | a resolved device is connectable if and only if it is another, compatible, available receiver in a fitting state with a usable address |
| `Announcements.StatusIsTelling` | crates/synchrosonic-discovery/src/lib.rs:679-709 | each status of a resolved device, exactly when it is given |
| `Announcements.EndpointExactly` | crates/synchrosonic-discovery/src/lib.rs:531-600 | a resolved device has an endpoint if and only if it receives and has a usable address, and which |
| `Announcements.FlagsAreSpelled` | crates/synchrosonic-discovery/src/lib.rs:634-639 | a flag is set by four spellings only |
| `Announcements.EmptyRecord` | crates/synchrosonic-discovery/src/lib.rs:531-600 | what a service without properties resolves to |
| `Announcements.DecimalRoundTrip` | crates/synchrosonic-discovery/src/lib.rs:531-600 | a number in a record is read back if it fits into 16 bits, with a plus sign or without, and not otherwise |
| `Announcements.AnnouncementRoundTrip` | crates/synchrosonic-discovery/src/lib.rs:602-632 | resolving a device's own TXT record gives back its profile, and the exact condition under which it can be connected to |
| `DeviceRegistries.StoredEndpointIsEarliestBest` | crates/synchrosonic-discovery/src/lib.rs:456-481 | in every run, a device's endpoint is the earliest of maximal rank since its insertion; the rest is the latest announcement apart from staleness |
| `DeviceRegistries.EndpointNeverWorsens` | crates/synchrosonic-discovery/src/lib.rs:827-841 | while a device stays known, its endpoint stays or gives way to strictly better ones |
| `DeviceRegistries.ResolvedRunsReportExactlyChanges` | crates/synchrosonic-discovery/src/lib.rs:456-507 | in every run that announces resolved devices, an event is reported if and only if something changed materially, and it is one event |
| `DeviceRegistries.ReportsExactlyChanges` | crates/synchrosonic-discovery/src/lib.rs:456-507 | the same for the bare interface and whatever is announced, with its one exception |
| `DeviceRegistries.StaleAnnouncementExpiresForNothing` | crates/synchrosonic-discovery/src/lib.rs:496-507 | the exception of the bare interface exists: a device announced as stale and unavailable |
| `DeviceRegistries.ExpiresOnce` | crates/synchrosonic-discovery/src/lib.rs:496-507 | an expired device is not reported expired again before it is announced again |
| `DeviceStories.RegistryTellsStories` | crates/synchrosonic-discovery/src/lib.rs:456-507 | in every run, what the registry holds of a device is its story, told by announcements, goodbyes and prunings alone |
| `DeviceStories.RegistryReportsChronicle` | crates/synchrosonic-discovery/src/lib.rs:456-507 | in every run, the events are exactly the discoveries, material updates, goodbyes and expiries that the stories call for |
| `DeviceStories.ExpiresExactly` | crates/synchrosonic-discovery/src/lib.rs:496-507 | in every run, a device expires if and only if it is known, was announced last at least the timeout ago, and has not expired since |
| `DeviceStories.PruningIsRun` | crates/synchrosonic-discovery/src/lib.rs:496-507 | pruning is a run of such expiries |
| `DeviceRegistries.DeviceRegistry.constructor` | crates/synchrosonic-discovery/src/lib.rs:449-454 | an empty registry with its timeout |
| `DeviceRegistries.DeviceRegistry.Upsert` | crates/synchrosonic-discovery/src/lib.rs:456-481 | the merge in place, and the event if there is one |
| `DeviceRegistries.DeviceRegistry.MarkRemovedByFullname` | crates/synchrosonic-discovery/src/lib.rs:483-494 | removes one device with that name and says which, or nothing exactly if there is none |
| `DeviceRegistries.DeviceRegistry.PruneStale` | crates/synchrosonic-discovery/src/lib.rs:496-507 | exactly the entries past the timeout become stale, in whatever order the table is visited |
| `DiscoveryViews.EventReplayAgrees` | crates/synchrosonic-core/src/state.rs:242-305 | a view fed the registry's events in order holds exactly its devices up to the last-seen time, its second list is the projection, and the selected receiver is connectable, or none is |
| `DiscoveryViews.SelectionIsSticky` | crates/synchrosonic-core/src/state.rs:285-305 | a selected receiver stays selected while it stays connectable, unless the user chooses another |
| `DiscoveryViews.ChoiceIsTaken` | crates/synchrosonic-core/src/state.rs:215-226 | the user's choice is taken if it can be connected to; otherwise nothing changes |
| `DiscoveryViews.LostSelectionFallsToFirst` | crates/synchrosonic-core/src/state.rs:285-305 | a selection that is lost falls to the first connectable device of the list |
| `DiscoveryViews.ListKeepsOrder` | crates/synchrosonic-core/src/state.rs:242-283 | events never reorder the list: news of a known device stays in its place, a new device comes last |
| `DiscoveryViews.SnapshotAgreesWithReplay` | crates/synchrosonic-core/src/state.rs:228-240 | loading the registry's snapshot shows the same devices as following its events |
| `DiscoveryViews.ViewsAreConsistent` | crates/synchrosonic-core/src/state.rs:242-283 | the device list is the pointwise projection of the discovered devices after every action |
| `DiscoveryViews.AppState.constructor` | crates/synchrosonic-core/src/state.rs:48-75 | no devices, no selection |
| `DiscoveryViews.AppState.SelectReceiverDevice` | crates/synchrosonic-core/src/state.rs:215-226 | accepts exactly the connectable devices |
| `DiscoveryViews.AppState.ApplyDiscoverySnapshot` | crates/synchrosonic-core/src/state.rs:228-240 | both lists are replaced and the selection reconciled |
| `DiscoveryViews.AppState.ApplyDiscoveryEvent` | crates/synchrosonic-core/src/state.rs:242-257 | the whole view after an event |
| `DiscoveryViews.AppState.UpsertDiscoveredDevice` | crates/synchrosonic-core/src/state.rs:259-283 | both lists are updated at the first matching position, or extended |
| `DiscoveryViews.AppState.ReconcileSelectedReceiver` | crates/synchrosonic-core/src/state.rs:285-305 | a selection that is no longer valid falls to the first connectable device |

## Left out

- PipeWire processes, sockets, threads and the mDNS daemon: sinks, captures and connections are inputs that may fail, a channel is an atomic bounded or unbounded queue, TCP is a reliable byte stream.
- The JSON form of metadata: it is a parameter; where audio must survive it, its round trip and size are a stated requirement.
- Read timeouts in the middle of a frame: the reader loses its place there, and the model's timeouts fall between frames.
- The floating-point division in `packet_duration`: replaced by exact rounding to the nearest nanosecond.
- Overflow of `Instant` and of the 64-bit counters: instants and counters are unbounded.
- The overflow check on `last_sequence + 1`, used only for a log message about gaps.
- Error texts, log messages, fill percentages, the playback target's name and the health, bitrate and latency figures of a target.
- The manager's mirror state, quality preset, local device id and shutdown command; the mirror's own worker is modelled.
- `connect` itself and the reader thread of a target: an attempt ends in any outcome, and the controls the reader delivers are inputs of a tick.
- The order in which manager entries and registry entries are visited: arbitrary, and the results are proved not to depend on it where the state is concerned.
- In-place update of one entry of a map: entries are values, and a session is an object only while it is ticked.
- `sync_receiver_advertisement` and the choice of the address to advertise: plumbing around the TXT record that is modelled.
- Flow labels and scopes of IPv6 socket addresses.
- Config repair, audio sources, playback targets, the user interface, diagnostics, packaging and the browser receiver: they would add easy members only.
- PlayoutGuarantees.PlayoutDrift: speaks of packets whose deadlines the clock does not clamp, because clamping loses the distance.
- PlayoutSchedule.QuietRun: steps are taken to need no time; what slower or cut-off waits come to is in `PlayoutTicks`.
- SenderIsolation.FailuresAreIsolated: compares runs that do the same about the other targets and nothing about the failed one, because what is done about it differs once it has failed.
- Closing of a branch queue while it is in use: the queue holds both ends of its channel, so no push finds it closed; the fan-out is nevertheless modelled for branches that refuse a frame.
- DeviceRegistries.EndpointNeverWorsens: speaks of a device that is not removed in between, because removal starts it afresh.
