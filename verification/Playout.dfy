/**
 * What each `ReceiverWorker` operation does to the worker's state
 * (crates/synchrosonic-receiver/src/service.rs), as functions on values. The class
 * in ReceiverWorker.dfy performs the operations in place and is proved equal to
 * these functions; the properties of runs are proved about them.
 *
 * `History` is what an observer of the worker would write down: every accepted
 * packet, how each packet left the buffer and when, and the order of readiness
 * observations, sink writes and timeline resets. No operation reads it.
 */
module Playout {
  import opened Numbers
  import opened Options
  import opened LatencyProfiles
  import opened PacketBuffers

  /** Nanoseconds on the receiver's monotonic clock. */
  type Instant = nat

  datatype ServiceState = Idle | Listening | Connected | Buffering | Playing | Error

  datatype SyncState = SyncIdle | Priming | Locked | Late | Recovering

  datatype SyncClock = SyncClock(anchorInstant: Instant, anchorTimestampMs: u64)

  function WriteDeadline(clock: SyncClock, timestampMs: u64, targetBufferMs: u16): Instant {
    var offsetMs := SaturatingSub64(timestampMs, clock.anchorTimestampMs);
    clock.anchorInstant + SaturatingAdd64(offsetMs, targetBufferMs) * MILLISECOND
  }

  /** Whole milliseconds from `right` to `left`, truncated toward zero and capped at `i32::MAX`. */
  function SignedDeltaMs(left: Instant, right: Instant): int {
    if left >= right then Min((left - right) / MILLISECOND, I32_MAX)
    else -Min((right - left) / MILLISECOND, I32_MAX)
  }

  datatype Connection = Connection(sessionId: string, stream: StreamConfig, requestedLatencyMs: u16)

  datatype Sync = Sync(
    state: SyncState,
    requestedLatencyMs: Option<u16>,
    targetBufferMs: u16,
    queuedAudioMs: u32,
    bufferDeltaMs: int,
    scheduleErrorMs: int,
    latePacketDrops: nat,
    syncResets: nat,
    lastSenderTimestampMs: Option<u64>,
    lastSenderCaptureUnixMs: Option<u64>)

  function FreshSync(profile: Profile): Sync {
    Sync(SyncIdle, None, profile.targetBufferMs, 0, 0, 0, 0, 0, None, None)
  }

  datatype Metrics = Metrics(
    packetsReceived: nat,
    framesReceived: nat,
    bytesReceived: nat,
    packetsPlayed: nat,
    framesPlayed: nat,
    bytesPlayed: nat,
    underruns: nat,
    overruns: nat,
    reconnectAttempts: nat)

  const NO_METRICS := Metrics(0, 0, 0, 0, 0, 0, 0, 0, 0)

  /** How a packet left the buffer. */
  datatype Fate =
    | Played(at: Instant, clock: SyncClock)
    | LateDropped(at: Instant, clock: SyncClock)
    | Overrun
    | Unwritten   // popped for playback, but the sink refused it
    | Discarded   // thrown away with the session

  datatype Removal = Removal(packet: BufferedPacket, fate: Fate)

  datatype SessionLog = SessionLog(stream: StreamConfig, accepted: seq<BufferedPacket>, removed: seq<Removal>)

  datatype Mark = Ready(buffer: Buffer) | Wrote(packet: BufferedPacket) | Reset

  datatype History = History(session: SessionLog, past: seq<SessionLog>, marks: seq<Mark>, base: Metrics)

  datatype Worker = Worker(
    profile: Profile,
    buffer: Buffer,
    sinkOpen: bool,
    connection: Option<Connection>,
    state: ServiceState,
    syncClock: Option<SyncClock>,
    nextDeadline: Option<Instant>,
    lastActivity: Option<Instant>,
    sync: Sync,
    metrics: Metrics,
    history: History)

  /** A worker that has seen nothing yet; its buffer is shaped for some default stream. */
  function Started(profile: Profile, stream: StreamConfig): Worker {
    Worker(profile, EmptyBuffer(profile, stream), false, None, Listening, None, None, None,
           FreshSync(profile), NO_METRICS, History(SessionLog(stream, [], []), [], [], NO_METRICS))
  }

  function Init(profile: Profile): Worker { Started(profile, DEFAULT_STREAM) }

  // ----- Observations -----

  function Marked(w: Worker, mark: Mark): Worker {
    w.(history := w.history.(marks := w.history.marks + [mark]))
  }

  function Removed(h: History, removals: seq<Removal>): History {
    h.(session := h.session.(removed := h.session.removed + removals))
  }

  function DiscardAll(packets: seq<BufferedPacket>): (rs: seq<Removal>)
    ensures |rs| == |packets|
    ensures forall i | 0 <= i < |rs| :: rs[i] == Removal(packets[i], Discarded)
  {
    seq(|packets|, i requires 0 <= i < |packets| => Removal(packets[i], Discarded))
  }

  // ----- Timeline, teardown and connection -----

  function DeadlineFor(w: Worker, timestampMs: u64): Option<Instant> {
    match w.syncClock
    case None => None
    case Some(clock) => Some(WriteDeadline(clock, timestampMs, w.profile.targetBufferMs))
  }

  function RefreshMetrics(w: Worker): Worker {
    var queued := QueuedAudioMs(w.buffer);
    w.(sync := w.sync.(queuedAudioMs := queued, bufferDeltaMs := AsI32(queued) - w.sync.targetBufferMs))
  }

  function ResetTimeline(w: Worker, countReset: bool): Worker {
    Marked(w, Reset).(
      syncClock := None,
      nextDeadline := None,
      sync := w.sync.(
        scheduleErrorMs := 0,
        lastSenderTimestampMs := None,
        lastSenderCaptureUnixMs := None,
        syncResets := w.sync.syncResets + if countReset then 1 else 0))
  }

  /** Stop the sink, forget the connection, clear the buffer and the timeline. */
  function TearDown(w: Worker): Worker {
    var cleared := w.(
      sinkOpen := false,
      connection := None,
      buffer := w.buffer.(packets := []),
      history := Removed(w.history, DiscardAll(w.buffer.packets)));
    ResetTimeline(cleared, false).(sync := FreshSync(w.profile), lastActivity := None)
  }

  function HandleDisconnect(w: Worker, reconnectSuggested: bool): Worker {
    TearDown(w).(
      state := Listening,
      metrics := w.metrics.(reconnectAttempts := w.metrics.reconnectAttempts + if reconnectSuggested then 1 else 0))
  }

  function SetError(w: Worker): Worker {
    TearDown(w).(state := Error, sync := FreshSync(w.profile).(state := Recovering))
  }

  /** The old session's log is closed; whatever it still had queued is discarded. */
  function NewSession(w: Worker, stream: StreamConfig): History {
    var closed := Removed(w.history, DiscardAll(w.buffer.packets));
    History(SessionLog(stream, [], []), closed.past + [closed.session], closed.marks, w.metrics)
  }

  /** A worker that is about to open the sink for a new session. */
  function Opening(w: Worker, connection: Connection): Worker {
    ResetTimeline(
      w.(sinkOpen := false, connection := None, buffer := EmptyBuffer(w.profile, connection.stream),
         history := NewSession(w, connection.stream)), false).(
      sync := FreshSync(w.profile).(state := Priming, requestedLatencyMs := Some(connection.requestedLatencyMs)))
  }

  function HandleConnect(w: Worker, connection: Connection, sinkStarts: bool, now: Instant): Worker {
    var ready := Opening(w, connection);
    if sinkStarts then
      ready.(sinkOpen := true, connection := Some(connection), state := Connected, lastActivity := Some(now))
    else
      SetError(ready)
  }

  function HandleTargetChange(w: Worker, sinkStarts: bool): Worker {
    var recovered := if w.state == Error && w.connection.None? then w.(state := Listening) else w;
    if recovered.connection.Some? && sinkStarts then
      recovered.(sinkOpen := true, state := if recovered.state == Connected then Buffering else recovered.state)
    else
      recovered
  }

  /** The worker's last act: everything is torn down and the service is idle. */
  function Shutdown(w: Worker): Worker {
    TearDown(w).(state := Idle, lastActivity := w.lastActivity)
  }

  // ----- Packets -----

  function HandlePacket(w: Worker, packet: Packet, now: Instant): Worker
    requires w.buffer.maxPackets > 0
  {
    if w.connection.None? then w
    else
      var anchored := w.(
        syncClock := if w.syncClock.None? then Some(SyncClock(now, packet.capturedAtMs)) else w.syncClock,
        sync := w.sync.(
          lastSenderTimestampMs := Some(packet.capturedAtMs),
          lastSenderCaptureUnixMs := Some(packet.capturedAtUnixMs)));
      match FrameCount(packet, w.connection.value.stream)
      case None => SetError(anchored)
      case Some(frames) => Rearm(Store(anchored, BufferedPacket(packet, frames), now))
  }

  /** Queue the packet, dropping the oldest one from a full buffer. */
  function Store(w: Worker, p: BufferedPacket, now: Instant): Worker
    requires w.buffer.maxPackets > 0
  {
    var full := BufferFull(w.buffer);
    var session := w.history.session;
    RefreshMetrics(w.(
      buffer := Enqueued(w.buffer, p),
      lastActivity := Some(now),
      metrics := w.metrics.(
        overruns := w.metrics.overruns + (if full then 1 else 0),
        packetsReceived := w.metrics.packetsReceived + 1,
        framesReceived := w.metrics.framesReceived + p.frameCount,
        bytesReceived := w.metrics.bytesReceived + |p.packet.payload|),
      history := w.history.(session := session.(
        accepted := session.accepted + [p],
        removed := session.removed + (if full then [Removal(w.buffer.packets[0], Overrun)] else [])))))
  }

  /** After a packet arrived: schedule the front packet if the buffer is ready. */
  function Rearm(w: Worker): Worker {
    if BufferReady(w.buffer) then
      Marked(w, Ready(w.buffer)).(
        state := if w.state != Playing then Buffering else Playing,
        nextDeadline :=
          if w.nextDeadline.Some? || w.buffer.packets == [] then w.nextDeadline
          else DeadlineFor(w, w.buffer.packets[0].packet.capturedAtMs),
        sync := w.sync.(state := if w.sync.state in {SyncIdle, Priming, Recovering} then Priming else w.sync.state))
    else if w.state in {Connected, Buffering} then
      w.(state := Buffering,
         sync := w.sync.(state := if w.sync.state != Recovering then Priming else Recovering))
    else w
  }

  // ----- The scheduler -----

  /** One turn of the drain loop: the clock as read, and whether the sink takes the write. */
  datatype Reading = Reading(now: Instant, sinkAccepts: bool)

  function Drain(w: Worker, env: nat -> Reading): Worker {
    if w.connection.None? then w
    else if w.syncClock.None? then
      (if w.state == Connected then w.(state := Buffering) else w)
    else if w.nextDeadline.None? && !BufferReady(w.buffer) then
      w.(state := if w.state != Playing then Buffering else Playing,
         sync := w.sync.(
           state := if w.sync.state != Recovering then Priming else Recovering,
           scheduleErrorMs := 0))
    else
      DrainLoop(if w.nextDeadline.None? then Marked(w, Ready(w.buffer)) else w, env, 0)
  }

  function DrainLoop(w: Worker, env: nat -> Reading, turn: nat): Worker
    decreases |w.buffer.packets|
  {
    match DrainTurn(w, env(turn))
    case Stop(final) => final
    case Continue(next) => DrainLoop(next, env, turn + 1)
  }

  datatype Turn = Continue(next: Worker) | Stop(final: Worker)

  /** One turn of the loop: the front packet is dropped, awaited or played. */
  function DrainTurn(w: Worker, reading: Reading): (turn: Turn)
    ensures turn.Continue? ==>
              w.buffer.packets != [] && turn.next.buffer == w.buffer.(packets := w.buffer.packets[1..])
  {
    if w.buffer.packets == [] then
      Stop(if w.state == Playing then Underrun(w) else w)
    else
      match DeadlineFor(w, w.buffer.packets[0].packet.capturedAtMs)
      case None => Stop(w)
      case Some(deadline) =>
        var error := SignedDeltaMs(reading.now, deadline);
        var scheduled := w.(nextDeadline := Some(deadline), sync := w.sync.(scheduleErrorMs := error));
        if error > w.profile.latePacketDropMs then
          var dropped := DropLate(scheduled, reading.now);
          if dropped.buffer.packets == [] then Stop(Recover(dropped)) else Continue(dropped)
        else if reading.now < deadline then
          Stop(scheduled.(state := if w.state != Playing then Buffering else Playing))
        else if !w.sinkOpen || !reading.sinkAccepts then
          Stop(SetError(PopFront(scheduled, Unwritten)))
        else
          Continue(Play(scheduled, reading.now, error))
  }

  /** A counted timeline reset that leaves the synchroniser recovering. */
  function Recover(w: Worker): Worker {
    var reset := ResetTimeline(w, true);
    reset.(sync := reset.sync.(state := Recovering))
  }

  function PopFront(w: Worker, fate: Fate): Worker
    requires w.buffer.packets != []
  {
    w.(buffer := w.buffer.(packets := w.buffer.packets[1..]),
       history := Removed(w.history, [Removal(w.buffer.packets[0], fate)]))
  }

  function DropLate(w: Worker, now: Instant): Worker
    requires w.buffer.packets != [] && w.syncClock.Some?
  {
    var popped := PopFront(w, LateDropped(now, w.syncClock.value));
    RefreshMetrics(popped.(sync := w.sync.(state := Late, latePacketDrops := w.sync.latePacketDrops + 1)))
  }

  function Play(w: Worker, now: Instant, error: int): Worker
    requires w.buffer.packets != [] && w.syncClock.Some?
  {
    var front := w.buffer.packets[0];
    var popped := Marked(PopFront(w, Played(now, w.syncClock.value)), Wrote(front));
    RefreshMetrics(popped.(
      state := Playing,
      nextDeadline := None,
      sync := w.sync.(state := if error > w.profile.latencyToleranceMs then Late else Locked),
      metrics := w.metrics.(
        packetsPlayed := w.metrics.packetsPlayed + 1,
        framesPlayed := w.metrics.framesPlayed + front.frameCount,
        bytesPlayed := w.metrics.bytesPlayed + |front.packet.payload|)))
  }

  function Underrun(w: Worker): Worker {
    Recover(w.(state := Buffering, metrics := w.metrics.(underruns := w.metrics.underruns + 1)))
  }

  function CheckTimeout(w: Worker, now: Instant): Worker {
    if w.lastActivity.Some? && w.connection.Some?
       && now - w.lastActivity.value >= w.profile.reconnectGraceMs * MILLISECOND
    then HandleDisconnect(w, true)
    else w
  }

  function OnTick(w: Worker, env: nat -> Reading, timeoutNow: Instant): Worker {
    RefreshMetrics(CheckTimeout(Drain(w, env), timeoutNow))
  }

  /**
   * How long the worker loop waits for a command before it ticks, in nanoseconds.
   * The clock is read once for the deadline and once for the elapsed silence.
   */
  function NextWait(w: Worker, now: Instant, silenceNow: Instant): nat {
    var untilDeadline :=
      if w.nextDeadline.Some? then Min(200 * MILLISECOND, Max(w.nextDeadline.value - now, 0))
      else 200 * MILLISECOND;
    var untilTimeout :=
      if w.lastActivity.Some? then
        Min(untilDeadline, Max(w.profile.reconnectGraceMs * MILLISECOND - Max(silenceNow - w.lastActivity.value, 0), 0))
      else untilDeadline;
    Max(untilTimeout, 5 * MILLISECOND)
  }

  // ----- Runs -----

  /**
   * What the worker loop can be woken by, with the answers its environment gives
   * while it handles the command: clock readings, whether a sink starts, and for
   * a tick the readings of each drain turn and of the timeout check.
   */
  datatype Command =
    | Connect(connection: Connection, sinkStarts: bool, now: Instant)
    | AudioPacket(packet: Packet, now: Instant)
    | KeepAlive(now: Instant)
    | Disconnect(reconnectSuggested: bool)
    | TransportError
    | SetPlaybackTarget(sinkStarts: bool)
    | Tick(env: nat -> Reading, timeoutNow: Instant)

  function Step(w: Worker, command: Command): Worker
    requires w.buffer.maxPackets > 0
  {
    match command
    case Connect(connection, sinkStarts, now) => HandleConnect(w, connection, sinkStarts, now)
    case AudioPacket(packet, now) => HandlePacket(w, packet, now)
    case KeepAlive(now) => w.(lastActivity := Some(now))
    case Disconnect(reconnectSuggested) => HandleDisconnect(w, reconnectSuggested)
    case TransportError => SetError(w)
    case SetPlaybackTarget(sinkStarts) => HandleTargetChange(w, sinkStarts)
    case Tick(env, timeoutNow) => OnTick(w, env, timeoutNow)
  }

  lemma {:induction false} DrainLoopKeepsBounds(w: Worker, env: nat -> Reading, turn: nat)
    ensures DrainLoop(w, env, turn).buffer == w.buffer.(packets := DrainLoop(w, env, turn).buffer.packets)
    ensures DrainLoop(w, env, turn).profile == w.profile
    decreases |w.buffer.packets|
  {
    match DrainTurn(w, env(turn))
    case Stop(_) =>
    case Continue(next) => DrainLoopKeepsBounds(next, env, turn + 1);
  }

  lemma DrainKeepsBounds(w: Worker, env: nat -> Reading)
    ensures Drain(w, env).buffer == w.buffer.(packets := Drain(w, env).buffer.packets)
    ensures Drain(w, env).profile == w.profile
  {
    DrainLoopKeepsBounds(w, env, 0);
    DrainLoopKeepsBounds(Marked(w, Ready(w.buffer)), env, 0);
  }

  lemma StepKeepsBounds(w: Worker, command: Command)
    requires w.buffer.maxPackets > 0
    ensures Step(w, command).buffer.maxPackets > 0
    ensures Step(w, command).profile == w.profile
  {
    if command.Tick? { DrainKeepsBounds(w, command.env); }
  }

  /** The state after a whole run of the worker loop. */
  function Run(profile: Profile, commands: seq<Command>): (w: Worker)
    ensures w.buffer.maxPackets > 0 && w.profile == profile
    decreases |commands|
  {
    if commands == [] then Init(profile)
    else
      var before := Run(profile, commands[..|commands| - 1]);
      StepKeepsBounds(before, commands[|commands| - 1]);
      Step(before, commands[|commands| - 1])
  }

  lemma {:induction false} RunOneMore(profile: Profile, commands: seq<Command>, last: Command)
    ensures Run(profile, commands + [last]) == Step(Run(profile, commands), last)
  {
    assert (commands + [last])[..|commands|] == commands;
  }
}
