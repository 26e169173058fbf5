/** The promises of the receiver over whole runs, for every command sequence and environment. */
module PlayoutGuarantees {
  import opened Numbers
  import Arithmetic
  import opened Options
  import opened LatencyProfiles
  import opened PacketBuffers
  import opened Playout
  import opened PlayoutInvariants
  import opened Subsequences

  /** The log belongs to the current session or to one before it. */
  predicate IsSessionOf(w: Worker, log: SessionLog) {
    log == w.history.session || log in w.history.past
  }

  // ----- Reachable states -----

  /** Connection, sink and service state agree; the clock is set exactly while packets are queued. */
  lemma {:induction false} ReachableStates(profile: Profile, commands: seq<Command>)
    requires IsPreset(profile)
    ensures var w := Run(profile, commands);
            && (w.connection.Some? <==> w.sinkOpen)
            && (w.connection.Some? <==> w.state in {Connected, Buffering, Playing})
            && (w.syncClock.Some? <==> w.buffer.packets != [])
            && (w.nextDeadline.Some? ==> w.buffer.packets != [])
            && |w.buffer.packets| <= w.buffer.maxPackets
  {
    Reachable(profile, commands);
  }

  lemma {:induction false} DrainLoopKeepsConnection(w: Worker, env: nat -> Reading, turn: nat)
    requires w.sinkOpen && forall i: nat :: env(i).sinkAccepts
    ensures DrainLoop(w, env, turn).connection == w.connection
    decreases |w.buffer.packets|
  {
    match DrainTurn(w, env(turn))
    case Stop(_) =>
    case Continue(next) => DrainLoopKeepsConnection(next, env, turn + 1);
  }

  /** With a sink that takes every write, draining never ends the session: the sink cannot be missing. */
  lemma {:induction false} SinkIsNeverMissing(profile: Profile, commands: seq<Command>, env: nat -> Reading)
    requires IsPreset(profile) && forall i: nat :: env(i).sinkAccepts
    ensures var w := Run(profile, commands); Drain(w, env).connection == w.connection
  {
    var w := Run(profile, commands);
    Reachable(profile, commands);
    if w.connection.Some? && w.syncClock.Some? {
      if w.nextDeadline.Some? {
        DrainLoopKeepsConnection(w, env, 0);
      } else if BufferReady(w.buffer) {
        DrainLoopKeepsConnection(Marked(w, Ready(w.buffer)), env, 0);
      }
    }
  }

  // ----- Timing -----

  lemma LogsAreOnTime(w: Worker)
    requires Ledger(w)
    ensures forall log, r | IsSessionOf(w, log) && r in log.removed :: FateOnTime(w.profile, r)
  {
  }

  /** Every write happens inside its window, and only packets past their window are dropped as late. */
  lemma {:induction false} PlayoutTiming(profile: Profile, commands: seq<Command>)
    requires IsPreset(profile)
    ensures forall log, r | IsSessionOf(Run(profile, commands), log) && r in log.removed :: FateOnTime(profile, r)
  {
    Reachable(profile, commands);
    LogsAreOnTime(Run(profile, commands));
  }

  /** Timestamps from the anchor up to here keep their distance on the receiver's clock. */
  predicate InMediaRange(clock: SyncClock, timestampMs: u64, targetBufferMs: u16) {
    clock.anchorTimestampMs <= timestampMs <= clock.anchorTimestampMs + (U64_MAX - targetBufferMs)
  }

  /** Deadlines are spaced as the sender's timestamps are, exactly when neither saturation fires. */
  lemma DeadlineSpacing(clock: SyncClock, earlier: u64, later: u64, targetBufferMs: u16)
    requires earlier < later
    ensures WriteDeadline(clock, later, targetBufferMs) - WriteDeadline(clock, earlier, targetBufferMs)
              == (later - earlier) * MILLISECOND
            <==> InMediaRange(clock, earlier, targetBufferMs) && InMediaRange(clock, later, targetBufferMs)
  {
  }

  /** A packet stamped before the anchor breaks the spacing: saturation makes both deadlines equal. */
  lemma ReorderedTimestampsLoseSpacing()
    ensures var clock := SyncClock(0, 100);
            WriteDeadline(clock, 100, 30) - WriteDeadline(clock, 50, 30) == 0
  {
  }

  /** Played under one clock: how far the distance between writes may stray from the sender's. */
  ghost predicate WithinDrift(profile: Profile, first: Removal, second: Removal)
    requires first.fate.Played? && second.fate.Played?
  {
    var drift := (second.fate.at - first.fate.at)
               - (second.packet.packet.capturedAtMs - first.packet.packet.capturedAtMs) * MILLISECOND;
    -(profile.latePacketDropMs + 1) * MILLISECOND < drift < (profile.latePacketDropMs + 1) * MILLISECOND
  }

  /**
   * Any two packets written under the same clock, whose deadlines it does not clamp, are as far
   * apart as the sender captured them, up to the drop tolerance.
   */
  lemma {:induction false} PlayoutDrift(
      profile: Profile, commands: seq<Command>, log: SessionLog, first: Removal, second: Removal)
    requires IsPreset(profile) && IsSessionOf(Run(profile, commands), log)
    requires first in log.removed && second in log.removed
    requires first.fate.Played? && second.fate.Played? && first.fate.clock == second.fate.clock
    requires InMediaRange(first.fate.clock, first.packet.packet.capturedAtMs, profile.targetBufferMs)
    requires InMediaRange(first.fate.clock, second.packet.packet.capturedAtMs, profile.targetBufferMs)
    ensures WithinDrift(profile, first, second)
  {
    PlayoutTiming(profile, commands);
    DriftOfTwo(profile, first, second);
  }

  lemma DriftOfTwo(profile: Profile, first: Removal, second: Removal)
    requires FateOnTime(profile, first) && FateOnTime(profile, second)
    requires first.fate.Played? && second.fate.Played? && first.fate.clock == second.fate.clock
    requires InMediaRange(first.fate.clock, first.packet.packet.capturedAtMs, profile.targetBufferMs)
    requires InMediaRange(first.fate.clock, second.packet.packet.capturedAtMs, profile.targetBufferMs)
    ensures WithinDrift(profile, first, second)
  {
    var t1, t2 := first.packet.packet.capturedAtMs, second.packet.packet.capturedAtMs;
    if t1 < t2 {
      DeadlineSpacing(first.fate.clock, t1, t2, profile.targetBufferMs);
    } else if t2 < t1 {
      DeadlineSpacing(first.fate.clock, t2, t1, profile.targetBufferMs);
    }
  }

  /**
   * In a session whose timestamps do not decrease nothing is clamped from below: a packet keeps its
   * distance unless it lies beyond the 64-bit range, counted from its anchor.
   */
  lemma {:induction false} SortedSessionsStayInRange(
      profile: Profile, commands: seq<Command>, log: SessionLog, r: Removal)
    requires IsPreset(profile) && IsSessionOf(Run(profile, commands), log) && Sorted(log.accepted)
    requires r in log.removed && r.fate.Played?
    ensures InMediaRange(r.fate.clock, r.packet.packet.capturedAtMs, profile.targetBufferMs)
            <==> r.packet.packet.capturedAtMs - r.fate.clock.anchorTimestampMs <= U64_MAX - profile.targetBufferMs
  {
    Reachable(profile, commands);
    LogsAreOk(Run(profile, commands), log);
    assert AfterAnchor(r);
  }

  lemma LogsAreOk(w: Worker, log: SessionLog)
    requires Ledger(w) && IsSessionOf(w, log)
    ensures LogOk(w.profile, log)
  {
  }

  // ----- Conservation -----

  lemma StepKeepsBase(w: Worker, command: Command)
    requires w.buffer.maxPackets > 0 && !command.Connect?
    ensures Step(w, command).history.base == w.history.base
    ensures Step(w, command).history.past == w.history.past
    ensures w.history.session.accepted <= Step(w, command).history.session.accepted
  {
    if command.Tick? { DrainKeepsBase(w, command.env); }
  }

  lemma DrainKeepsBase(w: Worker, env: nat -> Reading)
    ensures var h := Drain(w, env).history;
            h.base == w.history.base && h.past == w.history.past
            && h.session.accepted == w.history.session.accepted
  {
    DrainLoopKeepsBase(w, env, 0);
    DrainLoopKeepsBase(Marked(w, Ready(w.buffer)), env, 0);
  }

  lemma {:induction false} DrainLoopKeepsBase(w: Worker, env: nat -> Reading, turn: nat)
    ensures var h := DrainLoop(w, env, turn).history;
            h.base == w.history.base && h.past == w.history.past
            && h.session.accepted == w.history.session.accepted
    decreases |w.buffer.packets|
  {
    match DrainTurn(w, env(turn))
    case Stop(_) =>
    case Continue(next) => DrainLoopKeepsBase(next, env, turn + 1);
  }

  lemma ConnectSetsBase(w: Worker, connect: Command)
    requires w.buffer.maxPackets > 0 && connect.Connect?
    ensures Step(w, connect).history.base == w.metrics
  {
  }

  lemma {:induction false} CountersSinceConnect(
      profile: Profile, before: seq<Command>, connect: Command, after: seq<Command>)
    requires IsPreset(profile) && connect.Connect? && forall c | c in after :: !c.Connect?
    ensures Run(profile, before + [connect] + after).history.base == Run(profile, before).metrics
    decreases |after|
  {
    if after == [] {
      RunOneMore(profile, before, connect);
      assert before + [connect] + after == before + [connect];
      ConnectSetsBase(Run(profile, before), connect);
    } else {
      var init, last := after[..|after| - 1], after[|after| - 1];
      CountersSinceConnect(profile, before, connect, init);
      assert before + [connect] + after == before + [connect] + init + [last];
      RunOneMore(profile, before + [connect] + init, last);
      StepKeepsBase(Run(profile, before + [connect] + init), last);
    }
  }

  /**
   * Conservation: since the last connect, packets received minus played, overrun and
   * late-dropped ones is the number queued, and what left the buffer followed by what
   * is queued is what was accepted, in order.
   */
  lemma {:induction false} Conservation(profile: Profile, before: seq<Command>, connect: Command, after: seq<Command>)
    requires IsPreset(profile) && connect.Connect? && forall c | c in after :: !c.Connect?
    requires Run(profile, before + [connect] + after).connection.Some?
    ensures var w0, w := Run(profile, before), Run(profile, before + [connect] + after);
            && (w.metrics.packetsReceived - w0.metrics.packetsReceived)
               - (w.metrics.packetsPlayed - w0.metrics.packetsPlayed)
               - (w.metrics.overruns - w0.metrics.overruns)
               - w.sync.latePacketDrops == |w.buffer.packets|
            && w.history.session.accepted == Packets(w.history.session.removed) + w.buffer.packets
  {
    var w := Run(profile, before + [connect] + after);
    CountersSinceConnect(profile, before, connect, after);
    Reachable(profile, before + [connect] + after);
    var removed := w.history.session.removed;
    FatesAddUp(removed);
    NoneLost(removed);
  }

  lemma {:induction false} NoneLost(removed: seq<Removal>)
    requires forall r | r in removed :: !r.fate.Unwritten? && !r.fate.Discarded?
    ensures Select(removed, WasUnwritten) == [] && Select(removed, WasDiscarded) == []
  {
    if removed != [] { NoneLost(removed[..|removed| - 1]); }
  }

  lemma LogsAreLedgers(w: Worker, log: SessionLog)
    requires Ledger(w) && IsSessionOf(w, log)
    ensures Packets(log.removed) <= log.accepted
  {
  }

  /** What a session wrote to the sink is an in-order, duplicate-free part of what it accepted. */
  lemma {:induction false} PlayedInOrder(profile: Profile, commands: seq<Command>, log: SessionLog)
    requires IsPreset(profile) && IsSessionOf(Run(profile, commands), log)
    ensures Subsequence(Select(log.removed, WasPlayed), log.accepted)
  {
    Reachable(profile, commands);
    LogsAreLedgers(Run(profile, commands), log);
    PlayedWithin(log);
  }

  lemma PlayedWithin(log: SessionLog)
    requires Packets(log.removed) <= log.accepted
    ensures Subsequence(Select(log.removed, WasPlayed), log.accepted)
  {
    SelectIsSubsequence(log.removed, WasPlayed);
    var n := |Packets(log.removed)|;
    Prefix(log.accepted, n);
    assert log.accepted[..n] == Packets(log.removed);
    Transitive(Select(log.removed, WasPlayed), Packets(log.removed), log.accepted);
  }

  // ----- Priming -----

  /** Before every sink write the buffer was seen ready after the last timeline reset; no write goes unlogged. */
  lemma {:induction false} WritesArePrimed(profile: Profile, commands: seq<Command>)
    requires IsPreset(profile)
    ensures var w := Run(profile, commands);
            WritesPrimed(w.history.marks) && Writes(w.history.marks) == w.metrics.packetsPlayed
  {
    Reachable(profile, commands);
  }

  // ----- Metrics -----

  /** The queue's audio in milliseconds, as it is and as it is published. */
  predicate MetricsExact(w: Worker) {
    var frames := TotalFrames(w.buffer.packets);
    && frames * 1_000 <= U64_MAX
    && QueuedAudioMs(w.buffer) == (if w.buffer.sampleRateHz == 0 then 0 else frames * 1_000 / w.buffer.sampleRateHz)
    && QueuedAudioMs(w.buffer) <= I32_MAX
    && RefreshMetrics(w).sync.bufferDeltaMs == QueuedAudioMs(w.buffer) - w.profile.targetBufferMs
  }

  lemma {:induction false} QueuedFramesBound(stream: StreamConfig, ps: seq<BufferedPacket>, maxPackets: nat)
    requires |ps| <= maxPackets
    requires forall p | p in ps :: FramesCounted(stream, p) && |p.packet.payload| <= MAX_PAYLOAD_BYTES
    ensures TotalFrames(ps) <= maxPackets * MAX_FRAMES_PER_PACKET
  {
    forall p | p in ps ensures p.frameCount <= MAX_FRAMES_PER_PACKET {
      FrameCountBound(p.packet, stream);
    }
    TotalFramesBound(ps, MAX_FRAMES_PER_PACKET);
    Arithmetic.MulMonotone(|ps|, maxPackets, MAX_FRAMES_PER_PACKET);
  }

  lemma QueueMetricsExact(w: Worker)
    requires Structural(w) && w.buffer.packets != []
    requires TotalFrames(w.buffer.packets) <= w.buffer.maxPackets * MAX_FRAMES_PER_PACKET
    ensures MetricsExact(w)
  {
    var stream := w.connection.value.stream;
    if stream.sampleRateHz > 0 {
      QueuedAudioFits(w.profile, stream, TotalFrames(w.buffer.packets));
    } else {
      CapacityCoversMaximum(w.profile, stream);
    }
  }

  lemma QueueIsCounted(w: Worker)
    requires Structural(w) && Ledger(w) && w.connection.Some?
    ensures forall p | p in w.buffer.packets ::
        p in w.history.session.accepted && FramesCounted(w.connection.value.stream, p)
  {
  }

  /**
   * With payloads the wire can carry, a queue never holds more than 2^31 milliseconds:
   * the published difference to the target is exact and the 64-bit product is the true one.
   */
  lemma {:induction false} SyncMetricsExact(profile: Profile, commands: seq<Command>)
    requires IsPreset(profile)
    requires forall c | c in commands && c.AudioPacket? :: |c.packet.payload| <= MAX_PAYLOAD_BYTES
    ensures MetricsExact(Run(profile, commands))
  {
    var w := Run(profile, commands);
    Reachable(profile, commands);
    AcceptedFitsWire(profile, commands);
    MetricsExactIn(w);
  }

  lemma MetricsExactIn(w: Worker)
    requires Structural(w) && Ledger(w)
    requires forall p | p in w.history.session.accepted :: |p.packet.payload| <= MAX_PAYLOAD_BYTES
    ensures MetricsExact(w)
  {
    if w.buffer.packets != [] {
      QueueIsCounted(w);
      QueuedFramesBound(w.connection.value.stream, w.buffer.packets, w.buffer.maxPackets);
      QueueMetricsExact(w);
    }
  }

  /** A step accepts at most the packet it carries. */
  lemma StepAccepts(w: Worker, command: Command)
    requires w.buffer.maxPackets > 0
    ensures forall p | p in Step(w, command).history.session.accepted ::
              p in w.history.session.accepted || (command.AudioPacket? && p.packet == command.packet)
  {
    if command.Tick? { DrainKeepsBase(w, command.env); }
  }

  lemma {:induction false} AcceptedFitsWire(profile: Profile, commands: seq<Command>)
    requires forall c | c in commands && c.AudioPacket? :: |c.packet.payload| <= MAX_PAYLOAD_BYTES
    ensures forall p | p in Run(profile, commands).history.session.accepted :: |p.packet.payload| <= MAX_PAYLOAD_BYTES
    decreases |commands|
  {
    if commands != [] {
      var earlier, last := commands[..|commands| - 1], commands[|commands| - 1];
      assert last in commands && forall c | c in earlier :: c in commands;
      AcceptedFitsWire(profile, earlier);
      StepAccepts(Run(profile, earlier), last);
    }
  }

  // ----- Buffering makes progress -----

  /**
   * Full-size packets cannot leave the receiver buffering forever: the packet that fills
   * the buffer schedules playback, exactly when the packet duration is not rounded to zero.
   */
  lemma {:induction false} FullBufferSchedules(profile: Profile, commands: seq<Command>, packet: Packet, now: Instant)
    requires IsPreset(profile)
    requires var w := Run(profile, commands);
             && w.connection.Some? && w.nextDeadline.None?
             && FrameCount(packet, w.connection.value.stream) == Some(w.connection.value.stream.framesPerPacket)
             && |w.buffer.packets| + 1 >= w.buffer.maxPackets
             && forall p | p in w.buffer.packets :: p.frameCount == w.connection.value.stream.framesPerPacket
    ensures var w := Run(profile, commands);
            HandlePacket(w, packet, now).nextDeadline.Some? <==> PacketNanos(w.connection.value.stream) >= 1
  {
    Reachable(profile, commands);
    FillingSchedules(Run(profile, commands), packet, now);
  }

  lemma FillingSchedules(w: Worker, packet: Packet, now: Instant)
    requires IsPreset(w.profile) && w.connection.Some? && w.nextDeadline.None? && w.buffer.maxPackets > 0
    requires SameShape(w.buffer, w.profile, w.connection.value.stream)
    requires w.syncClock.Some? <==> w.buffer.packets != []
    requires w.buffer.maxPackets <= |w.buffer.packets| + 1 <= w.buffer.maxPackets + 1
    requires FrameCount(packet, w.connection.value.stream) == Some(w.connection.value.stream.framesPerPacket)
    requires forall p | p in w.buffer.packets :: p.frameCount == w.connection.value.stream.framesPerPacket
    ensures HandlePacket(w, packet, now).nextDeadline.Some? <==> PacketNanos(w.connection.value.stream) >= 1
  {
    var stream := w.connection.value.stream;
    var full := Enqueued(w.buffer, BufferedPacket(packet, stream.framesPerPacket));
    FullBufferIsReady(w.profile, stream, full);
  }
}
