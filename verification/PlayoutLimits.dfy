/**
 * Two natural expectations of the receiver that its code does not meet, each with the exact
 * condition under which it does and with runs that show the failure: the preset's maximum as a
 * ceiling for the queued audio, and Playing as a state with packets to play.
 */
module PlayoutLimits {
  import opened Numbers
  import Arithmetic
  import opened Options
  import opened LatencyProfiles
  import opened PacketBuffers
  import opened Playout
  import opened PlayoutInvariants
  import opened PlayoutSchedule

  // ----- The maximum buffer duration -----

  /** A queue of the given stream whose packets have at most `most` frames. */
  predicate QueuesAtMost(w: Worker, stream: StreamConfig, most: u32) {
    && w.connection.Some? && w.connection.value.stream == stream
    && forall p | p in w.buffer.packets :: p.frameCount <= most
  }

  /** In every run, such a queue lasts no longer than the preset's maximum. */
  ghost predicate MaximumHolds(profile: Profile, stream: StreamConfig, most: u32) {
    forall commands | QueuesAtMost(Run(profile, commands), stream, most) ::
      QueuedAudioMs(Run(profile, commands).buffer) <= profile.maxBufferMs
  }

  predicate FitsMaximum(profile: Profile, stream: StreamConfig, most: u32) {
    || BytesPerFrame(stream) == 0   // every packet is refused
    || stream.sampleRateHz == 0     // no audio has a duration
    || MaxPackets(profile, stream) * most * 1_000 < (profile.maxBufferMs + 1) * stream.sampleRateHz
  }

  function PacketOfFrames(stream: StreamConfig, most: u32): Packet {
    assert most * BytesPerFrame(stream) >= 0;
    Packet(0, 0, 0, seq(most * BytesPerFrame(stream), i => 0))
  }

  lemma PacketHasFrames(stream: StreamConfig, most: u32)
    requires BytesPerFrame(stream) > 0
    ensures FrameCount(PacketOfFrames(stream, most), stream) == Some(most)
  {
    var b := BytesPerFrame(stream);
    Arithmetic.Divide(most * b, b);
    Arithmetic.MulCancel(most * b / b, most + 1, b);
    Arithmetic.MulCancel(most - 1, most * b / b, b);
  }

  function Connecting(stream: StreamConfig): Command { Connect(Connection("", stream, 0), true, 0) }

  /** A connection, then `k` packets of `most` frames. */
  function Filling(stream: StreamConfig, most: u32, k: nat): seq<Command> {
    [Connecting(stream)] + seq(k, i => AudioPacket(PacketOfFrames(stream, most), 0))
  }

  function Copies(p: BufferedPacket, k: nat): seq<BufferedPacket> { seq(k, i => p) }

  /** `k` packets of `most` frames are queued and nothing else. */
  predicate Filled(w: Worker, profile: Profile, stream: StreamConfig, most: u32, k: nat) {
    && w.connection.Some? && w.connection.value.stream == stream
    && w.buffer == EmptyBuffer(profile, stream).(
         packets := Copies(BufferedPacket(PacketOfFrames(stream, most), most), k))
  }

  lemma PacketQueues(w: Worker, packet: Packet, stream: StreamConfig, frames: u32)
    requires w.connection.Some? && w.connection.value.stream == stream && FrameCount(packet, stream) == Some(frames)
    requires |w.buffer.packets| < w.buffer.maxPackets
    ensures var w' := HandlePacket(w, packet, 0);
            w'.connection == w.connection
            && w'.buffer == w.buffer.(packets := w.buffer.packets + [BufferedPacket(packet, frames)])
  {
  }

  lemma FilledMore(w: Worker, profile: Profile, stream: StreamConfig, most: u32, k: nat)
    requires BytesPerFrame(stream) > 0 && k < MaxPackets(profile, stream) && Filled(w, profile, stream, most, k)
    ensures Filled(HandlePacket(w, PacketOfFrames(stream, most), 0), profile, stream, most, k + 1)
  {
    var p := BufferedPacket(PacketOfFrames(stream, most), most);
    PacketHasFrames(stream, most);
    PacketQueues(w, PacketOfFrames(stream, most), stream, most);
    assert Copies(p, k + 1) == Copies(p, k) + [p];
  }

  lemma {:induction false} OneMoreAudio(profile: Profile, commands: seq<Command>, packet: Packet)
    ensures Run(profile, commands + [AudioPacket(packet, 0)]) == HandlePacket(Run(profile, commands), packet, 0)
  {
    RunOneMore(profile, commands, AudioPacket(packet, 0));
  }

  lemma ConnectingFillsNothing(w: Worker, stream: StreamConfig, most: u32)
    ensures Filled(HandleConnect(w, Connection("", stream, 0), true, 0), w.profile, stream, most, 0)
  {
    assert Copies(BufferedPacket(PacketOfFrames(stream, most), most), 0) == [];
  }

  lemma {:induction false} NothingFilled(profile: Profile, stream: StreamConfig, most: u32)
    ensures Filled(Run(profile, Filling(stream, most, 0)), profile, stream, most, 0)
  {
    assert Filling(stream, most, 0) == [] + [Connecting(stream)];
    RunOneMore(profile, [], Connecting(stream));
    ConnectingFillsNothing(Run(profile, []), stream, most);
  }

  /** Until the buffer is full, each packet of the run is queued behind the others. */
  lemma {:induction false} FillingQueues(profile: Profile, stream: StreamConfig, most: u32, k: nat)
    requires BytesPerFrame(stream) > 0 && k <= MaxPackets(profile, stream)
    ensures Filled(Run(profile, Filling(stream, most, k)), profile, stream, most, k)
  {
    if k == 0 {
      NothingFilled(profile, stream, most);
    } else {
      var packet := PacketOfFrames(stream, most);
      FillingQueues(profile, stream, most, k - 1);
      assert Filling(stream, most, k) == Filling(stream, most, k - 1) + [AudioPacket(packet, 0)];
      OneMoreAudio(profile, Filling(stream, most, k - 1), packet);
      FilledMore(Run(profile, Filling(stream, most, k - 1)), profile, stream, most, k - 1);
    }
  }

  function FramesIn(packets: nat, most: u32): nat {
    Arithmetic.MulMonotone(0, packets, most);
    packets * most
  }

  lemma {:induction false} FillingFrames(profile: Profile, stream: StreamConfig, most: u32, k: nat)
    requires BytesPerFrame(stream) > 0 && k <= MaxPackets(profile, stream)
    ensures var w := Run(profile, Filling(stream, most, k));
            && QueuesAtMost(w, stream, most)
            && QueuedAudioMs(w.buffer) == FramesToMs(FramesIn(k, most), stream.sampleRateHz)
  {
    FillingQueues(profile, stream, most, k);
    TotalFramesUniform(Copies(BufferedPacket(PacketOfFrames(stream, most), most), k), most);
  }

  lemma QueueFits(w: Worker, stream: StreamConfig, most: u32)
    requires Inv(w) && QueuesAtMost(w, stream, most) && FitsMaximum(w.profile, stream, most)
    ensures QueuedAudioMs(w.buffer) <= w.profile.maxBufferMs
  {
    if w.buffer.packets != [] && stream.sampleRateHz > 0 {
      var n, packets := w.buffer.maxPackets, w.buffer.packets;
      QueueHasFrames(w, stream);
      TotalFramesBound(packets, most);
      Arithmetic.MulMonotone(|packets|, n, most);
      AtMostMs(TotalFrames(packets), stream.sampleRateHz, w.profile.maxBufferMs);
    }
  }

  lemma QueueHasFrames(w: Worker, stream: StreamConfig)
    requires Ledger(w) && w.connection.Some? && w.history.session.stream == stream && w.buffer.packets != []
    ensures BytesPerFrame(stream) > 0
  {
    assert w.buffer.packets[0] in w.history.session.accepted;
    assert FramesCounted(stream, w.buffer.packets[0]);
  }

  lemma {:induction false} FittingRunsHold(profile: Profile, stream: StreamConfig, most: u32, commands: seq<Command>)
    requires IsPreset(profile) && FitsMaximum(profile, stream, most)
    requires QueuesAtMost(Run(profile, commands), stream, most)
    ensures QueuedAudioMs(Run(profile, commands).buffer) <= profile.maxBufferMs
  {
    Reachable(profile, commands);
    QueueFits(Run(profile, commands), stream, most);
  }

  lemma {:induction false} FullRunOvershoots(profile: Profile, stream: StreamConfig, most: u32)
    requires IsPreset(profile) && !FitsMaximum(profile, stream, most)
    ensures var w := Run(profile, Filling(stream, most, MaxPackets(profile, stream)));
            QueuesAtMost(w, stream, most) && QueuedAudioMs(w.buffer) > profile.maxBufferMs
  {
    var n := MaxPackets(profile, stream);
    FillingFrames(profile, stream, most, n);
    AtMostMs(FramesIn(n, most), stream.sampleRateHz, profile.maxBufferMs);
  }

  /**
   * The preset's maximum is a ceiling for the queued audio of a stream whose packets have at most
   * `most` frames, in every run, if and only if the buffer's capacity in such packets fits into it.
   */
  lemma MaximumHoldsExactly(profile: Profile, stream: StreamConfig, most: u32)
    requires IsPreset(profile)
    ensures MaximumHolds(profile, stream, most) <==> FitsMaximum(profile, stream, most)
  {
    if FitsMaximum(profile, stream, most) {
      forall commands | QueuesAtMost(Run(profile, commands), stream, most)
        ensures QueuedAudioMs(Run(profile, commands).buffer) <= profile.maxBufferMs
      {
        FittingRunsHold(profile, stream, most, commands);
      }
    } else {
      FullRunOvershoots(profile, stream, most);
    }
  }

  /**
   * Two runs beyond the low-latency maximum of 110 milliseconds: eleven packets of the announced
   * size at 512 frames, and eleven packets twice as long as the default stream announces.
   */
  lemma MaximumIsOvershot()
    ensures var profile, announced := ProfileOf(LowLatency), StreamConfig(48_000, 2, S16Le, 512);
            && profile.maxBufferMs == 110
            && QueuedAudioMs(Run(profile, Filling(announced, 512, 11)).buffer) == 117
            && FitsMaximum(profile, DEFAULT_STREAM, DEFAULT_STREAM.framesPerPacket)
            && QueuedAudioMs(Run(profile, Filling(DEFAULT_STREAM, 960, 11)).buffer) == 220
  {
    var profile, announced := ProfileOf(LowLatency), StreamConfig(48_000, 2, S16Le, 512);
    assert PacketNanos(announced) == 10_666_667 && MaxPackets(profile, announced) == 11;
    assert PacketNanos(DEFAULT_STREAM) == 10_000_000 && MaxPackets(profile, DEFAULT_STREAM) == 11;
    FillingFrames(profile, announced, 512, 11);
    FillingFrames(profile, DEFAULT_STREAM, 960, 11);
  }

  /** Packets of 1.25 nanoseconds, the announced size, count as one nanosecond each: 137 milliseconds of 110. */
  lemma ShortPacketsOvershoot()
    ensures var profile, announced := ProfileOf(LowLatency), StreamConfig(4_000_000_000, 1, S16Le, 5);
            QueuedAudioMs(Run(profile, Filling(announced, 5, 110_000_000)).buffer) == 137
  {
    var profile, announced := ProfileOf(LowLatency), StreamConfig(4_000_000_000, 1, S16Le, 5);
    assert PacketNanos(announced) == 1 && MaxPackets(profile, announced) == 110_000_000;
    FillingFrames(profile, announced, 5, 110_000_000);
  }

  // ----- Playing without packets -----

  predicate PlaysFromEmpty(w: Worker) {
    w.state == Playing && w.buffer.packets == []
  }

  ghost predicate EndedLate(w: Worker) {
    var removed := w.history.session.removed;
    PlaysFromEmpty(w) ==> removed != [] && removed[|removed| - 1].fate.LateDropped?
  }

  lemma StopEndsLate(w: Worker, reading: Reading)
    requires DrainTurn(w, reading).Stop?
    ensures EndedLate(DrainTurn(w, reading).final)
  {
  }

  lemma {:induction false} DrainLoopEndsLate(w: Worker, env: nat -> Reading, turn: nat)
    ensures EndedLate(DrainLoop(w, env, turn))
    decreases |w.buffer.packets|
  {
    match DrainTurn(w, env(turn))
    case Stop(_) => StopEndsLate(w, env(turn));
    case Continue(next) => DrainLoopEndsLate(next, env, turn + 1);
  }

  lemma DrainEndsLate(w: Worker, env: nat -> Reading)
    requires EndedLate(w)
    ensures EndedLate(Drain(w, env))
  {
    DrainLoopEndsLate(w, env, 0);
    DrainLoopEndsLate(Marked(w, Ready(w.buffer)), env, 0);
  }

  lemma StepEndsLate(w: Worker, command: Command)
    requires w.buffer.maxPackets > 0 && EndedLate(w)
    ensures EndedLate(Step(w, command))
  {
    if command.Tick? { DrainEndsLate(w, command.env); }
  }

  /** In every reachable state that plays from an empty queue, the last packet to leave it was dropped as late. */
  lemma {:induction false} PlayingFromEmptyFollowsLateDrop(profile: Profile, commands: seq<Command>)
    ensures EndedLate(Run(profile, commands))
    decreases |commands|
  {
    if commands != [] {
      PlayingFromEmptyFollowsLateDrop(profile, commands[..|commands| - 1]);
      StepEndsLate(Run(profile, commands[..|commands| - 1]), commands[|commands| - 1]);
    }
  }

  // ----- Which tick enters that state -----

  /** Since `before`, packets left the log's queue, the last one late, and the service was or became playing. */
  ghost predicate LateAtTheEnd(before: Worker, removed: seq<Removal>) {
    var start := |before.history.session.removed|;
    && |removed| > start && removed[|removed| - 1].fate.LateDropped?
    && (before.state == Playing || exists i :: start <= i < |removed| && removed[i].fate.Played?)
  }

  lemma TurnToTheEnd(w: Worker, reading: Reading, removed: seq<Removal>)
    requires DrainTurn(w, reading).Continue?
    requires var next := DrainTurn(w, reading).next;
             && next.history.session.removed <= removed
             && (next.buffer.packets != [] ==> |removed| > |next.history.session.removed|)
    ensures LateAtTheEnd(DrainTurn(w, reading).next, removed) <==> LateAtTheEnd(w, removed)
  {
    var next, at := DrainTurn(w, reading).next, |w.history.session.removed|;
    assert next.history.session.removed[at] == removed[at];
    if next.buffer.packets == [] || next.state != w.state {
      assert removed[at].fate.Played?;
    }
  }

  lemma StopAtTheEnd(w: Worker, reading: Reading)
    requires DrainTurn(w, reading).Stop? && w.connection.Some? && w.state in {Connected, Buffering, Playing}
    ensures var final := DrainTurn(w, reading).final;
            && w.history.session.removed <= final.history.session.removed
            && (PlaysFromEmpty(final) <==>
                  && final.connection.Some? && final.buffer.packets == []
                  && LateAtTheEnd(w, final.history.session.removed))
  {
  }

  /** However the clock moves and the sink answers, the loop ends so if and only if it drops its last packet late. */
  lemma {:induction false} LoopPlaysFromEmptyExactly(w: Worker, env: nat -> Reading, turn: nat)
    requires w.connection.Some? && w.state in {Connected, Buffering, Playing}
    ensures var final := DrainLoop(w, env, turn);
            && w.history.session.removed <= final.history.session.removed
            && (final.connection.Some? && final.buffer.packets == [] && w.buffer.packets != [] ==>
                  |final.history.session.removed| > |w.history.session.removed|)
            && (PlaysFromEmpty(final) <==>
                  && final.connection.Some? && final.buffer.packets == []
                  && LateAtTheEnd(w, final.history.session.removed))
    decreases |w.buffer.packets|
  {
    match DrainTurn(w, env(turn))
    case Stop(_) => StopAtTheEnd(w, env(turn));
    case Continue(next) =>
      var final := DrainLoop(next, env, turn + 1);
      LoopPlaysFromEmptyExactly(next, env, turn + 1);
      if final.connection.Some? && final.buffer.packets == [] {
        TurnToTheEnd(w, env(turn), final.history.session.removed);
      }
  }

  /**
   * A tick in a reachable state enters that state if and only if its drain empties the queue, drops
   * the last packet as late, finds the service playing or plays something first, and neither the
   * sink nor the timeout ends the session.
   */
  lemma TickEntersExactly(w: Worker, env: nat -> Reading, timeoutNow: Instant)
    requires Inv(w) && !PlaysFromEmpty(w)
    ensures var drained := Drain(w, env);
            PlaysFromEmpty(OnTick(w, env, timeoutNow))
            <==> && drained.connection.Some? && drained.buffer.packets == []
                 && LateAtTheEnd(w, drained.history.session.removed) && !TimedOut(w, timeoutNow)
  {
    TimeoutAfterDrain(w, env, timeoutNow);
    LoopPlaysFromEmptyIfEntered(w, env);
  }

  lemma LoopPlaysFromEmptyIfEntered(w: Worker, env: nat -> Reading)
    requires Inv(w) && !PlaysFromEmpty(w)
    ensures var drained := Drain(w, env);
            PlaysFromEmpty(drained)
            <==> && drained.connection.Some? && drained.buffer.packets == []
                 && LateAtTheEnd(w, drained.history.session.removed)
  {
    if w.connection.Some? && w.syncClock.Some? {
      if w.nextDeadline.Some? {
        LoopPlaysFromEmptyExactly(w, env, 0);
      } else if BufferReady(w.buffer) {
        LoopPlaysFromEmptyExactly(Marked(w, Ready(w.buffer)), env, 0);
        assert LateAtTheEnd(Marked(w, Ready(w.buffer)), Drain(w, env).history.session.removed)
          <==> LateAtTheEnd(w, Drain(w, env).history.session.removed);
      }
    }
  }

  ghost predicate AllTooLate(w: Worker, now: Instant) {
    w.syncClock.Some? && forall p | p in w.buffer.packets :: VerdictAt(w.profile, w.syncClock.value, p, now) == TooLate
  }

  /** Playing from empty at the end of the loop, as it can be told beforehand. */
  ghost predicate WillPlayFromEmpty(w: Worker, now: Instant) {
    w.state == Playing && w.buffer.packets != [] && AllTooLate(w, now)
  }

  lemma PlayingPreventsIt(w: Worker, now: Instant)
    requires CanDrain(w) && w.buffer.packets != []
    requires VerdictAt(w.profile, w.syncClock.value, w.buffer.packets[0], now) == Due
    ensures DrainTurn(w, Reading(now, true)).Continue? && CanDrain(DrainTurn(w, Reading(now, true)).next)
    ensures !WillPlayFromEmpty(w, now) && !WillPlayFromEmpty(DrainTurn(w, Reading(now, true)).next, now)
  {
    PlayTurn(w, now);
    NothingStaleBehind(w, now);
    SortedTail(w.buffer.packets);
    assert w.buffer.packets[0] in w.buffer.packets;
    var ps := w.buffer.packets[1..];
    if ps != [] && forall p | p in ps :: VerdictAt(w.profile, w.syncClock.value, p, now) == TooLate {
      OnlyVerdict(w.profile, w.syncClock.value, ps, now, TooLate);
    }
  }

  lemma DroppingDecidesNothing(w: Worker, now: Instant)
    requires CanDrain(w) && w.buffer.packets != []
    requires VerdictAt(w.profile, w.syncClock.value, w.buffer.packets[0], now) == TooLate
    ensures match DrainTurn(w, Reading(now, true))
            case Continue(next) => CanDrain(next) && (WillPlayFromEmpty(next, now) <==> WillPlayFromEmpty(w, now))
            case Stop(final) => PlaysFromEmpty(final) <==> WillPlayFromEmpty(w, now)
  {
    DropTurn(w, now);
    DropKeepsState(w, now);
    SortedTail(w.buffer.packets);
    assert w.buffer.packets == [w.buffer.packets[0]] + w.buffer.packets[1..];
  }

  lemma WaitingPreventsIt(w: Worker, now: Instant)
    requires CanDrain(w) && w.buffer.packets != []
    requires VerdictAt(w.profile, w.syncClock.value, w.buffer.packets[0], now) == Future
    ensures !WillPlayFromEmpty(w, now)
    ensures DrainTurn(w, Reading(now, true)).Stop? && !PlaysFromEmpty(DrainTurn(w, Reading(now, true)).final)
  {
    StaleExactly(now, DeadlineFor(w, w.buffer.packets[0].packet.capturedAtMs).value, w.profile.latePacketDropMs);
    assert w.buffer.packets[0] in w.buffer.packets;
  }

  lemma {:induction false} DrainLoopPlaysFromEmpty(w: Worker, env: nat -> Reading, turn: nat, now: Instant)
    requires CanDrain(w) && FrozenAt(env, now)
    ensures PlaysFromEmpty(DrainLoop(w, env, turn)) <==> WillPlayFromEmpty(w, now)
    decreases |w.buffer.packets|
  {
    assert env(turn) == Reading(now, true);
    if w.buffer.packets != [] {
      match VerdictAt(w.profile, w.syncClock.value, w.buffer.packets[0], now)
      case Future => WaitingPreventsIt(w, now);
      case TooLate => DroppingDecidesNothing(w, now);
      case Due => PlayingPreventsIt(w, now);
    }
    match DrainTurn(w, env(turn))
    case Stop(_) =>
    case Continue(next) => DrainLoopPlaysFromEmpty(next, env, turn + 1, now);
  }

  lemma DropKeepsState(w: Worker, now: Instant)
    requires CanDrain(w) && w.buffer.packets != []
    requires VerdictAt(w.profile, w.syncClock.value, w.buffer.packets[0], now) == TooLate
    ensures match DrainTurn(w, Reading(now, true))
            case Continue(next) => next.state == w.state && next.profile == w.profile && next.syncClock == w.syncClock
            case Stop(final) => final.state == w.state
  {
    StaleExactly(now, DeadlineFor(w, w.buffer.packets[0].packet.capturedAtMs).value, w.profile.latePacketDropMs);
  }

  predicate TimedOut(w: Worker, now: Instant) {
    w.lastActivity.Some? && now - w.lastActivity.value >= w.profile.reconnectGraceMs * MILLISECOND
  }

  /**
   * Which tick enters that state, with a standing clock, sorted timestamps and a working sink: one
   * that finds a playing service whose schedule is armed and whose packets are all too late, and
   * that does not time the session out.
   */
  lemma TickPlaysFromEmptyExactly(w: Worker, env: nat -> Reading, now: Instant, timeoutNow: Instant)
    requires Inv(w) && !PlaysFromEmpty(w) && Sorted(w.history.session.accepted) && FrozenAt(env, now)
    ensures PlaysFromEmpty(OnTick(w, env, timeoutNow))
            <==> && w.state == Playing && (w.nextDeadline.Some? || BufferReady(w.buffer))
                 && AllTooLate(w, now) && !TimedOut(w, timeoutNow)
  {
    var drained := Drain(w, env);
    TimeoutAfterDrain(w, env, timeoutNow);
    if w.connection.Some? && w.syncClock.Some? && (w.nextDeadline.Some? || BufferReady(w.buffer)) {
      QueueSorted(w);
      if w.nextDeadline.Some? {
        DrainLoopPlaysFromEmpty(w, env, 0, now);
      } else {
        DrainLoopPlaysFromEmpty(Marked(w, Ready(w.buffer)), env, 0, now);
      }
    }
  }

  lemma {:induction false} DrainLoopKeepsActivity(w: Worker, env: nat -> Reading, turn: nat)
    ensures var final := DrainLoop(w, env, turn);
            final.connection.Some? ==> final.connection == w.connection && final.lastActivity == w.lastActivity
    decreases |w.buffer.packets|
  {
    match DrainTurn(w, env(turn))
    case Stop(_) =>
    case Continue(next) => DrainLoopKeepsActivity(next, env, turn + 1);
  }

  lemma TimeoutAfterDrain(w: Worker, env: nat -> Reading, timeoutNow: Instant)
    requires Inv(w)
    ensures PlaysFromEmpty(OnTick(w, env, timeoutNow)) <==> PlaysFromEmpty(Drain(w, env)) && !TimedOut(w, timeoutNow)
  {
    DrainKeeps(w, env);
    DrainKeepsBounds(w, env);
    DrainLoopKeepsActivity(w, env, 0);
    DrainLoopKeepsActivity(Marked(w, Ready(w.buffer)), env, 0);
  }

  // ----- A run that gets there -----

  function Silent(timestampMs: u64): BufferedPacket { BufferedPacket(SilentPacket(timestampMs), 1_440) }

  /** The given packets of thirty milliseconds are queued, of those accepted, and the next one is scheduled. */
  ghost predicate Queued(w: Worker, packets: seq<BufferedPacket>, accepted: seq<BufferedPacket>, deadline: Instant) {
    && Inv(w) && w.profile == ProfileOf(LowLatency)
    && w.connection.Some? && w.connection.value.stream == LONG_PACKETS && w.buffer.packets == packets
    && w.history.session.accepted == accepted
    && w.syncClock == Some(SyncClock(0, 0)) && w.lastActivity == Some(0) && w.nextDeadline == Some(deadline)
  }

  lemma FirstQueues(w: Worker)
    requires JustConnected(w) && Inv(w)
    ensures Queued(HandlePacket(w, SilentPacket(0), 0), [Silent(0)], [Silent(0)], 30 * MILLISECOND)
  {
    OnePacketStored(w);
    PacketKeeps(w, SilentPacket(0), 0);
    assert WriteDeadline(SyncClock(0, 0), 0, 30) == 30 * MILLISECOND;
    var w' := HandlePacket(w, SilentPacket(0), 0);
    assert w'.connection == w.connection;
  }

  lemma LongPacketLimits()
    ensures MaxPackets(ProfileOf(LowLatency), LONG_PACKETS) == 4
    ensures FrameCount(SilentPacket(30), LONG_PACKETS) == Some(1_440)
  {
    assert PacketNanos(LONG_PACKETS) == 30_000_000;
  }

  lemma SecondIsStored(w: Worker)
    requires Queued(w, [Silent(0)], [Silent(0)], 30 * MILLISECOND)
    ensures var w' := HandlePacket(w, SilentPacket(30), 0);
            && w'.buffer.packets == [Silent(0), Silent(30)] && w'.history.session.accepted == [Silent(0), Silent(30)]
            && w'.nextDeadline == w.nextDeadline && w'.syncClock == w.syncClock && w'.profile == w.profile
            && w'.lastActivity == Some(0) && w'.connection == w.connection
  {
    LongPacketLimits();
    assert !BufferFull(w.buffer);
    assert [Silent(0)] + [Silent(30)] == [Silent(0), Silent(30)];
  }

  lemma SecondQueues(w: Worker)
    requires Queued(w, [Silent(0)], [Silent(0)], 30 * MILLISECOND)
    ensures var both := [Silent(0), Silent(30)];
            Queued(HandlePacket(w, SilentPacket(30), 0), both, both, 30 * MILLISECOND)
  {
    SecondIsStored(w);
    PacketKeeps(w, SilentPacket(30), 0);
  }

  lemma PlaysFirst(w: Worker, env: nat -> Reading)
    requires w.profile == ProfileOf(LowLatency) && w.syncClock == Some(SyncClock(0, 0)) && w.sinkOpen
    requires w.buffer.packets == [Silent(0), Silent(30)]
    requires env(0) == Reading(30 * MILLISECOND, true)
    ensures var turn := DrainTurn(w, env(0));
            && turn.Continue? && turn.next.state == Playing && turn.next.buffer.packets == [Silent(30)]
            && turn.next.history.session.accepted == w.history.session.accepted
            && turn.next.profile == w.profile && SameSession(w, turn.next)
  {
    assert DeadlineFor(w, 0) == Some(30 * MILLISECOND);
  }

  lemma AwaitsSecond(w: Worker, reading: Reading)
    requires w.profile == ProfileOf(LowLatency) && w.syncClock == Some(SyncClock(0, 0))
    requires w.buffer.packets == [Silent(30)] && w.state == Playing && reading.now == 30 * MILLISECOND
    ensures var turn := DrainTurn(w, reading);
            && turn.Stop? && turn.final.state == Playing && turn.final.buffer == w.buffer
            && turn.final.history == w.history && SameSession(w, turn.final)
            && turn.final.nextDeadline == Some(60 * MILLISECOND)
  {
    assert DeadlineFor(w, 30) == Some(60 * MILLISECOND);
  }

  lemma TwoTurns(w: Worker, env: nat -> Reading)
    requires DrainTurn(w, env(0)).Continue? && DrainTurn(DrainTurn(w, env(0)).next, env(1)).Stop?
    ensures DrainLoop(w, env, 0) == DrainTurn(DrainTurn(w, env(0)).next, env(1)).final
  {
    assert DrainLoop(w, env, 0) == DrainLoop(DrainTurn(w, env(0)).next, env, 1);
  }

  lemma FirstIsDrained(w: Worker, env: nat -> Reading)
    requires Queued(w, [Silent(0), Silent(30)], [Silent(0), Silent(30)], 30 * MILLISECOND)
    requires env(0) == Reading(30 * MILLISECOND, true) && env(1) == Reading(30 * MILLISECOND, true)
    ensures var w' := Drain(w, env);
            && w'.state == Playing && w'.buffer.packets == [Silent(30)] && w'.nextDeadline == Some(60 * MILLISECOND)
            && w'.history.session.accepted == w.history.session.accepted
            && w'.profile == w.profile && SameSession(w, w')
  {
    PlaysFirst(w, env);
    AwaitsSecond(DrainTurn(w, env(0)).next, env(1));
    TwoTurns(w, env);
  }

  lemma FirstIsPlayed(w: Worker)
    requires Queued(w, [Silent(0), Silent(30)], [Silent(0), Silent(30)], 30 * MILLISECOND)
    ensures var w' := OnTick(w, StandingClock(30 * MILLISECOND), 30 * MILLISECOND);
            w'.state == Playing && Queued(w', [Silent(30)], [Silent(0), Silent(30)], 60 * MILLISECOND)
  {
    var env := StandingClock(30 * MILLISECOND);
    FirstIsDrained(w, env);
    TickKeeps(w, env, 30 * MILLISECOND);
    assert CheckTimeout(Drain(w, env), 30 * MILLISECOND) == Drain(w, env);
  }

  lemma SecondIsTooLate(w: Worker)
    requires w.state == Playing && Queued(w, [Silent(30)], [Silent(0), Silent(30)], 60 * MILLISECOND)
    ensures PlaysFromEmpty(OnTick(w, StandingClock(87 * MILLISECOND), 87 * MILLISECOND))
  {
    assert VerdictAt(w.profile, SyncClock(0, 0), Silent(30), 87 * MILLISECOND) == TooLate;
    assert AllTooLate(w, 87 * MILLISECOND);
    TickPlaysFromEmptyExactly(w, StandingClock(87 * MILLISECOND), 87 * MILLISECOND, 87 * MILLISECOND);
  }

  function TickAt(ms: nat): Command { Tick(StandingClock(ms * MILLISECOND), ms * MILLISECOND) }

  function TwoPackets(): seq<Command> {
    [Connecting(LONG_PACKETS)] + [AudioPacket(SilentPacket(0), 0)] + [AudioPacket(SilentPacket(30), 0)]
  }

  lemma JustConnectedReached(profile: Profile)
    requires profile == ProfileOf(LowLatency)
    ensures JustConnected(Run(profile, [Connecting(LONG_PACKETS)])) && Inv(Run(profile, [Connecting(LONG_PACKETS)]))
  {
    RunOneMore(profile, [], Connecting(LONG_PACKETS));
    assert [] + [Connecting(LONG_PACKETS)] == [Connecting(LONG_PACKETS)];
    ConnectingGetsThere(Run(profile, []));
    Reachable(profile, [Connecting(LONG_PACKETS)]);
  }

  lemma BothQueue(w: Worker)
    requires JustConnected(w) && Inv(w)
    ensures Queued(HandlePacket(HandlePacket(w, SilentPacket(0), 0), SilentPacket(30), 0),
                   [Silent(0), Silent(30)], [Silent(0), Silent(30)], 30 * MILLISECOND)
  {
    FirstQueues(w);
    SecondQueues(HandlePacket(w, SilentPacket(0), 0));
  }

  lemma {:induction false} BothQueueAfter(profile: Profile, commands: seq<Command>)
    requires JustConnected(Run(profile, commands)) && Inv(Run(profile, commands))
    ensures Queued(Run(profile, commands + [AudioPacket(SilentPacket(0), 0)] + [AudioPacket(SilentPacket(30), 0)]),
                   [Silent(0), Silent(30)], [Silent(0), Silent(30)], 30 * MILLISECOND)
  {
    BothQueue(Run(profile, commands));
    OneMoreAudio(profile, commands, SilentPacket(0));
    OneMoreAudio(profile, commands + [AudioPacket(SilentPacket(0), 0)], SilentPacket(30));
  }

  lemma TwoPacketsQueue(profile: Profile)
    requires profile == ProfileOf(LowLatency)
    ensures Queued(Run(profile, TwoPackets()), [Silent(0), Silent(30)], [Silent(0), Silent(30)], 30 * MILLISECOND)
  {
    JustConnectedReached(profile);
    BothQueueAfter(profile, [Connecting(LONG_PACKETS)]);
  }

  function TickedAt(w: Worker, ms: nat): Worker { OnTick(w, StandingClock(ms * MILLISECOND), ms * MILLISECOND) }

  lemma {:induction false} OneMoreTick(profile: Profile, commands: seq<Command>, ms: nat)
    ensures Run(profile, commands + [TickAt(ms)]) == TickedAt(Run(profile, commands), ms)
  {
    RunOneMore(profile, commands, TickAt(ms));
  }

  lemma BothTicks(w: Worker)
    requires Queued(w, [Silent(0), Silent(30)], [Silent(0), Silent(30)], 30 * MILLISECOND)
    ensures PlaysFromEmpty(TickedAt(TickedAt(w, 30), 87))
  {
    FirstIsPlayed(w);
    SecondIsTooLate(TickedAt(w, 30));
  }

  lemma {:induction false} TwoTicks(profile: Profile, queued: seq<Command>)
    requires Queued(Run(profile, queued), [Silent(0), Silent(30)], [Silent(0), Silent(30)], 30 * MILLISECOND)
    ensures PlaysFromEmpty(Run(profile, queued + [TickAt(30)] + [TickAt(87)]))
  {
    BothTicks(Run(profile, queued));
    OneMoreTick(profile, queued, 30);
    OneMoreTick(profile, queued + [TickAt(30)], 87);
  }

  /**
   * It happens: two packets arrive at once, a tick plays the first in time, and the next tick comes
   * 27 milliseconds after the second was due, of at most 25.
   */
  lemma PlayingFromEmptyIsReachable()
    ensures PlaysFromEmpty(Run(ProfileOf(LowLatency), TwoPackets() + [TickAt(30)] + [TickAt(87)]))
  {
    TwoPacketsQueue(ProfileOf(LowLatency));
    TwoTicks(ProfileOf(LowLatency), TwoPackets());
  }
}
