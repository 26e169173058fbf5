/**
 * What the receiver publishes while it runs: the service state, the synchroniser's figures and the
 * counters of trouble, told from the packets, the log and the commands.
 */
module PlayoutStates {
  import opened Numbers
  import opened Options
  import opened LatencyProfiles
  import opened PacketBuffers
  import opened Playout
  import opened PlayoutInvariants
  import opened PlayoutTransport

  // ----- Figures that are always up to date -----

  /**
   * The queued milliseconds are those of the queue, the sender's times those of the packet queued last,
   * the requested latency that of the connection; errors leave the synchroniser recovering, and a new
   * connection leaves it priming.
   */
  predicate Published(w: Worker) {
    && w.sync.queuedAudioMs == QueuedAudioMs(w.buffer)
    && w.sync.requestedLatencyMs
       == (if w.connection.Some? then Some(w.connection.value.requestedLatencyMs) else None)
    && SenderTimes(w)
    && (w.state == Error ==> w.sync.state == Recovering)
    && (w.state == Connected ==> w.sync.state == Priming && w.buffer.packets == [])
  }

  predicate SenderTimes(w: Worker) {
    if w.buffer.packets == [] then w.sync.lastSenderTimestampMs.None? && w.sync.lastSenderCaptureUnixMs.None?
    else
      var newest := w.buffer.packets[|w.buffer.packets| - 1].packet;
      && w.sync.lastSenderTimestampMs == Some(newest.capturedAtMs)
      && w.sync.lastSenderCaptureUnixMs == Some(newest.capturedAtUnixMs)
  }

  /** The same inside the drain loop, where the last packet may just have been played. */
  predicate PublishedAmid(w: Worker) {
    && w.connection.Some?
    && w.sync.queuedAudioMs == QueuedAudioMs(w.buffer)
    && w.sync.requestedLatencyMs == Some(w.connection.value.requestedLatencyMs)
    && (if w.buffer.packets == [] then w.state == Playing else SenderTimes(w))
    && w.state !in {Error, Connected}
  }

  lemma NothingQueued(b: Buffer)
    requires b.packets == []
    ensures QueuedAudioMs(b) == 0
  {
  }

  lemma TearDownPublishes(w: Worker, reconnect: bool)
    ensures Published(SetError(w)) && Published(HandleDisconnect(w, reconnect))
  {
    NothingQueued(w.buffer.(packets := []));
  }

  lemma ConnectPublishes(w: Worker, connection: Connection, sinkStarts: bool, now: Instant)
    ensures Published(HandleConnect(w, connection, sinkStarts, now))
  {
    NothingQueued(EmptyBuffer(w.profile, connection.stream));
    TearDownPublishes(Opening(w, connection), false);
  }

  lemma PacketPublishes(w: Worker, packet: Packet, now: Instant)
    requires w.buffer.maxPackets > 0 && Published(w) && (w.connection.Some? ==> w.state != Error)
    ensures Published(HandlePacket(w, packet, now))
  {
    if w.connection.Some? {
      var anchored := w.(
        syncClock := if w.syncClock.None? then Some(SyncClock(now, packet.capturedAtMs)) else w.syncClock,
        sync := w.sync.(
          lastSenderTimestampMs := Some(packet.capturedAtMs),
          lastSenderCaptureUnixMs := Some(packet.capturedAtUnixMs)));
      match FrameCount(packet, w.connection.value.stream)
      case None => TearDownPublishes(anchored, false);
      case Some(frames) => StorePublishes(anchored, BufferedPacket(packet, frames), now);
    }
  }

  lemma StorePublishes(w: Worker, p: BufferedPacket, now: Instant)
    requires w.buffer.maxPackets > 0 && w.connection.Some? && w.state != Error
    requires w.sync.requestedLatencyMs == Some(w.connection.value.requestedLatencyMs)
    requires w.sync.lastSenderTimestampMs == Some(p.packet.capturedAtMs)
    requires w.sync.lastSenderCaptureUnixMs == Some(p.packet.capturedAtUnixMs)
    ensures Published(Rearm(Store(w, p, now)))
  {
    var stored := Store(w, p, now);
    assert stored.buffer.packets[|stored.buffer.packets| - 1] == p;
    assert Rearm(stored).buffer == stored.buffer;
  }

  lemma TurnPublishes(w: Worker, reading: Reading)
    requires PublishedAmid(w) && w.syncClock.Some?
    ensures match DrainTurn(w, reading)
            case Continue(next) => PublishedAmid(next) && next.syncClock.Some?
            case Stop(final) => Published(final)
  {
    if w.buffer.packets != [] {
      TearDownPublishes(PopFront(AtFront(w, reading.now), Unwritten), false);
    }
  }

  lemma {:induction false} DrainLoopPublishes(w: Worker, env: nat -> Reading, turn: nat)
    requires PublishedAmid(w) && w.syncClock.Some?
    ensures Published(DrainLoop(w, env, turn))
    decreases |w.buffer.packets|
  {
    TurnPublishes(w, env(turn));
    match DrainTurn(w, env(turn))
    case Stop(_) =>
    case Continue(next) => DrainLoopPublishes(next, env, turn + 1);
  }

  lemma DrainPublishes(w: Worker, env: nat -> Reading)
    requires Structural(w) && Published(w)
    ensures Published(Drain(w, env))
  {
    if w.connection.Some? && w.syncClock.Some? {
      DrainLoopPublishes(w, env, 0);
      DrainLoopPublishes(Marked(w, Ready(w.buffer)), env, 0);
    }
  }

  lemma TickPublishes(w: Worker, env: nat -> Reading, timeoutNow: Instant)
    requires Structural(w) && Published(w)
    ensures Published(OnTick(w, env, timeoutNow))
    ensures var after := OnTick(w, env, timeoutNow);
            after.sync.bufferDeltaMs == AsI32(QueuedAudioMs(after.buffer)) - after.sync.targetBufferMs
  {
    DrainPublishes(w, env);
    TearDownPublishes(Drain(w, env), true);
  }

  lemma StepPublishes(w: Worker, command: Command)
    requires Structural(w) && Published(w)
    ensures Published(Step(w, command))
  {
    match command
    case Connect(connection, sinkStarts, now) => ConnectPublishes(w, connection, sinkStarts, now);
    case AudioPacket(packet, now) => PacketPublishes(w, packet, now);
    case KeepAlive(_) =>
    case Disconnect(reconnect) => TearDownPublishes(w, reconnect);
    case TransportError => TearDownPublishes(w, false);
    case SetPlaybackTarget(_) =>
    case Tick(env, timeoutNow) => TickPublishes(w, env, timeoutNow);
  }

  /** These figures are right in every reachable state. */
  lemma {:induction false} FiguresAreRight(profile: Profile, commands: seq<Command>)
    requires IsPreset(profile)
    ensures Published(Run(profile, commands))
    decreases |commands|
  {
    if commands == [] {
      StartPublishes(profile);
    } else {
      var earlier := commands[..|commands| - 1];
      FiguresAreRight(profile, earlier);
      Reachable(profile, earlier);
      FigureStep(Run(profile, earlier), commands[|commands| - 1]);
    }
  }

  /** After a tick the published distance to the target is right, too. */
  lemma {:induction false} DistanceIsRight(
      profile: Profile, commands: seq<Command>, env: nat -> Reading, timeoutNow: Instant)
    requires IsPreset(profile)
    ensures var after := Run(profile, commands + [Tick(env, timeoutNow)]);
            after.sync.bufferDeltaMs == AsI32(QueuedAudioMs(after.buffer)) - profile.targetBufferMs
  {
    FiguresAreRight(profile, commands);
    Reachable(profile, commands);
    RunOneMore(profile, commands, Tick(env, timeoutNow));
    FigureStep(Run(profile, commands), Tick(env, timeoutNow));
  }

  lemma StartPublishes(profile: Profile)
    ensures Published(Init(profile))
  {
    NothingQueued(EmptyBuffer(profile, DEFAULT_STREAM));
  }

  lemma FigureStep(w: Worker, last: Command)
    requires Inv(w) && Published(w)
    ensures Published(Step(w, last))
    ensures last.Tick? ==>
              var after := Step(w, last);
              after.sync.bufferDeltaMs == AsI32(QueuedAudioMs(after.buffer)) - w.profile.targetBufferMs
  {
    StepPublishes(w, last);
    if last.Tick? {
      TickPublishes(w, last.env, last.timeoutNow);
      TickKeeps(w, last.env, last.timeoutNow);
      StepKeepsBounds(w, last);
    }
  }

  // ----- The service state while connected -----

  function LastRemoved(w: Worker): FateKind
    requires w.history.session.removed != []
  {
    KindOf(w.history.session.removed[|w.history.session.removed| - 1].fate)
  }

  /** Packets were queued, and the last of them was played: the queue ran dry. */
  predicate RanDry(before: Worker, after: Worker) {
    && before.buffer.packets != [] && after.buffer.packets == []
    && after.history.session.removed != [] && LastRemoved(after) == WasPlayed
  }

  /** Since then a packet was played. */
  ghost predicate PlayedSince(before: Worker, after: Worker) {
    exists i :: |before.history.session.removed| <= i < |after.history.session.removed|
                && after.history.session.removed[i].fate.Played?
  }

  /**
   * The state after a tick that leaves the session open: playing goes on, or begins with the first
   * packet played, and ends when the queue runs dry; before that the service buffers.
   */
  ghost predicate StateAfterTick(before: Worker, after: Worker) {
    after.state ==
      if before.buffer.packets == [] then (if before.state == Connected then Buffering else before.state)
      else if RanDry(before, after) then Buffering
      else if before.state == Playing || PlayedSince(before, after) then Playing
      else Buffering
  }

  /** What the drain loop keeps track of: an empty queue was just emptied by playing. */
  ghost predicate InLoop(w: Worker) {
    && w.connection.Some? && w.syncClock.Some? && w.state in {Buffering, Playing}
    && (w.buffer.packets == [] ==> w.state == Playing && w.history.session.removed != [] && LastRemoved(w) == WasPlayed)
  }

  ghost predicate LoopEnds(w: Worker, final: Worker) {
    && w.history.session.removed <= final.history.session.removed
    && final.metrics.underruns == w.metrics.underruns + (if EndsDry(final) then 1 else 0)
    && (final.connection.Some? ==>
          && final.sync.syncResets == w.sync.syncResets + (if final.buffer.packets == [] then 1 else 0)
          && final.state == (if EndsDry(final) then Buffering
                             else if w.state == Playing || PlayedSince(w, final) then Playing
                             else Buffering))
  }

  predicate EndsDry(w: Worker) {
    w.buffer.packets == [] && w.history.session.removed != [] && LastRemoved(w) == WasPlayed
  }

  ghost predicate TurnCounts(w: Worker, turn: Turn) {
    match turn
    case Continue(next) =>
      && InLoop(next) && next.metrics.underruns == w.metrics.underruns
      && next.sync.syncResets == w.sync.syncResets
      && |next.history.session.removed| == |w.history.session.removed| + 1
      && w.history.session.removed <= next.history.session.removed
      && (next.state == Playing
          <==> w.state == Playing || next.history.session.removed[|w.history.session.removed|].fate.Played?)
    case Stop(final) => LoopEnds(w, final)
  }

  lemma LateTurnCounts(w: Worker, reading: Reading)
    requires InLoop(w) && w.buffer.packets != []
    requires SignedDeltaMs(reading.now, FrontDeadline(w)) > w.profile.latePacketDropMs
    ensures TurnCounts(w, DrainTurn(w, reading))
  {
    LateCounts(AtFront(w, reading.now), reading.now);
  }

  lemma EarlyTurnCounts(w: Worker, reading: Reading)
    requires InLoop(w) && w.buffer.packets != [] && reading.now < FrontDeadline(w)
    requires SignedDeltaMs(reading.now, FrontDeadline(w)) <= w.profile.latePacketDropMs
    ensures TurnCounts(w, DrainTurn(w, reading))
  {
  }

  lemma TimelyTurnCounts(w: Worker, reading: Reading)
    requires InLoop(w) && w.buffer.packets != [] && FrontDeadline(w) <= reading.now
    requires SignedDeltaMs(reading.now, FrontDeadline(w)) <= w.profile.latePacketDropMs
    ensures TurnCounts(w, DrainTurn(w, reading))
  {
    if w.sinkOpen && reading.sinkAccepts {
      PlayCounts(AtFront(w, reading.now), reading.now, SignedDeltaMs(reading.now, FrontDeadline(w)));
    } else {
      RefusalCounts(AtFront(w, reading.now));
    }
  }

  lemma DrainTurnCounts(w: Worker, reading: Reading)
    requires InLoop(w)
    ensures TurnCounts(w, DrainTurn(w, reading))
  {
    if w.buffer.packets == [] {
      UnderrunCounts(w);
    } else if SignedDeltaMs(reading.now, FrontDeadline(w)) > w.profile.latePacketDropMs {
      LateTurnCounts(w, reading);
    } else if reading.now < FrontDeadline(w) {
      EarlyTurnCounts(w, reading);
    } else {
      TimelyTurnCounts(w, reading);
    }
  }

  lemma UnderrunCounts(w: Worker)
    requires InLoop(w) && w.buffer.packets == []
    ensures LoopEnds(w, Underrun(w))
  {
  }

  lemma LateCounts(w: Worker, now: Instant)
    requires InLoop(w) && w.buffer.packets != []
    ensures var next := DropLate(w, now);
            && next.history.session.removed == w.history.session.removed + [Removal(w.buffer.packets[0],
                                                                                LateDropped(now, w.syncClock.value))]
            && next.state == w.state && next.syncClock == w.syncClock && next.connection == w.connection
            && next.metrics == w.metrics && next.sync.syncResets == w.sync.syncResets
            && (next.buffer.packets == [] ==> LoopEnds(w, Recover(next)))
  {
  }

  lemma PlayCounts(w: Worker, now: Instant, error: int)
    requires InLoop(w) && w.buffer.packets != []
    ensures var next := Play(w, now, error);
            && next.history.session.removed == w.history.session.removed + [Removal(w.buffer.packets[0],
                                                                                Played(now, w.syncClock.value))]
            && InLoop(next) && next.state == Playing
            && next.metrics.underruns == w.metrics.underruns && next.sync.syncResets == w.sync.syncResets
  {
  }

  lemma RefusalCounts(w: Worker)
    requires InLoop(w) && w.buffer.packets != []
    ensures LoopEnds(w, SetError(PopFront(w, Unwritten)))
  {
    DiscardsAreNoUnderrun(w.history.session.removed + [Removal(w.buffer.packets[0], Unwritten)], w.buffer.packets[1..]);
  }

  lemma {:induction false} PlayedInTwo(w: Worker, next: Worker, final: Worker)
    requires |next.history.session.removed| == |w.history.session.removed| + 1
    requires next.history.session.removed <= final.history.session.removed
    ensures PlayedSince(w, final)
            <==> PlayedSince(next, final) || next.history.session.removed[|w.history.session.removed|].fate.Played?
  {
    var at := |w.history.session.removed|;
    assert final.history.session.removed[at] == next.history.session.removed[at];
  }

  lemma {:induction false} DrainLoopCounts(w: Worker, env: nat -> Reading, turn: nat)
    requires InLoop(w)
    ensures LoopEnds(w, DrainLoop(w, env, turn))
    decreases |w.buffer.packets|
  {
    DrainTurnCounts(w, env(turn));
    match DrainTurn(w, env(turn))
    case Stop(_) =>
    case Continue(next) =>
      DrainLoopCounts(next, env, turn + 1);
      PlayedInTwo(w, next, DrainLoop(next, env, turn + 1));
  }

  lemma NotReadyCounts(w: Worker, env: nat -> Reading)
    requires Structural(w) && Published(w) && w.connection.Some? && w.buffer.packets != []
    requires w.nextDeadline.None? && !BufferReady(w.buffer)
    ensures LoopEnds(w, Drain(w, env))
  {
  }

  lemma ReadyCounts(w: Worker, env: nat -> Reading)
    requires Structural(w) && Published(w) && w.connection.Some? && w.buffer.packets != []
    requires w.nextDeadline.Some? || BufferReady(w.buffer)
    ensures LoopEnds(w, Drain(w, env))
  {
    if w.nextDeadline.Some? {
      DrainLoopCounts(w, env, 0);
    } else {
      var marked := Marked(w, Ready(w.buffer));
      DrainLoopCounts(marked, env, 0);
      assert PlayedSince(marked, DrainLoop(marked, env, 0)) <==> PlayedSince(w, DrainLoop(marked, env, 0));
    }
  }

  lemma EmptyCounts(w: Worker, env: nat -> Reading)
    requires Structural(w) && w.connection.Some? && w.buffer.packets == []
    ensures Drain(w, env) == w.(state := if w.state == Connected then Buffering else w.state)
  {
  }

  // ----- A whole tick -----

  ghost predicate TickCounts(w: Worker, after: Worker) {
    && after.metrics.underruns == w.metrics.underruns + (if RanDry(w, after) then 1 else 0)
    && (after.connection.Some? ==>
          && StateAfterTick(w, after)
          && after.sync.syncResets
             == w.sync.syncResets + (if w.buffer.packets != [] && after.buffer.packets == [] then 1 else 0))
  }

  /** The timeout closes the session or does not touch it. */
  lemma TimeoutCloses(w: Worker, now: Instant)
    ensures var after := RefreshMetrics(CheckTimeout(w, now));
            if w.connection.Some? && IsSilent(w, now) then
              && after.connection.None? && after.buffer.packets == []
              && after.history.session.removed == w.history.session.removed + DiscardAll(w.buffer.packets)
              && after.metrics.underruns == w.metrics.underruns
            else after == RefreshMetrics(w)
  {
  }

  lemma {:induction false} DiscardsAreNoUnderrun(removed: seq<Removal>, packets: seq<BufferedPacket>)
    ensures packets == [] ==> removed + DiscardAll(packets) == removed
    ensures packets != [] ==>
              KindOf((removed + DiscardAll(packets))[|removed + DiscardAll(packets)| - 1].fate) == WasDiscarded
  {
  }

  lemma {:induction false} TimeoutCounts(w: Worker, drained: Worker, after: Worker)
    requires w.buffer.packets != [] && LoopEnds(w, drained)
    requires if after.connection.None? && drained.connection.Some? then
               && after.buffer.packets == []
               && after.history.session.removed == drained.history.session.removed + DiscardAll(drained.buffer.packets)
               && after.metrics.underruns == drained.metrics.underruns
             else after == RefreshMetrics(drained)
    ensures TickCounts(w, after)
  {
    DiscardsAreNoUnderrun(drained.history.session.removed, drained.buffer.packets);
    if after == RefreshMetrics(drained) {
      assert PlayedSince(w, after) <==> PlayedSince(w, drained);
    }
  }

  lemma EmptyTickCounts(w: Worker, env: nat -> Reading, timeoutNow: Instant)
    requires Structural(w) && w.connection.Some? && w.buffer.packets == []
    ensures TickCounts(w, OnTick(w, env, timeoutNow))
  {
    EmptyCounts(w, env);
    TimeoutCloses(Drain(w, env), timeoutNow);
  }

  /**
   * What a tick of an open session does to the service state and the counters: one underrun if the
   * queue runs dry, one reset of the timeline if it is emptied.
   */
  lemma TickCountsTrouble(w: Worker, env: nat -> Reading, timeoutNow: Instant)
    requires Structural(w) && Published(w) && w.connection.Some?
    ensures TickCounts(w, OnTick(w, env, timeoutNow))
  {
    if w.buffer.packets == [] {
      EmptyTickCounts(w, env, timeoutNow);
    } else {
      if w.nextDeadline.Some? || BufferReady(w.buffer) {
        ReadyCounts(w, env);
      } else {
        NotReadyCounts(w, env);
      }
      TimeoutCloses(Drain(w, env), timeoutNow);
      TimeoutCounts(w, Drain(w, env), OnTick(w, env, timeoutNow));
    }
  }

  /** The state after any other step that leaves the session open: a packet or a new sink ends the first wait. */
  predicate StateAfterStep(before: Worker, command: Command, after: Worker)
    requires !command.Tick?
  {
    after.state ==
      match command
      case Connect(_, _, _) => Connected
      case AudioPacket(_, _) => if before.state == Playing then Playing else Buffering
      case SetPlaybackTarget(sinkStarts) =>
        if before.state == Connected && sinkStarts then Buffering else before.state
      case _ => before.state
  }

  lemma OtherStepState(w: Worker, command: Command)
    requires w.buffer.maxPackets > 0 && w.connection.Some? && w.state in {Connected, Buffering, Playing}
    requires !command.Tick? && Step(w, command).connection.Some?
    ensures StateAfterStep(w, command, Step(w, command))
  {
  }

  /** The service state of an open session, from one command to the next, in every run. */
  lemma {:induction false} ServiceStateFollows(profile: Profile, commands: seq<Command>, command: Command)
    requires IsPreset(profile) && Run(profile, commands).connection.Some?
    requires Run(profile, commands + [command]).connection.Some?
    ensures var before, after := Run(profile, commands), Run(profile, commands + [command]);
            if command.Tick? then StateAfterTick(before, after) else StateAfterStep(before, command, after)
  {
    Reachable(profile, commands);
    FiguresAreRight(profile, commands);
    RunOneMore(profile, commands, command);
    StateStep(Run(profile, commands), command);
  }

  lemma StateStep(w: Worker, command: Command)
    requires Inv(w) && Published(w) && w.connection.Some? && Step(w, command).connection.Some?
    ensures var after := Step(w, command);
            if command.Tick? then StateAfterTick(w, after) else StateAfterStep(w, command, after)
  {
    if command.Tick? {
      TickCountsTrouble(w, command.env, command.timeoutNow);
    } else {
      OtherStepState(w, command);
    }
  }

  // ----- Trouble over whole runs -----

  /** How often the queue ran dry. */
  function TimesDry(profile: Profile, commands: seq<Command>): nat
    decreases |commands|
  {
    if commands == [] then 0
    else
      var earlier := commands[..|commands| - 1];
      var before, after := Run(profile, earlier), Run(profile, commands);
      TimesDry(profile, earlier)
      + if commands[|commands| - 1].Tick? && before.connection.Some? && RanDry(before, after) then 1 else 0
  }

  /** How often since the last connection a tick emptied the queue. */
  function TimesEmptied(profile: Profile, commands: seq<Command>): nat
    decreases |commands|
  {
    if commands == [] || commands[|commands| - 1].Connect? then 0
    else
      var earlier := commands[..|commands| - 1];
      var before, after := Run(profile, earlier), Run(profile, commands);
      TimesEmptied(profile, earlier)
      + if commands[|commands| - 1].Tick? && before.buffer.packets != [] && after.buffer.packets == [] then 1 else 0
  }

  /** How often the sender was given up, or said that it would come back. */
  ghost function TimesReconnecting(profile: Profile, commands: seq<Command>): nat
    decreases |commands|
  {
    if commands == [] then 0
    else
      var earlier, last := commands[..|commands| - 1], commands[|commands| - 1];
      var before, after := Run(profile, earlier), Run(profile, commands);
      TimesReconnecting(profile, earlier)
      + (match last
         case Disconnect(suggested) => if suggested then 1 else 0
         case Tick(_, now) =>
           if before.connection.Some? && !SinkRefused(before, after) && LastHeard(earlier).Some?
              && LastHeard(earlier).value + profile.reconnectGraceMs * MILLISECOND <= now then 1 else 0
         case _ => 0)
  }

  ghost predicate TroubleCounted(profile: Profile, commands: seq<Command>) {
    var w := Run(profile, commands);
    && w.metrics.underruns == TimesDry(profile, commands)
    && w.metrics.reconnectAttempts == TimesReconnecting(profile, commands)
    && (w.connection.Some? ==> w.sync.syncResets == TimesEmptied(profile, commands))
  }

  lemma OtherStepCounts(w: Worker, command: Command)
    requires w.buffer.maxPackets > 0 && !(command.Tick? && w.connection.Some?)
    ensures var after := Step(w, command);
            && after.metrics.underruns == w.metrics.underruns
            && (w.connection.None? && !command.Connect? ==> after.connection.None?)
            && (after.connection.Some? ==>
                  after.sync.syncResets == if command.Connect? then 0 else w.sync.syncResets)
  {
  }

  lemma {:induction false} UnderrunsCounted(profile: Profile, commands: seq<Command>)
    requires IsPreset(profile)
    ensures Run(profile, commands).metrics.underruns == TimesDry(profile, commands)
    ensures Run(profile, commands).connection.Some? ==>
              Run(profile, commands).sync.syncResets == TimesEmptied(profile, commands)
    decreases |commands|
  {
    if commands != [] {
      var earlier, last := commands[..|commands| - 1], commands[|commands| - 1];
      UnderrunsCounted(profile, earlier);
      Reachable(profile, earlier);
      FiguresAreRight(profile, earlier);
      CountStep(Run(profile, earlier), last);
    }
  }

  lemma CountStep(w: Worker, last: Command)
    requires Inv(w) && Published(w)
    ensures var after := Step(w, last);
            && after.metrics.underruns == w.metrics.underruns
               + (if last.Tick? && w.connection.Some? && RanDry(w, after) then 1 else 0)
            && (w.connection.None? && !last.Connect? ==> after.connection.None?)
            && (after.connection.Some? ==>
                  after.sync.syncResets ==
                    if last.Connect? then 0
                    else w.sync.syncResets
                         + if last.Tick? && w.buffer.packets != [] && after.buffer.packets == [] then 1 else 0)
  {
    if last.Tick? && w.connection.Some? {
      TickCountsTrouble(w, last.env, last.timeoutNow);
    } else {
      OtherStepCounts(w, last);
    }
  }

  lemma ReconnectStep(w: Worker, last: Command)
    requires w.buffer.maxPackets > 0 && (w.connection.Some? ==> w.sinkOpen)
    ensures var after := Step(w, last);
            after.metrics.reconnectAttempts == w.metrics.reconnectAttempts
              + (match last
                 case Disconnect(suggested) => if suggested then 1 else 0
                 case Tick(_, now) => if w.connection.Some? && !SinkRefused(w, after) && IsSilent(w, now) then 1 else 0
                 case _ => 0)
  {
    if w.connection.None? {
      StepBeginsExactly(w, last);
    } else {
      match last
      case Tick(env, now) => TickEndsExactly(w, env, now);
      case _ => StepEndsExactly(w, last);
    }
  }

  lemma {:induction false} ReconnectsCounted(profile: Profile, commands: seq<Command>)
    requires IsPreset(profile)
    ensures Run(profile, commands).metrics.reconnectAttempts == TimesReconnecting(profile, commands)
    decreases |commands|
  {
    if commands != [] {
      var earlier, last := commands[..|commands| - 1], commands[|commands| - 1];
      ReconnectsCounted(profile, earlier);
      Reachable(profile, earlier);
      ConnectedIsHeard(profile, earlier);
      ReconnectStep(Run(profile, earlier), last);
    }
  }

  /**
   * The counters of trouble add up in every run: underruns are the ticks that played the last packet,
   * timeline resets the ticks that emptied the queue since the last connection, and reconnects the
   * disconnects that suggested one and the ticks that gave a silent sender up.
   */
  lemma {:induction false} TroubleIsCounted(profile: Profile, commands: seq<Command>)
    requires IsPreset(profile)
    ensures TroubleCounted(profile, commands)
  {
    UnderrunsCounted(profile, commands);
    ReconnectsCounted(profile, commands);
  }

  // ----- How far off the schedule is -----

  /** The published error is the distance to the armed deadline at some reading of the clock before it. */
  ghost predicate ErrorIsMeasured(w: Worker, env: nat -> Reading) {
    w.nextDeadline.Some? &&
    exists i: nat :: env(i).now < w.nextDeadline.value
                     && w.sync.scheduleErrorMs == -Min((w.nextDeadline.value - env(i).now) / MILLISECOND, I32_MAX)
  }

  lemma WaitIsMeasured(w: Worker, env: nat -> Reading, turn: nat)
    requires w.syncClock.Some? && (w.buffer.packets == [] ==> w.state == Playing)
    ensures match DrainTurn(w, env(turn))
            case Continue(next) => next.syncClock.Some? && (next.buffer.packets == [] ==> next.state == Playing)
            case Stop(final) =>
              if final.buffer.packets == [] then final.sync.scheduleErrorMs == 0 else ErrorIsMeasured(final, env)
  {
    match DrainTurn(w, env(turn))
    case Continue(_) =>
    case Stop(final) =>
      if final.buffer.packets != [] { assert env(turn).now < final.nextDeadline.value; }
  }

  lemma {:induction false} LoopIsMeasured(w: Worker, env: nat -> Reading, turn: nat)
    requires w.syncClock.Some? && (w.buffer.packets == [] ==> w.state == Playing)
    ensures var final := DrainLoop(w, env, turn);
            if final.buffer.packets == [] then final.sync.scheduleErrorMs == 0 else ErrorIsMeasured(final, env)
    decreases |w.buffer.packets|
  {
    WaitIsMeasured(w, env, turn);
    match DrainTurn(w, env(turn))
    case Stop(_) =>
    case Continue(next) => LoopIsMeasured(next, env, turn + 1);
  }

  lemma DrainIsMeasured(w: Worker, env: nat -> Reading)
    requires Structural(w) && w.buffer.packets != []
    ensures var drained := Drain(w, env);
            if drained.buffer.packets == [] || drained.nextDeadline.None? then drained.sync.scheduleErrorMs == 0
            else ErrorIsMeasured(drained, env)
  {
    if w.nextDeadline.Some? {
      LoopIsMeasured(w, env, 0);
    } else if BufferReady(w.buffer) {
      LoopIsMeasured(Marked(w, Ready(w.buffer)), env, 0);
    }
  }

  /**
   * After a tick the published schedule error says how early it still is for the packet in front: the
   * whole milliseconds to its deadline, or zero if nothing is scheduled.
   */
  lemma {:induction false} ErrorIsPublished(
      profile: Profile, commands: seq<Command>, env: nat -> Reading, timeoutNow: Instant)
    requires IsPreset(profile) && Run(profile, commands).buffer.packets != []
    ensures var after := Run(profile, commands + [Tick(env, timeoutNow)]);
            if after.nextDeadline.None? then after.sync.scheduleErrorMs == 0 else ErrorIsMeasured(after, env)
  {
    StructuralInRun(profile, commands);
    Reachable(profile, commands);
    RunOneMore(profile, commands, Tick(env, timeoutNow));
    TickError(Run(profile, commands), env, timeoutNow);
  }

  lemma TickError(w: Worker, env: nat -> Reading, timeoutNow: Instant)
    requires Inv(w) && w.buffer.packets != []
    ensures var after := OnTick(w, env, timeoutNow);
            if after.nextDeadline.None? then after.sync.scheduleErrorMs == 0 else ErrorIsMeasured(after, env)
  {
    DrainIsMeasured(w, env);
    ArmedIsQueued(w, env);
    TimeoutKeepsError(Drain(w, env), timeoutNow);
  }

  lemma ArmedIsQueued(w: Worker, env: nat -> Reading)
    requires Inv(w)
    ensures Drain(w, env).nextDeadline.Some? ==> Drain(w, env).buffer.packets != []
  {
    DrainKeeps(w, env);
  }

  lemma TimeoutKeepsError(w: Worker, now: Instant)
    ensures var after := RefreshMetrics(CheckTimeout(w, now));
            || (after.nextDeadline.None? && after.sync.scheduleErrorMs == 0)
            || (after.nextDeadline == w.nextDeadline && after.sync.scheduleErrorMs == w.sync.scheduleErrorMs)
  {
  }
}
