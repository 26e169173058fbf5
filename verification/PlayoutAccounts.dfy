/** What the receiver's published counters and its synchroniser state mean, in every run. */
module PlayoutAccounts {
  import opened Options
  import opened LatencyProfiles
  import opened PacketBuffers
  import opened Playout
  import opened PlayoutInvariants
  import G = PlayoutGuarantees

  function TotalBytes(ps: seq<BufferedPacket>): nat {
    if ps == [] then 0 else TotalBytes(ps[..|ps| - 1]) + |ps[|ps| - 1].packet.payload|
  }

  lemma {:induction false} BytesAppend(ps: seq<BufferedPacket>, p: BufferedPacket)
    ensures TotalBytes(ps + [p]) == TotalBytes(ps) + |p.packet.payload|
  {
    assert (ps + [p])[..|ps|] == ps;
  }

  /** The last packet that was played or dropped as late. */
  function LastTimed(removed: seq<Removal>): (last: Option<Removal>)
    ensures last.Some? ==> last.value in removed && (last.value.fate.Played? || last.value.fate.LateDropped?)
  {
    if removed == [] then None
    else if KindOf(removed[|removed| - 1].fate) in {WasPlayed, WasLate} then Some(removed[|removed| - 1])
    else LastTimed(removed[..|removed| - 1])
  }

  function LatenessMs(profile: Profile, r: Removal): int
    requires r.fate.Played? || r.fate.LateDropped?
  {
    SignedDeltaMs(r.fate.at, WriteDeadline(r.fate.clock, r.packet.packet.capturedAtMs, profile.targetBufferMs))
  }

  /** Frame and byte counters since the last connect are sums over the session's log. */
  predicate Counted(w: Worker) {
    var m, base, log := w.metrics, w.history.base, w.history.session;
    var played := Select(log.removed, WasPlayed);
    && m.framesReceived - base.framesReceived == TotalFrames(log.accepted)
    && m.bytesReceived - base.bytesReceived == TotalBytes(log.accepted)
    && m.framesPlayed - base.framesPlayed == TotalFrames(played)
    && m.bytesPlayed - base.bytesPlayed == TotalBytes(played)
  }

  /** Locked and late speak about the packet that was played or dropped last. */
  predicate Telling(w: Worker) {
    var last := LastTimed(w.history.session.removed);
    match w.sync.state
    case Locked =>
      last.Some? && last.value.fate.Played? && LatenessMs(w.profile, last.value) <= w.profile.latencyToleranceMs
    case Late =>
      last.Some? && (last.value.fate.Played? ==> LatenessMs(w.profile, last.value) > w.profile.latencyToleranceMs)
    case _ => true
  }

  ghost predicate Accounts(w: Worker) { Counted(w) && Telling(w) }

  lemma {:induction false} LastTimedDiscarded(removed: seq<Removal>, ps: seq<BufferedPacket>)
    ensures LastTimed(removed + DiscardAll(ps)) == LastTimed(removed)
  {
    var all := removed + DiscardAll(ps);
    if ps == [] {
      assert all == removed;
    } else {
      assert all[..|all| - 1] == removed + DiscardAll(ps[..|ps| - 1]);
      LastTimedDiscarded(removed, ps[..|ps| - 1]);
    }
  }

  lemma {:induction false} LastTimedAppend(removed: seq<Removal>, r: Removal)
    ensures LastTimed(removed + [r]) == if KindOf(r.fate) in {WasPlayed, WasLate} then Some(r) else LastTimed(removed)
  {
    assert (removed + [r])[..|removed|] == removed;
  }

  lemma TearDownAccounts(w: Worker)
    requires Counted(w)
    ensures Accounts(TearDown(w)) && Accounts(SetError(w))
    ensures forall reconnect :: Accounts(HandleDisconnect(w, reconnect))
  {
    SelectDiscarded(w.history.session.removed, w.buffer.packets, WasPlayed);
  }

  lemma ConnectAccounts(w: Worker, connection: Connection, sinkStarts: bool, now: Instant)
    ensures Accounts(HandleConnect(w, connection, sinkStarts, now))
  {
    var ready := Opening(w, connection);
    assert Counted(ready);
    TearDownAccounts(ready);
  }

  lemma StoreAccounts(w: Worker, p: BufferedPacket, now: Instant)
    requires w.buffer.maxPackets > 0 && Accounts(w)
    ensures Accounts(Store(w, p, now))
  {
    var log := w.history.session;
    TotalFramesAppend(log.accepted, p);
    BytesAppend(log.accepted, p);
    if BufferFull(w.buffer) {
      SelectAppend(log.removed, Removal(w.buffer.packets[0], Overrun), WasPlayed);
      LastTimedAppend(log.removed, Removal(w.buffer.packets[0], Overrun));
    } else {
      assert log.removed + [] == log.removed;
    }
  }

  lemma RearmAccounts(w: Worker)
    requires Accounts(w)
    ensures Accounts(Rearm(w))
  {
  }

  lemma PacketAccounts(w: Worker, packet: Packet, now: Instant)
    requires w.buffer.maxPackets > 0 && Accounts(w)
    ensures Accounts(HandlePacket(w, packet, now))
  {
    if w.connection.Some? {
      var anchored := w.(
        syncClock := if w.syncClock.None? then Some(SyncClock(now, packet.capturedAtMs)) else w.syncClock,
        sync := w.sync.(
          lastSenderTimestampMs := Some(packet.capturedAtMs),
          lastSenderCaptureUnixMs := Some(packet.capturedAtUnixMs)));
      match FrameCount(packet, w.connection.value.stream)
      case None => TearDownAccounts(anchored);
      case Some(frames) =>
        StoreAccounts(anchored, BufferedPacket(packet, frames), now);
        RearmAccounts(Store(anchored, BufferedPacket(packet, frames), now));
    }
  }

  lemma PlayAccounts(w: Worker, now: Instant)
    requires w.buffer.packets != [] && w.syncClock.Some? && Counted(w)
    ensures var timestampMs := w.buffer.packets[0].packet.capturedAtMs;
            var deadline := WriteDeadline(w.syncClock.value, timestampMs, w.profile.targetBufferMs);
            Accounts(Play(w, now, SignedDeltaMs(now, deadline)))
  {
    var r := Removal(w.buffer.packets[0], Played(now, w.syncClock.value));
    var played := Select(w.history.session.removed, WasPlayed);
    SelectAppend(w.history.session.removed, r, WasPlayed);
    LastTimedAppend(w.history.session.removed, r);
    TotalFramesAppend(played, r.packet);
    BytesAppend(played, r.packet);
  }

  lemma DropLateAccounts(w: Worker, now: Instant)
    requires w.buffer.packets != [] && w.syncClock.Some? && Counted(w)
    ensures Accounts(DropLate(w, now))
  {
    var r := Removal(w.buffer.packets[0], LateDropped(now, w.syncClock.value));
    SelectAppend(w.history.session.removed, r, WasPlayed);
    LastTimedAppend(w.history.session.removed, r);
  }

  lemma UnwrittenAccounts(w: Worker)
    requires w.buffer.packets != [] && Counted(w)
    ensures Accounts(SetError(PopFront(w, Unwritten)))
  {
    SelectAppend(w.history.session.removed, Removal(w.buffer.packets[0], Unwritten), WasPlayed);
    TearDownAccounts(PopFront(w, Unwritten));
  }

  lemma RecoverAccounts(w: Worker)
    requires Counted(w)
    ensures Accounts(Recover(w)) && Accounts(Underrun(w))
  {
  }

  lemma FrontIsAccounted(w: Worker, now: Instant)
    requires w.buffer.packets != [] && w.syncClock.Some? && Accounts(w)
    ensures Accounts(AtFront(w, now))
    ensures Accounts(AtFront(w, now).(state := if w.state != Playing then Buffering else Playing))
  {
  }

  ghost predicate TurnAccounts(turn: Turn) {
    match turn
    case Continue(next) => Accounts(next)
    case Stop(final) => Accounts(final)
  }

  lemma LateTurnAccounts(w: Worker, reading: Reading)
    requires w.buffer.packets != [] && w.syncClock.Some? && Accounts(w)
    requires SignedDeltaMs(reading.now, FrontDeadline(w)) > w.profile.latePacketDropMs
    ensures TurnAccounts(DrainTurn(w, reading))
  {
    FrontIsAccounted(w, reading.now);
    DropLateAccounts(AtFront(w, reading.now), reading.now);
    RecoverAccounts(DropLate(AtFront(w, reading.now), reading.now));
  }

  lemma EarlyTurnAccounts(w: Worker, reading: Reading)
    requires w.buffer.packets != [] && w.syncClock.Some? && Accounts(w) && reading.now < FrontDeadline(w)
    requires SignedDeltaMs(reading.now, FrontDeadline(w)) <= w.profile.latePacketDropMs
    ensures TurnAccounts(DrainTurn(w, reading))
  {
    FrontIsAccounted(w, reading.now);
  }

  lemma TimelyTurnAccounts(w: Worker, reading: Reading)
    requires w.buffer.packets != [] && w.syncClock.Some? && Accounts(w) && FrontDeadline(w) <= reading.now
    requires SignedDeltaMs(reading.now, FrontDeadline(w)) <= w.profile.latePacketDropMs
    ensures TurnAccounts(DrainTurn(w, reading))
  {
    FrontIsAccounted(w, reading.now);
    if w.sinkOpen && reading.sinkAccepts {
      PlayAccounts(AtFront(w, reading.now), reading.now);
    } else {
      UnwrittenAccounts(AtFront(w, reading.now));
    }
  }

  lemma DrainTurnAccounts(w: Worker, reading: Reading)
    requires Accounts(w)
    ensures TurnAccounts(DrainTurn(w, reading))
  {
    if w.buffer.packets == [] {
      RecoverAccounts(w);
    } else if w.syncClock.Some? {
      if SignedDeltaMs(reading.now, FrontDeadline(w)) > w.profile.latePacketDropMs {
        LateTurnAccounts(w, reading);
      } else if reading.now < FrontDeadline(w) {
        EarlyTurnAccounts(w, reading);
      } else {
        TimelyTurnAccounts(w, reading);
      }
    }
  }

  lemma {:induction false} DrainLoopAccounts(w: Worker, env: nat -> Reading, turn: nat)
    requires Accounts(w)
    ensures Accounts(DrainLoop(w, env, turn))
    decreases |w.buffer.packets|
  {
    DrainTurnAccounts(w, env(turn));
    match DrainTurn(w, env(turn))
    case Stop(_) =>
    case Continue(next) => DrainLoopAccounts(next, env, turn + 1);
  }

  lemma DrainAccounts(w: Worker, env: nat -> Reading)
    requires Accounts(w)
    ensures Accounts(Drain(w, env))
  {
    if w.connection.Some? && w.syncClock.Some? {
      if w.nextDeadline.Some? {
        DrainLoopAccounts(w, env, 0);
      } else if BufferReady(w.buffer) {
        DrainLoopAccounts(Marked(w, Ready(w.buffer)), env, 0);
      }
    }
  }

  lemma TimeoutAccounts(w: Worker, now: Instant)
    requires Accounts(w)
    ensures Accounts(RefreshMetrics(CheckTimeout(w, now)))
  {
    TearDownAccounts(w);
  }

  lemma TickAccounts(w: Worker, env: nat -> Reading, timeoutNow: Instant)
    requires Accounts(w)
    ensures Accounts(OnTick(w, env, timeoutNow))
  {
    DrainAccounts(w, env);
    TimeoutAccounts(Drain(w, env), timeoutNow);
  }

  lemma OtherStepAccounts(w: Worker, command: Command)
    requires (command.KeepAlive? || command.SetPlaybackTarget?) && w.buffer.maxPackets > 0 && Accounts(w)
    ensures Accounts(Step(w, command))
  {
  }

  lemma StepAccounts(w: Worker, command: Command)
    requires w.buffer.maxPackets > 0 && Accounts(w)
    ensures Accounts(Step(w, command))
  {
    match command
    case Connect(connection, sinkStarts, now) => ConnectAccounts(w, connection, sinkStarts, now);
    case AudioPacket(packet, now) => PacketAccounts(w, packet, now);
    case KeepAlive(_) => OtherStepAccounts(w, command);
    case Disconnect(reconnect) => TearDownAccounts(w);
    case TransportError => TearDownAccounts(w);
    case SetPlaybackTarget(_) => OtherStepAccounts(w, command);
    case Tick(env, timeoutNow) => TickAccounts(w, env, timeoutNow);
  }

  lemma {:induction false} RunAccounts(profile: Profile, commands: seq<Command>)
    ensures Accounts(Run(profile, commands))
    decreases |commands|
  {
    if commands != [] {
      RunAccounts(profile, commands[..|commands| - 1]);
      StepAccounts(Run(profile, commands[..|commands| - 1]), commands[|commands| - 1]);
    }
  }

  /** Since the last connect, frames and bytes are counted for exactly the packets accepted and the packets played. */
  lemma {:induction false} CountersAddUp(profile: Profile, before: seq<Command>, connect: Command, after: seq<Command>)
    requires IsPreset(profile) && connect.Connect? && forall c | c in after :: !c.Connect?
    ensures var w0, w := Run(profile, before), Run(profile, before + [connect] + after);
            var log := w.history.session;
            && w.metrics.framesReceived - w0.metrics.framesReceived == TotalFrames(log.accepted)
            && w.metrics.bytesReceived - w0.metrics.bytesReceived == TotalBytes(log.accepted)
            && w.metrics.framesPlayed - w0.metrics.framesPlayed == TotalFrames(Select(log.removed, WasPlayed))
            && w.metrics.bytesPlayed - w0.metrics.bytesPlayed == TotalBytes(Select(log.removed, WasPlayed))
  {
    G.CountersSinceConnect(profile, before, connect, after);
    RunAccounts(profile, before + [connect] + after);
  }

  /**
   * The synchroniser reports locked only if the packet it timed last was written within the
   * tolerance, and late only if that one was written outside it or dropped.
   */
  lemma {:induction false} SyncStateIsTelling(profile: Profile, commands: seq<Command>)
    requires IsPreset(profile)
    ensures var w := Run(profile, commands);
            var last := LastTimed(w.history.session.removed);
            && (w.sync.state == Locked ==>
                  && last.Some? && last.value.fate.Played?
                  && 0 <= LatenessMs(profile, last.value) <= profile.latencyToleranceMs)
            && (w.sync.state == Late ==> last.Some? && LatenessMs(profile, last.value) > profile.latencyToleranceMs)
  {
    var w := Run(profile, commands);
    RunAccounts(profile, commands);
    G.PlayoutTiming(profile, commands);
    var last := LastTimed(w.history.session.removed);
    if last.Some? {
      assert G.IsSessionOf(w, w.history.session);
      assert FateOnTime(profile, last.value);
    }
  }

  // ----- Locked and late -----

  /** Something was written since the last reset of the timeline. */
  ghost predicate WroteSinceReset(marks: seq<Mark>) {
    exists i :: 0 <= i < |marks| && marks[i].Wrote? && forall j | i < j < |marks| :: marks[j] != Reset
  }

  lemma {:induction false} WroteMore(marks: seq<Mark>, mark: Mark)
    ensures WroteSinceReset(marks + [mark]) <==> mark.Wrote? || (mark != Reset && WroteSinceReset(marks))
  {
    var longer := marks + [mark];
    if mark.Wrote? { assert longer[|marks|].Wrote?; }
    if mark != Reset && WroteSinceReset(marks) {
      var i :| 0 <= i < |marks| && marks[i].Wrote? && forall j | i < j < |marks| :: marks[j] != Reset;
      assert longer[i].Wrote?;
    }
    if WroteSinceReset(longer) && !mark.Wrote? {
      var i :| 0 <= i < |longer| && longer[i].Wrote? && forall j | i < j < |longer| :: longer[j] != Reset;
      assert i < |marks| && longer[|marks|] != Reset && marks[i].Wrote?;
      forall j | i < j < |marks| ensures marks[j] != Reset { assert longer[j] != Reset; }
    }
  }

  /** Once something was written, the service plays and the synchroniser is locked or late, until the next reset. */
  ghost predicate TimingShows(w: Worker) {
    && (WroteSinceReset(w.history.marks) ==>
          w.state == Playing && w.nextDeadline.Some? && w.sync.state in {Locked, Late})
    && (w.sync.state == Locked ==> WroteSinceReset(w.history.marks))
  }

  /** The same inside the drain loop, where the next packet may not have been looked at yet. */
  ghost predicate TimingShowsAmid(w: Worker) {
    && w.syncClock.Some?
    && (WroteSinceReset(w.history.marks) ==> w.state == Playing && w.sync.state in {Locked, Late})
    && (w.sync.state == Locked ==> WroteSinceReset(w.history.marks))
  }

  lemma TearDownShows(w: Worker, reconnect: bool)
    ensures TimingShows(SetError(w)) && TimingShows(HandleDisconnect(w, reconnect))
  {
    WroteMore(w.history.marks, Reset);
  }

  lemma ConnectShows(w: Worker, connection: Connection, sinkStarts: bool, now: Instant)
    ensures TimingShows(HandleConnect(w, connection, sinkStarts, now))
  {
    WroteMore(w.history.marks, Reset);
    TearDownShows(Opening(w, connection), false);
  }

  lemma PacketShows(w: Worker, packet: Packet, now: Instant)
    requires w.buffer.maxPackets > 0 && TimingShows(w)
    ensures TimingShows(HandlePacket(w, packet, now))
  {
    if w.connection.Some? {
      var anchored := w.(
        syncClock := if w.syncClock.None? then Some(SyncClock(now, packet.capturedAtMs)) else w.syncClock,
        sync := w.sync.(
          lastSenderTimestampMs := Some(packet.capturedAtMs),
          lastSenderCaptureUnixMs := Some(packet.capturedAtUnixMs)));
      match FrameCount(packet, w.connection.value.stream)
      case None => TearDownShows(anchored, false);
      case Some(frames) =>
        WroteMore(w.history.marks, Ready(Store(anchored, BufferedPacket(packet, frames), now).buffer));
    }
  }

  lemma TurnShows(w: Worker, reading: Reading)
    requires TimingShowsAmid(w)
    ensures match DrainTurn(w, reading)
            case Continue(next) => TimingShowsAmid(next)
            case Stop(final) => TimingShows(final)
  {
    WroteMore(w.history.marks, Reset);
    if w.buffer.packets != [] {
      WroteMore(w.history.marks, Wrote(w.buffer.packets[0]));
      TearDownShows(PopFront(AtFront(w, reading.now), Unwritten), false);
    }
  }

  lemma {:induction false} DrainLoopShows(w: Worker, env: nat -> Reading, turn: nat)
    requires TimingShowsAmid(w)
    ensures TimingShows(DrainLoop(w, env, turn))
    decreases |w.buffer.packets|
  {
    TurnShows(w, env(turn));
    match DrainTurn(w, env(turn))
    case Stop(_) =>
    case Continue(next) => DrainLoopShows(next, env, turn + 1);
  }

  lemma TickShows(w: Worker, env: nat -> Reading, timeoutNow: Instant)
    requires TimingShows(w)
    ensures TimingShows(OnTick(w, env, timeoutNow))
  {
    if w.connection.Some? && w.syncClock.Some? {
      if w.nextDeadline.Some? {
        DrainLoopShows(w, env, 0);
      } else if BufferReady(w.buffer) {
        WroteMore(w.history.marks, Ready(w.buffer));
        DrainLoopShows(Marked(w, Ready(w.buffer)), env, 0);
      }
    }
    TearDownShows(Drain(w, env), true);
  }

  lemma StepShows(w: Worker, command: Command)
    requires w.buffer.maxPackets > 0 && TimingShows(w)
    ensures TimingShows(Step(w, command))
  {
    match command
    case Connect(connection, sinkStarts, now) => ConnectShows(w, connection, sinkStarts, now);
    case AudioPacket(packet, now) => PacketShows(w, packet, now);
    case KeepAlive(_) =>
    case Disconnect(reconnect) => TearDownShows(w, reconnect);
    case TransportError => TearDownShows(w, false);
    case SetPlaybackTarget(_) =>
    case Tick(env, timeoutNow) => TickShows(w, env, timeoutNow);
  }

  lemma {:induction false} TimingShowsInRun(profile: Profile, commands: seq<Command>)
    ensures TimingShows(Run(profile, commands))
    decreases |commands|
  {
    if commands != [] {
      var earlier := commands[..|commands| - 1];
      TimingShowsInRun(profile, earlier);
      StepShows(Run(profile, earlier), commands[|commands| - 1]);
    }
  }

  /**
   * The synchroniser is locked if and only if something was written since the last reset of the
   * timeline and the packet timed last was written within the tolerance; if it was not, it is late.
   */
  lemma {:induction false} LockedExactly(profile: Profile, commands: seq<Command>)
    requires IsPreset(profile)
    ensures var w := Run(profile, commands);
            var last := LastTimed(w.history.session.removed);
            && (w.sync.state == Locked
                <==> WroteSinceReset(w.history.marks) && last.Some? && last.value.fate.Played?
                     && 0 <= LatenessMs(profile, last.value) <= profile.latencyToleranceMs)
            && (WroteSinceReset(w.history.marks) ==> w.state == Playing && w.sync.state in {Locked, Late})
  {
    TimingShowsInRun(profile, commands);
    SyncStateIsTelling(profile, commands);
  }
}
