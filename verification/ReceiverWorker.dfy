/**
 * The receiver worker as the object the program runs: fields updated in place, a buffer
 * it owns, a popping drain loop and a command loop. Each method is proved to do exactly
 * what the functions of Playout.dfy say.
 */
module ReceiverWorkers {
  import opened Numbers
  import opened Options
  import opened LatencyProfiles
  import opened PacketBuffers
  import P = Playout

  class ReceiverWorker {
    const profile: Profile
    var buffer: ReceiverPacketBuffer
    var sinkOpen: bool
    var connection: Option<P.Connection>
    var state: P.ServiceState
    var syncClock: Option<P.SyncClock>
    var nextDeadline: Option<P.Instant>
    var lastActivity: Option<P.Instant>
    var sync: P.Sync
    var metrics: P.Metrics
    ghost var history: P.History

    ghost predicate Valid()
      reads this, buffer
    {
      buffer.Valid()
    }

    ghost function View(): P.Worker
      reads this, buffer
    {
      P.Worker(profile, buffer.Contents(), sinkOpen, connection, state, syncClock, nextDeadline, lastActivity,
               sync, metrics, history)
    }

    constructor (preset: Preset)
      ensures Valid() && fresh(buffer) && View() == P.Init(ProfileOf(preset))
    {
      profile := ProfileOf(preset);
      buffer := new ReceiverPacketBuffer(ProfileOf(preset), DEFAULT_STREAM);
      sinkOpen, connection, state := false, None, P.Listening;
      syncClock, nextDeadline, lastActivity := None, None, None;
      sync, metrics := P.FreshSync(ProfileOf(preset)), P.NO_METRICS;
      history := P.Init(ProfileOf(preset)).history;
    }

    method StopPlaybackSink()
      modifies this`sinkOpen
      ensures !sinkOpen
    {
      if sinkOpen { sinkOpen := false; }
    }

    method ResetSyncTimeline(countReset: bool)
      requires Valid()
      modifies this
      ensures Valid() && buffer == old(buffer)
      ensures View() == P.ResetTimeline(old(View()), countReset)
    {
      syncClock, nextDeadline := None, None;
      sync := sync.(scheduleErrorMs := 0, lastSenderTimestampMs := None, lastSenderCaptureUnixMs := None);
      if countReset { sync := sync.(syncResets := sync.syncResets + 1); }
      history := history.(marks := history.marks + [P.Reset]);
    }

    method RefreshSyncBufferMetrics()
      requires Valid()
      modifies this`sync
      ensures Valid() && View() == P.RefreshMetrics(old(View()))
    {
      var queued := buffer.QueuedMs();
      sync := sync.(queuedAudioMs := queued, bufferDeltaMs := AsI32(queued) - sync.targetBufferMs);
    }

    method WriteDeadlineFor(timestampMs: u64) returns (deadline: Option<P.Instant>)
      requires Valid()
      ensures deadline == P.DeadlineFor(View(), timestampMs)
    {
      deadline := None;
      if syncClock.Some? {
        deadline := Some(P.WriteDeadline(syncClock.value, timestampMs, profile.targetBufferMs));
      }
    }

    /** The tear-down that a disconnect and an error share. */
    method TearDown()
      requires Valid()
      modifies this, buffer
      ensures Valid() && buffer == old(buffer)
      ensures View() == P.TearDown(old(View()))
    {
      history := P.Removed(history, P.DiscardAll(buffer.packets));
      StopPlaybackSink();
      connection := None;
      buffer.Clear();
      ResetSyncTimeline(false);
      sync := P.FreshSync(profile);
      lastActivity := None;
    }

    method HandleDisconnect(reconnectSuggested: bool)
      requires Valid()
      modifies this, buffer
      ensures Valid() && buffer == old(buffer)
      ensures View() == P.HandleDisconnect(old(View()), reconnectSuggested)
    {
      if reconnectSuggested {
        metrics := metrics.(reconnectAttempts := metrics.reconnectAttempts + 1);
      }
      TearDown();
      state := P.Listening;
    }

    method SetError()
      requires Valid()
      modifies this, buffer
      ensures Valid() && buffer == old(buffer)
      ensures View() == P.SetError(old(View()))
    {
      TearDown();
      state := P.Error;
      sync := sync.(state := P.Recovering);
    }

    /** Close the old session and get ready for the new one, short of opening the sink. */
    method PrepareSession(inbound: P.Connection)
      requires Valid()
      modifies this
      ensures Valid() && fresh(buffer)
      ensures View() == P.Opening(old(View()), inbound)
    {
      history := P.NewSession(View(), inbound.stream);
      StopPlaybackSink();
      connection := None;
      buffer := new ReceiverPacketBuffer(profile, inbound.stream);
      ResetSyncTimeline(false);
      sync := P.FreshSync(profile).(state := P.Priming, requestedLatencyMs := Some(inbound.requestedLatencyMs));
    }

    method HandleConnect(inbound: P.Connection, sinkStarts: bool, now: P.Instant)
      requires Valid()
      modifies this
      ensures Valid() && fresh(buffer)
      ensures View() == P.HandleConnect(old(View()), inbound, sinkStarts, now)
    {
      PrepareSession(inbound);
      if sinkStarts {
        sinkOpen, connection, state, lastActivity := true, Some(inbound), P.Connected, Some(now);
      } else {
        SetError();
      }
    }

    method HandlePlaybackTargetChange(sinkStarts: bool)
      requires Valid()
      modifies this
      ensures Valid() && buffer == old(buffer)
      ensures View() == P.HandleTargetChange(old(View()), sinkStarts)
    {
      if state == P.Error && connection.None? {
        state := P.Listening;
      }
      if connection.Some? {
        var previousSink := sinkOpen;
        sinkOpen := false;
        if sinkStarts {
          sinkOpen := true;
          if state == P.Connected { state := P.Buffering; }
        } else {
          sinkOpen := previousSink;
        }
      }
    }

    method HandlePacket(packet: Packet, now: P.Instant)
      requires Valid()
      modifies this, buffer
      ensures Valid() && buffer == old(buffer)
      ensures View() == P.HandlePacket(old(View()), packet, now)
    {
      if connection.None? { return; }
      var stream := connection.value.stream;
      if syncClock.None? {
        syncClock := Some(P.SyncClock(now, packet.capturedAtMs));
      }
      sync := sync.(lastSenderTimestampMs := Some(packet.capturedAtMs),
                    lastSenderCaptureUnixMs := Some(packet.capturedAtUnixMs));
      var frames := FrameCount(packet, stream);
      if frames.None? {
        SetError();
        return;
      }
      Store(packet, frames.value, now);
      Rearm();
    }

    method Store(packet: Packet, frames: u32, now: P.Instant)
      requires Valid() && connection.Some? && FrameCount(packet, connection.value.stream) == Some(frames)
      modifies this, buffer
      ensures Valid() && buffer == old(buffer)
      ensures View() == P.Store(old(View()), BufferedPacket(packet, frames), now)
    {
      history := history.(session := history.session.(
        accepted := history.session.accepted + [BufferedPacket(packet, frames)],
        removed := history.session.removed
          + if BufferFull(buffer.Contents()) then [P.Removal(buffer.packets[0], P.Overrun)] else []));
      var outcome := buffer.Push(packet, connection.value.stream);
      if outcome.DroppedOldest? {
        metrics := metrics.(overruns := metrics.overruns + 1);
      }
      metrics := metrics.(
        packetsReceived := metrics.packetsReceived + 1,
        framesReceived := metrics.framesReceived + frames,
        bytesReceived := metrics.bytesReceived + |packet.payload|);
      lastActivity := Some(now);
      RefreshSyncBufferMetrics();
    }

    method Rearm()
      requires Valid()
      modifies this
      ensures Valid() && buffer == old(buffer)
      ensures View() == P.Rearm(old(View()))
    {
      if buffer.IsReady() {
        history := history.(marks := history.marks + [P.Ready(buffer.Contents())]);
        if state != P.Playing { state := P.Buffering; }
        if nextDeadline.None? && buffer.packets != [] {
          nextDeadline := WriteDeadlineFor(buffer.packets[0].packet.capturedAtMs);
        }
        if sync.state in {P.SyncIdle, P.Priming, P.Recovering} {
          sync := sync.(state := P.Priming);
        }
      } else if state in {P.Connected, P.Buffering} {
        state := P.Buffering;
        if sync.state != P.Recovering {
          sync := sync.(state := P.Priming);
        }
      }
    }

    method PopFront(ghost fate: P.Fate) returns (p: BufferedPacket)
      requires Valid() && buffer.packets != []
      modifies this`history, buffer
      ensures Valid() && p == old(buffer.packets)[0]
      ensures View() == P.PopFront(old(View()), fate)
    {
      history := P.Removed(history, [P.Removal(buffer.packets[0], fate)]);
      var popped := buffer.Pop();
      p := popped.value;
    }

    method Recover()
      requires Valid()
      modifies this
      ensures Valid() && buffer == old(buffer)
      ensures View() == P.Recover(old(View()))
    {
      ResetSyncTimeline(true);
      sync := sync.(state := P.Recovering);
    }

    /** One turn of the drain loop; `again` says whether the loop goes round. */
    method DrainTurn(reading: P.Reading) returns (again: bool)
      requires Valid()
      modifies this, buffer
      ensures Valid() && buffer == old(buffer)
      ensures P.DrainTurn(old(View()), reading) == if again then P.Continue(View()) else P.Stop(View())
    {
      if buffer.packets == [] {
        if state == P.Playing {
          metrics := metrics.(underruns := metrics.underruns + 1);
          state := P.Buffering;
          Recover();
        }
        return false;
      }
      var front := buffer.packets[0];
      var deadline := WriteDeadlineFor(front.packet.capturedAtMs);
      if deadline.None? { return false; }
      nextDeadline := deadline;
      var error := P.SignedDeltaMs(reading.now, deadline.value);
      sync := sync.(scheduleErrorMs := error);
      if error > profile.latePacketDropMs {
        DropLate(reading.now);
        if buffer.packets == [] {
          Recover();
          return false;
        }
        return true;
      }
      if reading.now < deadline.value {
        if state != P.Playing { state := P.Buffering; }
        return false;
      }
      if !sinkOpen || !reading.sinkAccepts {
        var unwritten := PopFront(P.Unwritten);
        SetError();
        return false;
      }
      Play(reading.now, error);
      return true;
    }

    method DropLate(now: P.Instant)
      requires Valid() && buffer.packets != [] && syncClock.Some?
      modifies this, buffer
      ensures Valid() && buffer == old(buffer)
      ensures View() == P.DropLate(old(View()), now)
    {
      var dropped := PopFront(P.LateDropped(now, syncClock.value));
      sync := sync.(latePacketDrops := sync.latePacketDrops + 1, state := P.Late);
      RefreshSyncBufferMetrics();
    }

    /** The sink has taken the front packet's payload. */
    method Play(now: P.Instant, error: int)
      requires Valid() && buffer.packets != [] && syncClock.Some?
      modifies this, buffer
      ensures Valid() && buffer == old(buffer)
      ensures View() == P.Play(old(View()), now, error)
    {
      var packet := PopFront(P.Played(now, syncClock.value));
      history := history.(marks := history.marks + [P.Wrote(packet)]);
      metrics := metrics.(
        packetsPlayed := metrics.packetsPlayed + 1,
        framesPlayed := metrics.framesPlayed + packet.frameCount,
        bytesPlayed := metrics.bytesPlayed + |packet.packet.payload|);
      state := P.Playing;
      sync := sync.(state := if error > profile.latencyToleranceMs then P.Late else P.Locked);
      nextDeadline := None;
      RefreshSyncBufferMetrics();
    }

    method DrainReadyPackets(env: nat -> P.Reading)
      requires Valid()
      modifies this, buffer
      ensures Valid() && buffer == old(buffer)
      ensures View() == P.Drain(old(View()), env)
    {
      if connection.None? { return; }
      if syncClock.None? {
        if state == P.Connected { state := P.Buffering; }
        return;
      }
      if nextDeadline.None? {
        if !buffer.IsReady() {
          if state != P.Playing { state := P.Buffering; }
          if sync.state != P.Recovering { sync := sync.(state := P.Priming); }
          sync := sync.(scheduleErrorMs := 0);
          return;
        }
        history := history.(marks := history.marks + [P.Ready(buffer.Contents())]);
      }
      var turn, again := 0, true;
      while again
        invariant Valid() && buffer == old(buffer)
        invariant (if again then P.DrainLoop(View(), env, turn) else View()) == P.Drain(old(View()), env)
        decreases again, |buffer.packets|
      {
        again := DrainTurn(env(turn));
        turn := turn + 1;
      }
    }

    method CheckTransportTimeout(now: P.Instant)
      requires Valid()
      modifies this, buffer
      ensures Valid() && buffer == old(buffer)
      ensures View() == P.CheckTimeout(old(View()), now)
    {
      if lastActivity.None? { return; }
      if connection.Some? && now - lastActivity.value >= profile.reconnectGraceMs * MILLISECOND {
        HandleDisconnect(true);
      }
    }

    method OnTick(env: nat -> P.Reading, timeoutNow: P.Instant)
      requires Valid()
      modifies this, buffer
      ensures Valid() && buffer == old(buffer)
      ensures View() == P.OnTick(old(View()), env, timeoutNow)
    {
      DrainReadyPackets(env);
      CheckTransportTimeout(timeoutNow);
      RefreshSyncBufferMetrics();
    }

    method NextWaitDuration(now: P.Instant, silenceNow: P.Instant) returns (wait: nat)
      requires Valid()
      ensures wait == P.NextWait(View(), now, silenceNow)
    {
      wait := 200 * MILLISECOND;
      if nextDeadline.Some? {
        wait := Min(wait, Max(nextDeadline.value - now, 0));
      }
      if lastActivity.Some? {
        var elapsed := Max(silenceNow - lastActivity.value, 0);
        wait := Min(wait, Max(profile.reconnectGraceMs * MILLISECOND - elapsed, 0));
      }
      wait := Max(wait, 5 * MILLISECOND);
    }

    method Handle(command: P.Command)
      requires Valid()
      modifies this, buffer
      ensures Valid() && (buffer == old(buffer) || fresh(buffer))
      ensures View() == P.Step(old(View()), command)
    {
      match command
      case Connect(inbound, sinkStarts, now) => HandleConnect(inbound, sinkStarts, now);
      case AudioPacket(packet, now) => HandlePacket(packet, now);
      case KeepAlive(now) => lastActivity := Some(now);
      case Disconnect(reconnectSuggested) => HandleDisconnect(reconnectSuggested);
      case TransportError => SetError();
      case SetPlaybackTarget(sinkStarts) => HandlePlaybackTargetChange(sinkStarts);
      case Tick(env, timeoutNow) => OnTick(env, timeoutNow);
    }

    method Shutdown()
      requires Valid()
      modifies this, buffer
      ensures Valid() && buffer == old(buffer)
      ensures View() == P.Shutdown(old(View()))
    {
      var silence := lastActivity;
      TearDown();
      state, lastActivity := P.Idle, silence;
    }
  }

  method HandleAll(worker: ReceiverWorker, commands: seq<P.Command>)
    requires worker.Valid() && worker.View() == P.Run(worker.profile, [])
    modifies worker, worker.buffer
    ensures worker.Valid() && (worker.buffer == old(worker.buffer) || fresh(worker.buffer))
    ensures worker.View() == P.Run(worker.profile, commands)
  {
    for i := 0 to |commands|
      invariant worker.Valid() && (worker.buffer == old(worker.buffer) || fresh(worker.buffer))
      invariant worker.View() == P.Run(worker.profile, commands[..i])
    {
      P.RunOneMore(worker.profile, commands[..i], commands[i]);
      assert commands[..i + 1] == commands[..i] + [commands[i]];
      worker.Handle(commands[i]);
    }
    assert commands[..|commands|] == commands;
  }

  /** The worker loop: commands are handled in order until the channel shuts down. */
  method ReceiverWorkerLoop(preset: Preset, commands: seq<P.Command>) returns (worker: ReceiverWorker)
    ensures fresh(worker) && worker.Valid()
    ensures worker.View() == P.Shutdown(P.Run(ProfileOf(preset), commands))
  {
    worker := new ReceiverWorker(preset);
    HandleAll(worker, commands);
    worker.Shutdown();
  }
}
