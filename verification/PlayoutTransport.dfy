/**
 * When a receiver session begins, how long it lasts and what ends it: a sink that refuses, a sender
 * that falls silent, or what the sender says. All of it is told from the commands and the log.
 */
module PlayoutTransport {
  import opened Options
  import opened LatencyProfiles
  import opened Playout
  import opened PlayoutInvariants
  import opened PlayoutSchedule
  import G = PlayoutGuarantees

  /** How long the sender may be silent: three quarters of a second, or one and a half, or two and a half. */
  function GracePeriod(preset: Preset): nat {
    match preset
    case LowLatency => 750 * MILLISECOND
    case Balanced => 1_500 * MILLISECOND
    case Stable => 2_500 * MILLISECOND
  }

  /** When the sender gave its last sign of life. */
  function LastHeard(commands: seq<Command>): Option<Instant> {
    if commands == [] then None
    else
      match commands[|commands| - 1]
      case Connect(_, _, now) => Some(now)
      case AudioPacket(_, now) => Some(now)
      case KeepAlive(now) => Some(now)
      case _ => LastHeard(commands[..|commands| - 1])
  }

  /** While it handled the command, the sink refused a packet. */
  ghost predicate SinkRefused(before: Worker, after: Worker) {
    exists i :: |before.history.session.removed| <= i < |after.history.session.removed|
                && after.history.session.removed[i].fate.Unwritten?
  }

  /** The sender has not been heard for the grace period. */
  predicate IsSilent(w: Worker, now: Instant) {
    w.lastActivity.Some? && w.lastActivity.value + w.profile.reconnectGraceMs * MILLISECOND <= now
  }

  // ----- A tick -----

  /** The session goes on with its sink, and nobody has asked to connect again. */
  predicate GoesOn(before: Worker, after: Worker) {
    && after.connection == before.connection && after.connection.Some? && after.sinkOpen
    && after.lastActivity == before.lastActivity && after.profile == before.profile
    && after.metrics.reconnectAttempts == before.metrics.reconnectAttempts
  }

  /** No session, no sink, nothing queued, and nobody to wait for. */
  predicate IsOver(w: Worker) {
    w.connection.None? && !w.sinkOpen && w.buffer.packets == [] && w.lastActivity.None?
  }

  ghost predicate EndedByError(before: Worker, after: Worker) {
    && IsOver(after) && after.state == Error
    && after.metrics.reconnectAttempts == before.metrics.reconnectAttempts
  }

  lemma TurnEndsExactly(w: Worker, reading: Reading)
    requires w.connection.Some? && w.sinkOpen
    ensures match DrainTurn(w, reading)
            case Continue(next) =>
              && GoesOn(w, next)
              && |next.history.session.removed| == |w.history.session.removed| + 1
              && next.history.session.removed[..|w.history.session.removed|] == w.history.session.removed
              && !next.history.session.removed[|w.history.session.removed|].fate.Unwritten?
            case Stop(final) =>
              && w.history.session.removed <= final.history.session.removed
              && (if SinkRefused(w, final) then EndedByError(w, final) else GoesOn(w, final))
  {
    if DrainTurn(w, reading).Stop? && DrainTurn(w, reading).final.connection.None? {
      assert DrainTurn(w, reading).final.history.session.removed[|w.history.session.removed|].fate.Unwritten?;
    }
  }

  lemma {:induction false} RefusedLater(before: Worker, next: Worker, after: Worker)
    requires |next.history.session.removed| == |before.history.session.removed| + 1
    requires next.history.session.removed <= after.history.session.removed
    requires !next.history.session.removed[|before.history.session.removed|].fate.Unwritten?
    ensures SinkRefused(before, after) <==> SinkRefused(next, after)
  {
  }

  /** Draining ends the session if and only if the sink refuses a packet. */
  lemma {:induction false} DrainLoopEndsExactly(w: Worker, env: nat -> Reading, turn: nat)
    requires w.connection.Some? && w.sinkOpen
    ensures var final := DrainLoop(w, env, turn);
            && w.history.session.removed <= final.history.session.removed
            && (if SinkRefused(w, final) then EndedByError(w, final) else GoesOn(w, final))
    decreases |w.buffer.packets|
  {
    TurnEndsExactly(w, env(turn));
    match DrainTurn(w, env(turn))
    case Stop(_) =>
    case Continue(next) =>
      DrainLoopEndsExactly(next, env, turn + 1);
      RefusedLater(w, next, DrainLoop(next, env, turn + 1));
  }

  lemma DrainEndsExactly(w: Worker, env: nat -> Reading)
    requires w.connection.Some? && w.sinkOpen
    ensures var final := Drain(w, env);
            && w.history.session.removed <= final.history.session.removed
            && (if SinkRefused(w, final) then EndedByError(w, final) else GoesOn(w, final))
  {
    DrainLoopEndsExactly(w, env, 0);
    var marked := Marked(w, Ready(w.buffer));
    DrainLoopEndsExactly(marked, env, 0);
    assert SinkRefused(marked, DrainLoop(marked, env, 0)) <==> SinkRefused(w, DrainLoop(marked, env, 0));
  }

  /** Given up: the sink is closed, the queue thrown away, and the attempt to reconnect is counted. */
  predicate GivenUp(before: Worker, after: Worker) {
    && IsOver(after) && after.state == Listening
    && after.metrics.reconnectAttempts == before.metrics.reconnectAttempts + 1
  }

  lemma DisconnectGivesUp(w: Worker)
    ensures GivenUp(w, HandleDisconnect(w, true))
    ensures !SinkRefused(w, HandleDisconnect(w, true))
  {
  }

  lemma {:induction false} RefusedBefore(w: Worker, drained: Worker, after: Worker)
    requires drained.history.session.removed <= after.history.session.removed
    requires |w.history.session.removed| <= |drained.history.session.removed|
    requires !SinkRefused(drained, after)
    ensures SinkRefused(w, after) <==> SinkRefused(w, drained)
  {
  }

  lemma TimeoutExactly(w: Worker, now: Instant)
    requires w.connection.Some? && w.sinkOpen
    ensures var after := RefreshMetrics(CheckTimeout(w, now));
            && w.history.session.removed <= after.history.session.removed && !SinkRefused(w, after)
            && (if IsSilent(w, now) then GivenUp(w, after) else GoesOn(w, after))
  {
    DisconnectGivesUp(w);
  }

  lemma NothingLeftToTimeOut(w: Worker, now: Instant)
    requires IsOver(w)
    ensures var after := RefreshMetrics(CheckTimeout(w, now));
            && after.history == w.history && IsOver(after) && after.state == w.state && after.metrics == w.metrics
  {
  }

  /**
   * A tick ends a session if and only if the sink refuses a packet, which is an error, or else the
   * sender has been silent for the grace period, and then the service listens again. Otherwise the
   * session goes on.
   */
  lemma TickEndsExactly(w: Worker, env: nat -> Reading, timeoutNow: Instant)
    requires w.connection.Some? && w.sinkOpen
    ensures var after := OnTick(w, env, timeoutNow);
            if SinkRefused(w, after) then EndedByError(w, after)
            else if IsSilent(w, timeoutNow) then GivenUp(w, after)
            else GoesOn(w, after)
  {
    var drained := Drain(w, env);
    DrainEndsExactly(w, env);
    if SinkRefused(w, drained) {
      NothingLeftToTimeOut(drained, timeoutNow);
    } else {
      TimeoutExactly(drained, timeoutNow);
      RefusedBefore(w, drained, OnTick(w, env, timeoutNow));
    }
  }

  // ----- Every command -----

  /** Whole frames of the stream: two or four bytes for each of its channels, of which there is one at least. */
  predicate IsWellFormed(packet: Packet, stream: StreamConfig) {
    && stream.channels > 0
    && |packet.payload| % (stream.channels * (if stream.sampleFormat == S16Le then 2 else 4)) == 0
  }

  /** What ends a session, apart from a tick. */
  predicate EndsIt(connection: Connection, command: Command)
    requires !command.Tick?
  {
    match command
    case Connect(_, sinkStarts, _) => !sinkStarts
    case AudioPacket(packet, _) => !IsWellFormed(packet, connection.stream)
    case Disconnect(_) => true
    case TransportError => true
    case _ => false
  }

  /** What a session's end leaves. */
  predicate Ended(before: Worker, command: Command, after: Worker) {
    && IsOver(after)
    && after.state == (if command.Disconnect? then Listening else Error)
    && after.metrics.reconnectAttempts
       == before.metrics.reconnectAttempts + if command == Disconnect(true) then 1 else 0
  }

  lemma StepEndsExactly(w: Worker, command: Command)
    requires w.buffer.maxPackets > 0 && w.connection.Some? && w.sinkOpen && !command.Tick?
    ensures var after := Step(w, command);
            if EndsIt(w.connection.value, command) then Ended(w, command, after)
            else
              && after.connection == (if command.Connect? then Some(command.connection) else w.connection)
              && after.sinkOpen && after.metrics.reconnectAttempts == w.metrics.reconnectAttempts
  {
  }

  /** Without a session only a connection whose sink starts begins one. */
  lemma StepBeginsExactly(w: Worker, command: Command)
    requires w.buffer.maxPackets > 0 && w.connection.None?
    ensures var after := Step(w, command);
            if command.Connect? && command.sinkStarts then
              && after.connection == Some(command.connection) && after.sinkOpen && after.state == Connected
              && after.metrics == w.metrics
            else
              && after.connection.None?
              && after.state == (if command.Connect? || command.TransportError? then Error
                                 else if command.Disconnect? then Listening
                                 else if command.SetPlaybackTarget? && w.state == Error then Listening
                                 else w.state)
              && after.metrics == w.metrics.(
                   reconnectAttempts := w.metrics.reconnectAttempts + if command == Disconnect(true) then 1 else 0)
  {
  }

  // ----- Whole runs -----

  ghost predicate HeardAt(w: Worker, heard: Option<Instant>) {
    w.connection.Some? ==> heard.Some? && w.lastActivity == heard
  }

  lemma StepHears(w: Worker, command: Command, heard: Option<Instant>)
    requires w.buffer.maxPackets > 0 && (w.connection.Some? ==> w.sinkOpen) && HeardAt(w, heard)
    ensures HeardAt(Step(w, command),
                    match command
                    case Connect(_, _, now) => Some(now)
                    case AudioPacket(_, now) => Some(now)
                    case KeepAlive(now) => Some(now)
                    case _ => heard)
  {
    match command
    case Tick(env, timeoutNow) =>
      if w.connection.Some? { TickEndsExactly(w, env, timeoutNow); } else { StepBeginsExactly(w, command); }
    case _ =>
  }

  lemma {:induction false} ConnectedIsHeard(profile: Profile, commands: seq<Command>)
    requires IsPreset(profile)
    ensures HeardAt(Run(profile, commands), LastHeard(commands))
    decreases |commands|
  {
    if commands != [] {
      var earlier := commands[..|commands| - 1];
      ConnectedIsHeard(profile, earlier);
      Reachable(profile, earlier);
      StepHears(Run(profile, earlier), commands[|commands| - 1], LastHeard(earlier));
    }
  }

  /** How a tick leaves a session, if the sender has been silent for too long or not. */
  ghost predicate TickOutcome(before: Worker, after: Worker, silent: bool) {
    if SinkRefused(before, after) then EndedByError(before, after)
    else if silent then GivenUp(before, after)
    else GoesOn(before, after)
  }

  lemma TickOfHeard(preset: Preset, w: Worker, heard: Option<Instant>, env: nat -> Reading, timeoutNow: Instant)
    requires Structural(w) && w.profile == ProfileOf(preset) && w.connection.Some? && HeardAt(w, heard)
    ensures TickOutcome(w, OnTick(w, env, timeoutNow), heard.value + GracePeriod(preset) <= timeoutNow)
  {
    TickEndsExactly(w, env, timeoutNow);
  }

  lemma StructuralInRun(profile: Profile, commands: seq<Command>)
    requires IsPreset(profile)
    ensures Structural(Run(profile, commands))
  {
    Reachable(profile, commands);
  }

  /**
   * A sender that falls silent is given up at the first tick after its grace period, and never
   * before: in every run, a tick leaves the session open if and only if the sink took what it was
   * given and the last sign of life is less than the grace period ago.
   */
  lemma {:induction false} GivenUpExactly(
      preset: Preset, commands: seq<Command>, env: nat -> Reading, timeoutNow: Instant)
    requires Run(ProfileOf(preset), commands).connection.Some?
    ensures LastHeard(commands).Some?
    ensures var w := Run(ProfileOf(preset), commands);
            var after := Run(ProfileOf(preset), commands + [Tick(env, timeoutNow)]);
            TickOutcome(w, after, LastHeard(commands).value + GracePeriod(preset) <= timeoutNow)
  {
    ConnectedIsHeard(ProfileOf(preset), commands);
    StructuralInRun(ProfileOf(preset), commands);
    RunOneMore(ProfileOf(preset), commands, Tick(env, timeoutNow));
    TickOfHeard(preset, Run(ProfileOf(preset), commands), LastHeard(commands), env, timeoutNow);
  }

  /** A session that is given up: low latency, a connection at 0, nothing more, and a tick at 750 milliseconds. */
  lemma SilentSenderIsGivenUp(connection: Connection, env: nat -> Reading)
    ensures var connected := [Connect(connection, true, 0)];
            && Run(ProfileOf(LowLatency), connected + [Tick(env, 750 * MILLISECOND - 1)]).connection == Some(connection)
            && Run(ProfileOf(LowLatency), connected + [Tick(env, 750 * MILLISECOND)]).state == Listening
  {
    var profile, connected := ProfileOf(LowLatency), [Connect(connection, true, 0)];
    RunOneMore(profile, [], Connect(connection, true, 0));
    assert [] + connected == connected;
    StepBeginsExactly(Run(profile, []), Connect(connection, true, 0));
    NoPacketsNoRefusal(Run(profile, []), connection, env);
    GivenUpExactly(LowLatency, connected, env, 750 * MILLISECOND - 1);
    GivenUpExactly(LowLatency, connected, env, 750 * MILLISECOND);
    RunOneMore(profile, connected, Tick(env, 750 * MILLISECOND - 1));
    RunOneMore(profile, connected, Tick(env, 750 * MILLISECOND));
  }

  lemma NoPacketsNoRefusal(w: Worker, connection: Connection, env: nat -> Reading)
    ensures var connected := HandleConnect(w, connection, true, 0);
            forall now :: !SinkRefused(connected, OnTick(connected, env, now))
  {
  }

  // ----- How long the worker waits -----

  /**
   * The worker sleeps at least five and at most two hundred milliseconds, and in between until exactly
   * the first thing to do: the packet in front is due, or the sender has been silent for too long.
   */
  lemma WakesForFirstReason(w: Worker, now: Instant)
    requires IsPreset(w.profile)
    ensures var t, silence := WakeTime(w, now), w.profile.reconnectGraceMs * MILLISECOND;
            var armed, heard := w.nextDeadline.Some?, w.lastActivity.Some? && w.lastActivity.value <= now;
            && now + 5 * MILLISECOND <= t <= now + 200 * MILLISECOND
            && (t > now + 5 * MILLISECOND ==>
                  && (armed ==> t <= w.nextDeadline.value)
                  && (heard ==> t <= w.lastActivity.value + silence))
            && (t < now + 200 * MILLISECOND ==>
                  || (armed && w.nextDeadline.value <= t)
                  || (heard && w.lastActivity.value + silence <= t))
  {
  }

  lemma WillingSink(w: Worker, now: Instant)
    requires Structural(w) && w.connection.Some?
    ensures !SinkRefused(w, WokenUp(w, now))
  {
    var env := StandingClock(WakeTime(w, now));
    DrainEndsExactly(w, env);
    TickEndsExactly(w, env, WakeTime(w, now));
    G.DrainLoopKeepsConnection(w, env, 0);
    G.DrainLoopKeepsConnection(Marked(w, Ready(w.buffer)), env, 0);
    if !SinkRefused(w, Drain(w, env)) {
      TimeoutExactly(Drain(w, env), WakeTime(w, now));
      RefusedBefore(w, Drain(w, env), WokenUp(w, now));
    }
  }

  lemma WokenState(preset: Preset, w: Worker, heard: Instant, now: Instant)
    requires Structural(w) && w.profile == ProfileOf(preset) && w.connection.Some? && w.lastActivity == Some(heard)
    requires heard <= now < heard + GracePeriod(preset)
    ensures var t := WakeTime(w, now);
            && now + PUNCTUAL <= t < heard + GracePeriod(preset) + PUNCTUAL
            && (if t < heard + GracePeriod(preset) then GoesOn(w, WokenUp(w, now)) else GivenUp(w, WokenUp(w, now)))
  {
    WakesForFirstReason(w, now);
    WillingSink(w, now);
    TickEndsExactly(w, StandingClock(WakeTime(w, now)), WakeTime(w, now));
  }

  /**
   * Left alone in silence, with a sink that takes what is due, the worker wakes five milliseconds later
   * or more, and less than five milliseconds after the grace period: with its session if it wakes
   * before the end of the grace period, and then just as silent; else it gives the sender up.
   */
  lemma {:induction false} SilenceEndsInTime(preset: Preset, commands: seq<Command>, now: Instant)
    requires Run(ProfileOf(preset), commands).connection.Some? && LastHeard(commands).Some?
    requires LastHeard(commands).value <= now < LastHeard(commands).value + GracePeriod(preset)
    ensures var w, until := Run(ProfileOf(preset), commands), LastHeard(commands).value + GracePeriod(preset);
            var t := WakeTime(w, now);
            var later := commands + [Tick(StandingClock(t), t)];
            && now + PUNCTUAL <= t < until + PUNCTUAL && LastHeard(later) == LastHeard(commands)
            && (if t < until then GoesOn(w, Run(ProfileOf(preset), later))
                else GivenUp(w, Run(ProfileOf(preset), later)))
  {
    var w := Run(ProfileOf(preset), commands);
    var t := WakeTime(w, now);
    StructuralInRun(ProfileOf(preset), commands);
    ConnectedIsHeard(ProfileOf(preset), commands);
    WokenState(preset, w, LastHeard(commands).value, now);
    RunOneMore(ProfileOf(preset), commands, Tick(StandingClock(t), t));
    assert (commands + [Tick(StandingClock(t), t)])[..|commands|] == commands;
  }

  // ----- The end of the worker -----

  /** Shut down, the service is idle, without sink or session, and every packet it ever accepted has its fate. */
  lemma {:induction false} ShutdownLeavesNothing(profile: Profile, commands: seq<Command>)
    requires IsPreset(profile)
    ensures var w := Shutdown(Run(profile, commands));
            && w.connection.None? && !w.sinkOpen && w.buffer.packets == [] && w.state == Idle
            && Packets(w.history.session.removed) == w.history.session.accepted
            && forall log | log in w.history.past :: Packets(log.removed) == log.accepted
  {
    Reachable(profile, commands);
    TearDownKeeps(Run(profile, commands));
    ShutdownSettles(Run(profile, commands));
  }

  lemma ShutdownSettles(w: Worker)
    requires Ledger(TearDown(w))
    ensures var final := Shutdown(w);
            && final.connection.None? && !final.sinkOpen && final.buffer.packets == [] && final.state == Idle
            && Packets(final.history.session.removed) == final.history.session.accepted
            && forall log | log in final.history.past :: Packets(log.removed) == log.accepted
  {
    var log := TearDown(w).history.session;
    assert log.accepted == Packets(log.removed) + [];
  }
}
