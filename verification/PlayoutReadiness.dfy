/**
 * When the receiver is ready to play, said in packets, rates and milliseconds: how much must be queued
 * before the first packet is scheduled, and that nothing is written before so much was queued.
 */
module PlayoutReadiness {
  import opened Numbers
  import opened Arithmetic
  import opened LatencyProfiles
  import opened PacketBuffers
  import opened Playout
  import opened PlayoutInvariants

  // ----- A queue that is ready -----

  /**
   * The preset's target is queued: as many packets as last that long at their announced duration,
   * and as many frames at the stream's rate.
   */
  predicate HoldsTarget(profile: Profile, stream: StreamConfig, packets: seq<BufferedPacket>) {
    && packets != [] && stream.sampleRateHz > 0
    && (PacketNanos(stream) > 0 ==> |packets| * PacketNanos(stream) >= profile.targetBufferMs * MILLISECOND)
    && TotalFrames(packets) * 1_000 >= profile.targetBufferMs * stream.sampleRateHz
  }

  lemma EnoughPackets(count: nat, targetMs: nat, packetNanos: nat)
    requires targetMs > 0
    ensures count >= Max(PacketCountForDuration(targetMs, packetNanos), 1)
            <==> count >= 1 && (packetNanos > 0 ==> count * packetNanos >= targetMs * MILLISECOND)
  {
    if packetNanos > 0 {
      var needed := CeilDiv(targetMs * MILLISECOND, packetNanos);
      CeilDivBounds(targetMs * MILLISECOND, packetNanos);
      if count >= needed {
        MulMonotone(needed, count, packetNanos);
      } else {
        MulMonotone(count, needed - 1, packetNanos);
      }
    }
  }

  lemma EnoughFrames(frames: nat, rate: u32, targetMs: nat)
    requires 0 < targetMs <= 1_000
    ensures FramesToMs(frames, rate) >= targetMs <==> rate > 0 && frames * 1_000 >= targetMs * rate
  {
    if rate > 0 { AtMostMs(frames, rate, targetMs - 1); }
  }

  /** A queue is ready exactly when it holds the target: through ceiling, flooring, rounding and saturation. */
  lemma ReadyExactly(profile: Profile, stream: StreamConfig, packets: seq<BufferedPacket>)
    requires IsPreset(profile)
    ensures BufferReady(EmptyBuffer(profile, stream).(packets := packets)) <==> HoldsTarget(profile, stream, packets)
  {
    EnoughPackets(|packets|, profile.targetBufferMs, PacketNanos(stream));
    EnoughFrames(TotalFrames(packets), stream.sampleRateHz, profile.targetBufferMs);
  }

  /** Three packets of ten milliseconds make the low-latency receiver ready, two do not. */
  lemma ThreePacketsAreReady(packets: seq<BufferedPacket>)
    requires forall p | p in packets :: p.frameCount == 480
    ensures HoldsTarget(ProfileOf(LowLatency), DEFAULT_STREAM, packets) <==> |packets| >= 3
  {
    assert PacketNanos(DEFAULT_STREAM) == 10_000_000;
    TotalFramesUniform(packets, 480);
  }

  // ----- Arming the schedule -----

  /** The connected worker's queue holds the target. */
  predicate IsPrimed(w: Worker) {
    w.connection.Some? && HoldsTarget(w.profile, w.connection.value.stream, w.buffer.packets)
  }

  lemma PrimedExactly(w: Worker)
    requires Structural(w) && w.connection.Some?
    ensures BufferReady(w.buffer) <==> IsPrimed(w)
  {
    ReadyExactly(w.profile, w.connection.value.stream, w.buffer.packets);
  }

  lemma PacketShape(w: Worker, packet: Packet, now: Instant)
    requires Structural(w) && w.connection.Some? && FrameCount(packet, w.connection.value.stream).Some?
    ensures var after, p := HandlePacket(w, packet, now),
                            BufferedPacket(packet, FrameCount(packet, w.connection.value.stream).value);
            && after.connection == w.connection && after.profile == w.profile
            && after.buffer == Enqueued(w.buffer, p)
            && (after.nextDeadline.Some? <==> w.nextDeadline.Some? || BufferReady(after.buffer))
            && (w.nextDeadline.Some? ==> after.nextDeadline == w.nextDeadline)
            && (w.nextDeadline.None? && after.nextDeadline.Some? ==>
                  after.nextDeadline == DeadlineFor(after, after.buffer.packets[0].packet.capturedAtMs))
  {
  }

  /**
   * A packet arms an idle schedule if and only if the queue holds the target with it, and then for
   * the packet in front; an armed schedule it leaves alone.
   */
  lemma {:induction false} ArrivalArmsExactly(profile: Profile, commands: seq<Command>, packet: Packet, now: Instant)
    requires IsPreset(profile) && Run(profile, commands).connection.Some?
    requires FrameCount(packet, Run(profile, commands).connection.value.stream).Some?
    ensures var w, after := Run(profile, commands), Run(profile, commands + [AudioPacket(packet, now)]);
            if w.nextDeadline.Some? then after.nextDeadline == w.nextDeadline
            else if IsPrimed(after) then
              after.nextDeadline == DeadlineFor(after, after.buffer.packets[0].packet.capturedAtMs)
              && after.nextDeadline.Some?
            else after.nextDeadline.None?
  {
    var w := Run(profile, commands);
    Reachable(profile, commands);
    RunOneMore(profile, commands, AudioPacket(packet, now));
    PacketShape(w, packet, now);
    PacketKeeps(w, packet, now);
    PrimedExactly(HandlePacket(w, packet, now));
  }

  lemma PacketRecovers(w: Worker, packet: Packet, now: Instant)
    requires Structural(w) && w.connection.Some? && FrameCount(packet, w.connection.value.stream).Some?
    requires w.sync.state == Recovering
    ensures var after := HandlePacket(w, packet, now);
            after.sync.state == if BufferReady(after.buffer) then Priming else Recovering
  {
  }

  /** A synchroniser that recovers goes on recovering until the target is queued again, and then primes. */
  lemma {:induction false} RecoveryEndsExactly(profile: Profile, commands: seq<Command>, packet: Packet, now: Instant)
    requires IsPreset(profile) && Run(profile, commands).connection.Some?
    requires Run(profile, commands).sync.state == Recovering
    requires FrameCount(packet, Run(profile, commands).connection.value.stream).Some?
    ensures var after := Run(profile, commands + [AudioPacket(packet, now)]);
            after.sync.state == if IsPrimed(after) then Priming else Recovering
  {
    var w := Run(profile, commands);
    Reachable(profile, commands);
    RunOneMore(profile, commands, AudioPacket(packet, now));
    PacketRecovers(w, packet, now);
    PacketShape(w, packet, now);
    PacketKeeps(w, packet, now);
    PrimedExactly(HandlePacket(w, packet, now));
  }

  lemma {:induction false} UnprimedWaits(w: Worker, env: nat -> Reading)
    requires Structural(w) && w.nextDeadline.None? && !IsPrimed(w)
    ensures Drain(w, env).history == w.history && Drain(w, env).buffer == w.buffer
  {
    if w.connection.Some? { PrimedExactly(w); }
  }

  // ----- Priming over runs -----

  /**
   * At a moment of the run the queue held the target, and up to the given position of the observer's
   * record the timeline was not reset since.
   */
  ghost predicate PrimedBefore(profile: Profile, commands: seq<Command>, marks: seq<Mark>, at: nat)
    requires at <= |marks|
  {
    exists k | 0 <= k <= |commands| :: PrimedAt(profile, commands[..k], marks, at)
  }

  ghost predicate PrimedAt(profile: Profile, moment: seq<Command>, marks: seq<Mark>, at: nat)
    requires at <= |marks|
  {
    var w := Run(profile, moment);
    && IsPrimed(w) && w.history.marks <= marks && |w.history.marks| <= at
    && forall j | |w.history.marks| <= j < at :: marks[j] != Reset
  }

  /** The record grew, and up to the given position the timeline was not reset meanwhile. */
  ghost predicate NoResetUntil(marks: seq<Mark>, longer: seq<Mark>, at: nat) {
    && marks <= longer && |marks| <= at <= |longer|
    && forall j | |marks| <= j < at :: longer[j] != Reset
  }

  /** What a step may add to the record: after a reset nothing is written and nothing is armed. */
  ghost predicate ResetsDisarm(marks: seq<Mark>, w: Worker) {
    var longer := w.history.marks;
    && marks <= longer
    && (forall n | |marks| <= n < |longer| && longer[n].Wrote? :: NoResetUntil(marks, longer, n))
    && (w.nextDeadline.Some? ==> NoResetUntil(marks, longer, |longer|))
  }

  lemma TurnDisarms(w: Worker, reading: Reading)
    ensures match DrainTurn(w, reading)
            case Continue(next) => NoResetUntil(w.history.marks, next.history.marks, |next.history.marks|)
            case Stop(final) => ResetsDisarm(w.history.marks, final)
  {
  }

  lemma {:induction false} DrainLoopDisarms(w: Worker, env: nat -> Reading, turn: nat)
    ensures ResetsDisarm(w.history.marks, DrainLoop(w, env, turn))
    decreases |w.buffer.packets|
  {
    TurnDisarms(w, env(turn));
    match DrainTurn(w, env(turn))
    case Stop(_) =>
    case Continue(next) =>
      DrainLoopDisarms(next, env, turn + 1);
      DisarmsAfter(w.history.marks, next.history.marks, DrainLoop(next, env, turn + 1));
  }

  lemma {:induction false} DisarmsAfter(marks: seq<Mark>, more: seq<Mark>, w: Worker)
    requires NoResetUntil(marks, more, |more|) && ResetsDisarm(more, w)
    ensures ResetsDisarm(marks, w)
  {
    var longer := w.history.marks;
    forall n | |marks| <= n < |longer| && longer[n].Wrote? ensures NoResetUntil(marks, longer, n) {
      forall j | |marks| <= j < n ensures longer[j] != Reset {
        if j < |more| { assert longer[j] == more[j]; }
      }
    }
    if w.nextDeadline.Some? {
      forall j | |marks| <= j < |longer| ensures longer[j] != Reset {
        if j < |more| { assert longer[j] == more[j]; }
      }
    }
  }

  lemma DrainDisarms(w: Worker, env: nat -> Reading)
    ensures ResetsDisarm(w.history.marks, Drain(w, env))
  {
    DrainLoopDisarms(w, env, 0);
    var marked := Marked(w, Ready(w.buffer));
    DrainLoopDisarms(marked, env, 0);
    DisarmsAfter(w.history.marks, marked.history.marks, DrainLoop(marked, env, 0));
  }

  lemma TimeoutDisarms(w: Worker, now: Instant)
    ensures var after := RefreshMetrics(CheckTimeout(w, now));
            && (after.nextDeadline.Some? ==> after.history.marks == w.history.marks && w.nextDeadline.Some?)
            && (after.history.marks == w.history.marks || after.history.marks == w.history.marks + [Reset])
  {
  }

  lemma {:induction false} DisarmedStays(marks: seq<Mark>, w: Worker, after: Worker)
    requires ResetsDisarm(marks, w)
    requires after.nextDeadline.Some? ==> after.history.marks == w.history.marks && w.nextDeadline.Some?
    requires after.history.marks == w.history.marks || after.history.marks == w.history.marks + [Reset]
    ensures ResetsDisarm(marks, after)
  {
    var longer := after.history.marks;
    forall n | |marks| <= n < |longer| && longer[n].Wrote? ensures NoResetUntil(marks, longer, n) {
      assert NoResetUntil(marks, w.history.marks, n);
    }
  }

  lemma TickDisarms(w: Worker, env: nat -> Reading, timeoutNow: Instant)
    ensures ResetsDisarm(w.history.marks, OnTick(w, env, timeoutNow))
  {
    DrainDisarms(w, env);
    TimeoutDisarms(Drain(w, env), timeoutNow);
    DisarmedStays(w.history.marks, Drain(w, env), OnTick(w, env, timeoutNow));
  }

  /** Without the target queued and with nothing armed, a step writes nothing. */
  ghost predicate WritesNothing(marks: seq<Mark>, w: Worker) {
    marks <= w.history.marks && forall n | |marks| <= n < |w.history.marks| :: !w.history.marks[n].Wrote?
  }

  lemma UnprimedTick(w: Worker, env: nat -> Reading, timeoutNow: Instant)
    requires Structural(w) && w.nextDeadline.None? && !IsPrimed(w)
    ensures WritesNothing(w.history.marks, OnTick(w, env, timeoutNow))
    ensures OnTick(w, env, timeoutNow).nextDeadline.None?
  {
    if w.connection.Some? { PrimedExactly(w); }
    UnprimedWaits(w, env);
    TimeoutDisarms(Drain(w, env), timeoutNow);
  }

  lemma PacketDisarms(w: Worker, packet: Packet, now: Instant)
    requires w.buffer.maxPackets > 0
    ensures var after := HandlePacket(w, packet, now);
            ResetsDisarm(w.history.marks, after) && WritesNothing(w.history.marks, after)
  {
  }

  lemma PacketArms(w: Worker, packet: Packet, now: Instant)
    requires Inv(w) && w.nextDeadline.None? && HandlePacket(w, packet, now).nextDeadline.Some?
    ensures IsPrimed(HandlePacket(w, packet, now))
  {
    PacketShape(w, packet, now);
    PacketKeeps(w, packet, now);
    PrimedExactly(HandlePacket(w, packet, now));
  }

  lemma OtherStepDisarms(w: Worker, command: Command)
    requires w.buffer.maxPackets > 0 && !command.Tick? && !command.AudioPacket?
    ensures ResetsDisarm(w.history.marks, Step(w, command)) && WritesNothing(w.history.marks, Step(w, command))
    ensures Step(w, command).nextDeadline.Some? ==> w.nextDeadline.Some?
  {
  }

  /** A step writes only if the schedule was armed or the target queued, and arms only with the target queued. */
  lemma StepDisarms(w: Worker, command: Command)
    requires Inv(w)
    ensures ResetsDisarm(w.history.marks, Step(w, command))
    ensures w.nextDeadline.Some? || IsPrimed(w) || WritesNothing(w.history.marks, Step(w, command))
    ensures Step(w, command).nextDeadline.Some? ==> w.nextDeadline.Some? || IsPrimed(w) || IsPrimed(Step(w, command))
  {
    match command
    case Tick(env, timeoutNow) =>
      TickDisarms(w, env, timeoutNow);
      if w.nextDeadline.None? && !IsPrimed(w) { UnprimedTick(w, env, timeoutNow); }
    case AudioPacket(packet, now) =>
      PacketDisarms(w, packet, now);
      if w.nextDeadline.None? && HandlePacket(w, packet, now).nextDeadline.Some? { PacketArms(w, packet, now); }
    case _ => OtherStepDisarms(w, command);
  }

  /** Every write so far came after such a moment, and so does an armed schedule. */
  ghost predicate WritesFollowMoments(profile: Profile, commands: seq<Command>) {
    var w := Run(profile, commands);
    && (forall n | 0 <= n < |w.history.marks| && w.history.marks[n].Wrote? ::
          PrimedBefore(profile, commands, w.history.marks, n))
    && (w.nextDeadline.Some? ==> PrimedBefore(profile, commands, w.history.marks, |w.history.marks|))
  }

  lemma {:induction false} LaterMoment(
      profile: Profile, commands: seq<Command>, last: Command, marks: seq<Mark>, longer: seq<Mark>, at: nat)
    requires PrimedBefore(profile, commands, marks, |marks|) && NoResetUntil(marks, longer, at)
    ensures PrimedBefore(profile, commands + [last], longer, at)
  {
    var k :| 0 <= k <= |commands| && PrimedAt(profile, commands[..k], marks, |marks|);
    var start := |Run(profile, commands[..k]).history.marks|;
    forall j | start <= j < at ensures longer[j] != Reset {
      if j < |marks| { assert longer[j] == marks[j]; }
    }
    assert (commands + [last])[..k] == commands[..k];
    assert PrimedAt(profile, (commands + [last])[..k], longer, at);
  }

  lemma {:induction false} SameMoment(
      profile: Profile, commands: seq<Command>, last: Command, marks: seq<Mark>, longer: seq<Mark>, at: nat)
    requires at <= |marks| && marks <= longer && PrimedBefore(profile, commands, marks, at)
    ensures PrimedBefore(profile, commands + [last], longer, at)
  {
    var k :| 0 <= k <= |commands| && PrimedAt(profile, commands[..k], marks, at);
    assert (commands + [last])[..k] == commands[..k];
    assert PrimedAt(profile, (commands + [last])[..k], longer, at);
  }

  /** The moment is now, just before the last command. */
  lemma {:induction false} ThisMoment(
      profile: Profile, commands: seq<Command>, last: Command, longer: seq<Mark>, at: nat)
    requires IsPrimed(Run(profile, commands)) && NoResetUntil(Run(profile, commands).history.marks, longer, at)
    ensures PrimedBefore(profile, commands + [last], longer, at)
  {
    assert (commands + [last])[..|commands|] == commands;
    assert PrimedAt(profile, (commands + [last])[..|commands|], longer, at);
  }

  lemma {:induction false} MomentFor(
      profile: Profile, commands: seq<Command>, last: Command, longer: seq<Mark>, at: nat)
    requires WritesFollowMoments(profile, commands)
    requires Run(profile, commands).nextDeadline.Some? || IsPrimed(Run(profile, commands))
    requires NoResetUntil(Run(profile, commands).history.marks, longer, at)
    ensures PrimedBefore(profile, commands + [last], longer, at)
  {
    if IsPrimed(Run(profile, commands)) {
      ThisMoment(profile, commands, last, longer, at);
    } else {
      LaterMoment(profile, commands, last, Run(profile, commands).history.marks, longer, at);
    }
  }

  /** What a step writes and arms, told from the two states. */
  ghost predicate MayFollow(w: Worker, w': Worker) {
    && ResetsDisarm(w.history.marks, w')
    && (w.nextDeadline.Some? || IsPrimed(w) || WritesNothing(w.history.marks, w'))
    && (w'.nextDeadline.Some? ==> w.nextDeadline.Some? || IsPrimed(w) || IsPrimed(w'))
  }

  lemma {:induction false} OneMoreFollows(profile: Profile, commands: seq<Command>, last: Command)
    requires IsPreset(profile)
    ensures MayFollow(Run(profile, commands), Run(profile, commands + [last]))
  {
    Reachable(profile, commands);
    RunOneMore(profile, commands, last);
    StepDisarms(Run(profile, commands), last);
  }

  lemma {:induction false} WritesStillFollow(profile: Profile, commands: seq<Command>, last: Command, n: nat)
    requires WritesFollowMoments(profile, commands)
    requires MayFollow(Run(profile, commands), Run(profile, commands + [last]))
    requires var marks' := Run(profile, commands + [last]).history.marks; n < |marks'| && marks'[n].Wrote?
    ensures PrimedBefore(profile, commands + [last], Run(profile, commands + [last]).history.marks, n)
  {
    var marks, marks' := Run(profile, commands).history.marks, Run(profile, commands + [last]).history.marks;
    if n < |marks| {
      SameMoment(profile, commands, last, marks, marks', n);
    } else {
      MomentFor(profile, commands, last, marks', n);
    }
  }

  lemma {:induction false} ArmedStillFollows(profile: Profile, commands: seq<Command>, last: Command)
    requires WritesFollowMoments(profile, commands)
    requires MayFollow(Run(profile, commands), Run(profile, commands + [last]))
    requires Run(profile, commands + [last]).nextDeadline.Some?
    ensures var marks' := Run(profile, commands + [last]).history.marks;
            PrimedBefore(profile, commands + [last], marks', |marks'|)
  {
    var w, marks' := Run(profile, commands), Run(profile, commands + [last]).history.marks;
    if w.nextDeadline.Some? || IsPrimed(w) {
      MomentFor(profile, commands, last, marks', |marks'|);
    } else {
      assert (commands + [last])[..|commands + [last]|] == commands + [last];
      assert PrimedAt(profile, (commands + [last])[..|commands + [last]|], marks', |marks'|);
    }
  }

  lemma {:induction false} OneMoreCommand(profile: Profile, commands: seq<Command>, last: Command)
    requires IsPreset(profile) && WritesFollowMoments(profile, commands)
    ensures WritesFollowMoments(profile, commands + [last])
  {
    var w' := Run(profile, commands + [last]);
    OneMoreFollows(profile, commands, last);
    forall n | 0 <= n < |w'.history.marks| && w'.history.marks[n].Wrote?
      ensures PrimedBefore(profile, commands + [last], w'.history.marks, n)
    {
      WritesStillFollow(profile, commands, last, n);
    }
    if w'.nextDeadline.Some? { ArmedStillFollows(profile, commands, last); }
  }

  /**
   * Nothing is played before the target is queued: for every write to the sink there was a moment
   * since the last reset of the timeline at which the queue held the preset's target, in packets
   * and in milliseconds.
   */
  lemma {:induction false} WritesFollowTarget(profile: Profile, commands: seq<Command>)
    requires IsPreset(profile)
    ensures WritesFollowMoments(profile, commands)
    decreases |commands|
  {
    if commands == [] {
      NothingFollows(profile);
    } else {
      var earlier, last := commands[..|commands| - 1], commands[|commands| - 1];
      WritesFollowTarget(profile, earlier);
      OneMoreCommand(profile, earlier, last);
      assert commands == earlier + [last];
    }
  }

  lemma NothingFollows(profile: Profile)
    ensures WritesFollowMoments(profile, [])
  {
  }
}
