/**
 * The receiver while nothing new arrives, woken at whatever times: keep-alives cut its waits short,
 * and a tick comes when it comes. The first tick at or after a packet's deadline decides its fate.
 */
module PlayoutTicks {
  import opened Options
  import opened Subsequences
  import opened LatencyProfiles
  import opened PacketBuffers
  import opened Playout
  import opened PlayoutInvariants
  import opened PlayoutSchedule

  /** A tick whose drain reads the clock at one instant, or a sign of life from the sender. */
  datatype Wake = Ticked(at: Instant) | Heard(at: Instant)

  function AfterWake(w: Worker, wake: Wake): Worker {
    match wake
    case Ticked(at) => OnTick(w, StandingClock(at), at)
    case Heard(at) => w.(lastActivity := Some(at))
  }

  function AfterWakes(w: Worker, wakes: seq<Wake>): Worker
    decreases |wakes|
  {
    if wakes == [] then w else AfterWakes(AfterWake(w, wakes[0]), wakes[1..])
  }

  /** These are steps of the worker loop. */
  function CommandFor(wake: Wake): Command {
    match wake
    case Ticked(at) => Tick(StandingClock(at), at)
    case Heard(at) => KeepAlive(at)
  }

  lemma {:induction false} OneMoreWake(profile: Profile, commands: seq<Command>, wake: Wake)
    ensures Run(profile, commands + [CommandFor(wake)]) == AfterWake(Run(profile, commands), wake)
  {
    RunOneMore(profile, commands, CommandFor(wake));
  }

  lemma {:induction false} CommandsConcat(commands: seq<Command>, wakes: seq<Wake>)
    requires wakes != []
    ensures commands + [CommandFor(wakes[0])] + MapSeq(CommandFor, wakes[1..]) == commands + MapSeq(CommandFor, wakes)
  {
  }

  /** Being woken up so is part of a run. */
  lemma {:induction false} WakesContinueRun(profile: Profile, commands: seq<Command>, wakes: seq<Wake>)
    ensures AfterWakes(Run(profile, commands), wakes) == Run(profile, commands + MapSeq(CommandFor, wakes))
    decreases |wakes|
  {
    if wakes == [] {
      assert commands + MapSeq(CommandFor, wakes) == commands;
    } else {
      OneMoreWake(profile, commands, wakes[0]);
      WakesContinueRun(profile, commands + [CommandFor(wakes[0])], wakes[1..]);
      CommandsConcat(commands, wakes);
    }
  }

  /** Ticks do not go back in time, and the sender is heard often enough not to be given up. */
  ghost predicate KeptAlive(w: Worker, now: Instant, wakes: seq<Wake>)
    decreases |wakes|
  {
    wakes != [] ==>
      match wakes[0]
      case Ticked(at) =>
        && now <= at
        && (w.lastActivity.Some? ==> at - w.lastActivity.value < w.profile.reconnectGraceMs * MILLISECOND)
        && KeptAlive(AfterWake(w, wakes[0]), at, wakes[1..])
      case Heard(_) => KeptAlive(AfterWake(w, wakes[0]), now, wakes[1..])
  }

  /** The first tick at or after the given instant. */
  function FirstTick(wakes: seq<Wake>, from: Instant): (tick: Option<Instant>)
    ensures tick.Some? ==> from <= tick.value
  {
    if wakes == [] then None
    else if wakes[0].Ticked? && from <= wakes[0].at then Some(wakes[0].at)
    else FirstTick(wakes[1..], from)
  }

  /** In time is played, past the drop tolerance is dropped. */
  function FateAt(profile: Profile, clock: SyncClock, p: BufferedPacket, at: Instant): Fate {
    var deadline := WriteDeadline(clock, p.packet.capturedAtMs, profile.targetBufferMs);
    if at < deadline + (profile.latePacketDropMs + 1) * MILLISECOND then Played(at, clock) else LateDropped(at, clock)
  }

  /** Primed, in order, and the timeline is running. */
  ghost predicate Running(w: Worker) {
    && Inv(w) && Sorted(w.history.session.accepted)
    && w.buffer.packets != [] && w.nextDeadline.Some?
  }

  /** What became of each queued packet: removed by its first tick with the fate that tick gives it. */
  ghost predicate DecidedBy(w: Worker, wakes: seq<Wake>, r: Removal)
    requires w.syncClock.Some?
  {
    && r.packet in w.buffer.packets
    && FirstTick(wakes, Deadline(w, r.packet)).Some?
    && r.fate == FateAt(w.profile, w.syncClock.value, r.packet, FirstTick(wakes, Deadline(w, r.packet)).value)
  }

  ghost predicate FatesDecided(w: Worker, wakes: seq<Wake>, after: Worker)
    requires w.syncClock.Some?
  {
    var start := |w.history.session.removed|;
    && w.history.session.removed <= after.history.session.removed
    && (forall i | start <= i < |after.history.session.removed| ::
          DecidedBy(w, wakes, after.history.session.removed[i]))
    && (forall p | p in after.buffer.packets :: p in w.buffer.packets && FirstTick(wakes, Deadline(w, p)).None?)
    && after.history.session.accepted == w.history.session.accepted
    && Inv(after)
  }

  // ----- One wake-up -----

  /** The packets that a tick at the given instant removes, and with what fate, in terms of that tick alone. */
  ghost predicate DecidedNow(w: Worker, at: Instant, r: Removal)
    requires w.syncClock.Some?
  {
    && r.packet in w.buffer.packets && Deadline(w, r.packet) <= at
    && r.fate == FateAt(w.profile, w.syncClock.value, r.packet, at)
  }

  lemma {:induction false} FatesNow(w: Worker, at: Instant, v: Verdict)
    requires w.syncClock.Some? && v != Future
    ensures var clock := w.syncClock.value;
            var gone := WithVerdict(w.profile, clock, w.buffer.packets, at, v);
            forall r | r in Fates(gone, if v == Due then Played(at, clock) else LateDropped(at, clock)) ::
                DecidedNow(w, at, r)
  {
    var clock := w.syncClock.value;
    var gone := WithVerdict(w.profile, clock, w.buffer.packets, at, v);
    SelectedVerdicts(w.profile, clock, w.buffer.packets, at, v);
    forall r | r in Fates(gone, if v == Due then Played(at, clock) else LateDropped(at, clock))
      ensures DecidedNow(w, at, r)
    {
      assert r.packet in gone;
    }
  }

  lemma KeptByTick(w: Worker, at: Instant)
    requires w.syncClock.Some?
    ensures forall p | p in WithVerdict(w.profile, w.syncClock.value, w.buffer.packets, at, Future) ::
              p in w.buffer.packets && at < Deadline(w, p)
  {
    SelectedVerdicts(w.profile, w.syncClock.value, w.buffer.packets, at, Future);
  }

  /** What one tick does to a running worker. */
  ghost predicate TickDecides(w: Worker, at: Instant, after: Worker)
    requires w.syncClock.Some?
  {
    var start := |w.history.session.removed|;
    && w.history.session.removed <= after.history.session.removed
    && (forall i | start <= i < |after.history.session.removed| :: DecidedNow(w, at, after.history.session.removed[i]))
    && (forall p | p in after.buffer.packets :: p in w.buffer.packets && at < Deadline(w, p))
    && after.history.session.accepted == w.history.session.accepted
  }

  lemma DrainDecides(w: Worker, at: Instant)
    requires Running(w)
    ensures var drained := Drain(w, StandingClock(at));
            && TickDecides(w, at, drained)
            && (drained.buffer.packets != [] ==> SameSession(w, drained) && drained.nextDeadline.Some?)
  {
    var clock := w.syncClock.value;
    DrainPartitions(w, StandingClock(at), at);
    FatesNow(w, at, TooLate);
    FatesNow(w, at, Due);
    KeptByTick(w, at);
    var late := Fates(WithVerdict(w.profile, clock, w.buffer.packets, at, TooLate), LateDropped(at, clock));
    var due := Fates(WithVerdict(w.profile, clock, w.buffer.packets, at, Due), Played(at, clock));
    RemovedInTwo(w, at, Drain(w, StandingClock(at)), late, due);
  }

  lemma {:induction false} RemovedInTwo(w: Worker, at: Instant, after: Worker, late: seq<Removal>, due: seq<Removal>)
    requires w.syncClock.Some? && after.history.session.removed == w.history.session.removed + late + due
    requires (forall r | r in late :: DecidedNow(w, at, r)) && (forall r | r in due :: DecidedNow(w, at, r))
    ensures w.history.session.removed <= after.history.session.removed
    ensures forall i | |w.history.session.removed| <= i < |after.history.session.removed| ::
              DecidedNow(w, at, after.history.session.removed[i])
  {
    var start, removed := |w.history.session.removed|, after.history.session.removed;
    forall i | start <= i < |removed| ensures DecidedNow(w, at, removed[i]) {
      assert removed[i] in late || removed[i] in due;
    }
  }

  lemma TickOfRunning(w: Worker, at: Instant)
    requires Running(w)
    requires w.lastActivity.Some? ==> at - w.lastActivity.value < w.profile.reconnectGraceMs * MILLISECOND
    ensures var after := AfterWake(w, Ticked(at));
            && TickDecides(w, at, after) && Inv(after)
            && (after.buffer.packets != [] ==> Running(after) && SameTimeline(w, after))
  {
    var drained := Drain(w, StandingClock(at));
    DrainDecides(w, at);
    TickKeeps(w, StandingClock(at), at);
    if drained.buffer.packets != [] {
      assert CheckTimeout(drained, at) == drained;
    } else {
      EmptyTimeoutKeepsLog(drained, at);
    }
  }

  predicate SameTimeline(w: Worker, w': Worker) {
    w'.profile == w.profile && w'.syncClock == w.syncClock
  }

  lemma {:induction false} NothingLeftToDecide(w: Worker, wakes: seq<Wake>)
    requires Inv(w) && w.buffer.packets == []
    ensures var after := AfterWakes(w, wakes);
            && after.history.session == w.history.session && after.buffer.packets == [] && Inv(after)
    decreases |wakes|
  {
    if wakes != [] {
      if wakes[0].Ticked? {
        EmptyTimeoutKeepsLog(Drain(w, StandingClock(wakes[0].at)), wakes[0].at);
        TickKeeps(w, StandingClock(wakes[0].at), wakes[0].at);
      }
      NothingLeftToDecide(AfterWake(w, wakes[0]), wakes[1..]);
    }
  }

  // ----- All of them -----

  lemma HeardKeepsRunning(w: Worker, at: Instant)
    requires Running(w)
    ensures var after := AfterWake(w, Heard(at));
            && Running(after) && SameTimeline(w, after)
            && after.buffer == w.buffer && after.history == w.history
  {
  }

  /** A tick now decides what it would decide as the first of more wake-ups. */
  lemma {:induction false} DecidedFirst(w: Worker, at: Instant, rest: seq<Wake>, r: Removal)
    requires w.syncClock.Some? && DecidedNow(w, at, r)
    ensures DecidedBy(w, [Ticked(at)] + rest, r)
  {
  }

  /** What later wake-ups decide about what a tick leaves, they decide as part of all of them. */
  lemma {:induction false} DecidedLater(w: Worker, at: Instant, next: Worker, rest: seq<Wake>, r: Removal)
    requires w.syncClock.Some? && SameTimeline(w, next) && TickDecides(w, at, next) && DecidedBy(next, rest, r)
    ensures DecidedBy(w, [Ticked(at)] + rest, r)
  {
    assert ([Ticked(at)] + rest)[1..] == rest;
  }

  lemma {:induction false} NoTickYet(w: Worker, at: Instant, rest: seq<Wake>, deadline: Instant)
    requires at < deadline
    ensures FirstTick([Ticked(at)] + rest, deadline) == FirstTick(rest, deadline)
  {
    assert ([Ticked(at)] + rest)[1..] == rest;
  }

  lemma {:induction false} TickThenRest(w: Worker, at: Instant, next: Worker, rest: seq<Wake>, after: Worker)
    requires w.syncClock.Some? && SameTimeline(w, next) && TickDecides(w, at, next)
    requires FatesDecided(next, rest, after)
    ensures FatesDecided(w, [Ticked(at)] + rest, after)
  {
    var start, mid := |w.history.session.removed|, |next.history.session.removed|;
    var removed := after.history.session.removed;
    forall i | start <= i < |removed| ensures DecidedBy(w, [Ticked(at)] + rest, removed[i]) {
      if i < mid {
        assert removed[i] == next.history.session.removed[i];
        DecidedFirst(w, at, rest, removed[i]);
      } else {
        DecidedLater(w, at, next, rest, removed[i]);
      }
    }
    forall p | p in after.buffer.packets ensures FirstTick([Ticked(at)] + rest, Deadline(w, p)).None? {
      assert p in next.buffer.packets;
      NoTickYet(w, at, rest, Deadline(w, p));
    }
  }

  lemma {:induction false} TickAndNothingLeft(w: Worker, at: Instant, next: Worker, rest: seq<Wake>, after: Worker)
    requires w.syncClock.Some? && TickDecides(w, at, next)
    requires Inv(after) && after.history.session == next.history.session && after.buffer.packets == []
    ensures FatesDecided(w, [Ticked(at)] + rest, after)
  {
    forall i | |w.history.session.removed| <= i < |after.history.session.removed|
      ensures DecidedBy(w, [Ticked(at)] + rest, after.history.session.removed[i])
    {
      DecidedFirst(w, at, rest, after.history.session.removed[i]);
    }
  }

  lemma {:induction false} HeardThenRest(w: Worker, at: Instant, next: Worker, rest: seq<Wake>, after: Worker)
    requires w.syncClock.Some? && SameTimeline(w, next) && next.buffer == w.buffer && next.history == w.history
    requires FatesDecided(next, rest, after)
    ensures FatesDecided(w, [Heard(at)] + rest, after)
  {
    assert ([Heard(at)] + rest)[1..] == rest;
    forall i | |w.history.session.removed| <= i < |after.history.session.removed|
      ensures DecidedBy(w, [Heard(at)] + rest, after.history.session.removed[i])
    {
      assert DecidedBy(next, rest, after.history.session.removed[i]);
    }
  }

  /**
   * The first tick decides: while nothing new arrives, and however keep-alives and ticks fall, every
   * packet is removed by the first tick at or after its deadline, played if that tick is within the
   * drop tolerance and dropped as late otherwise; a packet for which no such tick came is still queued.
   */
  lemma {:induction false} FirstTickDecides(w: Worker, now: Instant, wakes: seq<Wake>)
    requires Running(w) && KeptAlive(w, now, wakes)
    ensures FatesDecided(w, wakes, AfterWakes(w, wakes))
    decreases |wakes|
  {
    if wakes != [] {
      var next, rest := AfterWake(w, wakes[0]), wakes[1..];
      assert wakes == [wakes[0]] + rest;
      match wakes[0]
      case Ticked(at) =>
        TickOfRunning(w, at);
        if next.buffer.packets == [] {
          NothingLeftToDecide(next, rest);
          TickAndNothingLeft(w, at, next, rest, AfterWakes(next, rest));
        } else {
          FirstTickDecides(next, at, rest);
          TickThenRest(w, at, next, rest, AfterWakes(next, rest));
        }
      case Heard(at) =>
        HeardKeepsRunning(w, at);
        FirstTickDecides(next, now, rest);
        HeardThenRest(w, at, next, rest, AfterWakes(next, rest));
    }
  }

  /** Some tick comes at or after the instant, and less than `delay` after it. */
  ghost predicate TickedWithin(wakes: seq<Wake>, from: Instant, delay: nat) {
    exists i :: 0 <= i < |wakes| && wakes[i].Ticked? && from <= wakes[i].at < from + delay
  }

  lemma {:induction false} FirstTickComesFirst(wakes: seq<Wake>, from: Instant, i: nat)
    requires i < |wakes| && wakes[i].Ticked? && from <= wakes[i].at
    requires forall j, k | 0 <= j < k < |wakes| && wakes[j].Ticked? && wakes[k].Ticked? :: wakes[j].at <= wakes[k].at
    ensures FirstTick(wakes, from).Some? && FirstTick(wakes, from).value <= wakes[i].at
    decreases |wakes|
  {
    if !(wakes[0].Ticked? && from <= wakes[0].at) {
      FirstTickComesFirst(wakes[1..], from, i - 1);
    }
  }

  lemma {:induction false} TicksInOrder(w: Worker, now: Instant, wakes: seq<Wake>)
    requires KeptAlive(w, now, wakes)
    ensures forall j | 0 <= j < |wakes| && wakes[j].Ticked? :: now <= wakes[j].at
    ensures forall j, k | 0 <= j < k < |wakes| && wakes[j].Ticked? && wakes[k].Ticked? :: wakes[j].at <= wakes[k].at
    decreases |wakes|
  {
    if wakes != [] {
      var rest := wakes[1..];
      TicksInOrder(AfterWake(w, wakes[0]), if wakes[0].Ticked? then wakes[0].at else now, rest);
      assert forall j | 0 <= j < |rest| :: rest[j] == wakes[j + 1];
      forall j, k | 0 <= j < k < |wakes| && wakes[j].Ticked? && wakes[k].Ticked? ensures wakes[j].at <= wakes[k].at {
        assert wakes[k] == rest[k - 1];
        if j > 0 { assert wakes[j] == rest[j - 1]; }
      }
    }
  }

  /** A removal was a write, less than `delay` after the packet's deadline. */
  ghost predicate PlayedWithin(w: Worker, r: Removal, delay: nat)
    requires w.syncClock.Some?
  {
    r.fate.Played? && Deadline(w, r.packet) <= r.fate.at < Deadline(w, r.packet) + delay
  }

  /**
   * Ticks that come less than a delay within the drop tolerance after every deadline play every
   * packet that early, drop none, and leave none.
   */
  lemma {:induction false} PromptTicksPlayAll(w: Worker, now: Instant, wakes: seq<Wake>, delay: nat)
    requires Running(w) && KeptAlive(w, now, wakes)
    requires delay <= (w.profile.latePacketDropMs + 1) * MILLISECOND
    requires forall p | p in w.buffer.packets :: TickedWithin(wakes, Deadline(w, p), delay)
    ensures var after := AfterWakes(w, wakes);
            var start, removed := |w.history.session.removed|, after.history.session.removed;
            && after.buffer.packets == []
            && Packets(removed) == w.history.session.accepted
            && w.history.session.removed <= removed
            && forall i | start <= i < |removed| :: PlayedWithin(w, removed[i], delay)
  {
    var after := AfterWakes(w, wakes);
    var removed := after.history.session.removed;
    assert after.buffer.packets != [] ==> after.buffer.packets[0] in after.buffer.packets;
    FirstTickDecides(w, now, wakes);
    TicksInOrder(w, now, wakes);
    forall p | p in w.buffer.packets
      ensures FirstTick(wakes, Deadline(w, p)).Some? && FirstTick(wakes, Deadline(w, p)).value < Deadline(w, p) + delay
    {
      PromptlyDecided(wakes, Deadline(w, p), delay);
    }
    EverythingRemoved(after);
    forall i | |w.history.session.removed| <= i < |removed| ensures PlayedWithin(w, removed[i], delay) {
      assert DecidedBy(w, wakes, removed[i]);
    }
  }

  lemma {:induction false} PromptlyDecided(wakes: seq<Wake>, from: Instant, delay: nat)
    requires TickedWithin(wakes, from, delay)
    requires forall j, k | 0 <= j < k < |wakes| && wakes[j].Ticked? && wakes[k].Ticked? :: wakes[j].at <= wakes[k].at
    ensures FirstTick(wakes, from).Some? && FirstTick(wakes, from).value < from + delay
  {
    var i :| 0 <= i < |wakes| && wakes[i].Ticked? && from <= wakes[i].at < from + delay;
    FirstTickComesFirst(wakes, from, i);
  }
}
