/** The drain loop against a clock that stands still, and the receiver left alone until it has played everything. */
module PlayoutSchedule {
  import opened Numbers
  import opened Options
  import opened LatencyProfiles
  import opened PacketBuffers
  import opened Playout
  import opened PlayoutInvariants

  // ----- What should happen to a packet at a given instant -----

  datatype Verdict = TooLate | Due | Future

  function VerdictAt(profile: Profile, clock: SyncClock, p: BufferedPacket, now: Instant): Verdict {
    var deadline := WriteDeadline(clock, p.packet.capturedAtMs, profile.targetBufferMs);
    if now < deadline then Future
    else if now < deadline + (profile.latePacketDropMs + 1) * MILLISECOND then Due
    else TooLate
  }

  /** The packets with one verdict, in queue order. */
  function WithVerdict(
      profile: Profile, clock: SyncClock, ps: seq<BufferedPacket>, now: Instant, v: Verdict): seq<BufferedPacket>
  {
    if ps == [] then []
    else
      var rest := WithVerdict(profile, clock, ps[1..], now, v);
      if VerdictAt(profile, clock, ps[0], now) == v then [ps[0]] + rest else rest
  }

  function Fates(ps: seq<BufferedPacket>, fate: Fate): (rs: seq<Removal>)
    ensures |rs| == |ps|
  {
    seq(|ps|, i requires 0 <= i < |ps| => Removal(ps[i], fate))
  }

  lemma {:induction false} OnlyVerdict(
      profile: Profile, clock: SyncClock, ps: seq<BufferedPacket>, now: Instant, v: Verdict)
    requires forall p | p in ps :: VerdictAt(profile, clock, p, now) == v
    ensures WithVerdict(profile, clock, ps, now, v) == ps
    ensures forall v' | v' != v :: WithVerdict(profile, clock, ps, now, v') == []
  {
    if ps != [] { OnlyVerdict(profile, clock, ps[1..], now, v); }
  }

  lemma {:induction false} NoVerdict(
      profile: Profile, clock: SyncClock, ps: seq<BufferedPacket>, now: Instant, v: Verdict)
    requires forall p | p in ps :: VerdictAt(profile, clock, p, now) != v
    ensures WithVerdict(profile, clock, ps, now, v) == []
  {
    if ps != [] { NoVerdict(profile, clock, ps[1..], now, v); }
  }

  lemma {:induction false} SelectedVerdicts(
      profile: Profile, clock: SyncClock, ps: seq<BufferedPacket>, now: Instant, v: Verdict)
    ensures forall p | p in WithVerdict(profile, clock, ps, now, v) :: p in ps && VerdictAt(profile, clock, p, now) == v
  {
    if ps != [] { SelectedVerdicts(profile, clock, ps[1..], now, v); }
  }

  /** In a sorted queue nothing after the front is due earlier than the front. */
  lemma FrontComesFirst(w: Worker, now: Instant)
    requires w.buffer.packets != [] && w.syncClock.Some? && Sorted(w.buffer.packets)
    ensures forall p | p in w.buffer.packets ::
              WriteDeadline(w.syncClock.value, w.buffer.packets[0].packet.capturedAtMs, w.profile.targetBufferMs)
                <= WriteDeadline(w.syncClock.value, p.packet.capturedAtMs, w.profile.targetBufferMs)
  {
    var ps := w.buffer.packets;
    forall p | p in ps ensures ps[0].packet.capturedAtMs <= p.packet.capturedAtMs {
      var i :| 0 <= i < |ps| && ps[i] == p;
    }
    forall p | p in ps
      ensures WriteDeadline(w.syncClock.value, ps[0].packet.capturedAtMs, w.profile.targetBufferMs)
                <= WriteDeadline(w.syncClock.value, p.packet.capturedAtMs, w.profile.targetBufferMs)
    {
      DeadlineMonotone(w.syncClock.value, ps[0].packet.capturedAtMs, p.packet.capturedAtMs, w.profile.targetBufferMs);
    }
  }

  // ----- Draining with a frozen clock -----

  ghost predicate FrozenAt(env: nat -> Reading, now: Instant) {
    forall i: nat :: env(i) == Reading(now, true)
  }

  ghost predicate CanDrain(w: Worker) {
    && w.connection.Some? && w.sinkOpen && w.syncClock.Some?
    && w.profile.latePacketDropMs < I32_MAX
    && Sorted(w.buffer.packets)
  }

  /** The session goes on: only the schedule, the queue and the counters have moved. */
  ghost predicate SameSession(w: Worker, w': Worker) {
    && w'.connection == w.connection && w'.sinkOpen == w.sinkOpen && w'.syncClock == w.syncClock
    && w'.profile == w.profile && w'.lastActivity == w.lastActivity
  }

  /** What one drain at a standing clock makes of a queue. */
  ghost predicate Partitioned(w: Worker, w': Worker, now: Instant)
    requires w.syncClock.Some?
  {
    var clock, ps := w.syncClock.value, w.buffer.packets;
    && w'.buffer.packets == WithVerdict(w.profile, clock, ps, now, Future)
    && w'.history.session.removed == w.history.session.removed
         + Fates(WithVerdict(w.profile, clock, ps, now, TooLate), LateDropped(now, clock))
         + Fates(WithVerdict(w.profile, clock, ps, now, Due), Played(now, clock))
    && w'.history.session.accepted == w.history.session.accepted
    && (w'.buffer.packets != [] ==>
          && SameSession(w, w')
          && w'.nextDeadline == DeadlineFor(w, w'.buffer.packets[0].packet.capturedAtMs))
  }

  lemma {:induction false} SortedTail(ps: seq<BufferedPacket>)
    requires ps != [] && Sorted(ps)
    ensures Sorted(ps[1..])
  {
    forall i, j | 0 <= i < j < |ps| - 1 ensures ps[1..][i].packet.capturedAtMs <= ps[1..][j].packet.capturedAtMs {
      assert ps[1..][i] == ps[i + 1] && ps[1..][j] == ps[j + 1];
    }
  }

  lemma StopPartitions(w: Worker, now: Instant)
    requires CanDrain(w) && w.buffer.packets != []
    requires VerdictAt(w.profile, w.syncClock.value, w.buffer.packets[0], now) == Future
    ensures DrainTurn(w, Reading(now, true)).Stop?
    ensures Partitioned(w, DrainTurn(w, Reading(now, true)).final, now)
  {
    var clock, ps := w.syncClock.value, w.buffer.packets;
    FrontComesFirst(w, now);
    OnlyVerdict(w.profile, clock, ps, now, Future);
    StaleExactly(now, DeadlineFor(w, ps[0].packet.capturedAtMs).value, w.profile.latePacketDropMs);
  }

  lemma DropTurn(w: Worker, now: Instant)
    requires CanDrain(w) && w.buffer.packets != []
    requires VerdictAt(w.profile, w.syncClock.value, w.buffer.packets[0], now) == TooLate
    ensures var ps, turn := w.buffer.packets, DrainTurn(w, Reading(now, true));
            var after := if turn.Continue? then turn.next else turn.final;
            && (turn.Continue? <==> |ps| > 1)
            && after.buffer.packets == ps[1..]
            && after.history.session == w.history.session.(
                 removed := w.history.session.removed + [Removal(ps[0], LateDropped(now, w.syncClock.value))])
            && (turn.Continue? ==> SameSession(w, after))
  {
    StaleExactly(now, DeadlineFor(w, w.buffer.packets[0].packet.capturedAtMs).value, w.profile.latePacketDropMs);
  }

  lemma PlayTurn(w: Worker, now: Instant)
    requires CanDrain(w) && w.buffer.packets != []
    requires VerdictAt(w.profile, w.syncClock.value, w.buffer.packets[0], now) == Due
    ensures var ps, turn := w.buffer.packets, DrainTurn(w, Reading(now, true));
            && turn.Continue?
            && turn.next.history.session == w.history.session.(
                 removed := w.history.session.removed + [Removal(ps[0], Played(now, w.syncClock.value))])
            && SameSession(w, turn.next)
  {
    StaleExactly(now, DeadlineFor(w, w.buffer.packets[0].packet.capturedAtMs).value, w.profile.latePacketDropMs);
  }

  lemma {:induction false} FatesCons(p: BufferedPacket, ps: seq<BufferedPacket>, fate: Fate)
    ensures Fates([p] + ps, fate) == [Removal(p, fate)] + Fates(ps, fate)
  {
  }

  /** Dropping the stale front first and partitioning the rest is partitioning the whole queue. */
  lemma DropThenRest(w: Worker, next: Worker, final: Worker, now: Instant)
    requires w.syncClock.Some? && w.buffer.packets != []
    requires VerdictAt(w.profile, w.syncClock.value, w.buffer.packets[0], now) == TooLate
    requires SameSession(w, next) && next.buffer.packets == w.buffer.packets[1..]
    requires next.history.session == w.history.session.(
               removed := w.history.session.removed
                 + [Removal(w.buffer.packets[0], LateDropped(now, w.syncClock.value))])
    requires Partitioned(next, final, now)
    ensures Partitioned(w, final, now)
  {
    var late := WithVerdict(w.profile, w.syncClock.value, w.buffer.packets[1..], now, TooLate);
    FatesCons(w.buffer.packets[0], late, LateDropped(now, w.syncClock.value));
  }

  /** Playing the due front first is partitioning the whole queue when nothing behind it is stale. */
  lemma PlayThenRest(w: Worker, next: Worker, final: Worker, now: Instant)
    requires w.syncClock.Some? && w.buffer.packets != []
    requires VerdictAt(w.profile, w.syncClock.value, w.buffer.packets[0], now) == Due
    requires WithVerdict(w.profile, w.syncClock.value, w.buffer.packets[1..], now, TooLate) == []
    requires SameSession(w, next) && next.buffer.packets == w.buffer.packets[1..]
    requires next.history.session == w.history.session.(
               removed := w.history.session.removed + [Removal(w.buffer.packets[0], Played(now, w.syncClock.value))])
    requires Partitioned(next, final, now)
    ensures Partitioned(w, final, now)
  {
    var due := WithVerdict(w.profile, w.syncClock.value, w.buffer.packets[1..], now, Due);
    FatesCons(w.buffer.packets[0], due, Played(now, w.syncClock.value));
  }

  lemma NothingStaleBehind(w: Worker, now: Instant)
    requires w.syncClock.Some? && w.buffer.packets != [] && Sorted(w.buffer.packets)
    requires VerdictAt(w.profile, w.syncClock.value, w.buffer.packets[0], now) == Due
    ensures WithVerdict(w.profile, w.syncClock.value, w.buffer.packets, now, TooLate) == []
    ensures WithVerdict(w.profile, w.syncClock.value, w.buffer.packets[1..], now, TooLate) == []
  {
    FrontComesFirst(w, now);
    NoVerdict(w.profile, w.syncClock.value, w.buffer.packets, now, TooLate);
  }

  lemma {:induction false} DrainLoopPartitions(w: Worker, env: nat -> Reading, turn: nat, now: Instant)
    requires CanDrain(w) && FrozenAt(env, now)
    ensures Partitioned(w, DrainLoop(w, env, turn), now)
    decreases |w.buffer.packets|
  {
    assert env(turn) == Reading(now, true);
    var step, final := DrainTurn(w, env(turn)), DrainLoop(w, env, turn);
    if w.buffer.packets != [] {
      SortedTail(w.buffer.packets);
      match VerdictAt(w.profile, w.syncClock.value, w.buffer.packets[0], now)
      case Future => StopPartitions(w, now);
      case TooLate =>
        DropTurn(w, now);
        if step.Continue? {
          DrainLoopPartitions(step.next, env, turn + 1, now);
          DropThenRest(w, step.next, final, now);
        } else {
          LastDropPartitions(w, now);
        }
      case Due =>
        PlayTurn(w, now);
        DrainLoopPartitions(step.next, env, turn + 1, now);
        NothingStaleBehind(w, now);
        PlayThenRest(w, step.next, final, now);
    }
  }

  lemma LastDropPartitions(w: Worker, now: Instant)
    requires CanDrain(w) && |w.buffer.packets| == 1
    requires VerdictAt(w.profile, w.syncClock.value, w.buffer.packets[0], now) == TooLate
    ensures var turn := DrainTurn(w, Reading(now, true)); turn.Stop? && Partitioned(w, turn.final, now)
  {
    DropTurn(w, now);
    OnlyVerdict(w.profile, w.syncClock.value, w.buffer.packets, now, TooLate);
  }

  /** The queue of a session with sorted timestamps is itself sorted. */
  lemma QueueSorted(w: Worker)
    requires w.history.session.accepted == Packets(w.history.session.removed) + w.buffer.packets
    requires Sorted(w.history.session.accepted)
    ensures Sorted(w.buffer.packets)
  {
    var accepted, ps, n := w.history.session.accepted, w.buffer.packets, |w.history.session.removed|;
    forall i, j | 0 <= i < j < |ps| ensures ps[i].packet.capturedAtMs <= ps[j].packet.capturedAtMs {
      assert accepted[n + i] == ps[i] && accepted[n + j] == ps[j];
    }
  }

  /**
   * A primed drain with a standing clock, sorted timestamps and a working sink splits the
   * queue by verdict: the too late are dropped, then the due are played, the future stay.
   */
  lemma DrainPartitions(w: Worker, env: nat -> Reading, now: Instant)
    requires Inv(w) && w.buffer.packets != [] && (w.nextDeadline.Some? || BufferReady(w.buffer))
    requires Sorted(w.history.session.accepted) && FrozenAt(env, now)
    ensures Partitioned(w, Drain(w, env), now)
  {
    QueueSorted(w);
    if w.nextDeadline.Some? {
      DrainLoopPartitions(w, env, 0, now);
    } else {
      DrainLoopPartitions(Marked(w, Ready(w.buffer)), env, 0, now);
    }
  }

  lemma NothingDueStays(w: Worker, env: nat -> Reading, now: Instant)
    requires Inv(w) && Sorted(w.history.session.accepted) && FrozenAt(env, now)
    requires w.buffer.packets != [] ==>
               w.nextDeadline.Some? &&
               forall p | p in w.buffer.packets :: VerdictAt(w.profile, w.syncClock.value, p, now) == Future
    ensures Drain(w, env).history.session == w.history.session
    ensures Drain(w, env).buffer.packets == w.buffer.packets
  {
    if w.buffer.packets != [] {
      OnlyVerdict(w.profile, w.syncClock.value, w.buffer.packets, now, Future);
      DrainPartitions(w, env, now);
      var removed, none := w.history.session.removed, Fates([], LateDropped(now, w.syncClock.value));
      assert removed + none + Fates([], Played(now, w.syncClock.value)) == removed;
      DrainKeepsStream(w, env);
    }
  }

  lemma {:induction false} DrainLoopKeepsStream(w: Worker, env: nat -> Reading, turn: nat)
    ensures DrainLoop(w, env, turn).history.session.stream == w.history.session.stream
    decreases |w.buffer.packets|
  {
    match DrainTurn(w, env(turn))
    case Stop(_) =>
    case Continue(next) => DrainLoopKeepsStream(next, env, turn + 1);
  }

  lemma DrainKeepsStream(w: Worker, env: nat -> Reading)
    ensures Drain(w, env).history.session.stream == w.history.session.stream
  {
    DrainLoopKeepsStream(w, env, 0);
    DrainLoopKeepsStream(Marked(w, Ready(w.buffer)), env, 0);
  }

  /** Draining again at the same instant neither plays nor drops anything. */
  lemma DrainIsIdempotent(w: Worker, env: nat -> Reading, now: Instant)
    requires Inv(w) && w.buffer.packets != [] && (w.nextDeadline.Some? || BufferReady(w.buffer))
    requires Sorted(w.history.session.accepted) && FrozenAt(env, now)
    ensures var w' := Drain(w, env);
            && Drain(w', env).history.session == w'.history.session
            && Drain(w', env).buffer.packets == w'.buffer.packets
  {
    DrainPartitions(w, env, now);
    DrainKeeps(w, env);
    SelectedVerdicts(w.profile, w.syncClock.value, w.buffer.packets, now, Future);
    NothingDueStays(Drain(w, env), env, now);
  }

  // ----- A receiver left alone -----

  const PUNCTUAL := 5 * MILLISECOND

  function StandingClock(now: Instant): nat -> Reading {
    (i: nat) => Reading(now, true)
  }

  function WakeTime(w: Worker, now: Instant): Instant {
    now + NextWait(w, now, now)
  }

  /** `wakeups` rounds of waiting with no command arriving, then ticking at once. */
  function LeftAlone(w: Worker, now: Instant, wakeups: nat): Worker
    decreases wakeups
  {
    if wakeups == 0 then w
    else LeftAlone(WokenUp(w, now), WakeTime(w, now), wakeups - 1)
  }

  function WokenUp(w: Worker, now: Instant): Worker {
    OnTick(w, StandingClock(WakeTime(w, now)), WakeTime(w, now))
  }

  function Deadline(w: Worker, p: BufferedPacket): Instant
    requires w.syncClock.Some?
  {
    WriteDeadline(w.syncClock.value, p.packet.capturedAtMs, w.profile.targetBufferMs)
  }

  /** Primed, nothing due yet, and every deadline within the transport's grace period. */
  ghost predicate Waiting(w: Worker, now: Instant) {
    && Inv(w) && Sorted(w.history.session.accepted)
    && w.buffer.packets != [] && w.nextDeadline.Some? && w.lastActivity.Some?
    && now < Deadline(w, w.buffer.packets[0])
    && forall p | p in w.buffer.packets ::
         Deadline(w, p) <= w.lastActivity.value + w.profile.reconnectGraceMs * MILLISECOND
  }

  /** The wait either ends by the first deadline or lasts five milliseconds. */
  lemma WakesInTime(w: Worker, now: Instant)
    requires Waiting(w, now)
    ensures now + PUNCTUAL <= WakeTime(w, now)
    ensures forall p | p in w.buffer.packets :: WakeTime(w, now) < Deadline(w, p) + PUNCTUAL
  {
    QueueSorted(w);
    FrontComesFirst(w, now);
    assert w.nextDeadline.value <= Deadline(w, w.buffer.packets[0]);
  }

  lemma QuietDrain(w: Worker, now: Instant)
    requires Waiting(w, now)
    ensures var t := WakeTime(w, now);
            var w', clock := Drain(w, StandingClock(t)), w.syncClock.value;
            && Inv(w')
            && w'.buffer.packets == WithVerdict(w.profile, clock, w.buffer.packets, t, Future)
            && w'.history.session.removed == w.history.session.removed
                 + Fates(WithVerdict(w.profile, clock, w.buffer.packets, t, Due), Played(t, clock))
            && w'.history.session.accepted == w.history.session.accepted
            && (w'.buffer.packets != [] ==> SameSession(w, w') && w'.nextDeadline.Some?)
  {
    var t := WakeTime(w, now);
    var ps, clock, env := w.buffer.packets, w.syncClock.value, StandingClock(t);
    WakesInTime(w, now);
    NoVerdict(w.profile, clock, ps, t, TooLate);
    DrainPartitions(w, env, t);
    DrainKeeps(w, env);
    var removed := w.history.session.removed;
    assert removed + Fates([], LateDropped(t, clock)) == removed;
  }

  /** One wake-up plays exactly what is due, less than five milliseconds late, and goes on waiting for the rest. */
  lemma QuietTick(w: Worker, now: Instant)
    requires Waiting(w, now)
    ensures var t := WakeTime(w, now);
            var w', clock := WokenUp(w, now), w.syncClock.value;
            && Inv(w')
            && w'.buffer.packets == WithVerdict(w.profile, clock, w.buffer.packets, t, Future)
            && w'.history.session.removed == w.history.session.removed
                 + Fates(WithVerdict(w.profile, clock, w.buffer.packets, t, Due), Played(t, clock))
            && w'.history.session.accepted == w.history.session.accepted
            && (w'.buffer.packets != [] ==> Waiting(w', t) && SameSession(w, w'))
  {
    var t := WakeTime(w, now);
    var drained, clock := Drain(w, StandingClock(t)), w.syncClock.value;
    QuietDrain(w, now);
    TickKeeps(w, StandingClock(t), t);
    SelectedVerdicts(w.profile, clock, w.buffer.packets, t, Future);
    if drained.buffer.packets != [] {
      assert drained.buffer.packets[0] in drained.buffer.packets;
      assert CheckTimeout(drained, t) == drained;
    } else {
      EmptyTimeoutKeepsLog(drained, t);
    }
  }

  lemma EmptyTimeoutKeepsLog(w: Worker, now: Instant)
    requires w.buffer.packets == []
    ensures CheckTimeout(w, now).history.session == w.history.session
    ensures CheckTimeout(w, now).buffer.packets == []
  {
    assert w.history.session.removed + DiscardAll([]) == w.history.session.removed;
  }

  /** Once everything is played, further wake-ups change nothing in the session. */
  lemma {:induction false} NothingLeftToPlay(w: Worker, now: Instant, wakeups: nat)
    requires Inv(w) && w.buffer.packets == []
    ensures LeftAlone(w, now, wakeups).history.session == w.history.session
    ensures LeftAlone(w, now, wakeups).buffer.packets == []
    decreases wakeups
  {
    if wakeups > 0 {
      var t := WakeTime(w, now);
      EmptyTimeoutKeepsLog(Drain(w, StandingClock(t)), t);
      TickKeeps(w, StandingClock(t), t);
      NothingLeftToPlay(WokenUp(w, now), t, wakeups - 1);
    }
  }

  ghost predicate PlayedPunctually(w: Worker, r: Removal)
    requires w.syncClock.Some?
  {
    r.fate.Played? && r.fate.clock == w.syncClock.value
    && Deadline(w, r.packet) <= r.fate.at < Deadline(w, r.packet) + PUNCTUAL
  }

  /** The session log only grew, and everything it gained was played on time. */
  ghost predicate PlayedOnly(w: Worker, before: SessionLog, after: SessionLog)
    requires w.syncClock.Some?
  {
    && after.accepted == before.accepted
    && before.removed <= after.removed
    && forall i | |before.removed| <= i < |after.removed| :: PlayedPunctually(w, after.removed[i])
  }

  /** Fates of packets that were all due within the bound are punctual. */
  lemma {:induction false} FatesArePunctual(w: Worker, due: seq<BufferedPacket>, at: Instant)
    requires w.syncClock.Some?
    requires forall p | p in due :: Deadline(w, p) <= at < Deadline(w, p) + PUNCTUAL
    ensures forall i | 0 <= i < |due| :: PlayedPunctually(w, Fates(due, Played(at, w.syncClock.value))[i])
  {
    forall i | 0 <= i < |due| ensures PlayedPunctually(w, Fates(due, Played(at, w.syncClock.value))[i]) {
      assert due[i] in due;
    }
  }

  lemma DueInTime(w: Worker, now: Instant)
    requires Waiting(w, now)
    ensures forall p | p in WithVerdict(w.profile, w.syncClock.value, w.buffer.packets, WakeTime(w, now), Due) ::
              Deadline(w, p) <= WakeTime(w, now) < Deadline(w, p) + PUNCTUAL
  {
    WakesInTime(w, now);
    SelectedVerdicts(w.profile, w.syncClock.value, w.buffer.packets, WakeTime(w, now), Due);
  }

  lemma WakeUpPlaysOnly(w: Worker, now: Instant)
    requires Waiting(w, now)
    ensures PlayedOnly(w, w.history.session, WokenUp(w, now).history.session)
  {
    var t, clock := WakeTime(w, now), w.syncClock.value;
    var due := WithVerdict(w.profile, clock, w.buffer.packets, t, Due);
    QuietTick(w, now);
    DueInTime(w, now);
    FatesArePunctual(w, due, t);
    LogGrewBy(w, w.history.session, WokenUp(w, now).history.session, Fates(due, Played(t, clock)));
  }

  lemma {:induction false} LogGrewBy(w: Worker, before: SessionLog, after: SessionLog, more: seq<Removal>)
    requires w.syncClock.Some? && after.accepted == before.accepted && after.removed == before.removed + more
    requires forall i | 0 <= i < |more| :: PlayedPunctually(w, more[i])
    ensures PlayedOnly(w, before, after)
  {
    forall i | |before.removed| <= i < |after.removed| ensures PlayedPunctually(w, after.removed[i]) {
      assert after.removed[i] == more[i - |before.removed|];
    }
  }

  lemma PlayedOnlyTransitive(w: Worker, w': Worker, a: SessionLog, b: SessionLog, c: SessionLog)
    requires w.syncClock.Some? && SameSession(w, w')
    requires PlayedOnly(w, a, b) && PlayedOnly(w', b, c)
    ensures PlayedOnly(w, a, c)
  {
    forall i | |a.removed| <= i < |c.removed| ensures PlayedPunctually(w, c.removed[i]) {
      if i < |b.removed| {
        assert c.removed[i] == b.removed[i];
      } else {
        assert PlayedPunctually(w', c.removed[i]);
      }
    }
  }

  /** What is still queued after a wake-up is due later, and was queued before. */
  lemma StillQueued(w: Worker, now: Instant)
    requires Waiting(w, now)
    ensures forall p | p in WokenUp(w, now).buffer.packets :: p in w.buffer.packets
  {
    QuietTick(w, now);
    SelectedVerdicts(w.profile, w.syncClock.value, w.buffer.packets, WakeTime(w, now), Future);
  }

  lemma EverythingRemoved(w: Worker)
    requires Inv(w) && w.buffer.packets == []
    ensures Packets(w.history.session.removed) == w.history.session.accepted
  {
    assert Packets(w.history.session.removed) + [] == Packets(w.history.session.removed);
  }

  lemma WakeUpAdvances(w: Worker, now: Instant, wakeups: nat)
    requires Waiting(w, now)
    requires forall p | p in w.buffer.packets :: Deadline(w, p) <= now + wakeups * PUNCTUAL
    ensures wakeups > 0
    ensures var w', t := WokenUp(w, now), WakeTime(w, now);
            w'.buffer.packets != [] ==>
              && Waiting(w', t) && SameSession(w, w')
              && forall p | p in w'.buffer.packets :: Deadline(w', p) <= t + (wakeups - 1) * PUNCTUAL
  {
    assert w.buffer.packets[0] in w.buffer.packets;
    QuietTick(w, now);
    WakesInTime(w, now);
    StillQueued(w, now);
  }

  /** Every queued packet was played in order, each less than five milliseconds after its deadline, and none dropped. */
  ghost predicate PlayedOut(w: Worker, final: Worker)
    requires w.syncClock.Some?
  {
    && final.buffer.packets == []
    && PlayedOnly(w, w.history.session, final.history.session)
    && Packets(final.history.session.removed) == w.history.session.accepted
  }

  lemma WakeUpFinishes(w: Worker, now: Instant, wakeups: nat)
    requires Waiting(w, now) && WokenUp(w, now).buffer.packets == []
    ensures PlayedOut(w, LeftAlone(WokenUp(w, now), WakeTime(w, now), wakeups))
  {
    QuietTick(w, now);
    WakeUpPlaysOnly(w, now);
    NothingLeftToPlay(WokenUp(w, now), WakeTime(w, now), wakeups);
    EverythingRemoved(WokenUp(w, now));
  }

  lemma PlayedOutLater(w: Worker, w': Worker, final: Worker)
    requires w.syncClock.Some? && SameSession(w, w')
    requires PlayedOnly(w, w.history.session, w'.history.session) && PlayedOut(w', final)
    ensures PlayedOut(w, final)
  {
    PlayedOnlyTransitive(w, w', w.history.session, w'.history.session, final.history.session);
  }

  /** Quiet run: if no command arrives, the waits and ticks play out the queue, and finish. */
  lemma {:induction false} QuietRun(w: Worker, now: Instant, wakeups: nat)
    requires Waiting(w, now)
    requires forall p | p in w.buffer.packets :: Deadline(w, p) <= now + wakeups * PUNCTUAL
    ensures PlayedOut(w, LeftAlone(w, now, wakeups))
    decreases wakeups
  {
    WakeUpAdvances(w, now, wakeups);
    var w', t := WokenUp(w, now), WakeTime(w, now);
    if w'.buffer.packets == [] {
      WakeUpFinishes(w, now, wakeups - 1);
    } else {
      WakeUpPlaysOnly(w, now);
      QuietRun(w', t, wakeups - 1);
      PlayedOutLater(w, w', LeftAlone(w', t, wakeups - 1));
    }
  }

  // ----- A run that gets there -----

  const LONG_PACKETS := StreamConfig(48_000, 2, S16Le, 1_440)

  function SilentPacket(timestampMs: u64): Packet { Packet(0, timestampMs, 0, seq(5_760, i => 0)) }

  lemma OnePacketPrimes(b: Buffer)
    requires b == Enqueued(EmptyBuffer(ProfileOf(LowLatency), LONG_PACKETS), BufferedPacket(SilentPacket(0), 1_440))
    ensures BufferReady(b) && |b.packets| == 1
  {
    assert PacketNanos(LONG_PACKETS) == 30_000_000;
    assert StartThreshold(ProfileOf(LowLatency), LONG_PACKETS) == 1;
    assert b.packets == [BufferedPacket(SilentPacket(0), 1_440)];
    assert TotalFrames(b.packets) == 1_440 + TotalFrames(b.packets[1..]);
  }

  predicate JustConnected(w: Worker) {
    && w.profile == ProfileOf(LowLatency) && w.connection.Some? && w.connection.value.stream == LONG_PACKETS
    && w.buffer == EmptyBuffer(w.profile, LONG_PACKETS)
    && w.syncClock.None? && w.nextDeadline.None? && w.history.session.accepted == []
  }

  lemma ConnectingGetsThere(w: Worker)
    requires w.profile == ProfileOf(LowLatency)
    ensures JustConnected(HandleConnect(w, Connection("", LONG_PACKETS, 0), true, 0))
  {
  }

  lemma OnePacketStored(w: Worker)
    requires JustConnected(w)
    ensures var p, w' := BufferedPacket(SilentPacket(0), 1_440), HandlePacket(w, SilentPacket(0), 0);
            && w'.buffer == Enqueued(w.buffer, p) && w'.buffer.packets == [p]
            && w'.profile == w.profile && w'.history.session.accepted == [p]
            && w'.syncClock == Some(SyncClock(0, 0)) && w'.lastActivity == Some(0)
            && w'.nextDeadline == DeadlineFor(w', 0)
  {
    OnePacketPrimes(Enqueued(w.buffer, BufferedPacket(SilentPacket(0), 1_440)));
    assert FrameCount(SilentPacket(0), LONG_PACKETS) == Some(1_440);
  }

  lemma OnePacketSchedules(w: Worker)
    requires JustConnected(w) && Inv(HandlePacket(w, SilentPacket(0), 0))
    ensures Waiting(HandlePacket(w, SilentPacket(0), 0), 0)
  {
    OnePacketStored(w);
    assert Deadline(HandlePacket(w, SilentPacket(0), 0), BufferedPacket(SilentPacket(0), 1_440)) == 30 * MILLISECOND;
  }

  /** A connection and one packet of thirty milliseconds bring the receiver to where QuietRun starts. */
  lemma WaitingIsReachable()
    ensures var connect := Connect(Connection("", LONG_PACKETS, 0), true, 0);
            Waiting(Run(ProfileOf(LowLatency), [connect, AudioPacket(SilentPacket(0), 0)]), 0)
  {
    var profile := ProfileOf(LowLatency);
    var connect, arrive := Connect(Connection("", LONG_PACKETS, 0), true, 0), AudioPacket(SilentPacket(0), 0);
    RunOneMore(profile, [], connect);
    RunOneMore(profile, [connect], arrive);
    assert [] + [connect] == [connect] && [connect] + [arrive] == [connect, arrive];
    ConnectingGetsThere(Run(profile, []));
    Reachable(profile, [connect, arrive]);
    OnePacketSchedules(Run(profile, [connect]));
  }
}
