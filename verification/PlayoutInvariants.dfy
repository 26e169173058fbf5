/** What every reachable state of the receiver worker satisfies, and what its history shows. */
module PlayoutInvariants {
  import opened Numbers
  import Arithmetic
  import opened Options
  import opened LatencyProfiles
  import opened PacketBuffers
  import opened Playout
  import opened Subsequences

  // ----- Reading the log -----

  datatype FateKind = WasPlayed | WasLate | WasOverrun | WasUnwritten | WasDiscarded

  function KindOf(fate: Fate): FateKind {
    match fate
    case Played(_, _) => WasPlayed
    case LateDropped(_, _) => WasLate
    case Overrun => WasOverrun
    case Unwritten => WasUnwritten
    case Discarded => WasDiscarded
  }

  /** The packets that left with the given fate, in order of removal. */
  function Select(removed: seq<Removal>, kind: FateKind): seq<BufferedPacket> {
    if removed == [] then []
    else
      var earlier, last := Select(removed[..|removed| - 1], kind), removed[|removed| - 1];
      if KindOf(last.fate) == kind then earlier + [last.packet] else earlier
  }

  function Packets(removed: seq<Removal>): (ps: seq<BufferedPacket>)
    ensures |ps| == |removed|
  {
    seq(|removed|, i requires 0 <= i < |removed| => removed[i].packet)
  }

  lemma {:induction false} SelectAppend(removed: seq<Removal>, r: Removal, kind: FateKind)
    ensures Select(removed + [r], kind)
         == if KindOf(r.fate) == kind then Select(removed, kind) + [r.packet] else Select(removed, kind)
    ensures Packets(removed + [r]) == Packets(removed) + [r.packet]
  {
    assert (removed + [r])[..|removed|] == removed;
  }

  lemma {:induction false} PacketsDiscarded(removed: seq<Removal>, ps: seq<BufferedPacket>)
    ensures Packets(removed + DiscardAll(ps)) == Packets(removed) + ps
  {
  }

  lemma {:induction false} SelectConcat(first: seq<Removal>, second: seq<Removal>, kind: FateKind)
    ensures Select(first + second, kind) == Select(first, kind) + Select(second, kind)
    decreases |second|
  {
    if second == [] {
      assert first + second == first;
    } else {
      var init, last := second[..|second| - 1], second[|second| - 1];
      SelectConcat(first, init, kind);
      assert first + second == (first + init) + [last];
      SelectAppend(first + init, last, kind);
    }
  }

  lemma {:induction false} SelectNone(removed: seq<Removal>, kind: FateKind)
    requires forall r | r in removed :: KindOf(r.fate) != kind
    ensures Select(removed, kind) == []
  {
    if removed != [] { SelectNone(removed[..|removed| - 1], kind); }
  }

  lemma {:induction false} SelectDiscarded(removed: seq<Removal>, ps: seq<BufferedPacket>, kind: FateKind)
    requires kind != WasDiscarded
    ensures Select(removed + DiscardAll(ps), kind) == Select(removed, kind)
  {
    SelectConcat(removed, DiscardAll(ps), kind);
    SelectNone(DiscardAll(ps), kind);
  }

  lemma {:induction false} SelectIsSubsequence(removed: seq<Removal>, kind: FateKind)
    ensures Subsequence(Select(removed, kind), Packets(removed))
  {
    if removed != [] {
      var init, last := removed[..|removed| - 1], removed[|removed| - 1];
      SelectIsSubsequence(init, kind);
      assert removed == init + [last];
      SelectAppend(init, last, kind);
      if KindOf(last.fate) == kind {
        ExtendBoth(Select(init, kind), Packets(init), last.packet);
      } else {
        ExtendRight(Select(init, kind), Packets(init), last.packet);
      }
    }
  }

  lemma {:induction false} FatesAddUp(removed: seq<Removal>)
    ensures |removed| == |Select(removed, WasPlayed)| + |Select(removed, WasLate)| + |Select(removed, WasOverrun)|
                       + |Select(removed, WasUnwritten)| + |Select(removed, WasDiscarded)|
  {
    if removed != [] { FatesAddUp(removed[..|removed| - 1]); }
  }

  // ----- The structural invariant -----

  predicate SameShape(b: Buffer, profile: Profile, stream: StreamConfig) {
    b == EmptyBuffer(profile, stream).(packets := b.packets)
  }

  ghost predicate Structural(w: Worker) {
    && IsPreset(w.profile)
    && (w.connection.Some? <==> w.sinkOpen)
    && (w.connection.Some? <==> w.state in {Connected, Buffering, Playing})
    && w.state != Idle
    && (w.connection.None? ==> w.buffer.packets == [])
    && (w.syncClock.Some? <==> w.buffer.packets != [])
    && (w.nextDeadline.Some? ==> w.buffer.packets != [])
    && (w.connection.Some? ==> w.history.session.stream == w.connection.value.stream)
    && (w.connection.Some? ==> SameShape(w.buffer, w.profile, w.connection.value.stream))
    && |w.buffer.packets| <= w.buffer.maxPackets
    && w.buffer.maxPackets > 0
    && w.sync.targetBufferMs == w.profile.targetBufferMs
  }

  // ----- The ledger: every accepted packet is queued or has exactly one fate -----

  /** A packet was played inside its window, or dropped only after it. */
  ghost predicate FateOnTime(profile: Profile, r: Removal) {
    match r.fate
    case Played(at, clock) =>
      var deadline := WriteDeadline(clock, r.packet.packet.capturedAtMs, profile.targetBufferMs);
      deadline <= at < deadline + (profile.latePacketDropMs + 1) * MILLISECOND
    case LateDropped(at, clock) =>
      var deadline := WriteDeadline(clock, r.packet.packet.capturedAtMs, profile.targetBufferMs);
      deadline + (profile.latePacketDropMs + 1) * MILLISECOND <= at
    case _ => true
  }

  /** Sender timestamps do not decrease. */
  ghost predicate Sorted(accepted: seq<BufferedPacket>) {
    forall i, j | 0 <= i < j < |accepted| :: accepted[i].packet.capturedAtMs <= accepted[j].packet.capturedAtMs
  }

  /** No packet was played before the media time its clock is anchored at. */
  ghost predicate AfterAnchor(r: Removal) {
    r.fate.Played? ==> r.fate.clock.anchorTimestampMs <= r.packet.packet.capturedAtMs
  }

  ghost predicate FramesCounted(stream: StreamConfig, p: BufferedPacket) {
    FrameCount(p.packet, stream) == Some(p.frameCount)
  }

  ghost predicate LogOk(profile: Profile, log: SessionLog) {
    && (forall r | r in log.removed :: FateOnTime(profile, r))
    && (Sorted(log.accepted) ==> forall r | r in log.removed :: AfterAnchor(r))
    && (forall p | p in log.accepted :: FramesCounted(log.stream, p))
  }

  ghost predicate Balanced(w: Worker) {
    var h := w.history;
    && h.session.accepted == Packets(h.session.removed) + w.buffer.packets
    && w.metrics.packetsReceived - h.base.packetsReceived == |h.session.accepted|
    && w.metrics.packetsPlayed - h.base.packetsPlayed == |Select(h.session.removed, WasPlayed)|
    && w.metrics.overruns - h.base.overruns == |Select(h.session.removed, WasOverrun)|
    && (w.connection.Some? ==>
          && w.sync.latePacketDrops == |Select(h.session.removed, WasLate)|
          && forall r | r in h.session.removed :: !r.fate.Unwritten? && !r.fate.Discarded?)
  }

  ghost predicate Ledger(w: Worker) {
    var h := w.history;
    && Balanced(w)
    && LogOk(w.profile, h.session)
    && (forall log | log in h.past :: LogOk(w.profile, log) && log.accepted == Packets(log.removed))
    && (w.syncClock.Some? && Sorted(h.session.accepted) ==>
          forall p | p in w.buffer.packets :: w.syncClock.value.anchorTimestampMs <= p.packet.capturedAtMs)
  }

  // ----- Priming -----

  /** `is_ready` was observed to hold since the last timeline reset before position `at`. */
  ghost predicate ReadySince(marks: seq<Mark>, at: nat)
    requires at <= |marks|
  {
    exists i | 0 <= i < at :: IsReadyMark(marks[i]) && forall k | i < k < at :: marks[k] != Reset
  }

  ghost predicate IsReadyMark(mark: Mark) {
    mark.Ready? && BufferReady(mark.buffer)
  }

  ghost predicate WritesPrimed(marks: seq<Mark>) {
    forall n | 0 <= n < |marks| && marks[n].Wrote? :: ReadySince(marks, n)
  }

  function Writes(marks: seq<Mark>): nat {
    if marks == [] then 0
    else Writes(marks[..|marks| - 1]) + if marks[|marks| - 1].Wrote? then 1 else 0
  }

  ghost predicate WritesLogged(w: Worker) {
    WritesPrimed(w.history.marks) && Writes(w.history.marks) == w.metrics.packetsPlayed
  }

  ghost predicate Primed(w: Worker) {
    && WritesLogged(w)
    && (w.nextDeadline.Some? ==> ReadySince(w.history.marks, |w.history.marks|))
  }

  /** In a session with sorted timestamps the armed deadline is not after the front packet's. */
  ghost predicate Scheduled(w: Worker) {
    w.nextDeadline.Some? && w.buffer.packets != [] && Sorted(w.history.session.accepted) ==>
      var front := DeadlineFor(w, w.buffer.packets[0].packet.capturedAtMs);
      front.Some? && w.nextDeadline.value <= front.value
  }

  ghost predicate Inv(w: Worker) {
    Structural(w) && Ledger(w) && Primed(w) && Scheduled(w)
  }

  // ----- How marks extend -----

  lemma {:induction false} AppendMark(marks: seq<Mark>, mark: Mark)
    requires WritesPrimed(marks)
    requires mark.Wrote? ==> ReadySince(marks, |marks|)
    ensures WritesPrimed(marks + [mark])
    ensures mark != Reset && ReadySince(marks, |marks|) ==> ReadySince(marks + [mark], |marks| + 1)
    ensures IsReadyMark(mark) ==> ReadySince(marks + [mark], |marks| + 1)
    ensures Writes(marks + [mark]) == Writes(marks) + if mark.Wrote? then 1 else 0
  {
    var longer := marks + [mark];
    assert longer[..|marks|] == marks;
    forall n | 0 <= n < |longer| && longer[n].Wrote? ensures ReadySince(longer, n) {
      assert ReadySince(marks, n);
      var i :| 0 <= i < n && IsReadyMark(marks[i]) && forall k | i < k < n :: marks[k] != Reset;
      assert IsReadyMark(longer[i]);
    }
    if mark != Reset && ReadySince(marks, |marks|) {
      var i :| 0 <= i < |marks| && IsReadyMark(marks[i]) && forall k | i < k < |marks| :: marks[k] != Reset;
      assert IsReadyMark(longer[i]);
    }
    if IsReadyMark(mark) {
      assert IsReadyMark(longer[|marks|]);
    }
  }

  // ----- Tear-down, errors, connections -----

  lemma {:induction false} LogWithDiscards(profile: Profile, log: SessionLog, packets: seq<BufferedPacket>)
    requires LogOk(profile, log)
    ensures LogOk(profile, log.(removed := log.removed + DiscardAll(packets)))
  {
  }

  lemma TearDownKeeps(w: Worker)
    requires IsPreset(w.profile) && w.buffer.maxPackets > 0 && Ledger(w) && WritesLogged(w)
    ensures Ledger(TearDown(w)) && WritesLogged(TearDown(w))
  {
    var h := w.history;
    AppendMark(h.marks, Reset);
    LogWithDiscards(w.profile, h.session, w.buffer.packets);
    PacketsDiscarded(h.session.removed, w.buffer.packets);
    SelectDiscarded(h.session.removed, w.buffer.packets, WasPlayed);
    SelectDiscarded(h.session.removed, w.buffer.packets, WasOverrun);
  }

  lemma SetErrorKeeps(w: Worker)
    requires IsPreset(w.profile) && w.buffer.maxPackets > 0 && Ledger(w) && WritesLogged(w)
    ensures Inv(SetError(w))
  {
    TearDownKeeps(w);
  }

  lemma DisconnectKeeps(w: Worker, reconnectSuggested: bool)
    requires Inv(w)
    ensures Inv(HandleDisconnect(w, reconnectSuggested))
  {
    TearDownKeeps(w);
  }

  lemma OpeningKeeps(w: Worker, connection: Connection)
    requires Inv(w)
    ensures Ledger(Opening(w, connection)) && WritesLogged(Opening(w, connection))
    ensures Opening(w, connection).history.session.removed == []
  {
    var h := w.history;
    AppendMark(h.marks, Reset);
    LogWithDiscards(w.profile, h.session, w.buffer.packets);
    PacketsDiscarded(h.session.removed, w.buffer.packets);
    assert Packets([]) + [] == [];
  }

  lemma ConnectKeeps(w: Worker, connection: Connection, sinkStarts: bool, now: Instant)
    requires Inv(w)
    ensures Inv(HandleConnect(w, connection, sinkStarts, now))
  {
    OpeningKeeps(w, connection);
    if !sinkStarts {
      SetErrorKeeps(Opening(w, connection));
    }
  }

  // ----- Packets -----

  /** A packet has been anchored, but not yet queued. */
  ghost predicate ReadyToStore(w: Worker) {
    && w.connection.Some? && w.sinkOpen && w.state in {Connected, Buffering, Playing}
    && IsPreset(w.profile) && w.syncClock.Some?
    && w.history.session.stream == w.connection.value.stream
    && SameShape(w.buffer, w.profile, w.connection.value.stream)
    && |w.buffer.packets| <= w.buffer.maxPackets
    && w.buffer.maxPackets > 0
    && w.sync.targetBufferMs == w.profile.targetBufferMs
    && (w.nextDeadline.Some? ==> w.buffer.packets != [])
    && Ledger(w) && Primed(w) && Scheduled(w)
  }

  lemma {:induction false} StoreBalancesFull(
      accepted: seq<BufferedPacket>, removed: seq<Removal>, packets: seq<BufferedPacket>, p: BufferedPacket)
    requires packets != [] && accepted == Packets(removed) + packets
    ensures accepted + [p] == Packets(removed + [Removal(packets[0], Overrun)]) + (packets[1..] + [p])
  {
    assert Packets(removed + [Removal(packets[0], Overrun)]) == Packets(removed) + [packets[0]];
  }

  lemma StoreBalances(w: Worker, p: BufferedPacket, now: Instant)
    requires w.connection.Some? && w.buffer.maxPackets > 0 && Balanced(w)
    ensures Balanced(Store(w, p, now))
  {
    var log, w' := w.history.session, Store(w, p, now);
    if BufferFull(w.buffer) {
      var r := Removal(w.buffer.packets[0], Overrun);
      SelectAppend(log.removed, r, WasPlayed);
      SelectAppend(log.removed, r, WasOverrun);
      SelectAppend(log.removed, r, WasLate);
      assert w'.history.session.removed == log.removed + [r];
      StoreBalancesFull(log.accepted, log.removed, w.buffer.packets, p);
    } else {
      assert w'.history.session.removed == log.removed;
    }
  }

  lemma {:induction false} SortedPrefix(ps: seq<BufferedPacket>, p: BufferedPacket)
    requires Sorted(ps + [p])
    ensures Sorted(ps)
    ensures ps != [] ==> ps[|ps| - 1].packet.capturedAtMs <= p.packet.capturedAtMs
  {
    var longer := ps + [p];
    forall i, j | 0 <= i < j < |ps| ensures ps[i].packet.capturedAtMs <= ps[j].packet.capturedAtMs {
      assert longer[i] == ps[i] && longer[j] == ps[j];
    }
    if ps != [] { assert longer[|ps| - 1] == ps[|ps| - 1] && longer[|ps|] == p; }
  }

  /** In a session with sorted timestamps a new packet is not older than the anchor. */
  lemma NewPacketAfterAnchor(w: Worker, p: BufferedPacket)
    requires ReadyToStore(w) && Sorted(w.history.session.accepted + [p])
    requires w.buffer.packets == [] ==> w.syncClock.value.anchorTimestampMs == p.packet.capturedAtMs
    ensures w.syncClock.value.anchorTimestampMs <= p.packet.capturedAtMs
  {
    var accepted := w.history.session.accepted;
    SortedPrefix(accepted, p);
    if w.buffer.packets != [] {
      assert accepted[|accepted| - 1] == w.buffer.packets[|w.buffer.packets| - 1];
    }
  }

  lemma StoreKeepsLog(w: Worker, p: BufferedPacket, now: Instant)
    requires ReadyToStore(w) && FramesCounted(w.connection.value.stream, p)
    requires w.buffer.packets == [] ==> w.syncClock.value.anchorTimestampMs == p.packet.capturedAtMs
    ensures Ledger(Store(w, p, now))
  {
    var log, w' := w.history.session, Store(w, p, now);
    StoreBalances(w, p, now);
    if Sorted(log.accepted + [p]) {
      SortedPrefix(log.accepted, p);
      NewPacketAfterAnchor(w, p);
    }
  }

  lemma DeadlineMonotone(clock: SyncClock, earlier: u64, later: u64, targetBufferMs: u16)
    requires earlier <= later
    ensures WriteDeadline(clock, earlier, targetBufferMs) <= WriteDeadline(clock, later, targetBufferMs)
  {
  }

  /** Dropping the oldest packet moves the front to a packet that is not older. */
  lemma SecondAfterFront(w: Worker, p: BufferedPacket)
    requires w.buffer.packets != [] && Sorted(w.history.session.accepted + [p])
    requires w.history.session.accepted == Packets(w.history.session.removed) + w.buffer.packets
    ensures w.buffer.packets[0].packet.capturedAtMs <= (w.buffer.packets[1..] + [p])[0].packet.capturedAtMs
  {
    var accepted, n := w.history.session.accepted + [p], |w.history.session.removed|;
    assert accepted[n] == w.buffer.packets[0];
    assert accepted[n + 1] == (w.buffer.packets[1..] + [p])[0];
  }

  lemma StoreKeepsSchedule(w: Worker, p: BufferedPacket, now: Instant)
    requires ReadyToStore(w)
    ensures Scheduled(Store(w, p, now))
  {
    var packets, packets', accepted := w.buffer.packets, Store(w, p, now).buffer.packets, w.history.session.accepted;
    if w.nextDeadline.Some? && Sorted(accepted + [p]) {
      SortedPrefix(accepted, p);
      if BufferFull(w.buffer) {
        SecondAfterFront(w, p);
        DeadlineMonotone(w.syncClock.value, packets[0].packet.capturedAtMs, packets'[0].packet.capturedAtMs,
                         w.profile.targetBufferMs);
      } else {
        assert packets'[0] == packets[0];
      }
    }
  }

  lemma StoreKeeps(w: Worker, p: BufferedPacket, now: Instant)
    requires ReadyToStore(w) && FramesCounted(w.connection.value.stream, p)
    requires w.buffer.packets == [] ==> w.syncClock.value.anchorTimestampMs == p.packet.capturedAtMs
    ensures Inv(Store(w, p, now))
  {
    StoreKeepsLog(w, p, now);
    StoreKeepsSchedule(w, p, now);
  }

  lemma RearmKeeps(w: Worker)
    requires Inv(w) && w.connection.Some? && w.buffer.packets != []
    ensures Inv(Rearm(w))
  {
    AppendMark(w.history.marks, Ready(w.buffer));
  }

  lemma PacketKeeps(w: Worker, packet: Packet, now: Instant)
    requires Inv(w)
    ensures Inv(HandlePacket(w, packet, now))
  {
    if w.connection.Some? {
      var anchored := w.(
        syncClock := if w.syncClock.None? then Some(SyncClock(now, packet.capturedAtMs)) else w.syncClock,
        sync := w.sync.(
          lastSenderTimestampMs := Some(packet.capturedAtMs),
          lastSenderCaptureUnixMs := Some(packet.capturedAtUnixMs)));
      match FrameCount(packet, w.connection.value.stream)
      case None => SetErrorKeeps(anchored);
      case Some(frames) =>
        var p := BufferedPacket(packet, frames);
        StoreKeeps(anchored, p, now);
        RearmKeeps(Store(anchored, p, now));
    }
  }

  // ----- The scheduler -----

  /** Stale means more than the drop tolerance late, in whole milliseconds. */
  lemma StaleExactly(now: Instant, deadline: Instant, tolerance: nat)
    requires tolerance < I32_MAX
    ensures SignedDeltaMs(now, deadline) > tolerance <==> deadline + (tolerance + 1) * MILLISECOND <= now
  {
    if now >= deadline {
      Arithmetic.Divide(now - deadline, MILLISECOND);
    }
  }

  /** What holds at the head of every turn of the drain loop. */
  ghost predicate Draining(w: Worker) {
    && w.connection.Some? && w.sinkOpen && w.state in {Connected, Buffering, Playing}
    && IsPreset(w.profile) && w.syncClock.Some?
    && w.history.session.stream == w.connection.value.stream
    && SameShape(w.buffer, w.profile, w.connection.value.stream)
    && |w.buffer.packets| <= w.buffer.maxPackets
    && w.buffer.maxPackets > 0
    && w.sync.targetBufferMs == w.profile.targetBufferMs
    && (w.nextDeadline.Some? ==> w.buffer.packets != [])
    && (w.buffer.packets == [] ==> w.state == Playing)
    && Ledger(w)
    && WritesLogged(w)
    && ReadySince(w.history.marks, |w.history.marks|)
  }

  lemma PopKeepsLog(w: Worker, fate: Fate)
    requires Ledger(w) && w.syncClock.Some? && w.buffer.packets != []
    requires FateOnTime(w.profile, Removal(w.buffer.packets[0], fate))
    requires fate.Played? ==> fate.clock == w.syncClock.value
    ensures var h := PopFront(w, fate).history;
            && LogOk(w.profile, h.session)
            && h.session.accepted == Packets(h.session.removed) + w.buffer.packets[1..]
    ensures forall kind :: (Select(PopFront(w, fate).history.session.removed, kind)
         == if KindOf(fate) == kind then Select(w.history.session.removed, kind) + [w.buffer.packets[0]]
            else Select(w.history.session.removed, kind))
  {
    var removed, r := w.history.session.removed, Removal(w.buffer.packets[0], fate);
    forall kind ensures (Select(removed + [r], kind)
        == if KindOf(fate) == kind then Select(removed, kind) + [w.buffer.packets[0]] else Select(removed, kind))
    {
      SelectAppend(removed, r, kind);
    }
    SelectAppend(removed, r, WasPlayed);
    assert w.buffer.packets == [w.buffer.packets[0]] + w.buffer.packets[1..];
  }

  lemma DropLateKeeps(w: Worker, now: Instant)
    requires Draining(w) && w.buffer.packets != []
    requires FateOnTime(w.profile, Removal(w.buffer.packets[0], LateDropped(now, w.syncClock.value)))
    ensures Ledger(DropLate(w, now))
  {
    PopKeepsLog(w, LateDropped(now, w.syncClock.value));
  }

  lemma PlayKeeps(w: Worker, now: Instant, error: int)
    requires Draining(w) && w.buffer.packets != []
    requires FateOnTime(w.profile, Removal(w.buffer.packets[0], Played(now, w.syncClock.value)))
    ensures Draining(Play(w, now, error))
  {
    PopKeepsLog(w, Played(now, w.syncClock.value));
    AppendMark(w.history.marks, Wrote(w.buffer.packets[0]));
  }

  lemma UnwrittenKeeps(w: Worker)
    requires Draining(w) && w.buffer.packets != []
    ensures Inv(SetError(PopFront(w, Unwritten)))
  {
    PopKeepsLog(w, Unwritten);
    var popped := PopFront(w, Unwritten);
    assert Ledger(popped.(connection := None));
    SetErrorKeeps(popped.(connection := None));
    assert SetError(popped.(connection := None)) == SetError(popped);
  }

  lemma RecoverKeeps(w: Worker)
    requires Structural(w.(syncClock := None, nextDeadline := None)) && w.connection.Some? && w.buffer.packets == []
    requires Ledger(w) && WritesLogged(w)
    ensures Inv(Recover(w))
  {
    AppendMark(w.history.marks, Reset);
  }

  /** When the packet in front is to be written. */
  function FrontDeadline(w: Worker): Instant
    requires w.buffer.packets != [] && w.syncClock.Some?
  {
    WriteDeadline(w.syncClock.value, w.buffer.packets[0].packet.capturedAtMs, w.profile.targetBufferMs)
  }

  /** The worker once it has looked at the packet in front: its deadline is armed, the distance published. */
  function AtFront(w: Worker, now: Instant): Worker
    requires w.buffer.packets != [] && w.syncClock.Some?
  {
    w.(nextDeadline := Some(FrontDeadline(w)),
       sync := w.sync.(scheduleErrorMs := SignedDeltaMs(now, FrontDeadline(w))))
  }

  /** Each turn keeps the loop going in a draining state, or stops it in an invariant one. */
  lemma DrainTurnKeeps(w: Worker, reading: Reading)
    requires Draining(w)
    ensures var turn := DrainTurn(w, reading);
            if turn.Continue? then Draining(turn.next) else Inv(turn.final)
  {
    if w.buffer.packets == [] {
      RecoverKeeps(w.(state := Buffering, metrics := w.metrics.(underruns := w.metrics.underruns + 1)));
    } else {
      var deadline, scheduled := FrontDeadline(w), AtFront(w, reading.now);
      var error := SignedDeltaMs(reading.now, deadline);
      StaleExactly(reading.now, deadline, w.profile.latePacketDropMs);
      assert Draining(scheduled);
      if error > w.profile.latePacketDropMs {
        DropLateKeeps(scheduled, reading.now);
        if DropLate(scheduled, reading.now).buffer.packets == [] {
          RecoverKeeps(DropLate(scheduled, reading.now));
        }
      } else if reading.now < deadline {
      } else if !reading.sinkAccepts {
        UnwrittenKeeps(scheduled);
      } else {
        PlayKeeps(scheduled, reading.now, error);
      }
    }
  }

  lemma {:induction false} DrainLoopKeeps(w: Worker, env: nat -> Reading, turn: nat)
    requires Draining(w)
    ensures Inv(DrainLoop(w, env, turn))
    decreases |w.buffer.packets|
  {
    DrainTurnKeeps(w, env(turn));
    match DrainTurn(w, env(turn))
    case Stop(_) =>
    case Continue(next) => DrainLoopKeeps(next, env, turn + 1);
  }

  lemma DrainKeeps(w: Worker, env: nat -> Reading)
    requires Inv(w)
    ensures Inv(Drain(w, env))
  {
    if w.connection.Some? && w.syncClock.Some? {
      if w.nextDeadline.Some? {
        DrainLoopKeeps(w, env, 0);
      } else if BufferReady(w.buffer) {
        AppendMark(w.history.marks, Ready(w.buffer));
        DrainLoopKeeps(Marked(w, Ready(w.buffer)), env, 0);
      }
    }
  }

  // ----- Every run -----

  lemma StartHolds(profile: Profile, stream: StreamConfig)
    requires IsPreset(profile)
    ensures Inv(Started(profile, stream))
  {
    var w := Started(profile, stream);
    assert Packets([]) + w.buffer.packets == [];
    assert Balanced(w) && LogOk(profile, w.history.session);
  }

  lemma TimeoutKeeps(w: Worker, timeoutNow: Instant)
    requires Inv(w)
    ensures Inv(CheckTimeout(w, timeoutNow))
  {
    DisconnectKeeps(w, true);
  }

  lemma RefreshKeeps(w: Worker)
    requires Inv(w)
    ensures Inv(RefreshMetrics(w))
  {
  }

  lemma TickKeeps(w: Worker, env: nat -> Reading, timeoutNow: Instant)
    requires Inv(w)
    ensures Inv(OnTick(w, env, timeoutNow))
  {
    DrainKeeps(w, env);
    TimeoutKeeps(Drain(w, env), timeoutNow);
    RefreshKeeps(CheckTimeout(Drain(w, env), timeoutNow));
  }

  lemma TargetChangeKeeps(w: Worker, sinkStarts: bool)
    requires Inv(w)
    ensures Inv(HandleTargetChange(w, sinkStarts))
  {
  }

  lemma StepKeeps(w: Worker, command: Command)
    requires Inv(w)
    ensures Inv(Step(w, command))
  {
    match command
    case Connect(connection, sinkStarts, now) => ConnectKeeps(w, connection, sinkStarts, now);
    case AudioPacket(packet, now) => PacketKeeps(w, packet, now);
    case KeepAlive(_) =>
    case Disconnect(reconnectSuggested) => DisconnectKeeps(w, reconnectSuggested);
    case TransportError => SetErrorKeeps(w);
    case SetPlaybackTarget(sinkStarts) => TargetChangeKeeps(w, sinkStarts);
    case Tick(env, timeoutNow) => TickKeeps(w, env, timeoutNow);
  }

  /** Every state of every run, whatever the environment answers, satisfies the invariant. */
  lemma {:induction false} Reachable(profile: Profile, commands: seq<Command>)
    requires IsPreset(profile)
    ensures Inv(Run(profile, commands))
    decreases |commands|
  {
    if commands == [] {
      StartHolds(profile, DEFAULT_STREAM);
    } else {
      var earlier := commands[..|commands| - 1];
      Reachable(profile, earlier);
      StepKeeps(Run(profile, earlier), commands[|commands| - 1]);
    }
  }
}
