/**
 * One inbound session (crates/synchrosonic-transport/src/receiver.rs): the hello exchange, then
 * a loop that turns frames into transport events until the session ends.
 */
module ReceiverSessions {
  import opened Numbers
  import opened Options
  import opened LatencyProfiles
  import opened Framing
  import opened Messages
  import P = Playout

  datatype TransportEvent =
    | Connected(connection: P.Connection)
    | AudioArrived(packet: Packet)
    | KeptAlive
    | Disconnected(reconnectSuggested: bool)
    | Failed

  /** What the loop finds when it looks: a stop request, or the outcome of one frame read. */
  datatype Arrival =
    | StopRequested
    | GotFrame(frame: Frame)
    | TimedOut        // nothing arrived within the read timeout
    | PeerGone        // end of stream or connection reset
    | ReadFailure     // any other read error

  /** One turn: what arrived, whether the event callback succeeds, whether a reply can be written. */
  datatype Turn = Turn(arrival: Arrival, callbackOk: bool, replyOk: bool)

  datatype Phase = AwaitingHello | Active | Ended

  datatype Session = Session(phase: Phase, events: seq<TransportEvent>, replies: seq<FrameKind>)

  const NEW_SESSION := Session(AwaitingHello, [], [])

  function PacketFor(message: AudioMessage, payload: seq<byte>): Packet {
    Packet(message.sequence, message.capturedAtMs, message.capturedAtUnixMs, payload)
  }

  function ConnectionFor(hello: HelloMessage): P.Connection {
    P.Connection(hello.sessionId, hello.stream, hello.targetLatencyMs)
  }

  /** Hand an event to the callback; if it refuses, the session is over. */
  function Emit(s: Session, event: TransportEvent, turn: Turn, next: Phase): Session {
    if turn.callbackOk then s.(events := s.events + [event], phase := next) else s.(phase := Ended)
  }

  function Reply(s: Session, kind: FrameKind, turn: Turn): Session {
    if turn.replyOk then s.(replies := s.replies + [kind]) else s
  }

  function Step(m: Metadata, s: Session, turn: Turn): Session {
    match s.phase
    case Ended => s
    case AwaitingHello =>
      if !turn.arrival.GotFrame? then s.(phase := Ended)
      else if turn.arrival.frame.kind != Hello then Reply(s, Error, turn).(phase := Ended)
      else
        (match m.decodeHello(turn.arrival.frame.metadata)
         case None => s.(phase := Ended)
         case Some(hello) =>
           if ValidateHello(hello).Some? || !turn.replyOk then s.(phase := Ended)
           else Emit(Reply(s, Accept, turn), Connected(ConnectionFor(hello)), turn, Active))
    case Active =>
      match turn.arrival
      case StopRequested => Reply(s, Stop, turn).(phase := Ended)
      case TimedOut => s
      case PeerGone => Emit(s, Disconnected(true), turn, Ended)
      case ReadFailure => Reply(Emit(s, Failed, turn, Ended), Error, turn)
      case GotFrame(frame) => ActiveFrame(m, s, frame, turn)
  }

  function ActiveFrame(m: Metadata, s: Session, frame: Frame, turn: Turn): Session {
    match frame.kind
    case Audio =>
      (match m.decodeAudio(frame.metadata)
       case None => s.(phase := Ended)
       case Some(message) => Emit(s, AudioArrived(PacketFor(message, frame.payload)), turn, Active))
    case Heartbeat =>
      if m.decodeHeartbeat(frame.metadata).None? then s.(phase := Ended)
      else
        var alive := Emit(s, KeptAlive, turn, Active);
        if alive.phase.Ended? then alive
        else if turn.replyOk then Reply(alive, HeartbeatAck, turn)
        else alive.(phase := Ended)
    case Stop =>
      if m.decodeStop(frame.metadata).None? then s.(phase := Ended)
      else Emit(s, Disconnected(false), turn, Ended)
    case Error =>
      if m.decodeError(frame.metadata).None? then s.(phase := Ended)
      else Emit(s, Failed, turn, Ended)
    case _ => Reply(s, Error, turn).(phase := Ended)
  }

  function Run(m: Metadata, turns: seq<Turn>): Session {
    if turns == [] then NEW_SESSION
    else Step(m, Run(m, turns[..|turns| - 1]), turns[|turns| - 1])
  }

  // ----- The trace grammar -----

  predicate IsFlow(e: TransportEvent) { e.AudioArrived? || e.KeptAlive? }

  predicate IsFinal(e: TransportEvent) { e.Disconnected? || e.Failed? }

  /** empty, or Connected (AudioArrived | KeptAlive)* (Disconnected | Failed)? */
  ghost predicate Grammatical(events: seq<TransportEvent>) {
    events != [] ==>
      && events[0].Connected?
      && (forall i | 1 <= i < |events| - 1 :: IsFlow(events[i]))
      && (|events| > 1 ==> IsFlow(events[|events| - 1]) || IsFinal(events[|events| - 1]))
  }

  ghost predicate Open(events: seq<TransportEvent>) {
    events != [] && events[0].Connected? && forall i | 1 <= i < |events| :: IsFlow(events[i])
  }

  ghost predicate SessionInv(s: Session) {
    && Grammatical(s.events)
    && (s.phase.AwaitingHello? ==> s.events == [])
    && (s.phase.Active? ==> Open(s.events))
  }

  lemma StepKeeps(m: Metadata, s: Session, turn: Turn)
    requires SessionInv(s)
    ensures SessionInv(Step(m, s, turn))
    ensures s.events <= Step(m, s, turn).events
  {
  }

  /** Every session's events follow the grammar, whatever arrives and whoever fails. */
  lemma {:induction false} TraceGrammar(m: Metadata, turns: seq<Turn>)
    ensures SessionInv(Run(m, turns))
  {
    if turns != [] {
      TraceGrammar(m, turns[..|turns| - 1]);
      StepKeeps(m, Run(m, turns[..|turns| - 1]), turns[|turns| - 1]);
    }
  }

  // ----- What the events carry -----

  function FramesRead(turns: seq<Turn>): seq<Frame> {
    if turns == [] then []
    else
      var earlier, last := FramesRead(turns[..|turns| - 1]), turns[|turns| - 1].arrival;
      if last.GotFrame? then earlier + [last.frame] else earlier
  }

  /** The packets of the audio frames whose metadata decodes. */
  function AudioIn(m: Metadata, frames: seq<Frame>): seq<Packet> {
    if frames == [] then []
    else
      var earlier, last := AudioIn(m, frames[..|frames| - 1]), frames[|frames| - 1];
      if AudioOf(m, last).None? then earlier else earlier + [AudioOf(m, last).value]
  }

  function AudioEvents(events: seq<TransportEvent>): seq<Packet> {
    if events == [] then []
    else
      var earlier, last := AudioEvents(events[..|events| - 1]), events[|events| - 1];
      if last.AudioArrived? then earlier + [last.packet] else earlier
  }

  lemma {:induction false} AudioInAppend(m: Metadata, frames: seq<Frame>, f: Frame)
    ensures AudioIn(m, frames + [f])
         == if AudioOf(m, f).None? then AudioIn(m, frames) else AudioIn(m, frames) + [AudioOf(m, f).value]
  {
    assert (frames + [f])[..|frames|] == frames;
  }

  lemma {:induction false} AudioEventsAppend(events: seq<TransportEvent>, e: TransportEvent)
    ensures AudioEvents(events + [e])
         == if e.AudioArrived? then AudioEvents(events) + [e.packet] else AudioEvents(events)
  {
    assert (events + [e])[..|events|] == events;
  }

  /** While it runs the session has forwarded every audio frame it read; once ended, a prefix of them. */
  ghost predicate Forwarded(m: Metadata, s: Session, frames: seq<Frame>) {
    && AudioEvents(s.events) <= AudioIn(m, frames)
    && (s.phase.AwaitingHello? ==> frames == [])
    && (s.phase.Active? ==> AudioEvents(s.events) == AudioIn(m, frames))
  }

  function AudioOf(m: Metadata, f: Frame): Option<Packet> {
    if f.kind != Audio || m.decodeAudio(f.metadata).None? then None
    else Some(PacketFor(m.decodeAudio(f.metadata).value, f.payload))
  }

  /** A turn adds at most one event, and an audio event is the packet of the frame just read. */
  lemma StepEvents(m: Metadata, s: Session, turn: Turn)
    ensures var s' := Step(m, s, turn);
            && s.events <= s'.events
            && |s'.events| <= |s.events| + 1
            && (s'.phase.AwaitingHello? ==> s' == s && !turn.arrival.GotFrame?)
            && (|s'.events| > |s.events| && s'.events[|s.events|].AudioArrived? ==>
                  s.phase.Active? && turn.arrival.GotFrame?
                  && AudioOf(m, turn.arrival.frame) == Some(s'.events[|s.events|].packet))
            && (s'.phase.Active? && s.phase.Active?
                && turn.arrival.GotFrame? && AudioOf(m, turn.arrival.frame).Some? ==>
                  s'.events == s.events + [AudioArrived(AudioOf(m, turn.arrival.frame).value)])
            && (s'.phase.Active? && turn.arrival.GotFrame? && !s.phase.Active? ==> AudioOf(m, turn.arrival.frame).None?)
            && (s'.phase.Active? && !s.phase.Active? ==> s.phase.AwaitingHello? && turn.arrival.GotFrame?)
  {
  }

  lemma {:induction false} StepForwards(m: Metadata, s: Session, turn: Turn, frames: seq<Frame>)
    requires Forwarded(m, s, frames)
    ensures Forwarded(m, Step(m, s, turn), if turn.arrival.GotFrame? then frames + [turn.arrival.frame] else frames)
  {
    var s' := Step(m, s, turn);
    StepEvents(m, s, turn);
    if turn.arrival.GotFrame? {
      AudioInAppend(m, frames, turn.arrival.frame);
    }
    if |s'.events| > |s.events| {
      assert s'.events == s.events + [s'.events[|s.events|]];
      AudioEventsAppend(s.events, s'.events[|s.events|]);
    } else {
      assert s'.events == s.events;
    }
  }

  /** The packets a session hands on are the audio frames it read, in order and unaltered, up to where it ended. */
  lemma {:induction false} SessionForwardsAudio(m: Metadata, turns: seq<Turn>)
    ensures Forwarded(m, Run(m, turns), FramesRead(turns))
  {
    if turns != [] {
      var earlier := turns[..|turns| - 1];
      SessionForwardsAudio(m, earlier);
      StepForwards(m, Run(m, earlier), turns[|turns| - 1], FramesRead(earlier));
    }
  }

  // ----- The loops -----

  /** The session loop; it stops reading as soon as the session has ended. */
  method HandleReceiverSession(m: Metadata, turns: seq<Turn>) returns (s: Session)
    ensures s == Run(m, turns)
    ensures SessionInv(s)
  {
    s := NEW_SESSION;
    var i := 0;
    while i < |turns| && s.phase != Ended
      invariant 0 <= i <= |turns|
      invariant s == Run(m, turns[..i])
    {
      assert turns[..i + 1][..i] == turns[..i];
      s := Step(m, s, turns[i]);
      i := i + 1;
    }
    EndedStays(m, turns, i);
    TraceGrammar(m, turns);
  }

  lemma {:induction false} EndedStays(m: Metadata, turns: seq<Turn>, i: nat)
    requires i <= |turns| && (Run(m, turns[..i]).phase.Ended? || i == |turns|)
    ensures Run(m, turns) == Run(m, turns[..i])
    decreases |turns|
  {
    if i == |turns| {
      assert turns[..i] == turns;
    } else {
      var earlier := turns[..|turns| - 1];
      assert earlier[..i] == turns[..i];
      EndedStays(m, earlier, i);
    }
  }

  /** The event traces of consecutive sessions. */
  function SessionTraces(m: Metadata, sessions: seq<seq<Turn>>): (traces: seq<seq<TransportEvent>>)
    ensures |traces| == |sessions|
  {
    seq(|sessions|, i requires 0 <= i < |sessions| => Run(m, sessions[i]).events)
  }

  function Concat(parts: seq<seq<TransportEvent>>): seq<TransportEvent> {
    if parts == [] then [] else Concat(parts[..|parts| - 1]) + parts[|parts| - 1]
  }

  /**
   * The listener accepts the next connection only after the previous session has ended: its
   * trace is whole, grammatical session traces one after the other.
   */
  method ReceiverListenerLoop(m: Metadata, sessions: seq<seq<Turn>>) returns (events: seq<TransportEvent>)
    ensures events == Concat(SessionTraces(m, sessions))
    ensures forall trace | trace in SessionTraces(m, sessions) :: Grammatical(trace)
  {
    events := [];
    for i := 0 to |sessions|
      invariant events == Concat(SessionTraces(m, sessions[..i]))
      invariant forall trace | trace in SessionTraces(m, sessions[..i]) :: Grammatical(trace)
    {
      var s := HandleReceiverSession(m, sessions[i]);
      assert SessionTraces(m, sessions[..i + 1]) == SessionTraces(m, sessions[..i]) + [s.events];
      assert (SessionTraces(m, sessions[..i]) + [s.events])[..i] == SessionTraces(m, sessions[..i]);
      events := events + s.events;
    }
    assert sessions[..|sessions|] == sessions;
  }
}
