/**
 * How long an inbound session lasts and all that it does meanwhile: for every sequence of arrivals,
 * its events and replies as lists, and the one turn that ends it.
 */
module SessionLife {
  import opened LatencyProfiles
  import opened Framing
  import opened Messages
  import opened ReceiverSessions

  // ----- What keeps a session going -----

  /** The frame that opens a session: a hello of this protocol version that asks for a codec it offers. */
  predicate IsGoodHello(m: Metadata, frame: Frame) {
    && frame.kind == Hello && m.decodeHello(frame.metadata).Some?
    && var hello := m.decodeHello(frame.metadata).value;
       hello.protocolVersion == 1 && hello.desiredCodec == RawPcm && RawPcm in hello.supportedCodecs
  }

  predicate Opens(m: Metadata, turn: Turn) {
    turn.arrival.GotFrame? && IsGoodHello(m, turn.arrival.frame) && turn.replyOk && turn.callbackOk
  }

  predicate IsAudio(m: Metadata, turn: Turn) {
    && turn.arrival.GotFrame? && turn.arrival.frame.kind == Audio
    && m.decodeAudio(turn.arrival.frame.metadata).Some?
  }

  predicate IsHeartbeat(m: Metadata, turn: Turn) {
    && turn.arrival.GotFrame? && turn.arrival.frame.kind == Heartbeat
    && m.decodeHeartbeat(turn.arrival.frame.metadata).Some?
  }

  /** Silence, audio that is handed on, or a heartbeat that is handed on and answered. */
  predicate GoesOn(m: Metadata, turn: Turn) {
    || turn.arrival.TimedOut?
    || (IsAudio(m, turn) && turn.callbackOk)
    || (IsHeartbeat(m, turn) && turn.callbackOk && turn.replyOk)
  }

  /** The packets and signs of life that turns which go on bring. */
  function Flow(m: Metadata, turns: seq<Turn>): seq<TransportEvent> {
    if turns == [] then []
    else
      var earlier, last := Flow(m, turns[..|turns| - 1]), turns[|turns| - 1];
      if IsAudio(m, last) then
        var message := m.decodeAudio(last.arrival.frame.metadata).value;
        earlier + [AudioArrived(Packet(message.sequence, message.capturedAtMs, message.capturedAtUnixMs,
                                       last.arrival.frame.payload))]
      else if IsHeartbeat(m, last) then earlier + [KeptAlive]
      else earlier
  }

  function Heartbeats(m: Metadata, turns: seq<Turn>): nat {
    if turns == [] then 0
    else Heartbeats(m, turns[..|turns| - 1]) + if IsHeartbeat(m, turns[|turns| - 1]) then 1 else 0
  }

  function Acks(n: nat): (acks: seq<FrameKind>)
    ensures |acks| == n
  {
    seq(n, i => HeartbeatAck)
  }

  function ConnectionOf(m: Metadata, frame: Frame): TransportEvent
    requires m.decodeHello(frame.metadata).Some?
  {
    var hello := m.decodeHello(frame.metadata).value;
    Connected(P.Connection(hello.sessionId, hello.stream, hello.targetLatencyMs))
  }

  /** The session that has been opened by the first turn and kept going by all others. */
  function Lively(m: Metadata, turns: seq<Turn>): Session
    requires turns != [] && Opens(m, turns[0])
  {
    Session(Active, [ConnectionOf(m, turns[0].arrival.frame)] + Flow(m, turns[1..]),
            [Accept] + Acks(Heartbeats(m, turns[1..])))
  }

  ghost predicate KeepsGoing(m: Metadata, turns: seq<Turn>) {
    turns != [] && Opens(m, turns[0]) && forall i | 1 <= i < |turns| :: GoesOn(m, turns[i])
  }

  lemma OpeningStep(m: Metadata, turn: Turn)
    ensures Step(m, NEW_SESSION, turn).phase.Active? <==> Opens(m, turn)
    ensures Opens(m, turn) ==>
              Step(m, NEW_SESSION, turn) == Session(Active, [ConnectionOf(m, turn.arrival.frame)], [Accept])
    ensures !Step(m, NEW_SESSION, turn).phase.AwaitingHello?
    ensures !Opens(m, turn) ==> Step(m, NEW_SESSION, turn).events == []
  {
  }

  lemma ActiveStep(m: Metadata, s: Session, turn: Turn)
    requires s.phase.Active?
    ensures Step(m, s, turn).phase.Active? <==> GoesOn(m, turn)
    ensures GoesOn(m, turn) ==>
              && Step(m, s, turn).events == s.events + Flow(m, [turn])
              && Step(m, s, turn).replies == s.replies + Acks(Heartbeats(m, [turn]))
  {
    assert [turn][..0] == [];
    assert Flow(m, [turn][..0]) == [] && Heartbeats(m, [turn][..0]) == 0;
    assert Acks(0) == [] && Acks(1) == [HeartbeatAck];
  }

  lemma {:induction false} FlowMore(m: Metadata, turns: seq<Turn>, last: Turn)
    ensures Flow(m, turns + [last]) == Flow(m, turns) + Flow(m, [last])
    ensures Acks(Heartbeats(m, turns + [last])) == Acks(Heartbeats(m, turns)) + Acks(Heartbeats(m, [last]))
  {
    assert (turns + [last])[..|turns|] == turns && [last][..0] == [];
    assert Flow(m, [last][..0]) == [] && Heartbeats(m, [last][..0]) == 0;
  }

  /**
   * A session is still active if and only if it was opened by a good hello and every later turn kept
   * it going; and then it has announced the connection, handed on every packet and heartbeat in
   * order, accepted once, and answered each heartbeat.
   */
  lemma {:induction false} ActiveExactly(m: Metadata, turns: seq<Turn>)
    ensures Run(m, turns).phase.Active? <==> KeepsGoing(m, turns)
    ensures KeepsGoing(m, turns) ==> Run(m, turns) == Lively(m, turns)
    ensures Run(m, turns).phase.AwaitingHello? <==> turns == []
    decreases |turns|
  {
    if turns == [] {
    } else {
      var earlier, last := turns[..|turns| - 1], turns[|turns| - 1];
      ActiveExactly(m, earlier);
      if earlier == [] {
        assert turns == [last] && turns[1..] == [] && Acks(0) == [];
        OpeningStep(m, last);
      } else {
        assert earlier[0] == turns[0];
        if Run(m, earlier).phase.Active? {
          ActiveStep(m, Run(m, earlier), last);
          LivelyMore(m, turns);
        }
      }
    }
  }

  lemma {:induction false} LivelyMore(m: Metadata, turns: seq<Turn>)
    requires |turns| > 1 && Opens(m, turns[0])
    ensures var earlier, last := turns[..|turns| - 1], turns[|turns| - 1];
            && Lively(m, turns).events == Lively(m, earlier).events + Flow(m, [last])
            && Lively(m, turns).replies == Lively(m, earlier).replies + Acks(Heartbeats(m, [last]))
  {
    var earlier, last := turns[..|turns| - 1], turns[|turns| - 1];
    assert turns[1..] == earlier[1..] + [last];
    FlowMore(m, earlier[1..], last);
  }

  // ----- How it ends -----

  /** What is reported when the session ends: that the peer is gone, has stopped, or has failed; or nothing. */
  function LastWords(m: Metadata, turn: Turn): seq<TransportEvent> {
    match turn.arrival
    case PeerGone => if turn.callbackOk then [Disconnected(true)] else []
    case ReadFailure => if turn.callbackOk then [Failed] else []
    case GotFrame(frame) =>
      if frame.kind == Stop && m.decodeStop(frame.metadata).Some? && turn.callbackOk then [Disconnected(false)]
      else if frame.kind == Error && m.decodeError(frame.metadata).Some? && turn.callbackOk then [Failed]
      else if IsHeartbeat(m, turn) && turn.callbackOk then [KeptAlive]   // handed on, but not answered
      else []
    case _ => []
  }

  /** What the peer is told: a stop, an error for what it should not have sent, or nothing. */
  function LastReply(turn: Turn): seq<FrameKind> {
    if !turn.replyOk then []
    else
      match turn.arrival
      case StopRequested => [Stop]
      case ReadFailure => [Error]
      case GotFrame(frame) => if frame.kind in {Hello, Accept, HeartbeatAck} then [Error] else []
      case _ => []
  }

  lemma EndingStep(m: Metadata, s: Session, turn: Turn)
    requires s.phase.Active? && !GoesOn(m, turn)
    ensures Step(m, s, turn) == Session(Ended, s.events + LastWords(m, turn), s.replies + LastReply(turn))
  {
  }

  /**
   * The first turn that does not keep the session going ends it, with its last words, and nothing
   * that comes later is looked at.
   */
  lemma {:induction false} EndsExactly(m: Metadata, turns: seq<Turn>, n: nat)
    requires n < |turns| && KeepsGoing(m, turns[..n]) && !GoesOn(m, turns[n])
    ensures Run(m, turns) == Session(Ended, Lively(m, turns[..n]).events + LastWords(m, turns[n]),
                                     Lively(m, turns[..n]).replies + LastReply(turns[n]))
  {
    ActiveExactly(m, turns[..n]);
    assert turns[..n + 1][..n] == turns[..n];
    EndingStep(m, Run(m, turns[..n]), turns[n]);
    EndedStays(m, turns, n + 1);
  }

  /** What the peer is told in place of a session: nothing it cares for, or an accept that came to nothing. */
  function RefusalReply(m: Metadata, turn: Turn): seq<FrameKind> {
    if !turn.replyOk || !turn.arrival.GotFrame? then []
    else if turn.arrival.frame.kind != Hello then [Error]
    else if IsGoodHello(m, turn.arrival.frame) then [Accept]   // the callback did not take the connection
    else []
  }

  /** A connection whose first turn opens no session is over with it, and nothing is reported. */
  lemma {:induction false} RefusedExactly(m: Metadata, turns: seq<Turn>)
    requires turns != [] && !Opens(m, turns[0])
    ensures Run(m, turns) == Session(Ended, [], RefusalReply(m, turns[0]))
  {
    assert turns[..1][..0] == [] && turns[..1] == [turns[0]];
    assert Run(m, turns[..1]) == Step(m, NEW_SESSION, turns[0]);
    EndedStays(m, turns, 1);
  }
}
