/** The writer thread of one target branch (crates/synchrosonic-transport/src/sender.rs, network_writer_loop). */
module NetworkWriters {
  import opened Numbers
  import opened Options
  import opened Subsequences
  import opened LatencyProfiles
  import opened Framing
  import opened Messages
  import opened ReceiverSessions

  datatype FanoutAudioFrame = FanoutAudioFrame(
    sequence: u64, capturedAtMs: u64, capturedAtUnixMs: u64, payload: seq<byte>)

  /** The packet a receiver should end up with for a captured frame. */
  function ToPacket(f: FanoutAudioFrame): Packet {
    Packet(f.sequence, f.capturedAtMs, f.capturedAtUnixMs, f.payload)
  }

  function AudioFrame(m: Metadata, f: FanoutAudioFrame): Frame {
    Frame(Audio, m.encodeAudio(AudioMessage(f.sequence, f.capturedAtMs, f.capturedAtUnixMs)), f.payload)
  }

  /** What the loop picks up in one go, and whether the socket and the event channel still work. */
  datatype Work =
    | SendHeartbeat(nonce: u64)
    | SendStop(reason: string)
    | Shutdown
    | SendAudio(frame: FanoutAudioFrame)
    | NothingToDo

  datatype WriterTurn = WriterTurn(work: Work, socketOk: bool, eventOk: bool)

  /** `wire` lists the frames whose bytes went to the socket; a failing socket may cut the last one short. */
  datatype Writer = Writer(wire: seq<Frame>, stopped: bool)

  /** The frame a turn puts on the wire: none for idling, shutting down or an oversized message. */
  function FrameFor(m: Metadata, work: Work): (frame: Option<Frame>)
    ensures frame.Some? ==> InLimits(frame.value)
  {
    match work
    case SendHeartbeat(nonce) => Checked(Frame(Heartbeat, m.encodeHeartbeat(nonce), []))
    case SendStop(reason) => Checked(Frame(Stop, m.encodeStop(reason), []))
    case SendAudio(frame) => Checked(AudioFrame(m, frame))
    case _ => None
  }

  function Checked(frame: Frame): Option<Frame> {
    if InLimits(frame) then Some(frame) else None
  }

  function WriterStep(m: Metadata, w: Writer, turn: WriterTurn): Writer {
    if w.stopped || turn.work.NothingToDo? then w
    else
      match FrameFor(m, turn.work)
      case None => w.(stopped := true)
      case Some(frame) => Writer(w.wire + [frame], turn.work.SendStop? || !turn.socketOk || !turn.eventOk)
  }

  function WriterRun(m: Metadata, turns: seq<WriterTurn>): Writer {
    if turns == [] then Writer([], false)
    else WriterStep(m, WriterRun(m, turns[..|turns| - 1]), turns[|turns| - 1])
  }

  /** The frames the loop took from its branch queue. */
  function FramesTaken(turns: seq<WriterTurn>): seq<FanoutAudioFrame> {
    if turns == [] then []
    else
      var earlier, work := FramesTaken(turns[..|turns| - 1]), turns[|turns| - 1].work;
      if work.SendAudio? then earlier + [work.frame] else earlier
  }

  /** What is on the wire is in the limits, and its audio is a prefix of what was taken from the queue. */
  ghost predicate WroteInOrder(m: Metadata, w: Writer, taken: seq<FanoutAudioFrame>) {
    && AllInLimits(w.wire)
    && AudioIn(m, w.wire) <= MapSeq(ToPacket, taken)
    && (!w.stopped ==> AudioIn(m, w.wire) == MapSeq(ToPacket, taken))
  }

  lemma {:induction false} MapSeqAppend(taken: seq<FanoutAudioFrame>, f: FanoutAudioFrame)
    ensures MapSeq(ToPacket, taken + [f]) == MapSeq(ToPacket, taken) + [ToPacket(f)]
  {
  }

  lemma AudioSurvives(m: Metadata, f: FanoutAudioFrame)
    requires Faithful(m)
    ensures AudioOf(m, AudioFrame(m, f)) == Some(ToPacket(f))
    ensures InLimits(AudioFrame(m, f)) <==> |f.payload| <= MAX_PAYLOAD_BYTES
  {
    var message := AudioMessage(f.sequence, f.capturedAtMs, f.capturedAtUnixMs);
    assert m.decodeAudio(m.encodeAudio(message)) == Some(message);
  }

  lemma {:induction false} WriterStepKeeps(m: Metadata, w: Writer, turn: WriterTurn, taken: seq<FanoutAudioFrame>)
    requires Faithful(m) && WroteInOrder(m, w, taken)
    ensures WroteInOrder(m, WriterStep(m, w, turn), if turn.work.SendAudio? then taken + [turn.work.frame] else taken)
  {
    var w' := WriterStep(m, w, turn);
    if turn.work.SendAudio? {
      MapSeqAppend(taken, turn.work.frame);
      AudioSurvives(m, turn.work.frame);
    }
    if |w'.wire| > |w.wire| {
      AudioInAppend(m, w.wire, w'.wire[|w.wire|]);
      assert w'.wire == w.wire + [w'.wire[|w.wire|]];
    }
  }

  /** The writer puts the queue's frames on the wire in order, none skipped before the first failure. */
  lemma {:induction false} WriterKeepsOrder(m: Metadata, turns: seq<WriterTurn>)
    requires Faithful(m)
    ensures WroteInOrder(m, WriterRun(m, turns), FramesTaken(turns))
  {
    if turns != [] {
      var earlier := turns[..|turns| - 1];
      WriterKeepsOrder(m, earlier);
      WriterStepKeeps(m, WriterRun(m, earlier), turns[|turns| - 1], FramesTaken(earlier));
    } else {
      assert MapSeq(ToPacket, []) == [];
    }
  }

  // ----- How long it writes -----

  predicate Fits(metadata: seq<byte>, payload: seq<byte>) {
    |metadata| <= 8 * 1024 && |payload| <= 256 * 1024
  }

  /** A turn after which the writer goes on: nothing to do, or a heartbeat or a packet that fits and gets out. */
  predicate WritesOn(m: Metadata, turn: WriterTurn) {
    match turn.work
    case NothingToDo => true
    case SendHeartbeat(nonce) => Fits(m.encodeHeartbeat(nonce), []) && turn.socketOk && turn.eventOk
    case SendAudio(f) =>
      && Fits(m.encodeAudio(AudioMessage(f.sequence, f.capturedAtMs, f.capturedAtUnixMs)), f.payload)
      && turn.socketOk && turn.eventOk
    case _ => false
  }

  /** The frames of turns that go on: each heartbeat and each packet, in order. */
  function Sent(m: Metadata, turns: seq<WriterTurn>): seq<Frame> {
    if turns == [] then []
    else
      var earlier := Sent(m, turns[..|turns| - 1]);
      match turns[|turns| - 1].work
      case SendHeartbeat(nonce) => earlier + [Frame(Heartbeat, m.encodeHeartbeat(nonce), [])]
      case SendAudio(f) =>
        earlier + [Frame(Audio, m.encodeAudio(AudioMessage(f.sequence, f.capturedAtMs, f.capturedAtUnixMs)), f.payload)]
      case _ => earlier
  }

  /** What is still written in the turn that ends the loop: a stop, or what could not be written or reported. */
  function LastSent(m: Metadata, turn: WriterTurn): seq<Frame> {
    match turn.work
    case SendStop(reason) => if Fits(m.encodeStop(reason), []) then [Frame(Stop, m.encodeStop(reason), [])] else []
    case SendHeartbeat(nonce) => if Fits(m.encodeHeartbeat(nonce), []) then Sent(m, [turn]) else []
    case SendAudio(f) =>
      if Fits(m.encodeAudio(AudioMessage(f.sequence, f.capturedAtMs, f.capturedAtUnixMs)), f.payload)
      then Sent(m, [turn]) else []
    case _ => []
  }

  lemma WriterStepExactly(m: Metadata, w: Writer, turn: WriterTurn)
    requires !w.stopped
    ensures WriterStep(m, w, turn)
         == if WritesOn(m, turn) then Writer(w.wire + Sent(m, [turn]), false)
            else Writer(w.wire + LastSent(m, turn), true)
  {
    assert [turn][..0] == [] && Sent(m, [turn][..0]) == [];
    assert w.wire + [] == w.wire;
  }

  lemma {:induction false} SentMore(m: Metadata, turns: seq<WriterTurn>, last: WriterTurn)
    ensures Sent(m, turns + [last]) == Sent(m, turns) + Sent(m, [last])
  {
    assert (turns + [last])[..|turns|] == turns && [last][..0] == [];
    assert Sent(m, [last][..0]) == [];
  }

  /** The writer is still at work if and only if every turn let it go on, and then everything is on the wire. */
  lemma {:induction false} WritingExactly(m: Metadata, turns: seq<WriterTurn>)
    ensures !WriterRun(m, turns).stopped <==> forall i | 0 <= i < |turns| :: WritesOn(m, turns[i])
    ensures !WriterRun(m, turns).stopped ==> WriterRun(m, turns).wire == Sent(m, turns)
  {
    if turns != [] {
      var earlier, last := turns[..|turns| - 1], turns[|turns| - 1];
      WritingExactly(m, earlier);
      assert turns == earlier + [last];
      SentMore(m, earlier, last);
      if !WriterRun(m, earlier).stopped {
        WriterStepExactly(m, WriterRun(m, earlier), last);
      }
    }
  }

  /** The first turn that does not let the writer go on ends the loop, and with it what is written. */
  lemma {:induction false} WritingEndsExactly(m: Metadata, turns: seq<WriterTurn>, n: nat)
    requires n < |turns| && !WritesOn(m, turns[n]) && forall i | 0 <= i < n :: WritesOn(m, turns[i])
    ensures WriterRun(m, turns) == Writer(Sent(m, turns[..n]) + LastSent(m, turns[n]), true)
  {
    WritingExactly(m, turns[..n]);
    assert turns[..n + 1][..n] == turns[..n];
    WriterStepExactly(m, WriterRun(m, turns[..n]), turns[n]);
    StoppedStays(m, turns, n + 1);
  }

  function Bytes(frame: Option<Frame>): seq<byte>
    requires frame.Some? ==> InLimits(frame.value)
  {
    if frame.None? then [] else Encode(frame.value)
  }

  lemma {:induction false} EncodeOneMore(wire: seq<Frame>, frame: Option<Frame>)
    requires AllInLimits(wire) && (frame.Some? ==> InLimits(frame.value))
    ensures var wire' := if frame.None? then wire else wire + [frame.value];
            AllInLimits(wire') && EncodeAll(wire') == EncodeAll(wire) + Bytes(frame)
  {
    if frame.Some? {
      EncodeAllConcat(wire, [frame.value]);
      assert EncodeAll([frame.value]) == Encode(frame.value) + EncodeAll([]);
    }
  }

  /** The loop itself, writing bytes: what it wrote is the encoding of the frames above. */
  method NetworkWriterLoop(m: Metadata, turns: seq<WriterTurn>, socket: FrameWriter) returns (stopped: bool)
    modifies socket
    ensures stopped == WriterRun(m, turns).stopped
    ensures AllInLimits(WriterRun(m, turns).wire)
    ensures socket.written == old(socket.written) + EncodeAll(WriterRun(m, turns).wire)
  {
    stopped := false;
    var i := 0;
    ghost var w := Writer([], false);
    assert old(socket.written) + EncodeAll([]) == old(socket.written);
    while i < |turns| && !stopped
      invariant 0 <= i <= |turns|
      invariant w == WriterRun(m, turns[..i]) && stopped == w.stopped
      invariant AllInLimits(w.wire) && socket.written == old(socket.written) + EncodeAll(w.wire)
    {
      assert turns[..i + 1][..i] == turns[..i];
      stopped := NetworkWriterTurn(m, turns[i], socket, w, old(socket.written));
      w := WriterStep(m, w, turns[i]);
      i := i + 1;
    }
    StoppedStays(m, turns, i);
  }

  method NetworkWriterTurn(m: Metadata, turn: WriterTurn, socket: FrameWriter, ghost w: Writer, ghost before: seq<byte>)
    returns (stopped: bool)
    requires !w.stopped && AllInLimits(w.wire) && socket.written == before + EncodeAll(w.wire)
    modifies socket
    ensures var w' := WriterStep(m, w, turn);
            && AllInLimits(w'.wire) && stopped == w'.stopped
            && socket.written == before + EncodeAll(w'.wire)
  {
    StepWrites(m, w, turn);
    stopped := HandleWork(m, turn, socket);
    Associative(before, EncodeAll(w.wire), Bytes(FrameFor(m, turn.work)));
  }

  lemma StepWrites(m: Metadata, w: Writer, turn: WriterTurn)
    requires !w.stopped && AllInLimits(w.wire)
    ensures var w' := WriterStep(m, w, turn);
            && AllInLimits(w'.wire)
            && EncodeAll(w'.wire) == EncodeAll(w.wire) + Bytes(FrameFor(m, turn.work))
            && w'.stopped == WriterStep(m, Writer([], false), turn).stopped
  {
    EncodeOneMore(w.wire, FrameFor(m, turn.work));
  }

  method HandleWork(m: Metadata, turn: WriterTurn, socket: FrameWriter) returns (stopped: bool)
    modifies socket
    ensures socket.written == old(socket.written) + Bytes(FrameFor(m, turn.work))
    ensures stopped == WriterStep(m, Writer([], false), turn).stopped
  {
    match turn.work
    case SendHeartbeat(nonce) =>
      stopped := SendFrame(Frame(Heartbeat, m.encodeHeartbeat(nonce), []), turn, socket);
    case SendStop(reason) =>
      var _ := SendFrame(Frame(Stop, m.encodeStop(reason), []), turn, socket);
      stopped := true;
    case Shutdown => stopped := true;
    case SendAudio(frame) => stopped := SendFrame(AudioFrame(m, frame), turn, socket);
    case NothingToDo => stopped := false;
  }

  method SendFrame(frame: Frame, turn: WriterTurn, socket: FrameWriter) returns (failed: bool)
    modifies socket
    ensures failed == (!InLimits(frame) || !turn.socketOk || !turn.eventOk)
    ensures socket.written == old(socket.written) + Bytes(Checked(frame))
  {
    var outcome := socket.WriteFrame(frame.kind, frame.metadata, frame.payload);
    failed := !outcome.WroteBytes? || !turn.socketOk || !turn.eventOk;
  }

  lemma {:induction false} StoppedStays(m: Metadata, turns: seq<WriterTurn>, i: nat)
    requires i <= |turns| && (WriterRun(m, turns[..i]).stopped || i == |turns|)
    ensures WriterRun(m, turns) == WriterRun(m, turns[..i])
    decreases |turns|
  {
    if i == |turns| {
      assert turns[..i] == turns;
    } else {
      var earlier := turns[..|turns| - 1];
      assert earlier[..i] == turns[..i];
      StoppedStays(m, earlier, i);
    }
  }
}
