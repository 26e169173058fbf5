/** From the frames the sender offers a branch to the packets the receiver writes to its sink. */
module EndToEnd {
  import opened Subsequences
  import opened LatencyProfiles
  import opened PacketBuffers
  import opened Framing
  import opened Messages
  import opened ReceiverSessions
  import opened NetworkWriters
  import B = BranchQueues
  import P = Playout
  import I = PlayoutInvariants
  import G = PlayoutGuarantees
  import T = SenderTargets
  import M = SenderGuarantees

  /** The command by which the receiver's application hands a transport event to the worker. */
  predicate Submits(command: P.Command, event: TransportEvent) {
    match event
    case Connected(connection) => command.Connect? && command.connection == connection
    case AudioArrived(packet) => command.AudioPacket? && command.packet == packet
    case KeptAlive => command.KeepAlive?
    case Disconnected(reconnectSuggested) => command == P.Disconnect(reconnectSuggested)
    case Failed => command.TransportError?
  }

  /** The commands are these events in order, with ticks and playback target changes in between. */
  ghost predicate Interleaves(commands: seq<P.Command>, events: seq<TransportEvent>)
    decreases |commands|
  {
    if commands == [] then events == []
    else
      var init, last := commands[..|commands| - 1], commands[|commands| - 1];
      if last.Tick? || last.SetPlaybackTarget? then Interleaves(init, events)
      else events != [] && Submits(last, events[|events| - 1]) && Interleaves(init, events[..|events| - 1])
  }

  function PacketOf(p: BufferedPacket): Packet { p.packet }

  lemma {:induction false} PacketOfAppend(ps: seq<BufferedPacket>, p: BufferedPacket)
    ensures MapSeq(PacketOf, ps + [p]) == MapSeq(PacketOf, ps) + [p.packet]
  {
  }

  /** A step accepts nothing, or exactly the packet it carries. */
  lemma StepAcceptsItsPacket(w: P.Worker, command: P.Command)
    requires w.buffer.maxPackets > 0 && !command.Connect?
    ensures var before, after := w.history.session.accepted, P.Step(w, command).history.session.accepted;
            || after == before
            || (command.AudioPacket? && |after| == |before| + 1 && after[..|before|] == before
                && after[|before|].packet == command.packet)
  {
    if command.Tick? { G.DrainKeepsBase(w, command.env); }
  }

  /** What the worker has accepted since a connect is in-order audio of the events submitted since. */
  lemma {:induction false} AcceptedFromEvents(
      profile: Profile, before: seq<P.Command>, connect: P.Command, after: seq<P.Command>, events: seq<TransportEvent>)
    requires connect.Connect? && forall c | c in after :: !c.Connect?
    requires Interleaves(after, events)
    ensures var accepted := P.Run(profile, before + [connect] + after).history.session.accepted;
            Subsequence(MapSeq(PacketOf, accepted), AudioEvents(events))
    decreases |after|
  {
    if after == [] {
      assert before + [connect] + after == before + [connect];
      P.RunOneMore(profile, before, connect);
      assert P.Step(P.Run(profile, before), connect).history.session.accepted == [];
    } else {
      var init, last := after[..|after| - 1], after[|after| - 1];
      var earlier := if last.Tick? || last.SetPlaybackTarget? then events else events[..|events| - 1];
      AcceptedFromEvents(profile, before, connect, init, earlier);
      assert before + [connect] + after == before + [connect] + init + [last];
      P.RunOneMore(profile, before + [connect] + init, last);
      OneMoreCommand(P.Run(profile, before + [connect] + init), last, earlier, events);
    }
  }

  lemma {:induction false} OneMoreWithin<T>(a: seq<T>, a': seq<T>, b: seq<T>, x: T)
    requires Subsequence(a, b) && (a' == a || a' == a + [x])
    ensures Subsequence(a', b + [x])
  {
    if a' == a {
      ExtendRight(a, b, x);
    } else {
      ExtendBoth(a, b, x);
    }
  }

  lemma {:induction false} OneMoreMapped(ps: seq<BufferedPacket>, ps': seq<BufferedPacket>, packet: Packet)
    requires ps' == ps || (|ps'| == |ps| + 1 && ps'[..|ps|] == ps && ps'[|ps|].packet == packet)
    ensures MapSeq(PacketOf, ps') == MapSeq(PacketOf, ps) || MapSeq(PacketOf, ps') == MapSeq(PacketOf, ps) + [packet]
  {
    if ps' != ps {
      PacketOfAppend(ps, ps'[|ps|]);
      assert ps' == ps + [ps'[|ps|]];
    }
  }

  /** One more audio event keeps what was accepted within it, whether its packet is accepted or not. */
  lemma {:induction false} OneMorePacket(
      ps: seq<BufferedPacket>, ps': seq<BufferedPacket>, earlier: seq<TransportEvent>, event: TransportEvent)
    requires event.AudioArrived? && Subsequence(MapSeq(PacketOf, ps), AudioEvents(earlier))
    requires ps' == ps || (|ps'| == |ps| + 1 && ps'[..|ps|] == ps && ps'[|ps|].packet == event.packet)
    ensures Subsequence(MapSeq(PacketOf, ps'), AudioEvents(earlier + [event]))
  {
    AudioEventsAppend(earlier, event);
    OneMoreMapped(ps, ps', event.packet);
    OneMoreWithin(MapSeq(PacketOf, ps), MapSeq(PacketOf, ps'), AudioEvents(earlier), event.packet);
  }

  lemma {:induction false} OneMoreCommand(
      w: P.Worker, last: P.Command, earlier: seq<TransportEvent>, events: seq<TransportEvent>)
    requires w.buffer.maxPackets > 0 && !last.Connect?
    requires if last.Tick? || last.SetPlaybackTarget? then earlier == events
             else events != [] && earlier == events[..|events| - 1] && Submits(last, events[|events| - 1])
    requires Subsequence(MapSeq(PacketOf, w.history.session.accepted), AudioEvents(earlier))
    ensures Subsequence(MapSeq(PacketOf, P.Step(w, last).history.session.accepted), AudioEvents(events))
  {
    var ps, ps' := w.history.session.accepted, P.Step(w, last).history.session.accepted;
    StepAcceptsItsPacket(w, last);
    if !last.Tick? && !last.SetPlaybackTarget? {
      var event := events[|events| - 1];
      assert events == earlier + [event];
      if event.AudioArrived? {
        OneMorePacket(ps, ps', earlier, event);
      } else {
        AudioEventsAppend(earlier, event);
      }
    }
  }

  // ----- One session, end to end -----

  /**
   * One sender branch and the receiver session it feeds:
   *   moves     the interleaving of the manager's pushes with the writer thread on the branch queue
   *   turns     what the writer thread did
   *   hello     the frame that opened the connection
   *   arrived   how many bytes TCP has delivered so far
   *   inputs    the receiver session's turns
   *   before    the worker's commands before the session, connect the session's first, after the rest
   */
  datatype Journey = Journey(
    metadata: Metadata,
    capacity: nat,
    moves: seq<B.Move<FanoutAudioFrame>>,
    turns: seq<WriterTurn>,
    hello: Frame,
    arrived: nat,
    inputs: seq<Turn>,
    profile: Profile,
    before: seq<P.Command>,
    connect: P.Command,
    after: seq<P.Command>)

  function BranchOf(j: Journey): B.Queue<FanoutAudioFrame> { B.Run(B.NewQueue(j.capacity), j.moves) }

  function WireOf(j: Journey): seq<Frame> { [j.hello] + WriterRun(j.metadata, j.turns).wire }

  function EventsOf(j: Journey): seq<TransportEvent> { Run(j.metadata, j.inputs).events }

  function WorkerOf(j: Journey): P.Worker { P.Run(j.profile, j.before + [j.connect] + j.after) }

  /** The pieces are connected: queue to writer, writer to wire, wire to session, session to worker. */
  ghost predicate Linked(j: Journey) {
    && Faithful(j.metadata) && IsPreset(j.profile)
    && FramesTaken(j.turns) == BranchOf(j).delivered
    && InLimits(j.hello) && j.hello.kind == Hello
    && AllInLimits(WireOf(j))
    && j.arrived <= |EncodeAll(WireOf(j))|
    && FramesRead(j.inputs) <= ReceiveAll(EncodeAll(WireOf(j))[..j.arrived]).frames
    && EventsOf(j) != []
    && j.connect.Connect? && Submits(j.connect, EventsOf(j)[0])
    && (forall c | c in j.after :: !c.Connect?)
    && Interleaves(j.after, EventsOf(j)[1..])
  }

  lemma {:induction false} AudioInPrefix(m: Metadata, frames: seq<Frame>, n: nat)
    requires n <= |frames|
    ensures AudioIn(m, frames[..n]) <= AudioIn(m, frames)
    decreases |frames|
  {
    if n == |frames| {
      assert frames[..n] == frames;
    } else {
      var init := frames[..|frames| - 1];
      assert init[..n] == frames[..n] && frames == init + [frames[|frames| - 1]];
      AudioInPrefix(m, init, n);
      AudioInAppend(m, init, frames[|frames| - 1]);
    }
  }

  lemma {:induction false} AudioInAfterHello(m: Metadata, hello: Frame, frames: seq<Frame>)
    requires hello.kind == Hello
    ensures AudioIn(m, [hello] + frames) == AudioIn(m, frames)
  {
    if frames == [] {
      assert [hello] + frames == [] + [hello];
      AudioInAppend(m, [], hello);
    } else {
      var init, last := frames[..|frames| - 1], frames[|frames| - 1];
      AudioInAfterHello(m, hello, init);
      assert [hello] + frames == ([hello] + init) + [last] && frames == init + [last];
      AudioInAppend(m, [hello] + init, last);
      AudioInAppend(m, init, last);
    }
  }

  lemma {:induction false} AudioEventsAfterConnect(events: seq<TransportEvent>)
    requires events != [] && events[0].Connected?
    ensures AudioEvents(events[1..]) == AudioEvents(events)
    decreases |events|
  {
    var init, last := events[..|events| - 1], events[|events| - 1];
    if |events| > 1 {
      AudioEventsAfterConnect(init);
      assert events[1..] == init[1..] + [last] && events == init + [last];
      AudioEventsAppend(init[1..], last);
      AudioEventsAppend(init, last);
    }
  }

  lemma {:induction false} PrefixIsSubsequence<T>(a: seq<T>, b: seq<T>)
    requires a <= b
    ensures Subsequence(a, b)
  {
    Prefix(b, |a|);
    assert b[..|a|] == a;
  }

  /** Queue and writer: the audio on the wire is an in-order part of what the manager offered. */
  lemma WireFromOffered(j: Journey)
    requires Faithful(j.metadata) && FramesTaken(j.turns) == BranchOf(j).delivered
    ensures Subsequence(AudioIn(j.metadata, WriterRun(j.metadata, j.turns).wire), MapSeq(ToPacket, BranchOf(j).offered))
  {
    var q := BranchOf(j);
    WriterKeepsOrder(j.metadata, j.turns);
    PrefixIsSubsequence(AudioIn(j.metadata, WriterRun(j.metadata, j.turns).wire), MapSeq(ToPacket, q.delivered));
    B.OrderKept(j.capacity, j.moves);
    PrefixIsSubsequence(q.delivered, q.delivered + q.items);
    Transitive(q.delivered, q.delivered + q.items, q.offered);
    Mapped(ToPacket, q.delivered, q.offered);
    Transitive(AudioIn(j.metadata, WriterRun(j.metadata, j.turns).wire), MapSeq(ToPacket, q.delivered),
        MapSeq(ToPacket, q.offered));
  }

  /** Framing and session: the audio events are a prefix of the audio on the wire, however TCP cuts it. */
  lemma EventsFromWire(j: Journey)
    requires Linked(j)
    ensures AudioEvents(EventsOf(j)) <= AudioIn(j.metadata, WriterRun(j.metadata, j.turns).wire)
  {
    var m, wire := j.metadata, WireOf(j);
    PartialStream(wire, j.arrived);
    SessionForwardsAudio(m, j.inputs);
    var n := |FramesRead(j.inputs)|;
    assert FramesRead(j.inputs) == wire[..n];
    AudioInPrefix(m, wire, n);
    AudioInAfterHello(m, j.hello, WriterRun(m, j.turns).wire);
  }

  /** Worker: what the session's log shows as accepted is in-order audio of its events. */
  lemma AcceptedFromSession(j: Journey)
    requires Linked(j)
    ensures Subsequence(MapSeq(PacketOf, WorkerOf(j).history.session.accepted), AudioEvents(EventsOf(j)))
  {
    TraceGrammar(j.metadata, j.inputs);
    AcceptedFromEvents(j.profile, j.before, j.connect, j.after, EventsOf(j)[1..]);
    AudioEventsAfterConnect(EventsOf(j));
  }

  /**
   * End-to-end order: the packets a session writes to the sink are an in-order, duplicate-free
   * selection, payloads unchanged, of the frames offered to the branch that feeds it.
   */
  lemma PlayedIsInOrderOfOffered(j: Journey)
    requires Linked(j)
    ensures Subsequence(MapSeq(PacketOf, I.Select(WorkerOf(j).history.session.removed, I.WasPlayed)),
                        MapSeq(ToPacket, BranchOf(j).offered))
  {
    var log := WorkerOf(j).history.session;
    var played, accepted := I.Select(log.removed, I.WasPlayed), log.accepted;
    G.PlayedInOrder(j.profile, j.before + [j.connect] + j.after, log);
    Mapped(PacketOf, played, accepted);
    AcceptedFromSession(j);
    EventsFromWire(j);
    WireFromOffered(j);
    var events, wire := AudioEvents(EventsOf(j)), AudioIn(j.metadata, WriterRun(j.metadata, j.turns).wire);
    PrefixIsSubsequence(events, wire);
    Transitive(MapSeq(PacketOf, played), MapSeq(PacketOf, accepted), events);
    Transitive(MapSeq(PacketOf, played), events, wire);
    Transitive(MapSeq(PacketOf, played), wire, MapSeq(ToPacket, BranchOf(j).offered));
  }

  /** The branch is that of the manager's active session for a device: what it offered is what was pushed. */
  ghost predicate FedBy(j: Journey, events: seq<T.Event>, id: T.DeviceId) {
    && id in T.Run(events).entries && T.Run(events).entries[id].Active?
    && BranchOf(j).offered == T.Run(events).entries[id].session.offered
  }

  /**
   * From the microphone to the loudspeaker: what a receiver plays for a target is an in-order,
   * duplicate-free selection of the frames captured since that target became active, whatever
   * else the manager did and whichever other targets failed meanwhile.
   */
  lemma {:induction false} PlayedIsInOrderOfCaptured(j: Journey, events: seq<T.Event>, id: T.DeviceId)
    requires Linked(j) && FedBy(j, events, id)
    ensures var m := T.Run(events);
            && id in m.since && m.since[id] <= |m.captured|
            && Subsequence(MapSeq(PacketOf, I.Select(WorkerOf(j).history.session.removed, I.WasPlayed)),
                           MapSeq(ToPacket, m.captured[m.since[id]..]))
  {
    PlayedIsInOrderOfOffered(j);
    M.StreamsFromOpenCapture(events, id);
  }
}
