/** A journey that gets there: one captured frame is offered, sent, received and played. */
module JourneyExample {
  import opened Numbers
  import opened Options
  import opened Subsequences
  import opened LatencyProfiles
  import opened PacketBuffers
  import opened Framing
  import opened Messages
  import opened ReceiverSessions
  import opened NetworkWriters
  import opened EndToEnd
  import B = BranchQueues
  import P = Playout
  import I = PlayoutInvariants
  import S = PlayoutSchedule
  import L = PlayoutLimits

  // ----- An encoding of the metadata -----

  const HIGH := 0x1_0000_0000

  function EightBytes(n: u64): (bytes: seq<byte>)
    ensures |bytes| == 8
  {
    BigEndian(n / HIGH) + BigEndian(n % HIGH)
  }

  function FromEightBytes(bytes: seq<byte>): u64
    requires |bytes| == 8
  {
    FromBigEndian(bytes[..4]) * HIGH + FromBigEndian(bytes[4..])
  }

  lemma EightBytesRoundTrip(n: u64)
    ensures FromEightBytes(EightBytes(n)) == n
  {
    BigEndianRoundTrip(n / HIGH);
    BigEndianRoundTrip(n % HIGH);
    assert EightBytes(n)[..4] == BigEndian(n / HIGH) && EightBytes(n)[4..] == BigEndian(n % HIGH);
  }

  function EncodeAudio(a: AudioMessage): seq<byte> {
    EightBytes(a.sequence) + EightBytes(a.capturedAtMs) + EightBytes(a.capturedAtUnixMs)
  }

  function DecodeAudio(bytes: seq<byte>): Option<AudioMessage> {
    if |bytes| != 24 then None
    else Some(AudioMessage(FromEightBytes(bytes[..8]), FromEightBytes(bytes[8..16]), FromEightBytes(bytes[16..])))
  }

  lemma AudioRoundTrip(a: AudioMessage)
    ensures DecodeAudio(EncodeAudio(a)) == Some(a) && |EncodeAudio(a)| == 24
  {
    var bytes := EncodeAudio(a);
    assert bytes[..8] == EightBytes(a.sequence);
    assert bytes[8..16] == EightBytes(a.capturedAtMs);
    assert bytes[16..] == EightBytes(a.capturedAtUnixMs);
    EightBytesRoundTrip(a.sequence);
    EightBytesRoundTrip(a.capturedAtMs);
    EightBytesRoundTrip(a.capturedAtUnixMs);
  }

  function HelloFor(stream: StreamConfig): HelloMessage { NewHello("", "", stream, 0, 0) }

  function MetadataFor(stream: StreamConfig): Metadata {
    Metadata(bytes => Some(HelloFor(stream)), a => EncodeAudio(a), bytes => DecodeAudio(bytes),
             nonce => [], bytes => None, reason => [], bytes => None, bytes => None)
  }

  lemma MetadataIsFaithful(stream: StreamConfig)
    ensures Faithful(MetadataFor(stream))
  {
    var m := MetadataFor(stream);
    forall a ensures |m.encodeAudio(a)| <= MAX_METADATA_BYTES && m.decodeAudio(m.encodeAudio(a)) == Some(a) {
      AudioRoundTrip(a);
    }
  }

  // ----- The journey of one frame -----

  const HELLO := Frame(Hello, [], [])

  function Wire(m: Metadata, f: FanoutAudioFrame): seq<Frame> { [HELLO] + [AudioFrame(m, f)] }

  function JourneyOf(m: Metadata, profile: Profile, stream: StreamConfig, f: FanoutAudioFrame): Journey
    requires AllInLimits(Wire(m, f))
  {
    Journey(m, 1, [B.Push(f)] + [B.Receive], [WriterTurn(SendAudio(f), true, true)], HELLO, |EncodeAll(Wire(m, f))|,
            [Turn(GotFrame(HELLO), true, true)] + [Turn(GotFrame(AudioFrame(m, f)), true, true)],
            profile, [], L.Connecting(stream), [P.AudioPacket(ToPacket(f), 0)] + [L.TickAt(30)])
  }

  lemma WireInLimits(stream: StreamConfig, f: FanoutAudioFrame)
    requires |f.payload| <= MAX_PAYLOAD_BYTES
    ensures AllInLimits(Wire(MetadataFor(stream), f))
  {
    MetadataIsFaithful(stream);
    AudioSurvives(MetadataFor(stream), f);
  }

  lemma QueueDelivers(f: FanoutAudioFrame)
    ensures B.Run(B.NewQueue(1), [B.Push(f)] + [B.Receive]).delivered == [f]
  {
    var q := B.NewQueue(1);
    var push: seq<B.Move<FanoutAudioFrame>> := [B.Push(f)];
    assert (push + [B.Receive])[..1] == push && push[..0] == [];
    assert B.Run(q, push[..0]) == q;
    assert B.Run(q, push) == B.Next(q, B.Push(f));
    assert B.Run(q, push + [B.Receive]) == B.Next(B.Run(q, push), B.Receive);
  }

  lemma WriterWrites(m: Metadata, f: FanoutAudioFrame)
    requires InLimits(AudioFrame(m, f))
    ensures var turns := [WriterTurn(SendAudio(f), true, true)];
            FramesTaken(turns) == [f] && WriterRun(m, turns).wire == [AudioFrame(m, f)]
  {
    var turns := [WriterTurn(SendAudio(f), true, true)];
    assert turns[..0] == [] && WriterRun(m, turns[..0]) == Writer([], false) && FramesTaken(turns[..0]) == [];
    assert FrameFor(m, SendAudio(f)) == Some(AudioFrame(m, f));
  }

  lemma SessionEmits(stream: StreamConfig, f: FanoutAudioFrame)
    ensures var m := MetadataFor(stream);
            var inputs := [Turn(GotFrame(HELLO), true, true)] + [Turn(GotFrame(AudioFrame(m, f)), true, true)];
            && FramesRead(inputs) == Wire(m, f)
            && Run(m, inputs).events == [Connected(P.Connection("", stream, 0)), AudioArrived(ToPacket(f))]
  {
    var m := MetadataFor(stream);
    var hello := [Turn(GotFrame(HELLO), true, true)];
    var audio := Turn(GotFrame(AudioFrame(m, f)), true, true);
    MetadataIsFaithful(stream);
    AudioSurvives(m, f);
    assert hello[..0] == [] && (hello + [audio])[..1] == hello;
    assert Run(m, hello[..0]) == NEW_SESSION && FramesRead(hello[..0]) == [];
    var first := Run(m, hello);
    assert first == Step(m, NEW_SESSION, hello[0]);
    assert ValidateHello(HelloFor(stream)).None?;
    assert first.phase == Active && first.events == [Connected(P.Connection("", stream, 0))];
    assert Run(m, hello + [audio]) == Step(m, first, audio);
    assert FramesRead(hello) == [HELLO];
    assert FramesRead(hello + [audio]) == FramesRead(hello) + [AudioFrame(m, f)];
  }

  lemma CommandsInterleave(packet: Packet)
    ensures Interleaves([P.AudioPacket(packet, 0)] + [L.TickAt(30)], [AudioArrived(packet)])
  {
    var commands := [P.AudioPacket(packet, 0)];
    assert (commands + [L.TickAt(30)])[..1] == commands && commands[..0] == [];
    assert [AudioArrived(packet)][..0] == [];
    assert Interleaves(commands[..0], [AudioArrived(packet)][..0]);
    assert Interleaves(commands, [AudioArrived(packet)]);
  }

  lemma JourneyIsLinked(profile: Profile, stream: StreamConfig, f: FanoutAudioFrame)
    requires IsPreset(profile) && |f.payload| <= MAX_PAYLOAD_BYTES && AllInLimits(Wire(MetadataFor(stream), f))
    ensures Linked(JourneyOf(MetadataFor(stream), profile, stream, f))
  {
    var m := MetadataFor(stream);
    var j := JourneyOf(m, profile, stream, f);
    MetadataIsFaithful(stream);
    AudioSurvives(m, f);
    QueueDelivers(f);
    WriterWrites(m, f);
    assert WireOf(j) == Wire(m, f);
    StreamRoundTrip(Wire(m, f));
    assert EncodeAll(Wire(m, f))[..j.arrived] == EncodeAll(Wire(m, f));
    SessionEmits(stream, f);
    assert EventsOf(j)[1..] == [AudioArrived(ToPacket(f))];
    CommandsInterleave(ToPacket(f));
  }

  lemma WokenAtThirty(w: P.Worker)
    requires L.Queued(w, [L.Silent(0)], [L.Silent(0)], 30 * MILLISECOND)
    ensures L.TickedAt(w, 30) == S.WokenUp(w, 0) && S.WakeTime(w, 0) == 30 * MILLISECOND && S.Waiting(w, 0)
  {
  }

  lemma OneIsPlayed(w: P.Worker)
    requires L.Queued(w, [L.Silent(0)], [L.Silent(0)], 30 * MILLISECOND) && w.history.session.removed == []
    ensures I.Select(L.TickedAt(w, 30).history.session.removed, I.WasPlayed) == [L.Silent(0)]
  {
    var clock := P.SyncClock(0, 0);
    WokenAtThirty(w);
    S.QuietTick(w, 0);
    assert S.VerdictAt(w.profile, clock, L.Silent(0), 30 * MILLISECOND) == S.Due;
    S.OnlyVerdict(w.profile, clock, w.buffer.packets, 30 * MILLISECOND, S.Due);
    var r := P.Removal(L.Silent(0), P.Played(30 * MILLISECOND, clock));
    assert L.TickedAt(w, 30).history.session.removed == [] + [r];
    I.SelectAppend([], r, I.WasPlayed);
  }

  lemma WorkerPlays(profile: Profile, connected: seq<P.Command>)
    requires S.JustConnected(P.Run(profile, connected)) && I.Inv(P.Run(profile, connected))
    requires P.Run(profile, connected).history.session.removed == []
    ensures var w := P.Run(profile, connected + ([P.AudioPacket(S.SilentPacket(0), 0)] + [L.TickAt(30)]));
            I.Select(w.history.session.removed, I.WasPlayed) == [L.Silent(0)]
  {
    var audio := [P.AudioPacket(S.SilentPacket(0), 0)];
    L.FirstQueues(P.Run(profile, connected));
    NothingRemoved(P.Run(profile, connected));
    L.OneMoreAudio(profile, connected, S.SilentPacket(0));
    L.OneMoreTick(profile, connected + audio, 30);
    Associative(connected, audio, [L.TickAt(30)]);
    OneIsPlayed(P.Run(profile, connected + audio));
  }

  lemma NothingRemoved(w: P.Worker)
    requires S.JustConnected(w) && w.history.session.removed == []
    ensures P.HandlePacket(w, S.SilentPacket(0), 0).history.session.removed == []
  {
    S.OnePacketStored(w);
    assert !BufferFull(w.buffer);
  }

  lemma NothingRemovedYet(profile: Profile)
    ensures P.Run(profile, [L.Connecting(S.LONG_PACKETS)]).history.session.removed == []
  {
    P.RunOneMore(profile, [], L.Connecting(S.LONG_PACKETS));
    assert [] + [L.Connecting(S.LONG_PACKETS)] == [L.Connecting(S.LONG_PACKETS)];
  }

  function SilentFrame(): FanoutAudioFrame { FanoutAudioFrame(0, 0, 0, seq(5_760, i => 0)) }

  lemma WorkerOfJourney(m: Metadata, profile: Profile, stream: StreamConfig, f: FanoutAudioFrame)
    requires AllInLimits(Wire(m, f))
    ensures WorkerOf(JourneyOf(m, profile, stream, f))
         == P.Run(profile, [L.Connecting(stream)] + ([P.AudioPacket(ToPacket(f), 0)] + [L.TickAt(30)]))
  {
    assert [] + [L.Connecting(stream)] == [L.Connecting(stream)];
  }

  lemma ConnectedWorkerPlays(profile: Profile, stream: StreamConfig, packet: Packet)
    requires profile == ProfileOf(LowLatency) && stream == S.LONG_PACKETS && packet == S.SilentPacket(0)
    ensures var w := P.Run(profile, [L.Connecting(stream)] + ([P.AudioPacket(packet, 0)] + [L.TickAt(30)]));
            I.Select(w.history.session.removed, I.WasPlayed) == [BufferedPacket(packet, 1_440)]
  {
    L.JustConnectedReached(profile);
    NothingRemovedYet(profile);
    WorkerPlays(profile, [L.Connecting(stream)]);
  }

  lemma JourneyPlays(m: Metadata, profile: Profile, stream: StreamConfig, f: FanoutAudioFrame)
    requires profile == ProfileOf(LowLatency) && stream == S.LONG_PACKETS && ToPacket(f) == S.SilentPacket(0)
    requires AllInLimits(Wire(m, f))
    ensures MapSeq(PacketOf, I.Select(WorkerOf(JourneyOf(m, profile, stream, f)).history.session.removed, I.WasPlayed))
         == [ToPacket(f)]
  {
    WorkerOfJourney(m, profile, stream, f);
    ConnectedWorkerPlays(profile, stream, ToPacket(f));
    assert MapSeq(PacketOf, [BufferedPacket(ToPacket(f), 1_440)]) == [ToPacket(f)];
  }

  /** The premises of the end-to-end theorem can be met, and something is played. */
  lemma SomeJourneyPlays()
    ensures exists j: Journey :: Linked(j)
              && MapSeq(PacketOf, I.Select(WorkerOf(j).history.session.removed, I.WasPlayed))
                 == [ToPacket(SilentFrame())]
  {
    SomeJourneyPlaysAs(ProfileOf(LowLatency), S.LONG_PACKETS, SilentFrame());
  }

  lemma SomeJourneyPlaysAs(profile: Profile, stream: StreamConfig, f: FanoutAudioFrame)
    requires profile == ProfileOf(LowLatency) && stream == S.LONG_PACKETS && f == SilentFrame()
    ensures exists j: Journey :: Linked(j)
              && MapSeq(PacketOf, I.Select(WorkerOf(j).history.session.removed, I.WasPlayed)) == [ToPacket(f)]
  {
    WireInLimits(stream, f);
    JourneyIsLinked(profile, stream, f);
    JourneyPlays(MetadataFor(stream), profile, stream, f);
    assert Linked(JourneyOf(MetadataFor(stream), profile, stream, f));
  }
}
