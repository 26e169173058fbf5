/**
 * The messages carried as frame metadata and the handshake rules on both ends
 * (crates/synchrosonic-transport/src/protocol.rs, receiver.rs and sender.rs).
 * Their JSON form is a parameter: `Metadata` bundles whatever encoding is used.
 */
module Messages {
  import opened Numbers
  import opened Options
  import opened LatencyProfiles
  import opened Framing

  const STREAM_PROTOCOL_VERSION: u16 := 1

  datatype StreamCodec = RawPcm

  datatype HelloMessage = HelloMessage(
    protocolVersion: u16,
    sessionId: string,
    senderName: string,
    supportedCodecs: seq<StreamCodec>,
    desiredCodec: StreamCodec,
    stream: StreamConfig,
    targetLatencyMs: u16,
    keepaliveIntervalMs: u16)

  datatype AcceptMessage = AcceptMessage(
    protocolVersion: u16,
    sessionId: string,
    receiverName: string,
    codec: StreamCodec,
    stream: StreamConfig,
    keepaliveIntervalMs: u16,
    receiverLatencyMs: u16)

  datatype AudioMessage = AudioMessage(sequence: u64, capturedAtMs: u64, capturedAtUnixMs: u64)

  datatype Metadata = Metadata(
    decodeHello: seq<byte> -> Option<HelloMessage>,
    encodeAudio: AudioMessage -> seq<byte>,
    decodeAudio: seq<byte> -> Option<AudioMessage>,
    encodeHeartbeat: u64 -> seq<byte>,
    decodeHeartbeat: seq<byte> -> Option<u64>,
    encodeStop: string -> seq<byte>,
    decodeStop: seq<byte> -> Option<string>,
    decodeError: seq<byte> -> Option<string>)

  /** What the encoding must be for audio to survive the wire: small enough, and decodable. */
  ghost predicate Faithful(m: Metadata) {
    forall a :: |m.encodeAudio(a)| <= MAX_METADATA_BYTES && m.decodeAudio(m.encodeAudio(a)) == Some(a)
  }

  // ----- The handshake -----

  function NewHello(sessionId: string, senderName: string, stream: StreamConfig,
                    targetLatencyMs: u16, keepaliveIntervalMs: u16): HelloMessage {
    HelloMessage(STREAM_PROTOCOL_VERSION, sessionId, senderName, [RawPcm], RawPcm, stream, targetLatencyMs,
        keepaliveIntervalMs)
  }

  datatype HandshakeError = UnsupportedVersion | CodecNotAdvertised | UnsupportedCodec | WrongSession | StreamChanged

  function ValidateHello(hello: HelloMessage): Option<HandshakeError> {
    if hello.protocolVersion != STREAM_PROTOCOL_VERSION then Some(UnsupportedVersion)
    else if hello.desiredCodec !in hello.supportedCodecs then Some(CodecNotAdvertised)
    else if hello.desiredCodec != RawPcm then Some(UnsupportedCodec)
    else None
  }

  function AcceptFor(
      hello: HelloMessage, receiverName: string, profile: Profile, heartbeatIntervalMs: u16): AcceptMessage
  {
    AcceptMessage(
      hello.protocolVersion, hello.sessionId, receiverName, hello.desiredCodec, hello.stream,
      Min(heartbeatIntervalMs, Max(hello.keepaliveIntervalMs, 250)),
      Min(profile.playbackLatencyMs + profile.targetBufferMs, U16_MAX))
  }

  function ValidateAccept(accept: AcceptMessage, sessionId: string, stream: StreamConfig): Option<HandshakeError> {
    if accept.protocolVersion != STREAM_PROTOCOL_VERSION then Some(UnsupportedVersion)
    else if accept.sessionId != sessionId then Some(WrongSession)
    else if accept.codec != RawPcm then Some(UnsupportedCodec)
    else if accept.stream != stream then Some(StreamChanged)
    else None
  }

  /**
   * The two ends agree: the receiver takes a hello exactly when the sender would take the
   * answer to it, provided the hello advertises what it asks for.
   */
  lemma HandshakeAgrees(hello: HelloMessage, receiverName: string, profile: Profile, heartbeatIntervalMs: u16)
    ensures ValidateHello(hello) == None
            <==> hello.desiredCodec in hello.supportedCodecs
                 && ValidateAccept(AcceptFor(hello, receiverName, profile, heartbeatIntervalMs),
                                   hello.sessionId, hello.stream) == None
  {
  }

  /**
   * The answer keeps the sender's session, codec and stream, asks for signs of life no more rarely than
   * the receiver wants and than the sender offers, but not more often than four times a second for the
   * sender's sake, and announces the preset's whole latency: 80, 150 or 230 milliseconds.
   */
  lemma AnswerIsFitting(hello: HelloMessage, receiverName: string, preset: Preset, heartbeatIntervalMs: u16)
    ensures var accept := AcceptFor(hello, receiverName, ProfileOf(preset), heartbeatIntervalMs);
            && accept.sessionId == hello.sessionId && accept.codec == hello.desiredCodec
            && accept.stream == hello.stream && accept.receiverName == receiverName
            && accept.keepaliveIntervalMs <= heartbeatIntervalMs
            && (accept.keepaliveIntervalMs <= hello.keepaliveIntervalMs || accept.keepaliveIntervalMs <= 250)
            && (accept.keepaliveIntervalMs == heartbeatIntervalMs
                || accept.keepaliveIntervalMs == hello.keepaliveIntervalMs || accept.keepaliveIntervalMs == 250)
            && (250 <= heartbeatIntervalMs ==> 250 <= accept.keepaliveIntervalMs)
            && accept.receiverLatencyMs
               == match preset case LowLatency => 80 case Balanced => 150 case Stable => 230
  {
  }

  /** Every hello the sender builds is accepted, with an accept the sender then accepts. */
  lemma OwnHelloIsAccepted(sessionId: string, senderName: string, stream: StreamConfig, targetLatencyMs: u16,
                           keepaliveIntervalMs: u16, receiverName: string, profile: Profile, heartbeatIntervalMs: u16)
    ensures var hello := NewHello(sessionId, senderName, stream, targetLatencyMs, keepaliveIntervalMs);
            && ValidateHello(hello) == None
            && ValidateAccept(AcceptFor(hello, receiverName, profile, heartbeatIntervalMs), sessionId, stream) == None
  {
    var hello := NewHello(sessionId, senderName, stream, targetLatencyMs, keepaliveIntervalMs);
    assert hello.supportedCodecs[0] == RawPcm;
    HandshakeAgrees(hello, receiverName, profile, heartbeatIntervalMs);
  }
}
