/**
 * The length-prefixed frame format of the transport (crates/synchrosonic-transport/src/protocol.rs):
 * magic "SSN1", a kind byte, two big-endian 32-bit lengths, metadata and payload.
 */
module Framing {
  import opened Numbers
  import opened LatencyProfiles

  const FRAME_MAGIC: seq<byte> := [83, 83, 78, 49]
  const FRAME_HEADER_LEN := 13
  const MAX_METADATA_BYTES := 8 * 1024

  datatype FrameKind = Hello | Accept | Audio | Heartbeat | HeartbeatAck | Stop | Error

  function KindByte(kind: FrameKind): byte {
    match kind
    case Hello => 1
    case Accept => 2
    case Audio => 3
    case Heartbeat => 4
    case HeartbeatAck => 5
    case Stop => 6
    case Error => 7
  }

  predicate IsKindByte(b: byte) { 1 <= b <= 7 }

  function KindFromByte(b: byte): FrameKind
    requires IsKindByte(b)
  {
    if b == 1 then Hello
    else if b == 2 then Accept
    else if b == 3 then Audio
    else if b == 4 then Heartbeat
    else if b == 5 then HeartbeatAck
    else if b == 6 then Stop
    else Error
  }

  datatype Frame = Frame(kind: FrameKind, metadata: seq<byte>, payload: seq<byte>)

  predicate InLimits(f: Frame) {
    |f.metadata| <= MAX_METADATA_BYTES && |f.payload| <= MAX_PAYLOAD_BYTES
  }

  // ----- Big-endian lengths -----

  function BigEndian(n: u32): (bytes: seq<byte>)
    ensures |bytes| == 4
  {
    [ByteAt(n, 0x100_0000), ByteAt(n, 0x1_0000), ByteAt(n, 0x100), ByteAt(n, 1)]
  }

  function ByteAt(n: u32, weight: int): byte
    requires weight > 0
  {
    n / weight % 0x100
  }

  function FromBigEndian(bytes: seq<byte>): u32
    requires |bytes| == 4
  {
    bytes[0] as int * 0x100_0000 + bytes[1] as int * 0x1_0000 + bytes[2] as int * 0x100 + bytes[3]
  }

  lemma BigEndianRoundTrip(n: u32)
    ensures FromBigEndian(BigEndian(n)) == n
  {
    assert n / 0x1_0000 == (n / 0x100) / 0x100;
    assert n / 0x100_0000 == (n / 0x1_0000) / 0x100;
    assert n / 0x100_0000 < 0x100;
  }

  lemma LowByte(high: nat, low: byte)
    ensures (high * 0x100 + low) / 0x100 == high && (high * 0x100 + low) % 0x100 == low
  {
  }

  lemma {:induction false} BigEndianCanonical(bytes: seq<byte>)
    requires |bytes| == 4
    ensures BigEndian(FromBigEndian(bytes)) == bytes
  {
    var n := FromBigEndian(bytes);
    var two := bytes[0] as int * 0x100 + bytes[1];
    LowByte(two * 0x100 + bytes[2], bytes[3]);
    LowByte(two, bytes[2]);
    LowByte(bytes[0], bytes[1]);
    assert n / 0x1_0000 == (n / 0x100) / 0x100;
    assert n / 0x100_0000 == (n / 0x1_0000) / 0x100;
  }

  // ----- Writing and reading one frame -----

  function Header(f: Frame): (header: seq<byte>)
    requires InLimits(f)
    ensures |header| == FRAME_HEADER_LEN
  {
    FRAME_MAGIC + [KindByte(f.kind)] + BigEndian(|f.metadata|) + BigEndian(|f.payload|)
  }

  function Encode(f: Frame): (bytes: seq<byte>)
    requires InLimits(f)
    ensures |bytes| == FRAME_HEADER_LEN + |f.metadata| + |f.payload|
  {
    Header(f) + f.metadata + f.payload
  }

  datatype ReadError = UnexpectedEof | BadMagic | UnknownKind(value: byte) | MetadataTooLong | PayloadTooLong

  datatype ReadResult =
    | ReadOk(frame: Frame, wireBytes: nat)
    | ReadFailed(error: ReadError)

  /** What reading one frame from the front of `s` gives; a success consumes `wireBytes` bytes. */
  function Parse(s: seq<byte>): (r: ReadResult)
    ensures r.ReadOk? ==> FRAME_HEADER_LEN <= r.wireBytes <= |s|
  {
    if |s| < FRAME_HEADER_LEN then ReadFailed(UnexpectedEof)
    else if s[0..4] != FRAME_MAGIC then ReadFailed(BadMagic)
    else if !IsKindByte(s[4]) then ReadFailed(UnknownKind(s[4]))
    else
      var metadataLen, payloadLen := FromBigEndian(s[5..9]), FromBigEndian(s[9..13]);
      if metadataLen > MAX_METADATA_BYTES then ReadFailed(MetadataTooLong)
      else if payloadLen > MAX_PAYLOAD_BYTES then ReadFailed(PayloadTooLong)
      else
        var body := FRAME_HEADER_LEN + metadataLen;
        if |s| < body + payloadLen then ReadFailed(UnexpectedEof)
        else
          ReadOk(Frame(KindFromByte(s[4]), s[FRAME_HEADER_LEN..body], s[body..body + payloadLen]), body + payloadLen)
  }

  lemma {:induction false} HeaderFields(f: Frame, s: seq<byte>)
    requires InLimits(f) && Header(f) <= s
    ensures s[0..4] == FRAME_MAGIC && s[4] == KindByte(f.kind)
    ensures FromBigEndian(s[5..9]) == |f.metadata| && FromBigEndian(s[9..13]) == |f.payload|
  {
    var h := Header(f);
    assert s[..13] == h;
    assert s[0..4] == h[0..4] == FRAME_MAGIC;
    assert s[5..9] == h[5..9] == BigEndian(|f.metadata|);
    assert s[9..13] == h[9..13] == BigEndian(|f.payload|);
    BigEndianRoundTrip(|f.metadata|);
    BigEndianRoundTrip(|f.payload|);
  }

  /** Reading back a written frame gives the frame and stops right behind it. */
  lemma {:induction false} ReadWritten(f: Frame, rest: seq<byte>)
    requires InLimits(f)
    ensures Parse(Encode(f) + rest) == ReadOk(f, |Encode(f)|)
  {
    var s := Encode(f) + rest;
    assert Header(f) <= s by { assert s == Header(f) + (f.metadata + f.payload + rest); }
    HeaderFields(f, s);
    var body := FRAME_HEADER_LEN + |f.metadata|;
    assert s[FRAME_HEADER_LEN..body] == f.metadata;
    assert s[body..body + |f.payload|] == f.payload;
  }

  /** Whatever the reader accepts is the one encoding of the frame it returns. */
  lemma {:induction false} ReadIsCanonical(s: seq<byte>)
    requires Parse(s).ReadOk?
    ensures InLimits(Parse(s).frame)
    ensures s == Encode(Parse(s).frame) + s[Parse(s).wireBytes..]
  {
    var f, n := Parse(s).frame, Parse(s).wireBytes;
    BigEndianCanonical(s[5..9]);
    BigEndianCanonical(s[9..13]);
    assert s[..13] == s[0..4] + [s[4]] + s[5..9] + s[9..13];
    assert Header(f) == s[..13];
    assert s[..n] == s[..13] + f.metadata + f.payload;
    assert s == s[..n] + s[n..];
  }

  /** A frame that is cut short reads as an unexpected end, never as another frame or error. */
  lemma TruncatedFrame(f: Frame, cut: nat)
    requires InLimits(f) && cut < |Encode(f)|
    ensures Parse(Encode(f)[..cut]) == ReadFailed(UnexpectedEof)
  {
    var s := Encode(f)[..cut];
    if cut >= FRAME_HEADER_LEN {
      assert Header(f) <= Encode(f) by { assert Encode(f) == Header(f) + (f.metadata + f.payload); }
      assert Header(f) <= s;
      HeaderFields(f, s);
    }
  }

  /**
   * What a header announces decides how a stream reads: an unknown kind first, then metadata over
   * 8 KiB, then a payload over 256 KiB, then a body that is not there; anything else is a frame.
   */
  lemma {:induction false} HeaderDecides(kind: byte, metadataLen: u32, payloadLen: u32, body: seq<byte>)
    ensures Parse(FRAME_MAGIC + [kind] + BigEndian(metadataLen) + BigEndian(payloadLen) + body)
         == if kind == 0 || kind > 7 then ReadFailed(UnknownKind(kind))
            else if metadataLen > 8_192 then ReadFailed(MetadataTooLong)
            else if payloadLen > 262_144 then ReadFailed(PayloadTooLong)
            else if |body| < metadataLen + payloadLen then ReadFailed(UnexpectedEof)
            else ReadOk(Frame(KindFromByte(kind), body[..metadataLen], body[metadataLen..metadataLen + payloadLen]),
                        13 + metadataLen + payloadLen)
  {
    var s := FRAME_MAGIC + [kind] + BigEndian(metadataLen) + BigEndian(payloadLen) + body;
    assert s[0..4] == FRAME_MAGIC && s[4] == kind;
    assert s[5..9] == BigEndian(metadataLen) && s[9..13] == BigEndian(payloadLen) && s[13..] == body;
    BigEndianRoundTrip(metadataLen);
    BigEndianRoundTrip(payloadLen);
    if metadataLen + payloadLen <= |body| {
      assert s[13..13 + metadataLen] == body[..metadataLen];
      assert s[13 + metadataLen..13 + metadataLen + payloadLen] == body[metadataLen..metadataLen + payloadLen];
    }
  }

  /** Thirteen bytes that do not begin with "SSN1" are not looked at any further. */
  lemma MagicComesFirst(s: seq<byte>)
    ensures Parse(s) == ReadFailed(BadMagic) <==> |s| >= 13 && s[..4] != [83, 83, 78, 49]
    ensures |s| < 13 ==> Parse(s) == ReadFailed(UnexpectedEof)
  {
    if |s| >= 13 { assert s[0..4] == s[..4]; }
  }

  /** No encoding is a strict prefix of another. */
  lemma PrefixFree(f: Frame, g: Frame)
    requires InLimits(f) && InLimits(g) && Encode(f) <= Encode(g)
    ensures f == g
  {
    var rest := Encode(g)[|Encode(f)|..];
    assert Encode(g) == Encode(f) + rest;
    ReadWritten(f, rest);
    ReadWritten(g, []);
    assert Encode(g) + [] == Encode(g);
  }

  // ----- Streams of frames -----

  ghost predicate AllInLimits(fs: seq<Frame>) {
    forall f | f in fs :: InLimits(f)
  }

  function EncodeAll(fs: seq<Frame>): seq<byte>
    requires AllInLimits(fs)
  {
    if fs == [] then [] else Encode(fs[0]) + EncodeAll(fs[1..])
  }

  /** The frames a reader gets out of a byte stream before its first failure, and that failure. */
  datatype Received = Received(frames: seq<Frame>, bytes: nat, failure: ReadError)

  function ReceiveAll(s: seq<byte>): Received
    decreases |s|
  {
    match Parse(s)
    case ReadFailed(error) => Received([], 0, error)
    case ReadOk(frame, n) =>
      var later := ReceiveAll(s[n..]);
      Received([frame] + later.frames, n + later.bytes, later.failure)
  }

  lemma {:induction false} ReceiveFirst(f: Frame, rest: seq<byte>)
    requires InLimits(f)
    ensures var later := ReceiveAll(rest);
            ReceiveAll(Encode(f) + rest) == Received([f] + later.frames, |Encode(f)| + later.bytes, later.failure)
  {
    ReadWritten(f, rest);
    assert (Encode(f) + rest)[|Encode(f)|..] == rest;
  }

  lemma ReceiveNone(f: Frame, cut: nat)
    requires InLimits(f) && cut < |Encode(f)|
    ensures ReceiveAll(Encode(f)[..cut]) == Received([], 0, UnexpectedEof)
  {
    TruncatedFrame(f, cut);
  }

  /** What a reader gets from the first `cut` bytes of a frame stream. */
  ghost predicate GotPrefix(fs: seq<Frame>, cut: nat, got: Received)
    requires AllInLimits(fs)
  {
    && got.frames <= fs
    && got.failure == UnexpectedEof
    && got.bytes <= cut
    && (cut == |EncodeAll(fs)| ==> got.frames == fs && got.bytes == cut)
  }

  lemma {:induction false} TakeOfConcat<T>(a: seq<T>, b: seq<T>, cut: nat)
    requires cut <= |a| + |b|
    ensures (a + b)[..cut] == if cut < |a| then a[..cut] else a + b[..cut - |a|]
  {
  }

  lemma {:induction false} FirstOfPrefix(fs: seq<Frame>, later: Received, cut: nat)
    requires fs != [] && AllInLimits(fs) && |Encode(fs[0])| <= cut
    requires GotPrefix(fs[1..], cut - |Encode(fs[0])|, later)
    ensures GotPrefix(fs, cut, Received([fs[0]] + later.frames, |Encode(fs[0])| + later.bytes, later.failure))
  {
    assert fs == [fs[0]] + fs[1..];
  }

  /**
   * However much of a frame stream has arrived, the reader gets a prefix of the frames
   * and then runs out of bytes; when all of it has arrived, it gets every frame.
   */
  lemma {:induction false} PartialStream(fs: seq<Frame>, cut: nat)
    requires AllInLimits(fs) && cut <= |EncodeAll(fs)|
    ensures GotPrefix(fs, cut, ReceiveAll(EncodeAll(fs)[..cut]))
    decreases |fs|
  {
    if fs != [] {
      var first, rest := Encode(fs[0]), EncodeAll(fs[1..]);
      TakeOfConcat(first, rest, cut);
      if cut < |first| {
        ReceiveNone(fs[0], cut);
      } else {
        PartialStream(fs[1..], cut - |first|);
        ReceiveFirst(fs[0], rest[..cut - |first|]);
        FirstOfPrefix(fs, ReceiveAll(rest[..cut - |first|]), cut);
      }
    }
  }

  /** Reading the concatenation of any list of frames gives back the list, and counts every byte. */
  lemma {:induction false} StreamRoundTrip(fs: seq<Frame>)
    requires AllInLimits(fs)
    ensures ReceiveAll(EncodeAll(fs)) == Received(fs, |EncodeAll(fs)|, UnexpectedEof)
  {
    assert EncodeAll(fs)[..|EncodeAll(fs)|] == EncodeAll(fs);
    PartialStream(fs, |EncodeAll(fs)|);
  }

  lemma {:induction false} EncodeAllConcat(fs: seq<Frame>, gs: seq<Frame>)
    requires AllInLimits(fs) && AllInLimits(gs)
    ensures AllInLimits(fs + gs) && EncodeAll(fs + gs) == EncodeAll(fs) + EncodeAll(gs)
    decreases |fs|
  {
    if fs == [] {
      assert fs + gs == gs;
    } else {
      assert (fs + gs)[1..] == fs[1..] + gs;
      EncodeAllConcat(fs[1..], gs);
    }
  }

  // ----- The reader and writer -----

  datatype WriteOutcome = WroteBytes(count: nat) | MetadataOverLimit | PayloadOverLimit

  class FrameWriter {
    var written: seq<byte>

    constructor ()
      ensures written == []
    {
      written := [];
    }

    method WriteFrame(kind: FrameKind, metadata: seq<byte>, payload: seq<byte>) returns (outcome: WriteOutcome)
      modifies this
      ensures var f := Frame(kind, metadata, payload);
              if InLimits(f) then
                outcome == WroteBytes(|Encode(f)|) && written == old(written) + Encode(f)
              else
                written == old(written) && outcome ==
                  if |metadata| > MAX_METADATA_BYTES then MetadataOverLimit else PayloadOverLimit
    {
      if |metadata| > MAX_METADATA_BYTES { return MetadataOverLimit; }
      if |payload| > MAX_PAYLOAD_BYTES { return PayloadOverLimit; }
      var header := FRAME_MAGIC;
      header := header + [KindByte(kind)];
      header := header + BigEndian(|metadata|);
      header := header + BigEndian(|payload|);
      written := written + header;
      written := written + metadata;
      written := written + payload;
      outcome := WroteBytes(|header| + |metadata| + |payload|);
      assert written == old(written) + (header + metadata + payload);
    }
  }

  class FrameReader {
    const stream: seq<byte>
    var position: nat

    ghost predicate Valid()
      reads this
    {
      position <= |stream|
    }

    ghost function Remaining(): seq<byte>
      requires Valid()
      reads this
    {
      stream[position..]
    }

    constructor (stream: seq<byte>)
      ensures Valid() && Remaining() == stream
    {
      this.stream, position := stream, 0;
    }

    /** Fill a buffer of `count` bytes; running out consumes what was left. */
    method ReadExact(count: nat) returns (bytes: seq<byte>, ok: bool)
      requires Valid()
      modifies this
      ensures Valid() && ok == (count <= |old(Remaining())|)
      ensures ok ==> bytes == old(Remaining())[..count] && Remaining() == old(Remaining())[count..]
      ensures !ok ==> Remaining() == []
    {
      ok := position + count <= |stream|;
      if ok {
        bytes := stream[position..position + count];
        position := position + count;
      } else {
        bytes := stream[position..];
        position := |stream|;
      }
    }

    method ReadFrame() returns (result: ReadResult)
      requires Valid()
      modifies this
      ensures Valid() && result == Parse(old(Remaining()))
      ensures result.ReadOk? ==> Remaining() == old(Remaining())[result.wireBytes..]
    {
      ghost var s := Remaining();
      var header, ok := ReadExact(FRAME_HEADER_LEN);
      if !ok { return ReadFailed(UnexpectedEof); }
      assert header[0..4] == s[0..4] && header[5..9] == s[5..9] && header[9..13] == s[9..13];
      if header[0..4] != FRAME_MAGIC { return ReadFailed(BadMagic); }
      if !IsKindByte(header[4]) { return ReadFailed(UnknownKind(header[4])); }
      var metadataLen, payloadLen := FromBigEndian(header[5..9]), FromBigEndian(header[9..13]);
      if metadataLen > MAX_METADATA_BYTES { return ReadFailed(MetadataTooLong); }
      if payloadLen > MAX_PAYLOAD_BYTES { return ReadFailed(PayloadTooLong); }
      var metadata, payload;
      metadata, ok := ReadExact(metadataLen);
      if !ok { return ReadFailed(UnexpectedEof); }
      payload, ok := ReadExact(payloadLen);
      if !ok { return ReadFailed(UnexpectedEof); }
      result := ReadOk(Frame(KindFromByte(header[4]), metadata, payload), FRAME_HEADER_LEN + metadataLen + payloadLen);
    }
  }
}
