/**
 * Latency presets, stream shapes and the packet arithmetic of the receiver
 * (crates/synchrosonic-core/src/receiver.rs). Durations are whole nanoseconds.
 */
module LatencyProfiles {
  import opened Numbers
  import opened Arithmetic
  import opened Options

  const MILLISECOND := 1_000_000
  const SECOND := 1_000_000_000
  const MAX_PAYLOAD_BYTES := 256 * 1024

  datatype Preset = LowLatency | Balanced | Stable

  datatype Profile = Profile(
    playbackLatencyMs: u16,
    targetBufferMs: u16,
    maxBufferMs: u16,
    latencyToleranceMs: u16,
    latePacketDropMs: u16,
    reconnectGraceMs: nat)

  function ProfileOf(preset: Preset): Profile {
    match preset
    case LowLatency => Profile(50, 30, 110, 20, 25, 750)
    case Balanced => Profile(80, 70, 210, 30, 40, 1_500)
    case Stable => Profile(110, 120, 340, 45, 60, 2_500)
  }

  predicate IsPreset(profile: Profile) {
    profile in {ProfileOf(LowLatency), ProfileOf(Balanced), ProfileOf(Stable)}
  }

  /** One profile buffers, tolerates and waits for more than another. */
  predicate IsMorePatient(patient: Profile, quick: Profile) {
    && patient.playbackLatencyMs > quick.playbackLatencyMs
    && patient.targetBufferMs > quick.targetBufferMs && patient.maxBufferMs > quick.maxBufferMs
    && patient.latencyToleranceMs > quick.latencyToleranceMs && patient.latePacketDropMs > quick.latePacketDropMs
    && patient.reconnectGraceMs > quick.reconnectGraceMs
  }

  /**
   * The presets trade latency for stability, in every respect at once; and each is coherent: a packet
   * is called late before it is dropped, and dropped before a target's worth of audio has gone by;
   * the buffer holds more than two targets, and the sender may be silent for longer than it lasts.
   */
  lemma PresetsAreCoherent(preset: Preset)
    ensures IsMorePatient(ProfileOf(Balanced), ProfileOf(LowLatency))
    ensures IsMorePatient(ProfileOf(Stable), ProfileOf(Balanced))
    ensures var profile := ProfileOf(preset);
            && profile.latencyToleranceMs < profile.latePacketDropMs < profile.targetBufferMs
            && 2 * profile.targetBufferMs < profile.maxBufferMs < profile.reconnectGraceMs
  {
  }

  datatype SampleFormat = S16Le | F32Le

  datatype StreamConfig = StreamConfig(
    sampleRateHz: u32,
    channels: u16,
    sampleFormat: SampleFormat,
    framesPerPacket: u32)

  const DEFAULT_STREAM := StreamConfig(48_000, 2, S16Le, 480)

  function BytesPerFrame(stream: StreamConfig): nat {
    stream.channels * (match stream.sampleFormat case S16Le => 2 case F32Le => 4)
  }

  datatype Packet = Packet(
    sequence: u64,
    capturedAtMs: u64,
    capturedAtUnixMs: u64,
    payload: seq<byte>)

  /** `None` stands for the rejected payload: no frame size, or not a whole number of frames. */
  function FrameCount(packet: Packet, stream: StreamConfig): Option<u32> {
    var bytesPerFrame := BytesPerFrame(stream);
    if bytesPerFrame == 0 || |packet.payload| % bytesPerFrame != 0 then None
    else Some((|packet.payload| / bytesPerFrame) % (U32_MAX + 1))
  }

  /** Packet duration rounded to the nearest nanosecond. */
  function PacketNanos(stream: StreamConfig): nat {
    if stream.sampleRateHz == 0 || stream.framesPerPacket == 0 then 0
    else (2 * stream.framesPerPacket * SECOND + stream.sampleRateHz) / (2 * stream.sampleRateHz)
  }

  function PacketCountForDuration(targetMs: nat, packetNanos: nat): nat {
    if packetNanos == 0 then 1 else CeilDiv(Max(targetMs * MILLISECOND, 1), packetNanos)
  }

  function StartThreshold(profile: Profile, stream: StreamConfig): nat {
    Max(PacketCountForDuration(profile.targetBufferMs, PacketNanos(stream)), 1)
  }

  function MaxPackets(profile: Profile, stream: StreamConfig): nat {
    Max(PacketCountForDuration(profile.maxBufferMs, PacketNanos(stream)), StartThreshold(profile, stream))
  }

  /** Whole milliseconds of audio in `frames`, computed in saturating 64-bit arithmetic. */
  function FramesToMs(frames: nat, sampleRateHz: u32): u32 {
    if sampleRateHz == 0 || frames == 0 then 0
    else
      assert 0 <= SaturatingMul64(frames, 1_000) / sampleRateHz;
      Min(SaturatingMul64(frames, 1_000) / sampleRateHz, U32_MAX)
  }

  lemma CeilDivBounds(a: nat, b: nat)
    requires a > 0 && b > 0
    ensures CeilDiv(a, b) >= 1
    ensures (CeilDiv(a, b) - 1) * b < a <= CeilDiv(a, b) * b
  {
    Divide(a + b - 1, b);
    assert (CeilDiv(a, b) - 1) * b == CeilDiv(a, b) * b - b;
    MulCancel(0, CeilDiv(a, b), b);
  }

  lemma CeilDivMonotone(a: nat, a': nat, b: nat)
    requires 0 < a <= a' && b > 0
    ensures CeilDiv(a, b) <= CeilDiv(a', b)
  {
    CeilDivBounds(a, b);
    CeilDivBounds(a', b);
    MulCancel(CeilDiv(a, b) - 1, CeilDiv(a', b), b);
  }

  /** The rounded duration is within half a nanosecond of frames / rate. */
  lemma PacketNanosIsNearest(stream: StreamConfig)
    requires stream.sampleRateHz > 0 && stream.framesPerPacket > 0
    ensures var pr, r, f := PacketNanos(stream) * stream.sampleRateHz, stream.sampleRateHz, stream.framesPerPacket;
            2 * pr <= 2 * f * SECOND + r < 2 * pr + 2 * r
  {
    NearestQuotient(2 * stream.framesPerPacket * SECOND, stream.sampleRateHz);
  }

  lemma NearestQuotient(x: nat, r: nat)
    requires r > 0
    ensures var p := (x + r) / (2 * r); 2 * (p * r) <= x + r < 2 * (p * r) + 2 * r
  {
    var p := (x + r) / (2 * r);
    Divide(x + r, 2 * r);
    assert p * (2 * r) == 2 * (p * r);
  }

  /** The buffer capacity of a preset is its maximum duration in packets, rounded up. */
  lemma CapacityCoversMaximum(profile: Profile, stream: StreamConfig)
    requires IsPreset(profile)
    ensures var n, p := MaxPackets(profile, stream), PacketNanos(stream);
            && n >= 1
            && (p == 0 ==> n == 1)
            && (p > 0 ==> (n - 1) * p < profile.maxBufferMs * MILLISECOND <= n * p)
  {
    var p := PacketNanos(stream);
    if p > 0 {
      CeilDivMonotone(profile.targetBufferMs * MILLISECOND, profile.maxBufferMs * MILLISECOND, p);
      CeilDivBounds(profile.maxBufferMs * MILLISECOND, p);
    }
  }

  lemma AtLeastMs(frames: nat, rate: u32, ms: nat)
    requires rate > 0 && frames > 0 && ms <= 1_000
    requires frames * 1_000 >= ms * rate
    ensures FramesToMs(frames, rate) >= ms
  {
    MulMonotone(ms, 1_000, rate);
    DivideAtLeast(SaturatingMul64(frames, 1_000), rate, ms);
  }

  /**
   * A buffer that holds its full complement of full-size packets has reached its
   * target duration exactly when the packet duration does not round to zero.
   */
  lemma FullBufferReachesTarget(profile: Profile, stream: StreamConfig)
    requires IsPreset(profile)
    ensures var frames := MaxPackets(profile, stream) * stream.framesPerPacket;
            FramesToMs(frames, stream.sampleRateHz) >= Max(profile.targetBufferMs, 1) <==> PacketNanos(stream) >= 1
  {
    var frames := MaxPackets(profile, stream) * stream.framesPerPacket;
    var n, p := MaxPackets(profile, stream), PacketNanos(stream);
    var r, f := stream.sampleRateHz, stream.framesPerPacket;
    CapacityCoversMaximum(profile, stream);
    if r > 0 && f > 0 {
      PacketNanosIsNearest(stream);
      if p == 0 {
        DivideBelow(SaturatingMul64(frames, 1_000), r, 1);
      } else {
        MulMonotone(1, n, f);
        HalfOfMaximum(n, p, r, f, profile.maxBufferMs);
        MulMonotone(2 * profile.targetBufferMs, profile.maxBufferMs, r);
        AtLeastMs(frames, r, profile.targetBufferMs);
      }
    }
  }

  lemma HalfOfMaximum(n: nat, p: nat, r: nat, f: nat, maxMs: nat)
    requires p >= 1 && n >= 1
    requires 2 * (p * r) <= 2 * f * SECOND + r
    requires maxMs * MILLISECOND <= n * p
    ensures maxMs * r <= 2 * (n * f * 1_000)
  {
    MulMonotone(1, p, r);
    MulMonotone(p * r, 2 * f * SECOND, n);
    MulMonotone(maxMs * MILLISECOND, n * p, r);
    assert n * (p * r) == (n * p) * r;
    assert n * (2 * f * SECOND) == 2 * (n * f) * SECOND;
    assert (maxMs * MILLISECOND) * r == (maxMs * r) * MILLISECOND;
  }

  /** The most frames one wire payload can carry: two bytes are the smallest frame. */
  const MAX_FRAMES_PER_PACKET := MAX_PAYLOAD_BYTES / 2

  lemma FrameCountBound(packet: Packet, stream: StreamConfig)
    requires FrameCount(packet, stream).Some?
    requires |packet.payload| <= MAX_PAYLOAD_BYTES
    ensures FrameCount(packet, stream).value <= MAX_FRAMES_PER_PACKET
    ensures FrameCount(packet, stream).value * BytesPerFrame(stream) == |packet.payload|
  {
    var b := BytesPerFrame(stream);
    var q := |packet.payload| / b;
    Divide(|packet.payload|, b);
    MulMonotone(2, b, q);
  }

  /**
   * However small the packet duration, a full buffer of maximal payloads stays
   * below 2^31 milliseconds, and the 64-bit product never saturates.
   */
  lemma QueuedAudioFits(profile: Profile, stream: StreamConfig, frames: nat)
    requires IsPreset(profile)
    requires frames <= MaxPackets(profile, stream) * MAX_FRAMES_PER_PACKET
    requires stream.sampleRateHz > 0
    ensures frames * 1_000 <= U64_MAX
    ensures frames * 1_000 / stream.sampleRateHz < 200_000_000
  {
    var n, p := MaxPackets(profile, stream), PacketNanos(stream);
    var r := stream.sampleRateHz;
    CapacityCoversMaximum(profile, stream);
    if p > 0 {
      PacketNanosIsNearest(stream);
      CapacityAgainstRate(n, p, r, stream.framesPerPacket, profile.maxBufferMs);
    }
    FramesAgainstRate(n, r, frames);
    DivideBelow(frames * 1_000, r, 200_000_000);
  }

  lemma FramesAgainstRate(n: nat, r: nat, frames: nat)
    requires n >= 1 && r >= 1
    requires (n - 1) * 2_000 <= 1_020 * r
    requires frames <= n * MAX_FRAMES_PER_PACKET
    ensures frames * 1_000 < 200_000_000 * r
  {
    assert MAX_FRAMES_PER_PACKET == 131_072;
    assert n * MAX_FRAMES_PER_PACKET == n * 131_072;
  }

  lemma CapacityAgainstRate(n: nat, p: nat, r: nat, f: nat, maxMs: nat)
    requires n >= 1 && p >= 1 && r >= 1 && f >= 1 && maxMs <= 340
    requires 2 * f * SECOND + r < 2 * (p * r) + 2 * r
    requires (n - 1) * p < maxMs * MILLISECOND
    ensures (n - 1) * 2_000 <= 1_020 * r
  {
    MulMonotone(1, p, r);
    MulMonotone(2 * SECOND, 3 * (p * r), n - 1);
    MulMonotone((n - 1) * p, maxMs * MILLISECOND, r);
    MulMonotone(maxMs, 340, r);
    assert (n - 1) * (3 * (p * r)) == 3 * (((n - 1) * p) * r);
    assert (maxMs * MILLISECOND) * r == (maxMs * r) * MILLISECOND;
  }
}
