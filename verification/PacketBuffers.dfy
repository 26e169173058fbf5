/**
 * The receiver's bounded packet queue (crates/synchrosonic-receiver/src/buffer.rs).
 * `Buffer` is the abstract value: its queued frames are by definition the sum of
 * the queued packets' frames. `ReceiverPacketBuffer` is the object that keeps
 * that sum in a counter it updates with saturating subtraction.
 */
module PacketBuffers {
  import opened Numbers
  import opened Arithmetic
  import opened Options
  import opened LatencyProfiles

  datatype BufferedPacket = BufferedPacket(packet: Packet, frameCount: u32)

  datatype PushOutcome = Accepted | DroppedOldest(droppedSequence: u64) | InvalidPayload

  datatype Buffer = Buffer(
    packets: seq<BufferedPacket>,
    sampleRateHz: u32,
    targetBufferMs: u32,
    startThreshold: nat,
    maxPackets: nat)

  function TotalFrames(packets: seq<BufferedPacket>): nat {
    if packets == [] then 0 else packets[0].frameCount + TotalFrames(packets[1..])
  }

  function EmptyBuffer(profile: Profile, stream: StreamConfig): Buffer {
    Buffer([], stream.sampleRateHz, profile.targetBufferMs, StartThreshold(profile, stream),
        MaxPackets(profile, stream))
  }

  function QueuedAudioMs(b: Buffer): u32 {
    FramesToMs(TotalFrames(b.packets), b.sampleRateHz)
  }

  predicate BufferReady(b: Buffer) {
    |b.packets| >= b.startThreshold && QueuedAudioMs(b) >= Max(b.targetBufferMs, 1)
  }

  predicate BufferFull(b: Buffer) {
    |b.packets| == b.maxPackets
  }

  function Enqueued(b: Buffer, p: BufferedPacket): Buffer
    requires b.maxPackets > 0
  {
    b.(packets := (if BufferFull(b) then b.packets[1..] else b.packets) + [p])
  }

  lemma {:induction false} TotalFramesAppend(ps: seq<BufferedPacket>, p: BufferedPacket)
    ensures TotalFrames(ps + [p]) == TotalFrames(ps) + p.frameCount
  {
    if ps != [] {
      assert (ps + [p])[1..] == ps[1..] + [p];
      TotalFramesAppend(ps[1..], p);
    }
  }

  lemma {:induction false} TotalFramesBound(ps: seq<BufferedPacket>, bound: nat)
    requires forall p | p in ps :: p.frameCount <= bound
    ensures TotalFrames(ps) <= |ps| * bound
  {
    if ps != [] {
      TotalFramesBound(ps[1..], bound);
      assert |ps| * bound == (|ps| - 1) * bound + bound;
    }
  }

  lemma {:induction false} TotalFramesUniform(ps: seq<BufferedPacket>, frames: u32)
    requires forall p | p in ps :: p.frameCount == frames
    ensures TotalFrames(ps) == |ps| * frames
  {
    if ps != [] {
      TotalFramesUniform(ps[1..], frames);
      assert |ps| * frames == (|ps| - 1) * frames + frames;
    }
  }

  /**
   * Filling up cannot wedge the stream: a full buffer of full-size packets is
   * ready to play exactly when the packet duration is at least one nanosecond.
   */
  lemma FullBufferIsReady(profile: Profile, stream: StreamConfig, b: Buffer)
    requires IsPreset(profile)
    requires b == EmptyBuffer(profile, stream).(packets := b.packets) && BufferFull(b)
    requires forall p | p in b.packets :: p.frameCount == stream.framesPerPacket
    ensures BufferReady(b) <==> PacketNanos(stream) >= 1
  {
    TotalFramesUniform(b.packets, stream.framesPerPacket);
    FullBufferReachesTarget(profile, stream);
  }

  /** The failing family of FullBufferIsReady is inhabited: one frame per packet at 4 GHz. */
  lemma TinyPacketsNeverReady()
    ensures var stream := StreamConfig(4_000_000_000, 1, S16Le, 1);
            var packet := BufferedPacket(Packet(0, 0, 0, [0, 0]), 1);
            var b := EmptyBuffer(ProfileOf(LowLatency), stream).(packets := [packet]);
            FrameCount(packet.packet, stream) == Some(1) && BufferFull(b) && !BufferReady(b)
  {
    var stream := StreamConfig(4_000_000_000, 1, S16Le, 1);
    assert PacketNanos(stream) == 0;
    var b := EmptyBuffer(ProfileOf(LowLatency), stream).(packets := [BufferedPacket(Packet(0, 0, 0, [0, 0]), 1)]);
    assert BufferFull(b);
    FullBufferIsReady(ProfileOf(LowLatency), stream, b);
  }

  /**
   * How far a queue may outgrow the preset's maximum: if its packets have at most `most` frames, it lasts
   * at most `most` / framesPerPacket times the maximum and one packet, counting half a nanosecond of
   * rounding for each packet it can hold.
   */
  lemma QueueStaysNearMaximum(profile: Profile, stream: StreamConfig, b: Buffer, most: u32)
    requires IsPreset(profile) && stream.sampleRateHz > 0 && PacketNanos(stream) >= 1
    requires b == EmptyBuffer(profile, stream).(packets := b.packets) && |b.packets| <= b.maxPackets
    requires forall p | p in b.packets :: p.frameCount <= most
    ensures var limit := profile.maxBufferMs * MILLISECOND + PacketNanos(stream);
            TotalFrames(b.packets) * (2 * stream.framesPerPacket * SECOND)
            <= most * ((2 * limit + b.maxPackets) * stream.sampleRateHz)
  {
    var n, p, f, r := b.maxPackets, PacketNanos(stream), stream.framesPerPacket, stream.sampleRateHz;
    CapacityCoversMaximum(profile, stream);
    PacketNanosIsNearest(stream);
    TotalFramesBound(b.packets, most);
    MulMonotone(|b.packets|, n, most);
    NearMaximum(n, p, f, r, profile.maxBufferMs * MILLISECOND);
    var limit := profile.maxBufferMs * MILLISECOND + p;
    Scaled(TotalFrames(b.packets), n, most, 2 * f * SECOND, (2 * limit + n) * r);
  }

  lemma Scaled(total: nat, n: nat, each: nat, unit: nat, limit: int)
    requires total <= n * each && n * unit <= limit
    ensures total * unit <= each * limit
  {
    MulMonotone(total, n * each, unit);
    assert (n * each) * unit == each * (n * unit);
    MulMonotone(n * unit, limit, each);
  }

  lemma NearMaximum(n: nat, p: nat, f: nat, r: nat, max: nat)
    requires (n - 1) * p < max
    requires 2 * f * SECOND + r < 2 * (p * r) + 2 * r
    ensures n * (2 * f * SECOND) <= (2 * (max + p) + n) * r
  {
    assert (n - 1) * p == n * p - p;
    assert 2 * (p * r) + r == (2 * p + 1) * r;
    MulMonotone(2 * f * SECOND, (2 * p + 1) * r, n);
    assert n * ((2 * p + 1) * r) == (n * (2 * p + 1)) * r;
    assert n * (2 * p + 1) == 2 * (n * p) + n;
    MulMonotone(2 * (n * p) + n, 2 * (max + p) + n, r);
  }

  /** Flooring and saturation do not matter for a comparison with whole milliseconds. */
  lemma AtMostMs(frames: nat, rate: u32, ms: nat)
    requires rate > 0 && ms <= 1_000
    ensures FramesToMs(frames, rate) <= ms <==> frames * 1_000 < (ms + 1) * rate
  {
    var x := SaturatingMul64(frames, 1_000);
    MulMonotone(ms + 1, 1_001, rate);
    if frames * 1_000 < (ms + 1) * rate {
      DivideBelow(x, rate, ms + 1);
    } else {
      DivideAtLeast(x, rate, ms + 1);
    }
  }

  class ReceiverPacketBuffer {
    var packets: seq<BufferedPacket>
    var queuedFrames: nat
    const sampleRateHz: u32
    const targetBufferMs: u32
    const startThreshold: nat
    const maxPackets: nat

    ghost predicate Valid()
      reads this
    {
      queuedFrames == TotalFrames(packets) && |packets| <= maxPackets && 0 < startThreshold <= maxPackets
    }

    ghost function Contents(): Buffer
      reads this
    {
      Buffer(packets, sampleRateHz, targetBufferMs, startThreshold, maxPackets)
    }

    constructor (profile: Profile, stream: StreamConfig)
      ensures Valid() && Contents() == EmptyBuffer(profile, stream)
    {
      packets, queuedFrames := [], 0;
      sampleRateHz := stream.sampleRateHz;
      targetBufferMs := profile.targetBufferMs;
      startThreshold := StartThreshold(profile, stream);
      maxPackets := MaxPackets(profile, stream);
    }

    method Clear()
      requires Valid()
      modifies this
      ensures Valid() && Contents() == old(Contents()).(packets := [])
    {
      packets, queuedFrames := [], 0;
    }

    /** The counter answers for the queue: milliseconds of audio actually queued. */
    function QueuedMs(): (ms: u32)
      requires Valid()
      reads this
      ensures ms == QueuedAudioMs(Contents())
    {
      FramesToMs(queuedFrames, sampleRateHz)
    }

    predicate IsReady()
      requires Valid()
      reads this
      ensures IsReady() <==> BufferReady(Contents())
    {
      |packets| >= startThreshold && QueuedMs() >= Max(targetBufferMs, 1)
    }

    method Push(packet: Packet, stream: StreamConfig) returns (outcome: PushOutcome)
      requires Valid()
      modifies this
      ensures Valid()
      ensures outcome == InvalidPayload <==> FrameCount(packet, stream).None?
      ensures outcome == InvalidPayload ==> Contents() == old(Contents())
      ensures outcome != InvalidPayload ==>
                Contents() == Enqueued(old(Contents()), BufferedPacket(packet, FrameCount(packet, stream).value))
      ensures outcome != InvalidPayload ==>
                outcome ==
                  if old(BufferFull(Contents())) then DroppedOldest(old(packets[0].packet.sequence)) else Accepted
    {
      var frameCount := FrameCount(packet, stream);
      if frameCount.None? {
        return InvalidPayload;
      }
      outcome := Accepted;
      if |packets| == maxPackets {
        var dropped := packets[0];
        packets := packets[1..];
        queuedFrames := Max(queuedFrames - dropped.frameCount, 0);
        outcome := DroppedOldest(dropped.packet.sequence);
      }
      TotalFramesAppend(packets, BufferedPacket(packet, frameCount.value));
      queuedFrames := queuedFrames + frameCount.value;
      packets := packets + [BufferedPacket(packet, frameCount.value)];
    }

    method Pop() returns (popped: Option<BufferedPacket>)
      requires Valid()
      modifies this
      ensures Valid()
      ensures old(packets) == [] ==> popped == None && Contents() == old(Contents())
      ensures old(packets) != [] ==>
                popped == Some(old(packets)[0]) && Contents() == old(Contents()).(packets := old(packets)[1..])
    {
      if packets == [] {
        return None;
      }
      var packet := packets[0];
      packets := packets[1..];
      queuedFrames := Max(queuedFrames - packet.frameCount, 0);
      return Some(packet);
    }
  }
}
