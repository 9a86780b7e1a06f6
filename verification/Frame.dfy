/** The audio frame record of ipc_shm.hpp and the planar, stride-256 copies into and out of it.
    Samples are opaque values; a slot of a ring is reused, so the parts of its sample array that a
    block does not cover hold stale samples of earlier blocks. */
module Frame {

  const MAX_FRAMES: nat := 256
  const MAX_CHANNELS: nat := 8
  const STRIDE: nat := 256
  const SAMPLES: nat := 2048

  type Sample = real

  datatype AudioFrame = AudioFrame(
    instanceId: nat, frameCount: nat, channelCount: nat, timestamp: nat, samples: seq<Sample>)

  /** What a frame means: its valid samples, channel by channel. */
  datatype Block = Block(frames: nat, timestamp: nat, channels: seq<seq<Sample>>)

  predicate ValidBlock(b: Block) {
    b.frames <= MAX_FRAMES && |b.channels| <= MAX_CHANNELS && forall c | 0 <= c < |b.channels| :: |b.channels[c]| == b.frames
  }

  predicate ValidFrame(f: AudioFrame) {
    |f.samples| == SAMPLES && f.frameCount <= MAX_FRAMES && f.channelCount <= MAX_CHANNELS
  }

  function ChannelOf(f: AudioFrame, c: nat): (q: seq<Sample>)
    requires |f.samples| == SAMPLES && f.frameCount <= MAX_FRAMES && c < MAX_CHANNELS
  {
    f.samples[c * STRIDE..c * STRIDE + f.frameCount]
  }

  function PayloadOf(f: AudioFrame): (b: Block)
    requires ValidFrame(f)
    ensures ValidBlock(b)
  {
    Block(f.frameCount, f.timestamp, seq(f.channelCount, c requires 0 <= c < f.channelCount => ChannelOf(f, c)))
  }

  /** The payload, sample by sample: channel c is in the slot from index 256 * c on. */
  lemma PayloadExactly(f: AudioFrame)
    requires ValidFrame(f)
    ensures var b := PayloadOf(f);
      && b.frames == f.frameCount && b.timestamp == f.timestamp && |b.channels| == f.channelCount
      && forall c, k | 0 <= c < f.channelCount && 0 <= k < f.frameCount ::
           256 * c + k < SAMPLES && |b.channels[c]| == f.frameCount && b.channels[c][k] == f.samples[256 * c + k]
  {
    forall c, k | 0 <= c < f.channelCount && 0 <= k < f.frameCount
      ensures 256 * c + k < SAMPLES && PayloadOf(f).channels[c][k] == f.samples[256 * c + k]
    {
      assert PayloadOf(f).channels[c] == ChannelOf(f, c);
    }
  }

  /** Frames of the same meaning agree on every valid sample, wherever it lies. */
  lemma SamePayload(f: AudioFrame, g: AudioFrame, i: nat)
    requires ValidFrame(f) && ValidFrame(g) && PayloadOf(f) == PayloadOf(g)
    requires i < SAMPLES && i / 256 < f.channelCount && i % 256 < f.frameCount
    ensures f.samples[i] == g.samples[i]
  {
    PayloadExactly(f);
    PayloadExactly(g);
    var c, k := i / 256, i % 256;
    assert i == 256 * c + k;
    assert PayloadOf(f).channels[c][k] == PayloadOf(g).channels[c][k];
  }

  // ---- Clamping ----

  type Int32 = n: int | -0x8000_0000 <= n < 0x8000_0000

  /** `(uint32_t)n`. */
  function Uint32(n: Int32): (u: nat)
    ensures n >= 0 ==> u == n
    ensures n < 0 ==> u == n + 0x1_0000_0000
  {
    n % 0x1_0000_0000
  }

  /** `(uint32_t)(n > max ? max : n)`. */
  function Clamp(n: Int32, max: nat): (u: nat)
    requires max < 0x8000_0000
  {
    Uint32(if n > max then max else n)
  }

  /** The clamp keeps a count within its maximum exactly when the caller's count is not negative. */
  lemma ClampHoldsExactlyWhen(n: Int32, max: nat)
    requires max < 0x8000_0000
    ensures Clamp(n, max) <= max <==> n >= 0
    ensures n >= 0 ==> Clamp(n, max) == Min(n, max)
  {
  }

  function Min(a: int, b: int): (m: int) { if a <= b then a else b }

  /** The caller's arguments to a dispatch call. */
  datatype DispatchArgs = DispatchArgs(buffers: seq<seq<Sample>>, frames: Int32, channels: Int32, now: nat)

  /** The copies of a dispatch stay inside the slot and inside the caller's buffers. */
  predicate CopiesFit(a: DispatchArgs) {
    && Clamp(a.channels, MAX_CHANNELS) <= MAX_CHANNELS && |a.buffers| >= Clamp(a.channels, MAX_CHANNELS)
    && (Clamp(a.channels, MAX_CHANNELS) > 0 ==> Clamp(a.frames, MAX_FRAMES) <= MAX_FRAMES)
    && forall c | 0 <= c < Clamp(a.channels, MAX_CHANNELS) :: |a.buffers[c]| >= Clamp(a.frames, MAX_FRAMES)
  }

  /** The copies fit, and so do the counts that are published with them. */
  predicate ValidArgs(a: DispatchArgs) {
    CopiesFit(a) && Clamp(a.frames, MAX_FRAMES) <= MAX_FRAMES
  }

  function ClampedBlock(a: DispatchArgs): (b: Block)
    requires ValidArgs(a)
    ensures ValidBlock(b)
  {
    var fc := Clamp(a.frames, MAX_FRAMES);
    var cc := Clamp(a.channels, MAX_CHANNELS);
    Block(fc, a.now, seq(cc, c requires 0 <= c < cc => a.buffers[c][..fc]))
  }

  /** What a dispatch publishes: its clamped counts, its own clock reading, and its samples. */
  lemma ClampedBlockExactly(a: DispatchArgs)
    requires ValidArgs(a)
    ensures var b := ClampedBlock(a);
      && b.frames == Min(a.frames, 256) && |b.channels| == Min(a.channels, 8) && b.timestamp == a.now
      && forall c, k | 0 <= c < |b.channels| && 0 <= k < b.frames ::
           |b.channels[c]| == b.frames && k < |a.buffers[c]| && b.channels[c][k] == a.buffers[c][k]
  {
    ValidArgsExactlyWhen(a);
    CopiesFitExactlyWhen(a);
    ClampHoldsExactlyWhen(a.frames, MAX_FRAMES);
    ClampHoldsExactlyWhen(a.channels, MAX_CHANNELS);
  }

  /** Exactly when the copies of a dispatch stay in bounds: always with no channels, and otherwise when
      no count is negative and the buffers are long enough. */
  lemma CopiesFitExactlyWhen(a: DispatchArgs)
    ensures CopiesFit(a) <==>
      (|| a.channels == 0
       || (&& a.channels > 0 && a.frames >= 0 && |a.buffers| >= Min(a.channels, MAX_CHANNELS)
           && forall c | 0 <= c < Min(a.channels, MAX_CHANNELS) :: |a.buffers[c]| >= Min(a.frames, MAX_FRAMES)))
  {
    ClampHoldsExactlyWhen(a.frames, MAX_FRAMES);
    ClampHoldsExactlyWhen(a.channels, MAX_CHANNELS);
  }

  /** A call without channels and with a negative frame count copies nothing, but publishes a frame
      count that no slot can have. That is the only call whose copies fit and that is not valid. */
  lemma ValidArgsExactlyWhen(a: DispatchArgs)
    ensures ValidArgs(a) <==> CopiesFit(a) && a.frames >= 0
    ensures CopiesFit(a) && !ValidArgs(a) <==> a.channels == 0 && a.frames < 0
  {
    ClampHoldsExactlyWhen(a.frames, MAX_FRAMES);
    CopiesFitExactlyWhen(a);
  }

  /** What a dispatch does to the frames of in_queue when it is neither refused nor finds the queue full. */
  ghost predicate Appends(before: seq<AudioFrame>, after: seq<AudioFrame>, args: DispatchArgs)
    requires ValidArgs(args)
  {
    && |after| == |before| + 1 && after[..|before|] == before
    && ValidFrame(after[|before|]) && PayloadOf(after[|before|]) == ClampedBlock(args)
  }

  // ---- Copies ----

  /** memcpy of `src` to offset `at`. */
  function Blit(dst: seq<Sample>, at: nat, src: seq<Sample>): (r: seq<Sample>)
    requires at + |src| <= |dst|
    ensures |r| == |dst| && r[at..at + |src|] == src
    ensures forall lo, hi | 0 <= lo <= hi <= |dst| && (hi <= at || at + |src| <= lo) :: r[lo..hi] == dst[lo..hi]
  {
    var r := dst[..at] + src + dst[at + |src|..];
    assert forall lo, hi | 0 <= lo <= hi <= |dst| && hi <= at :: r[lo..hi] == dst[lo..hi];
    assert forall lo, hi | 0 <= lo <= hi <= |dst| && at + |src| <= lo :: r[lo..hi] == dst[lo..hi];
    r
  }

  function PutHeader(f: AudioFrame, b: Block): (f': AudioFrame) {
    f.(frameCount := b.frames, channelCount := |b.channels|, timestamp := b.timestamp)
  }

  /** One turn of the channel loop of dispatch, and of the worker's output copy. */
  function PutChannel(f: AudioFrame, c: nat, src: seq<Sample>): (f': AudioFrame)
    requires |f.samples| == SAMPLES && c < MAX_CHANNELS && |src| <= MAX_FRAMES
  {
    f.(samples := Blit(f.samples, c * STRIDE, src))
  }

  /** The header and the first `n` channels of the block have been written into the slot. */
  predicate FilledTo(f: AudioFrame, b: Block, n: nat)
    requires ValidBlock(b)
  {
    && |f.samples| == SAMPLES && n <= |b.channels|
    && f.frameCount == b.frames && f.channelCount == |b.channels| && f.timestamp == b.timestamp
    && forall c | 0 <= c < n :: ChannelOf(f, c) == b.channels[c]
  }

  /** A channel written into a slot leaves the channels already written as they are. */
  lemma PutChannelFills(f: AudioFrame, b: Block, n: nat)
    requires ValidBlock(b) && FilledTo(f, b, n) && n < |b.channels|
    ensures FilledTo(PutChannel(f, n, b.channels[n]), b, n + 1)
  {
    var f' := PutChannel(f, n, b.channels[n]);
    forall c | 0 <= c < n + 1 ensures ChannelOf(f', c) == b.channels[c] {
      if c < n {
        assert c * STRIDE + f.frameCount <= n * STRIDE;
      }
    }
  }

  /** A slot with every channel written means exactly the block, whatever it held before. */
  lemma FilledIsPayload(f: AudioFrame, b: Block)
    requires ValidBlock(b) && FilledTo(f, b, |b.channels|)
    ensures ValidFrame(f) && PayloadOf(f) == b
  {
    assert PayloadOf(f).channels == b.channels;
  }

  /** What the first `n` channels of a block leave in the caller's buffers. */
  predicate Received(before: seq<seq<Sample>>, after: seq<seq<Sample>>, b: Block, n: nat)
    requires ValidBlock(b)
  {
    && |before| == |after| && n <= |b.channels| && n <= |before|
    && (forall c | 0 <= c < n :: |before[c]| >= b.frames && after[c] == b.channels[c] + before[c][b.frames..])
    && (forall c | n <= c < |before| :: after[c] == before[c])
  }

  /** How many buffers a read writes: the block's channels, but no more than the caller asks for. The
      comparison is unsigned, so a negative request asks for all of them. */
  function ReadChannels(b: Block, channels: Int32): (n: nat) {
    Min(|b.channels|, Uint32(channels))
  }

  function Sizes(buffers: seq<seq<Sample>>): (sizes: seq<nat>)
    ensures |sizes| == |buffers| && forall c | 0 <= c < |buffers| :: sizes[c] == |buffers[c]|
  {
    seq(|buffers|, c requires 0 <= c < |buffers| => |buffers[c]|)
  }

  /** A negative request reads every channel of the block. */
  lemma ReadChannelsExactly(b: Block, channels: Int32)
    requires ValidBlock(b)
    ensures ReadChannels(b, channels) == if channels < 0 || channels >= |b.channels| then |b.channels| else channels
  {
  }

  /** Every buffer a read writes can take the block. */
  predicate ReadFits(b: Block, channels: Int32, sizes: seq<nat>) {
    && ReadChannels(b, channels) <= |sizes|
    && forall c | 0 <= c < ReadChannels(b, channels) :: b.frames <= sizes[c]
  }

  predicate BufferTakes(sizes: seq<nat>, c: nat, frames: nat) {
    c < |sizes| && frames <= sizes[c]
  }

  /** The copy stays in bounds exactly when there is a buffer for every channel that is read, long enough
      for the block. */
  lemma ReadFitsGenerally(b: Block, channels: Int32, sizes: seq<nat>)
    requires ValidBlock(b)
    ensures ReadFits(b, channels, sizes) <==>
      forall c: nat | c < |b.channels| && (channels < 0 || c < channels) :: BufferTakes(sizes, c, b.frames)
  {
    ReadChannelsExactly(b, channels);
    var n := ReadChannels(b, channels);
    if forall c: nat | c < |b.channels| && (channels < 0 || c < channels) :: BufferTakes(sizes, c, b.frames) {
      forall c: nat | c < n ensures c < |sizes| && b.frames <= sizes[c] {
        assert BufferTakes(sizes, c, b.frames);
      }
      if n > 0 {
        assert BufferTakes(sizes, n - 1, b.frames);
      }
    }
  }

  /** read_output does not look at its frame count. With as many buffers as it asks channels for, each
      of the `frames` samples it names, it stays inside them exactly when the block is not longer than
      that, or has no channel to copy, or none was asked for. */
  lemma ReadFitsExactlyWhen(b: Block, channels: Int32, sizes: seq<nat>, frames: nat)
    requires channels >= 0 && |sizes| == channels && forall c | 0 <= c < |sizes| :: sizes[c] == frames
    ensures ReadFits(b, channels, sizes) <==> b.frames <= frames || b.channels == [] || channels == 0
  {
    if channels > 0 && b.channels != [] {
      assert 0 < ReadChannels(b, channels) <= |sizes| && sizes[0] == frames;
    }
  }

  /** Some frame that means a given block. */
  function FrameOf(b: Block, instanceId: nat): (f: AudioFrame)
    requires ValidBlock(b)
    ensures ValidFrame(f) && PayloadOf(f) == b && f.instanceId == instanceId
  {
    var samples := seq(SAMPLES, i requires 0 <= i < SAMPLES =>
      if i / STRIDE < |b.channels| && i % STRIDE < b.frames then b.channels[i / STRIDE][i % STRIDE] else 0.0);
    var f := AudioFrame(instanceId, b.frames, |b.channels|, b.timestamp, samples);
    assert forall c | 0 <= c < |b.channels| :: ChannelOf(f, c) == b.channels[c] by {
      forall c, k | 0 <= c < |b.channels| && 0 <= k < b.frames
        ensures samples[c * STRIDE + k] == b.channels[c][k]
      {
        assert (c * STRIDE + k) / STRIDE == c && (c * STRIDE + k) % STRIDE == k;
      }
    }
    f
  }

  // ---- Queues of blocks ----

  function Payloads(q: seq<AudioFrame>): (blocks: seq<Block>)
    requires forall f | f in q :: ValidFrame(f)
  {
    seq(|q|, i requires 0 <= i < |q| => PayloadOf(q[i]))
  }

  /** A block is appended to a queue of frames, or dropped when the queue is full. */
  ghost predicate Delivers(before: seq<AudioFrame>, after: seq<AudioFrame>, made: Block, room: nat) {
    if |before| >= room then after == before
    else
      && |after| == |before| + 1 && after[..|before|] == before
      && ValidFrame(after[|before|]) && PayloadOf(after[|before|]) == made
  }

  /** What one wakeup of the worker does to the two queues: the oldest input block is taken, and what
      was made of it is appended to the output, or dropped exactly when that is full. */
  predicate PassesOne(ins: seq<Block>, ins': seq<Block>, outs: seq<Block>, outs': seq<Block>, made: Block, room: nat) {
    && ins != [] && ins' == ins[1..]
    && outs' == if |outs| < room then outs + [made] else outs
  }

  lemma FramesPassOne(ins: seq<AudioFrame>, outs: seq<AudioFrame>, outs': seq<AudioFrame>, made: Block, room: nat)
    requires ins != [] && (forall f | f in ins :: ValidFrame(f)) && (forall f | f in outs :: ValidFrame(f))
    requires Delivers(outs, outs', made, room)
    ensures (forall f | f in ins[1..] :: ValidFrame(f)) && (forall f | f in outs' :: ValidFrame(f))
    ensures PassesOne(Payloads(ins), Payloads(ins[1..]), Payloads(outs), Payloads(outs'), made, room)
  {
    if |outs| < room {
      assert outs' == outs + [outs'[|outs|]];
      assert Payloads(outs') == Payloads(outs) + [made];
    }
  }
}
