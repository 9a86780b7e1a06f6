/** The plugin's side: dispatch, read_output and set_param of sdk/src/dsp_accel_sdk.cpp, each call
    taken by itself. Pipeline.dfy and MemoryBus.dfy interleave their steps with the worker's.
    Whether a signal can be sent is a parameter of the call. */
module Sdk {
  import opened Control
  import opened Frame
  import opened Ring
  import opened SharedMemory
  import opened Watchdog

  /** What a call returns. Where the source goes on past the end of an array, or publishes a count that
      no slot can have, the model stops instead and says so. */
  datatype Outcome = Returned(ok: bool) | OutOfBounds

  class SdkContext {
    const shm: Segment
    const monitor: HeartbeatMonitor
    var dispatchedBlocks: nat
    var xrunCount: nat

    ghost predicate Valid()
      reads this, monitor, shm, shm.inQueue, shm.outQueue, shm.inQueue.data, shm.outQueue.data
    {
      shm.AudioValid() && monitor.Valid() && dispatchedBlocks < WRAP && xrunCount < WRAP
    }

    constructor (shm: Segment)
      requires shm.AudioValid()
      ensures Valid() && this.shm == shm && monitor.trace == [shm.heartbeat]
    {
      this.shm := shm;
      monitor := new HeartbeatMonitor(shm.heartbeat);
      dispatchedBlocks, xrunCount := 0, 0;
    }

    /** Fills the reserved slot behind the queue; stale samples beyond the block stay in it. */
    method FillSlot(args: DispatchArgs, slot: nat)
      requires Valid() && ValidArgs(args) && slot == shm.inQueue.tail
      modifies shm.inQueue.data
      ensures Valid()
      ensures shm.inQueue.data[..] == old(shm.inQueue.data[..])[slot := shm.inQueue.data[slot]]
      ensures PayloadOf(shm.inQueue.data[slot]) == ClampedBlock(args)
      ensures var f := shm.inQueue.data[slot];
        && f.timestamp == args.now && f.frameCount == Min(args.frames, 256) && f.channelCount == Min(args.channels, 8)
        && forall c, k | 0 <= c < f.channelCount && 0 <= k < f.frameCount ::
             k < |args.buffers[c]| && f.samples[256 * c + k] == args.buffers[c][k]
      ensures shm.inQueue.data[slot].instanceId == old(shm.inQueue.data[slot].instanceId)
    {
      var data := shm.inQueue.data;
      var fc := Clamp(args.frames, MAX_FRAMES);
      var cc := Clamp(args.channels, MAX_CHANNELS);
      ghost var block := ClampedBlock(args);
      data[slot] := data[slot].(frameCount := fc, channelCount := cc, timestamp := args.now);
      for ch := 0 to cc
        invariant data[..] == old(data[..])[slot := data[slot]]
        invariant FilledTo(data[slot], block, ch) && data[slot].instanceId == old(data[slot].instanceId)
      {
        PutChannelFills(data[slot], block, ch);
        data[slot] := PutChannel(data[slot], ch, args.buffers[ch][..fc]);
      }
      FilledIsPayload(data[slot], block);
      PayloadExactly(data[slot]);
      ClampedBlockExactly(args);
      assert forall i | 0 <= i < QUEUE_DEPTH && i != slot :: data[i] == old(data[..])[i];
    }

    /** Fills the reserved slot and commits it. */
    method PublishFrame(args: DispatchArgs, slot: nat)
      requires Valid() && ValidArgs(args) && slot == shm.inQueue.tail && |shm.inQueue.Queue()| < QUEUE_DEPTH - 1
      modifies shm.inQueue`tail, shm.inQueue.data
      ensures Valid() && Appends(old(shm.inQueue.Queue()), shm.inQueue.Queue(), args)
      ensures shm.inQueue.Queue()[|old(shm.inQueue.Queue())|].timestamp == args.now
    {
      ghost var ring := shm.inQueue.State();
      FillSlot(args, slot);
      WriteAtTail(ring, shm.inQueue.data[slot]);
      assert shm.inQueue.State() == ring.(data := ring.data[ring.tail := shm.inQueue.data[slot]]);
      shm.inQueue.CommitWrite();
    }

    /** dsp_accel_sdk_dispatch. The arguments are looked at only when there is a slot to fill. */
    method Dispatch(args: DispatchArgs, signalOk: bool) returns (r: Outcome)
      requires Valid()
      modifies this, monitor, shm`eSend, shm.inQueue, shm.inQueue.data
      ensures Valid()
      ensures old(shm.failed) ==> r == Returned(false) && monitor.trace == old(monitor.trace)
      ensures !old(shm.failed) ==> monitor.trace == old(monitor.trace) + [shm.heartbeat]
      ensures
        var refused := old(shm.failed) || monitor.run % WRAP > LIMIT;
        var full := |old(shm.inQueue.Queue())| == QUEUE_DEPTH - 1;
        && (r.OutOfBounds? <==> !refused && !full && !ValidArgs(args))
        && (refused || full ==>
              r == Returned(false) && shm.inQueue.Queue() == old(shm.inQueue.Queue()) && shm.eSend == old(shm.eSend)
              && dispatchedBlocks == old(dispatchedBlocks)
              && xrunCount == if refused then old(xrunCount) else (old(xrunCount) + 1) % WRAP)
        && (!refused && !full && ValidArgs(args) ==>
              && Appends(old(shm.inQueue.Queue()), shm.inQueue.Queue(), args) && r == Returned(signalOk)
              && shm.inQueue.Queue()[|old(shm.inQueue.Queue())|].timestamp == args.now
              && shm.eSend == old(shm.eSend) + (if signalOk then 1 else 0)
              && dispatchedBlocks == (if signalOk then (old(dispatchedBlocks) + 1) % WRAP else old(dispatchedBlocks))
              && xrunCount == if signalOk then old(xrunCount) else (old(xrunCount) + 1) % WRAP)
    {
      if shm.failed {
        return Returned(false);
      }
      var alive := monitor.Check(shm.heartbeat);
      if !alive {
        return Returned(false);
      }
      var slot := shm.inQueue.ReserveWrite();
      if slot.None? {
        xrunCount := (xrunCount + 1) % WRAP;
        return Returned(false);
      }
      if !ValidArgs(args) {
        return OutOfBounds;
      }
      PublishFrame(args, slot.value);
      if !signalOk {
        xrunCount := (xrunCount + 1) % WRAP;
        return Returned(false);
      }
      shm.eSend := shm.eSend + 1;
      dispatchedBlocks := (dispatchedBlocks + 1) % WRAP;
      return Returned(true);
    }

    /** memcpy into the front of a caller's buffer. */
    static method CopyIn(dst: array<Sample>, src: seq<Sample>)
      requires |src| <= dst.Length
      modifies dst
      ensures dst[..] == src + old(dst[..])[|src|..]
    {
      for i := 0 to |src|
        invariant dst[..i] == src[..i] && dst[i..] == old(dst[..])[i..]
      {
        dst[i] := src[i];
      }
    }

    static function Snapshot(buffers: seq<array<Sample>>): (values: seq<seq<Sample>>)
      reads set b | b in buffers
      ensures |values| == |buffers| && forall c | 0 <= c < |buffers| :: values[c] == buffers[c][..]
    {
      seq(|buffers|, c requires 0 <= c < |buffers| reads set b | b in buffers => buffers[c][..])
    }

    /** The last of the first n channels that goes into the buffer of channel c, or -1. Two channels may
        name one buffer. */
    static function LastInto(buffers: seq<array<Sample>>, n: nat, c: nat): (l: int)
      requires n <= |buffers| && c < |buffers|
      ensures -1 <= l < n && (l >= 0 ==> buffers[l] == buffers[c])
      ensures forall k | l < k < n :: buffers[k] != buffers[c]
    {
      if n == 0 then -1 else if buffers[n - 1] == buffers[c] then n - 1 else LastInto(buffers, n - 1, c)
    }

    /** A buffer after channel l of a block has gone into it, if any has. */
    static function Overwritten(before: seq<Sample>, b: Block, l: int): (after: seq<Sample>)
      requires ValidBlock(b) && l < |b.channels| && (l >= 0 ==> b.frames <= |before|)
      ensures |after| == |before| && (b.frames <= |before| ==> after[b.frames..] == before[b.frames..])
    {
      if l < 0 then before else b.channels[l] + before[b.frames..]
    }

    /** The first n channels of a block have gone into the buffers, in order; nothing else has changed. */
    static ghost predicate Copied(buffers: seq<array<Sample>>, before: seq<seq<Sample>>, b: Block, n: nat)
      reads set a | a in buffers
    {
      && ValidBlock(b) && n <= |b.channels| && n <= |buffers| == |before|
      && forall c | 0 <= c < |buffers| ::
           && buffers[c].Length == |before[c]|
           && (LastInto(buffers, n, c) >= 0 ==> b.frames <= |before[c]|)
           && buffers[c][..] == Overwritten(before[c], b, LastInto(buffers, n, c))
    }

    /** One turn of the channel loop of read_output. */
    static method CopyChannel(frame: AudioFrame, buffers: seq<array<Sample>>, ghost before: seq<seq<Sample>>, ch: nat)
      requires ValidFrame(frame) && ch < frame.channelCount && ch < |buffers| && frame.frameCount <= buffers[ch].Length
      requires Copied(buffers, before, PayloadOf(frame), ch)
      modifies buffers[ch]
      ensures Copied(buffers, before, PayloadOf(frame), ch + 1)
    {
      ghost var b := PayloadOf(frame);
      CopyIn(buffers[ch], ChannelOf(frame, ch));
      forall c | 0 <= c < |buffers|
        ensures LastInto(buffers, ch + 1, c) >= 0 ==> b.frames <= |before[c]|
        ensures buffers[c][..] == Overwritten(before[c], b, LastInto(buffers, ch + 1, c))
      {
        assert buffers[ch] != buffers[c] ==> buffers[c][..] == old(buffers[c][..]);
      }
    }

    /** The channel loop of read_output. */
    static method CopyOut(frame: AudioFrame, buffers: seq<array<Sample>>, n: nat)
      requires ValidFrame(frame) && n <= frame.channelCount && n <= |buffers|
      requires forall c | 0 <= c < n :: buffers[c].Length >= frame.frameCount
      modifies set b | b in buffers
      ensures Copied(buffers, old(Snapshot(buffers)), PayloadOf(frame), n)
    {
      ghost var before := Snapshot(buffers);
      for ch := 0 to n
        invariant Copied(buffers, before, PayloadOf(frame), ch)
      {
        CopyChannel(frame, buffers, before, ch);
      }
    }

    /** With a buffer of its own for every channel, each channel is received in its buffer. */
    static lemma CopiedIsReceived(buffers: seq<array<Sample>>, before: seq<seq<Sample>>, b: Block, n: nat)
      requires Copied(buffers, before, b, n) && forall i, j | 0 <= i < j < |buffers| :: buffers[i] != buffers[j]
      ensures Received(before, Snapshot(buffers), b, n)
    {
      forall c | 0 <= c < |buffers| ensures LastInto(buffers, n, c) == if c < n then c else -1 {
      }
    }

    /** dsp_accel_sdk_read_output. Its frame count is never used: the block that is waiting decides how
        much is copied, and it stays in bounds exactly as ReadFitsExactlyWhen says. */
    method ReadOutput(buffers: seq<array<Sample>>, frames: Int32, channels: Int32) returns (r: Outcome)
      requires Valid()
      modifies shm`eRecv, shm.outQueue, set b | b in buffers
      ensures Valid() && shm.eRecv == 0
      ensures
        var q, pending, before := old(shm.outQueue.Queue()), old(shm.eRecv) > 0, old(Snapshot(buffers));
        if !pending || q == [] then
          r == Returned(false) && shm.outQueue.Queue() == q && Snapshot(buffers) == before
        else
          && ValidFrame(q[0])
          && if ReadFits(PayloadOf(q[0]), channels, Sizes(before)) then
               && r == Returned(true) && shm.outQueue.Queue() == q[1..]
               && Copied(buffers, before, PayloadOf(q[0]), ReadChannels(PayloadOf(q[0]), channels))
             else
               r == OutOfBounds && shm.outQueue.Queue() == q && Snapshot(buffers) == before
    {
      if shm.eRecv == 0 {
        return Returned(false);
      }
      shm.eRecv := 0;
      var slot := shm.outQueue.PeekRead();
      if slot.None? {
        return Returned(false);
      }
      var frame := shm.outQueue.data[slot.value];
      var sizes := Sizes(Snapshot(buffers));
      if !ReadFits(PayloadOf(frame), channels, sizes) {
        return OutOfBounds;
      }
      var n := ReadChannels(PayloadOf(frame), channels);
      assert forall c | 0 <= c < n :: buffers[c].Length == sizes[c];
      CopyOut(frame, buffers, n);
      shm.outQueue.CommitRead();
      return Returned(true);
    }

    /** dsp_accel_sdk_set_param. */
    method SetParam(id: nat, value: real) returns (ok: bool)
      requires shm.controlBus.Valid()
      modifies shm.controlBus, shm.controlBus.data
      ensures shm.controlBus.Valid()
      ensures ok <==> |old(shm.controlBus.Queue())| < shm.controlBus.data.Length - 1
      ensures shm.controlBus.Queue() ==
              old(shm.controlBus.Queue()) + if ok then [ControlEvent(id, value)] else []
    {
      ok := shm.controlBus.PushItem(ControlEvent(id, value));
    }
  }
}
