/** The network path to an external host: the sender and jitter buffer of RemoteDspNode
    (daemon/network_node.hpp) and the echo loop of NetworkServerNode
    (daemon/network_server_node.hpp). Frames are opaque values. */
module RemoteNode {
  import opened Base
  import opened Bits
  import opened Ring

  const MAGIC: nat := 0x44535041
  const WINDOW: nat := 32
  const ID_SPACE: nat := 0x1_0000_0000

  datatype PacketType = Handshake | AudioFrame | ControlEvent | KeepAlive | ClockSync | Unassigned(code: nat)

  datatype Payload<F> = NoPayload | Audio(frame: F) | Control(paramId: nat, value: real)

  datatype Packet<F> = Packet(magic: nat, kind: PacketType, sequenceId: nat, payload: Payload<F>)

  // ---- The jitter buffer as a value ----

  datatype Jitter<F> = Jitter(expected: nat, mask: seq<bool>, buffer: seq<F>)

  predicate ValidJitter<F>(j: Jitter<F>) {
    |j.mask| == WINDOW && |j.buffer| == WINDOW && j.expected < ID_SPACE
  }

  /** `(int32_t)(seq - expected)` on two uint32_t values. */
  function SignedDistance(seqId: nat, expected: nat): (d: int)
    ensures -0x8000_0000 <= d < 0x8000_0000
  {
    var u := (seqId - expected) % ID_SPACE;
    if u < 0x8000_0000 then u else u - ID_SPACE
  }

  predicate InWindow(seqId: nat, expected: nat) {
    0 <= SignedDistance(seqId, expected) < WINDOW
  }

  function Store<F>(j: Jitter<F>, seqId: nat, frame: F): (r: Jitter<F>)
    requires ValidJitter(j)
    ensures ValidJitter(r)
  {
    var slot := seqId % WINDOW;
    if InWindow(seqId, j.expected) then j.(mask := j.mask[slot := true], buffer := j.buffer[slot := frame]) else j
  }

  /** One turn of the drain loop: the slot of the expected id is emptied and the window moves on. */
  function Advance<F>(j: Jitter<F>): (r: Jitter<F>)
    requires ValidJitter(j)
    ensures ValidJitter(r)
  {
    j.(mask := j.mask[j.expected % WINDOW := false], expected := (j.expected + 1) % ID_SPACE)
  }

  /** The drain loop: the frames it offers to out_queue, and the window it leaves. Its measure is
      the number of set mask bits. */
  function Drain<F>(j: Jitter<F>): (r: (Jitter<F>, seq<F>))
    requires ValidJitter(j)
    ensures ValidJitter(r.0)
    decreases Count(j.mask)
  {
    if !j.mask[j.expected % WINDOW] then (j, [])
    else
      CountUpdate(j.mask, j.expected % WINDOW, false);
      var rest := Drain(Advance(j));
      (rest.0, [j.buffer[j.expected % WINDOW]] + rest.1)
  }

  /** What the drain loop ends with when it has offered `done` so far. */
  function DrainAfter<F>(done: seq<F>, j: Jitter<F>): (r: (Jitter<F>, seq<F>))
    requires ValidJitter(j)
    ensures !j.mask[j.expected % WINDOW] ==> r == (j, done)
    ensures done == [] ==> r == Drain(j)
  {
    var (rest, out) := Drain(j);
    assert done + [] == done && [] + out == out;
    (rest, done + out)
  }

  lemma DrainTurn<F>(done: seq<F>, j: Jitter<F>)
    requires ValidJitter(j) && j.mask[j.expected % WINDOW]
    ensures DrainAfter(done, j) == DrainAfter(done + [j.buffer[j.expected % WINDOW]], Advance(j))
  {
    var x, rest := j.buffer[j.expected % WINDOW], Drain(Advance(j)).1;
    assert done + ([x] + rest) == (done + [x]) + rest;
  }

  /** The drain turns once for every mask bit it clears, so at most 32 times, and ends on an empty slot. */
  lemma {:induction false} DrainIsBounded<F>(j: Jitter<F>)
    requires ValidJitter(j)
    ensures var (j', out) := Drain(j);
      |out| + Count(j'.mask) == Count(j.mask) <= WINDOW && !j'.mask[j'.expected % WINDOW]
    decreases Count(j.mask)
  {
    if j.mask[j.expected % WINDOW] {
      CountUpdate(j.mask, j.expected % WINDOW, false);
      DrainIsBounded(Advance(j));
    }
  }

  function Serve<F>(stage: F -> F, p: Packet<F>): (r: Option<Packet<F>>) {
    if p.magic != MAGIC then None
    else if p.kind == AudioFrame && p.payload.Audio? then Some(p.(payload := Audio(stage(p.payload.frame))))
    else if p.kind == Handshake then Some(p.(kind := KeepAlive, payload := NoPayload))
    else None
  }

  /** The server's answer, kind by kind: audio is answered by audio of the same id with the processed
      frame, a handshake by a keep-alive of the same id, and nothing else is answered. */
  lemma ServeExactly<F>(stage: F -> F, p: Packet<F>)
    ensures var reply := Serve(stage, p);
      && (reply.Some? <==> p.magic == MAGIC && ((p.kind == AudioFrame && p.payload.Audio?) || p.kind == Handshake))
      && (reply.Some? ==> reply.value.magic == MAGIC && reply.value.sequenceId == p.sequenceId)
      && (reply.Some? && p.kind == AudioFrame ==>
            reply.value.kind == AudioFrame && reply.value.payload == Audio(stage(p.payload.frame)))
      && (reply.Some? && p.kind == Handshake ==> reply.value.kind == KeepAlive && reply.value.payload == NoPayload)
  {
  }

  // ---- The two nodes ----

  class RemoteDspNode<F> {
    var seqId: nat
    var expectedSeqId: nat
    const jitterBuffer: array<F>
    const jitterMask: array<bool>
    /** out_queue behind shm_ptr_, absent until `set_shm_ptr`. */
    var outQueue: ShmSPSCRingBuffer?<F>

    ghost predicate Valid()
      reads this, outQueue
    {
      && seqId < ID_SPACE && expectedSeqId < ID_SPACE
      && jitterBuffer.Length == WINDOW && jitterMask.Length == WINDOW
      && (jitterBuffer as object) != jitterMask
      && (outQueue != null ==>
            outQueue.Valid() && outQueue.data != jitterBuffer && (outQueue.data as object) != jitterMask)
    }

    ghost function Model(): (r: Jitter<F>)
      reads this, jitterBuffer, jitterMask
    {
      Jitter(expectedSeqId, jitterMask[..], jitterBuffer[..])
    }

    constructor (zero: F)
      ensures Valid() && outQueue == null && seqId == 0
      ensures Model() == Jitter(0, seq(WINDOW, _ => false), seq(WINDOW, _ => zero))
      ensures fresh(jitterBuffer) && fresh(jitterMask)
    {
      seqId, expectedSeqId, outQueue := 0, 0, null;
      jitterBuffer := new F[WINDOW](_ => zero);
      jitterMask := new bool[WINDOW](_ => false);
    }

    /** The window and whatever the segment's queue already holds are untouched. */
    method SetShmPtr(queue: ShmSPSCRingBuffer<F>)
      requires Valid() && queue.Valid() && queue.data != jitterBuffer && (queue.data as object) != jitterMask
      modifies this`outQueue
      ensures Valid() && outQueue == queue && Model() == old(Model()) && queue.Queue() == old(queue.Queue())
    {
      outQueue := queue;
    }

    /** Every packet, whatever its kind, takes the next id from the one counter. */
    method SendPacket(kind: PacketType, payload: Payload<F>) returns (packet: Packet<F>)
      requires Valid()
      modifies this`seqId
      ensures Valid() && packet == Packet(MAGIC, kind, old(seqId), payload)
      ensures seqId == (old(seqId) + 1) % ID_SPACE
    {
      packet := Packet(MAGIC, kind, seqId, payload);
      seqId := (seqId + 1) % ID_SPACE;
    }

    /** One turn of `receive_loop` on a datagram that carries a complete payload. */
    method HandlePacket(packet: Packet<F>) returns (ghost offered: seq<F>)
      requires Valid()
      modifies this`expectedSeqId, jitterBuffer, jitterMask, outQueue, if outQueue == null then {} else {outQueue.data}
      ensures Valid() && outQueue == old(outQueue)
      ensures outQueue != null ==> outQueue.Queue() == PushAll(old(outQueue.Queue()), outQueue.data.Length, offered)
      ensures
        if packet.magic == MAGIC && packet.kind == AudioFrame && packet.payload.Audio? && outQueue != null then
          (Model(), offered) == Drain(Store(old(Model()), packet.sequenceId, packet.payload.frame))
        else
          Model() == old(Model()) && offered == []
    {
      offered := [];
      if packet.magic != MAGIC {
        return;
      }
      if packet.kind == AudioFrame && packet.payload.Audio? && outQueue != null {
        var slot := packet.sequenceId % WINDOW;
        var diff := SignedDistance(packet.sequenceId, expectedSeqId);
        if 0 <= diff < WINDOW {
          jitterBuffer[slot] := packet.payload.frame;
          jitterMask[slot] := true;
        }
        assert Model() == Store(old(Model()), packet.sequenceId, packet.payload.frame);
        offered := DrainReady();
      }
    }

    /** The body of the inner loop: the expected frame goes to out_queue, or is lost if that is full. */
    method OfferExpected() returns (ghost frame: F)
      requires Valid() && outQueue != null && jitterMask[expectedSeqId % WINDOW]
      modifies this`expectedSeqId, jitterMask, outQueue, outQueue.data
      ensures Valid() && outQueue == old(outQueue)
      ensures Model() == Advance(old(Model())) && frame == old(jitterBuffer[expectedSeqId % WINDOW])
      ensures outQueue.Queue() == if |old(outQueue.Queue())| < outQueue.data.Length - 1
                                  then old(outQueue.Queue()) + [frame] else old(outQueue.Queue())
      ensures Count(jitterMask[..]) == Count(old(jitterMask[..])) - 1
    {
      var readySlot := expectedSeqId % WINDOW;
      frame := jitterBuffer[readySlot];
      CountUpdate(jitterMask[..], readySlot, false);
      var ok := outQueue.PushItem(jitterBuffer[readySlot]);
      jitterMask[readySlot] := false;
      expectedSeqId := (expectedSeqId + 1) % ID_SPACE;
      assert jitterMask[..] == old(jitterMask[..])[readySlot := false];
    }

    /** The inner loop of `receive_loop`. */
    method DrainReady() returns (ghost offered: seq<F>)
      requires Valid() && outQueue != null
      modifies this`expectedSeqId, jitterMask, outQueue, outQueue.data
      ensures Valid() && outQueue == old(outQueue)
      ensures (Model(), offered) == Drain(old(Model()))
      ensures outQueue.Queue() == PushAll(old(outQueue.Queue()), outQueue.data.Length, offered)
    {
      offered := [];
      ghost var goal := DrainAfter([], Model());
      while jitterMask[expectedSeqId % WINDOW]
        invariant Valid() && outQueue == old(outQueue)
        invariant DrainAfter(offered, Model()) == goal
        invariant outQueue.Queue() == PushAll(old(outQueue.Queue()), outQueue.data.Length, offered)
        decreases Count(jitterMask[..])
      {
        DrainTurn(offered, Model());
        ghost var frame := OfferExpected();
        PushAllOneMore(old(outQueue.Queue()), outQueue.data.Length, offered, frame);
        offered := offered + [frame];
      }
    }
  }

  class NetworkServerNode<F> {
    /** The local worker's `process_stage`, taken as a deterministic function. */
    const stage: F -> F

    constructor (stage: F -> F)
      ensures this.stage == stage
    {
      this.stage := stage;
    }

    /** One turn of the server loop: the packet is rewritten in place and sent back. */
    method HandleDatagram(packet: Packet<F>) returns (reply: Option<Packet<F>>)
      ensures reply == Serve(stage, packet)
      ensures reply.Some? <==>
        packet.magic == MAGIC && ((packet.kind == AudioFrame && packet.payload.Audio?) || packet.kind == Handshake)
      ensures reply.Some? ==> reply.value.magic == MAGIC && reply.value.sequenceId == packet.sequenceId
      ensures reply.Some? && packet.kind == AudioFrame ==>
        reply.value.kind == AudioFrame && reply.value.payload == Audio(stage(packet.payload.frame))
      ensures reply.Some? && packet.kind == Handshake ==> reply.value.kind == KeepAlive && reply.value.payload == NoPayload
    {
      var buffer := packet;
      if buffer.magic != MAGIC {
        return None;
      }
      if buffer.kind == AudioFrame && buffer.payload.Audio? {
        var frame := stage(buffer.payload.frame);
        buffer := buffer.(payload := Audio(frame));
        return Some(buffer);
      } else if buffer.kind == Handshake {
        buffer := buffer.(kind := KeepAlive, payload := NoPayload);
        return Some(buffer);
      }
      return None;
    }
  }
}
