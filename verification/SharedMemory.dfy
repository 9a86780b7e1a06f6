/** DspSharedMemory of ipc_shm.hpp for one worker and one plugin, with the two eventfd counters that
    go with it. */
module SharedMemory {
  import opened Control
  import opened Frame
  import opened HandlePool
  import opened MemoryBus
  import opened Ring

  const QUEUE_DEPTH: nat := 16
  const CONTROL_DEPTH: nat := 64
  const MEMORY_DEPTH: nat := 32

  class Segment {
    var heartbeat: nat
    /** last_error is no longer NONE. */
    var failed: bool
    var bypassZeroCopy: bool
    var eSend: nat
    var eRecv: nat
    const inQueue: ShmSPSCRingBuffer<AudioFrame>
    const outQueue: ShmSPSCRingBuffer<AudioFrame>
    const controlBus: ShmSPSCRingBuffer<ControlEvent>
    const requestBus: ShmSPSCRingBuffer<Request>
    const responseBus: ShmSPSCRingBuffer<Response>
    const dataStaging: array<Byte>

    ghost predicate AudioValid()
      reads this, inQueue, outQueue, inQueue.data, outQueue.data
    {
      && inQueue.Valid() && outQueue.Valid()
      && inQueue.data.Length == QUEUE_DEPTH && outQueue.data.Length == QUEUE_DEPTH
      && inQueue != outQueue && inQueue.data != outQueue.data
      && (forall i | 0 <= i < QUEUE_DEPTH :: ValidFrame(inQueue.data[i]))
      && (forall i | 0 <= i < QUEUE_DEPTH :: ValidFrame(outQueue.data[i]))
    }

    /** The daemon zeroes the whole segment. */
    constructor ()
      ensures AudioValid() && !failed && eSend == 0 && eRecv == 0
      ensures inQueue.Queue() == [] && outQueue.Queue() == []
      ensures controlBus.Valid() && controlBus.data.Length == CONTROL_DEPTH && controlBus.Queue() == []
      ensures requestBus.Valid() && requestBus.data.Length == MEMORY_DEPTH && requestBus.Queue() == []
      ensures responseBus.Valid() && responseBus.data.Length == MEMORY_DEPTH && responseBus.Queue() == []
      ensures dataStaging.Length == STAGING_SIZE
    {
      heartbeat, failed, bypassZeroCopy, eSend, eRecv := 0, false, false, 0, 0;
      var silence := AudioFrame(0, 0, 0, 0, seq(SAMPLES, _ => 0.0));
      inQueue := new ShmSPSCRingBuffer(QUEUE_DEPTH, silence);
      outQueue := new ShmSPSCRingBuffer(QUEUE_DEPTH, silence);
      controlBus := new ShmSPSCRingBuffer(CONTROL_DEPTH, ControlEvent(0, 0.0));
      requestBus := new ShmSPSCRingBuffer(MEMORY_DEPTH, Request(0, Allocate, 0, 0));
      responseBus := new ShmSPSCRingBuffer(MEMORY_DEPTH, Response(0, 0, false));
      dataStaging := new Byte[STAGING_SIZE](_ => 0);
    }
  }
}
