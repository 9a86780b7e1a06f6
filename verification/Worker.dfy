/** The worker process: VulkanBackend and the turns of the main loop of daemon/worker.cpp, each turn
    taken by itself. Pipeline.dfy and MemoryBus.dfy interleave their steps with the plugin's.
    Device outcomes and failed system calls are parameters. */
module Worker {
  import opened Control
  import opened Frame
  import opened HandlePool
  import opened MemoryBus
  import opened Ring
  import opened SharedMemory

  /** The way a frame reaches the device, and the state buffer bound to it. */
  datatype Route = NoDevice | ZeroCopy(shmHandle: nat, stateHandle: nat) | Copy(stateHandle: nat)

  class VulkanBackend {
    const vk: VulkanContext
    var initialised: bool
    var params: Params
    var instanceStates: map<nat, nat>
    var shmBufferHandle: nat
    /** Bookkeeping: who holds the handles that are not recorded above. */
    ghost var plugin: set<nat>
    ghost var imports: set<nat>

    ghost predicate Valid()
      reads vk, vk.active, vk.size
    {
      vk.Valid()
    }

    ghost function Held(): (w': World)
      reads this, vk, vk.active, vk.size
    {
      World(vk.State(), plugin, instanceStates, imports, shmBufferHandle)
    }

    constructor (initOk: bool)
      ensures Valid() && Held() == Fresh() && params == Defaults() && initialised == initOk
      ensures params.gain == 1.0 && params.threshold == 0.95 && params.param1 == 0.5 && params.param2 == 0.5 && params.algoId == 0
      ensures fresh(vk) && fresh(vk.active) && fresh(vk.size) && fresh(vk.memory)
    {
      vk := new VulkanContext();
      initialised, params, instanceStates, shmBufferHandle := initOk, Defaults(), map[], 0;
      plugin, imports := {}, {};
    }

    /** process_stage up to the dispatch to the device. */
    method RouteFrame(instanceId: nat, deviceOk: bool) returns (route: Route)
      requires Valid()
      modifies this`instanceStates, vk.active, vk.size
      ensures Valid()
      ensures !initialised ==> route == NoDevice && Held() == old(Held())
      ensures initialised ==>
        && Held() == EnsureState(old(Held()), instanceId, deviceOk) && instanceId in instanceStates
        && route == if shmBufferHandle != 0 then ZeroCopy(shmBufferHandle, instanceStates[instanceId])
                    else Copy(instanceStates[instanceId])
      ensures initialised && instanceId in old(instanceStates) ==> instanceStates == old(instanceStates)
      ensures initialised && instanceId !in old(instanceStates) ==>
        var h := instanceStates[instanceId];
        && (h != 0 <==> deviceOk && HasFreeSlot(old(vk.State())))
        && (h != 0 ==> Takes(old(vk.State()), vk.State(), h, 1024))
    {
      StateBufferExactly(Held(), instanceId, deviceOk);
      ClaimTakes(vk.State(), 1024, deviceOk);
      if !initialised {
        return NoDevice;
      }
      if instanceId !in instanceStates {
        var h := vk.AllocateBuffer(1024, deviceOk);
        instanceStates := instanceStates[instanceId := h];
      }
      var stateHandle := instanceStates[instanceId];
      if shmBufferHandle != 0 {
        return ZeroCopy(shmBufferHandle, stateHandle);
      }
      return Copy(stateHandle);
    }

    method ApplyControlEvent(e: ControlEvent)
      modifies this`params
      ensures params == ApplyEvent(old(params), e)
    {
      if e.parameterId == 1 {
        params := params.(gain := e.value);
      } else if e.parameterId == 2 {
        params := params.(threshold := e.value);
      } else if e.parameterId == 3 {
        params := params.(param1 := e.value);
      } else if e.parameterId == 4 {
        params := params.(param2 := e.value);
      } else if e.parameterId == 5 {
        params := params.(algoId := ToUint32(e.value));
      }
    }

    method AllocateBuffer(size: nat, deviceOk: bool) returns (h: nat)
      requires Valid()
      modifies this`plugin, vk.active, vk.size
      ensures Valid() && Held() == Do(old(Held()), PluginAlloc(size, deviceOk))
      ensures h == Claim(old(vk.State()), size, deviceOk).1
    {
      h := vk.AllocateBuffer(size, deviceOk);
      plugin := if h == 0 then plugin else plugin + {h};
    }

    method FreeBuffer(h: nat)
      requires Valid()
      modifies this`plugin, vk.active
      ensures Valid() && Held() == Do(old(Held()), PluginFree(h))
    {
      vk.FreeBuffer(h);
      plugin := plugin - {h};
    }

    method SetZeroCopyBypass(enabled: bool, fd: int, size: nat, deviceOk: bool)
      requires Valid()
      modifies this`shmBufferHandle, this`imports, vk.active, vk.size
      ensures Valid() && Held() == Do(old(Held()), SetBypass(enabled, fd, size, deviceOk))
      ensures shmBufferHandle != 0 <==> enabled && fd >= 0 && deviceOk && HasFreeSlot(old(vk.State()))
      ensures if shmBufferHandle != 0 then Takes(old(vk.State()), vk.State(), shmBufferHandle, size)
              else vk.State() == old(vk.State()) && imports == old(imports)
    {
      BypassExactly(Held(), enabled, fd, size, deviceOk);
      if enabled && fd >= 0 {
        shmBufferHandle := vk.ImportShm(fd, size, deviceOk);
        imports := if shmBufferHandle == 0 then imports else imports + {shmBufferHandle};
      } else {
        shmBufferHandle := 0;
      }
    }
  }

  /** What the graph does to a frame in place, and whether it succeeded. */
  datatype FrameResult = FrameResult(ok: bool, frame: AudioFrame)

  class WorkerProcess {
    const shm: Segment
    const backend: VulkanBackend
    /** process_graph, as a function of the parameters and the frame. */
    const graph: (Params, AudioFrame) -> FrameResult

    ghost predicate GraphValid() {
      forall p, f | ValidFrame(f) :: ValidFrame(graph(p, f).frame)
    }

    ghost predicate AudioValid()
      reads shm, shm.inQueue, shm.outQueue, shm.inQueue.data, shm.outQueue.data
    {
      shm.AudioValid() && GraphValid()
    }

    constructor (shm: Segment, graph: (Params, AudioFrame) -> FrameResult)
      requires shm.AudioValid() && forall p, f | ValidFrame(f) :: ValidFrame(graph(p, f).frame)
      ensures AudioValid() && this.shm == shm && this.graph == graph && backend.Valid() && backend.params == Defaults()
    {
      this.shm := shm;
      this.graph := graph;
      backend := new VulkanBackend(true);
    }

    /** The control loop at the top of a turn: everything on the bus is applied, oldest first. */
    method DrainControl()
      requires shm.controlBus.Valid()
      modifies shm.controlBus`head, backend`params
      ensures shm.controlBus.Valid() && shm.controlBus.Queue() == []
      ensures backend.params == ApplyFrom(old(backend.params), old(shm.controlBus.Queue()))
    {
      var e := shm.controlBus.PopItem();
      while e.Some?
        invariant shm.controlBus.Valid()
        invariant e.None? ==> shm.controlBus.Queue() == []
        invariant ApplyFrom(old(backend.params), old(shm.controlBus.Queue()))
               == ApplyFrom(backend.params, if e.Some? then [e.value] + shm.controlBus.Queue() else [])
        decreases e.Some?, |shm.controlBus.Queue()|
      {
        ApplyFirst(backend.params, e.value, shm.controlBus.Queue());
        backend.ApplyControlEvent(e.value);
        e := shm.controlBus.PopItem();
      }
    }

    /** Copies a frame's header and valid channels into the reserved output slot. */
    method FillOutput(frame: AudioFrame, out: nat)
      requires AudioValid() && ValidFrame(frame) && out == shm.outQueue.tail
      modifies shm.outQueue.data
      ensures AudioValid()
      ensures shm.outQueue.data[..] == old(shm.outQueue.data[..])[out := shm.outQueue.data[out]]
      ensures PayloadOf(shm.outQueue.data[out]) == PayloadOf(frame)
      ensures var f := shm.outQueue.data[out];
        && f.timestamp == frame.timestamp && f.frameCount == frame.frameCount && f.channelCount == frame.channelCount
        && forall i | 0 <= i < SAMPLES && i / 256 < f.channelCount && i % 256 < f.frameCount ::
             f.samples[i] == frame.samples[i]
    {
      var data := shm.outQueue.data;
      ghost var block := PayloadOf(frame);
      data[out] := data[out].(frameCount := frame.frameCount, channelCount := frame.channelCount, timestamp := frame.timestamp);
      for ch := 0 to frame.channelCount
        invariant data[..] == old(data[..])[out := data[out]]
        invariant FilledTo(data[out], block, ch)
      {
        PutChannelFills(data[out], block, ch);
        data[out] := PutChannel(data[out], ch, ChannelOf(frame, ch));
      }
      FilledIsPayload(data[out], block);
      forall i | 0 <= i < SAMPLES && i / 256 < frame.channelCount && i % 256 < frame.frameCount
        ensures data[out].samples[i] == frame.samples[i]
      {
        SamePayload(data[out], frame, i);
      }
      assert forall i | 0 <= i < QUEUE_DEPTH && i != out :: data[i] == old(data[..])[i];
    }

    /** The graph runs on the oldest input frame, in the slot it arrived in. */
    method ProcessInPlace(slot: nat)
      requires AudioValid() && shm.inQueue.Queue() != [] && slot == shm.inQueue.head
      modifies shm.inQueue.data, shm`failed
      ensures AudioValid()
      ensures var q := old(shm.inQueue.Queue()); var r := graph(backend.params, q[0]);
        && shm.inQueue.Queue() == q[0 := r.frame] && shm.inQueue.data[slot] == r.frame
        && shm.failed == (old(shm.failed) || !r.ok)
    {
      WriteAtHead(shm.inQueue.State(), graph(backend.params, shm.inQueue.data[slot]).frame);
      ghost var ring := shm.inQueue.State();
      var result := graph(backend.params, shm.inQueue.data[slot]);
      shm.inQueue.data[slot] := result.frame;
      assert shm.inQueue.State() == ring.(data := ring.data[ring.head := result.frame]);
      if !result.ok {
        shm.failed := true;
      }
    }

    /** Publishes a processed frame on out_queue, or drops it when the queue is full. */
    method Deliver(frame: AudioFrame)
      requires AudioValid() && ValidFrame(frame)
      modifies shm.outQueue, shm.outQueue.data
      ensures AudioValid()
      ensures Delivers(old(shm.outQueue.Queue()), shm.outQueue.Queue(), PayloadOf(frame), QUEUE_DEPTH - 1)
    {
      var out := shm.outQueue.ReserveWrite();
      if out.Some? {
        ghost var ring := shm.outQueue.State();
        FillOutput(frame, out.value);
        WriteAtTail(ring, shm.outQueue.data[out.value]);
        assert shm.outQueue.State() == ring.(data := ring.data[ring.tail := shm.outQueue.data[out.value]]);
        shm.outQueue.CommitWrite();
      }
    }

    /** The frames of a queue whose slots all hold valid frames. */
    static lemma QueueIsValid(r: RingState<AudioFrame>)
      requires ValidRing(r) && forall i | 0 <= i < |r.data| :: ValidFrame(r.data[i])
      ensures forall f | f in Contents(r) :: ValidFrame(f)
    {
    }

    /** The audio part of a turn: one wakeup, however many signals it merges, serves one frame. */
    method ServeFrame(notifyOk: bool)
      requires AudioValid()
      modifies shm`eSend, shm`eRecv, shm`failed, shm.inQueue, shm.inQueue.data, shm.outQueue, shm.outQueue.data
      ensures AudioValid() && shm.eSend == 0
      ensures old(shm.eSend) == 0 || old(shm.inQueue.Queue()) == [] ==>
        shm.inQueue.Queue() == old(shm.inQueue.Queue()) && shm.outQueue.Queue() == old(shm.outQueue.Queue())
        && shm.eRecv == old(shm.eRecv) && shm.failed == old(shm.failed)
      ensures old(shm.eSend) > 0 && old(shm.inQueue.Queue()) != [] ==>
        var q, outs := old(shm.inQueue.Queue()), old(shm.outQueue.Queue());
        var r := graph(backend.params, q[0]);
        && shm.inQueue.Queue() == q[1..] && ValidFrame(r.frame)
        && shm.eRecv == old(shm.eRecv) + (if notifyOk then 1 else 0)
        && shm.failed == (old(shm.failed) || !r.ok)
        && Delivers(outs, shm.outQueue.Queue(), PayloadOf(r.frame), QUEUE_DEPTH - 1)
        && (forall f | f in q :: ValidFrame(f)) && (forall f | f in outs :: ValidFrame(f))
        && (forall f | f in q[1..] :: ValidFrame(f)) && (forall f | f in shm.outQueue.Queue() :: ValidFrame(f))
        && PassesOne(Payloads(q), Payloads(q[1..]), Payloads(outs), Payloads(shm.outQueue.Queue()),
                     PayloadOf(r.frame), QUEUE_DEPTH - 1)
    {
      ghost var q, outs := shm.inQueue.Queue(), shm.outQueue.Queue();
      QueueIsValid(shm.inQueue.State());
      QueueIsValid(shm.outQueue.State());
      if shm.eSend == 0 {
        return;
      }
      shm.eSend := 0;
      var slot := shm.inQueue.PeekRead();
      if slot.None? {
        return;
      }
      ProcessInPlace(slot.value);
      Deliver(shm.inQueue.data[slot.value]);
      shm.inQueue.CommitRead();
      FramesPassOne(q, outs, shm.outQueue.Queue(), PayloadOf(graph(backend.params, q[0]).frame), QUEUE_DEPTH - 1);
      if notifyOk {
        shm.eRecv := shm.eRecv + 1;
      }
    }

    /** Every upload request stays within the staging area. */
    ghost predicate UploadsFit(reqs: seq<Request>) {
      forall req | req in reqs :: req.kind == Upload ==> req.size <= STAGING_SIZE
    }

    ghost predicate BusValid()
      reads shm.requestBus, shm.responseBus, backend.vk, backend.vk.active, backend.vk.size
    {
      && shm.requestBus.Valid() && shm.responseBus.Valid() && backend.Valid()
      && shm.responseBus.data.Length == MEMORY_DEPTH && shm.dataStaging.Length == STAGING_SIZE
      && (shm.requestBus as object) != shm.responseBus
    }

    /** One request of the memory bus, as the switch statement serves it. */
    method ServeRequest(req: Request, deviceOk: bool) returns (resp: Response)
      requires BusValid() && (req.kind == Upload ==> req.size <= STAGING_SIZE)
      modifies backend`plugin, backend.vk.active, backend.vk.size, backend.vk.memory
      ensures BusValid()
      ensures (backend.Held(), [resp]) == RunJob(old(backend.Held()), FromBus(req, deviceOk))
      ensures req.kind == Upload && resp.success ==>
        var memory := backend.vk.memory[req.handle];
        |memory| >= req.size && memory[..req.size] == shm.dataStaging[..req.size]
    {
      resp := Response(req.id, 0, false);
      match req.kind {
        case Allocate =>
          var h := backend.AllocateBuffer(req.size, deviceOk);
          resp := resp.(handle := h, success := h != 0);
        case Upload =>
          var ok := backend.vk.UploadBuffer(req.handle, shm.dataStaging[..req.size], deviceOk);
          resp := resp.(success := ok);
        case Free =>
          backend.FreeBuffer(req.handle);
          resp := resp.(success := true);
      }
    }

    /** The requests served one after the other on one pool, each response pushed on a bus that holds
        `q`, or lost when that is full. */
    static function ServeAll(w: World, q: seq<Response>, reqs: seq<Request>, oks: seq<bool>): (r: (World, seq<Response>))
      requires ValidPool(w.pool) && |reqs| <= |oks|
      decreases |reqs|
    {
      if reqs == [] then (w, q)
      else
        var (w', out) := RunJob(w, FromBus(reqs[0], oks[0]));
        ServeAll(w', if |q| < MEMORY_DEPTH - 1 then q + out else q, reqs[1..], oks[1..])
    }

    /** What the loop does is what the sequential allocator does: the pool is the one it leaves, and its
        results are pushed in order as long as fewer than 31 responses are waiting. */
    static lemma {:induction false} ServeAllExactly(w: World, q: seq<Response>, reqs: seq<Request>, oks: seq<bool>)
      requires ValidPool(w.pool) && |reqs| <= |oks| && |q| <= MEMORY_DEPTH - 1
      ensures var (end, all) := RunRequests(w, reqs, oks);
        ServeAll(w, q, reqs, oks) == (end, q + all[..Min(|reqs|, MEMORY_DEPTH - 1 - |q|)])
      decreases |reqs|
    {
      if reqs == [] {
        assert q + [] == q;
      } else {
        var (w1, out) := RunJob(w, FromBus(reqs[0], oks[0]));
        var rest := RunRequests(w1, reqs[1..], oks[1..]).1;
        if |q| < MEMORY_DEPTH - 1 {
          ServeAllExactly(w1, q + out, reqs[1..], oks[1..]);
          PushedFromFirst(q, out, rest, Min(|reqs| - 1, MEMORY_DEPTH - 1 - (|q| + 1)));
        } else {
          ServeAllExactly(w1, q, reqs[1..], oks[1..]);
          assert q + [] == q;
        }
      }
    }

    static lemma PushedFromFirst(q: seq<Response>, out: seq<Response>, rest: seq<Response>, m: nat)
      requires |out| == 1 && m <= |rest|
      ensures (q + out) + rest[..m] == q + (out + rest)[..m + 1]
    {
      assert (out + rest)[..m + 1] == out + rest[..m];
    }

    /** One turn of the bus loop: the request is served and its response pushed, or lost on a full bus. */
    method Respond(req: Request, deviceOk: bool) returns (ghost resp: Response)
      requires BusValid() && (req.kind == Upload ==> req.size <= STAGING_SIZE)
      modifies shm.responseBus`tail, shm.responseBus.data
      modifies backend`plugin, backend.vk.active, backend.vk.size, backend.vk.memory
      ensures BusValid()
      ensures (backend.Held(), [resp]) == RunJob(old(backend.Held()), FromBus(req, deviceOk))
      ensures shm.responseBus.Queue() ==
        if |old(shm.responseBus.Queue())| < MEMORY_DEPTH - 1 then old(shm.responseBus.Queue()) + [resp]
        else old(shm.responseBus.Queue())
    {
      var response := ServeRequest(req, deviceOk);
      var ok := shm.responseBus.PushItem(response);
      resp := response;
    }

    /** One turn of the bus loop: pops a request, if there is one, and responds to it. */
    method ServeNext(oks: seq<bool>) returns (more: bool)
      requires BusValid() && |oks| >= |shm.requestBus.Queue()| && UploadsFit(shm.requestBus.Queue())
      requires (shm.requestBus.data as object) != shm.responseBus.data
      modifies shm.requestBus`head, shm.responseBus`tail, shm.responseBus.data
      modifies backend`plugin, backend.vk.active, backend.vk.size, backend.vk.memory
      ensures BusValid() && UploadsFit(shm.requestBus.Queue())
      ensures more <==> old(shm.requestBus.Queue()) != []
      ensures more ==> shm.requestBus.Queue() == old(shm.requestBus.Queue())[1..] && oks != []
      ensures !more ==> shm.requestBus.Queue() == []
      ensures ServeAll(old(backend.Held()), old(shm.responseBus.Queue()), old(shm.requestBus.Queue()), oks)
           == ServeAll(backend.Held(), shm.responseBus.Queue(), shm.requestBus.Queue(), if more then oks[1..] else oks)
    {
      var req := shm.requestBus.PopItem();
      if req.None? {
        return false;
      }
      assert req.value in old(shm.requestBus.Queue());
      assert shm.requestBus.Queue() == old(shm.requestBus.Queue())[1..];
      ghost var resp := Respond(req.value, oks[0]);
      return true;
    }

    /** The bus loop at the end of a turn. */
    method ServeMemoryBus(oks: seq<bool>)
      requires BusValid() && |oks| >= |shm.requestBus.Queue()| && UploadsFit(shm.requestBus.Queue())
      requires (shm.requestBus.data as object) != shm.responseBus.data
      modifies shm.requestBus`head, shm.responseBus`tail, shm.responseBus.data
      modifies backend`plugin, backend.vk.active, backend.vk.size, backend.vk.memory
      ensures BusValid() && shm.requestBus.Queue() == []
      ensures (backend.Held(), shm.responseBus.Queue()) ==
              ServeAll(old(backend.Held()), old(shm.responseBus.Queue()), old(shm.requestBus.Queue()), oks)
    {
      ghost var goal := ServeAll(backend.Held(), shm.responseBus.Queue(), shm.requestBus.Queue(), oks);
      var flags, more := oks, true;
      while more
        invariant BusValid() && |flags| >= |shm.requestBus.Queue()| && UploadsFit(shm.requestBus.Queue())
        invariant !more ==> shm.requestBus.Queue() == []
        invariant goal == ServeAll(backend.Held(), shm.responseBus.Queue(), shm.requestBus.Queue(), flags)
        decreases more, |shm.requestBus.Queue()|
      {
        more := ServeNext(flags);
        if more {
          flags := flags[1..];
        }
      }
    }
  }
}
