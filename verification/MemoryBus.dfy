/** The memory management bus: allocate_vram, upload_buffer and free_vram of
    sdk/src/dsp_accel_sdk.cpp against the bus loop at the end of the worker's turn
    (daemon/worker.cpp), every step of either side interleaved with the other's.

    The two buses are bounded queues of 31 items (RefinesBoundedFifo in SpscProtocol.dfy). A load of
    the other side's counter may be stale: then a push is refused although there is room, or a pop
    although an item waits. (The worker's pop of a request just comes later.) Both
    memcpy calls of an upload, into and out of the one staging area, go byte by byte. Between bus
    jobs the worker also uses the pool for instance states and imports. */
module MemoryBus {
  import opened HandlePool
  import opened Selection

  const BUS_ROOM: nat := 31
  const STAGING_SIZE: nat := 4194304
  const POLLS: nat := 500

  datatype Kind = Allocate | Free | Upload
  datatype Request = Request(id: nat, kind: Kind, size: nat, handle: nat)
  datatype Response = Response(id: nat, handle: nat, success: bool)

  datatype Call =
    | AllocCall(id: nat, size: nat)
    | UploadCall(id: nat, handle: nat, data: seq<Byte>)

  datatype SdkPc =
    | Idle
    | Staging(handle: nat, data: seq<Byte>, done: nat)  // upload_buffer, copying into data_staging
    | Waiting(call: Call, polls: nat)                   // request pushed, polling for the response

  datatype WorkerPc =
    | Ready
    | Busy(req: Request)                     // request popped
    | Copying(req: Request, got: seq<Byte>)  // upload, copying out of data_staging
    | Replying(resp: Response)

  /** What the worker has done to the pool, in order. */
  datatype Job =
    | FromBus(req: Request, deviceOk: bool)
    | Other(act: Act)

  /** How many responses were waiting when one more was pushed, and whether the load was stale. */
  datatype Load = Load(waiting: nat, stale: bool)

  predicate FindsRoom(l: Load) { l.waiting < BUS_ROOM && !l.stale }

  /** A finished SDK call; `index` is the position of its request among all issued ones. */
  datatype Return = Return(call: Call, index: nat, success: bool, handle: nat)

  /** A finished call waited while the responses `from` to `to` were taken, and polled so many times. */
  datatype Wait = Wait(from: nat, to: nat, polls: nat)

  /** free_vram was called when so many other calls had finished. */
  datatype FreeCall = FreeCall(handle: nat, after: nat)

  datatype State = State(
    world: World,
    staging: seq<Byte>,
    requests: seq<Request>,
    responses: seq<Response>,
    sdk: SdkPc,
    worker: WorkerPc,
    issued: seq<Request>,       // every request ever pushed
    results: seq<Response>,     // the worker's result for each request served so far
    copies: seq<seq<Byte>>,     // the bytes it copied for each of them
    kept: seq<bool>,            // whether the response found room on its bus
    loads: seq<Load>,           // what its push found there
    popped: seq<Response>,      // every response the SDK has taken
    jobs: seq<Job>,
    finished: seq<Return>,
    waits: seq<Wait>,           // for each finished call, what it saw while it waited
    since: nat,                 // how many responses had been taken when the last request was sent
    asked: nat,                 // how often the SDK has polled since
    frees: seq<FreeCall>,       // every call of free_vram
    held: set<nat>)             // the handles allocate_vram has returned and free_vram not been called on since

  predicate IsInit(s: State) {
    && |s.staging| == STAGING_SIZE
    && s == State(Fresh(), s.staging, [], [], Idle, Ready, [], [], [], [], [], [], [], [], [], 0, 0, [], {})
  }

  datatype Step =
    | CallAllocate(id: nat, size: nat, stale: bool)
    | CallUpload(handle: nat, data: seq<Byte>)
    | CallFree(handle: nat, stale: bool)
    | StageByte
    | SendUpload(id: nat, stale: bool)
    | Poll(stale: bool)
    | GiveUp
    | Take
    | Execute(deviceOk: bool)
    | CopyByte
    | FinishCopy
    | Reply(stale: bool)
    | Elsewhere(act: Act)

  predicate Enabled(s: State, step: Step) {
    match step
    case CallAllocate(_, _, _) => s.sdk.Idle?
    case CallUpload(_, data) => s.sdk.Idle? && |data| <= STAGING_SIZE
    case CallFree(handle, _) => s.sdk.Idle? && handle != 0
    case StageByte => s.sdk.Staging? && s.sdk.done < |s.sdk.data| <= |s.staging|
    case SendUpload(_, _) => s.sdk.Staging? && s.sdk.done == |s.sdk.data|
    case Poll(_) => s.sdk.Waiting? && s.sdk.polls > 0 && s.issued != []
    case GiveUp => s.sdk.Waiting? && s.sdk.polls == 0 && s.issued != []
    case Take => s.worker.Ready? && s.requests != []
    case Execute(_) => s.worker.Busy? && ValidPool(s.world.pool)
    case CopyByte => s.worker.Copying? && |s.worker.got| < s.worker.req.size && |s.worker.got| < |s.staging|
    case FinishCopy => s.worker.Copying? && |s.worker.got| == s.worker.req.size
    case Reply(_) => s.worker.Replying?
    case Elsewhere(act) => s.worker.Ready? && ValidPool(s.world.pool) && (act.Process? || act.SetBypass?)
  }

  function RequestOf(call: Call): (req: Request) {
    match call
    case AllocCall(id, size) => Request(id, Allocate, size, 0)
    case UploadCall(id, handle, data) => Request(id, Upload, |data|, handle)
  }

  /** memory_request_bus.push followed by waiting; a refused push ends the call at once. */
  function Send(s: State, req: Request, next: SdkPc, stale: bool): (s': State) {
    if |s.requests| < BUS_ROOM && !stale
    then s.(requests := s.requests + [req], issued := s.issued + [req], since := |s.popped|, asked := 0, sdk := next)
    else s.(sdk := Idle)
  }

  /** Does this response end the call? allocate_vram keeps polling after a failed one of its own. */
  predicate Ends(call: Call, resp: Response) {
    resp.id == call.id && (call.AllocCall? ==> resp.success)
  }

  /** The response the switch statement builds, and the pool it leaves. */
  function RunJob(w: World, job: Job): (r: (World, seq<Response>))
    requires ValidPool(w.pool)
    ensures ValidPool(r.0.pool)
  {
    match job
    case Other(act) => (Do(w, act), [])
    case FromBus(req, deviceOk) =>
      match req.kind
      case Allocate =>
        var h := Claim(w.pool, req.size, deviceOk).1;
        (Do(w, PluginAlloc(req.size, deviceOk)), [Response(req.id, h, h != 0)])
      case Free => (Do(w, PluginFree(req.handle)), [Response(req.id, 0, true)])
      case Upload => (w, [Response(req.id, 0, Usable(w.pool, req.handle) && deviceOk)])
  }

  /** The worker finishes the request it holds. */
  function Finish(s: State, job: Job, copy: seq<Byte>): (s': State)
    requires ValidPool(s.world.pool) && job.FromBus?
  {
    var (world, out) := RunJob(s.world, job);
    s.(world := world, results := s.results + out, copies := s.copies + [copy], jobs := s.jobs + [job],
       worker := Replying(out[0]))
  }

  function Apply(s: State, step: Step): (s': State)
    requires Enabled(s, step)
  {
    match step
    case CallAllocate(id, size, stale) => Send(s, RequestOf(AllocCall(id, size)), Waiting(AllocCall(id, size), POLLS), stale)
    case CallUpload(handle, data) => s.(sdk := Staging(handle, data, 0))
    case CallFree(handle, stale) => Send(s, Request(0, Free, 0, handle), Idle, stale).(
        held := s.held - {handle}, frees := s.frees + [FreeCall(handle, |s.finished|)])
    case StageByte =>
      s.(staging := s.staging[s.sdk.done := s.sdk.data[s.sdk.done]], sdk := s.sdk.(done := s.sdk.done + 1))
    case SendUpload(id, stale) =>
      var call := UploadCall(id, s.sdk.handle, s.sdk.data);
      Send(s, RequestOf(call), Waiting(call, POLLS), stale)
    case Poll(stale) =>
      if s.responses == [] || stale then s.(sdk := Waiting(s.sdk.call, s.sdk.polls - 1), asked := s.asked + 1)
      else
        var resp := s.responses[0];
        var s1 := s.(responses := s.responses[1..], popped := s.popped + [resp], asked := s.asked + 1);
        if Ends(s.sdk.call, resp)
        then s1.(sdk := Idle,
                 finished := s.finished + [Return(s.sdk.call, |s.issued| - 1, resp.success, resp.handle)],
                 waits := s.waits + [Wait(s.since, |s.popped| + 1, s.asked + 1)],
                 held := if s.sdk.call.AllocCall? then s.held + {resp.handle} else s.held)
        else s1.(sdk := Waiting(s.sdk.call, s.sdk.polls - 1))
    case GiveUp =>
      s.(sdk := Idle, finished := s.finished + [Return(s.sdk.call, |s.issued| - 1, false, 0)],
         waits := s.waits + [Wait(s.since, |s.popped|, s.asked)])
    case Take => s.(requests := s.requests[1..], worker := Busy(s.requests[0]))
    case Execute(deviceOk) =>
      var req := s.worker.req;
      if req.kind == Upload && Usable(s.world.pool, req.handle) && deviceOk
      then s.(worker := Copying(req, []))
      else Finish(s, FromBus(req, deviceOk), [])
    case CopyByte => s.(worker := Copying(s.worker.req, s.worker.got + [s.staging[|s.worker.got|]]))
    case FinishCopy =>
      if ValidPool(s.world.pool) then Finish(s, FromBus(s.worker.req, true), s.worker.got) else s
    case Reply(stale) =>
      var load := Load(|s.responses|, stale);
      var room := FindsRoom(load);
      s.(loads := s.loads + [load],
         responses := if room then s.responses + [s.worker.resp] else s.responses,
         kept := s.kept + [room], worker := Ready)
    case Elsewhere(act) => s.(world := Do(s.world, act), jobs := s.jobs + [Other(act)])
  }

  predicate Legal(s: State, steps: seq<Step>)
    decreases |steps|
  {
    steps == [] || (Enabled(s, steps[0]) && Legal(Apply(s, steps[0]), steps[1..]))
  }

  function Exec(s: State, steps: seq<Step>): (s': State)
    requires Legal(s, steps)
    decreases |steps|
  {
    if steps == [] then s else Exec(Apply(s, steps[0]), steps[1..])
  }

  // ---- The specification: one sequential allocator ----

  /** Runs the jobs one after the other on a single pool. */
  function Replay(jobs: seq<Job>): (r: (World, seq<Response>))
    ensures ValidPool(r.0.pool)
  {
    if jobs == [] then (Fresh(), [])
    else
      var (w, out) := Replay(jobs[..|jobs| - 1]);
      var (w', more) := RunJob(w, jobs[|jobs| - 1]);
      (w', out + more)
  }

  /** Runs requests one after the other on a pool, whether its device calls succeed being given. */
  function RunRequests(w: World, reqs: seq<Request>, oks: seq<bool>): (r: (World, seq<Response>))
    requires ValidPool(w.pool) && |reqs| <= |oks|
    ensures ValidPool(r.0.pool) && |r.1| == |reqs| && forall i | 0 <= i < |reqs| :: r.1[i].id == reqs[i].id
    decreases |reqs|
  {
    if reqs == [] then (w, [])
    else
      var (w1, out) := RunJob(w, FromBus(reqs[0], oks[0]));
      var (end, rest) := RunRequests(w1, reqs[1..], oks[1..]);
      (end, out + rest)
  }

  function JobsOf(reqs: seq<Request>, oks: seq<bool>): (jobs: seq<Job>)
    requires |reqs| <= |oks|
  {
    seq(|reqs|, i requires 0 <= i < |reqs| => FromBus(reqs[i], oks[i]))
  }

  function BusRequests(jobs: seq<Job>): (q: seq<Request>) {
    if jobs == [] then []
    else
      BusRequests(jobs[..|jobs| - 1]) +
      match jobs[|jobs| - 1] { case FromBus(req, _) => [req] case Other(_) => [] }
  }

  // ---- Invariants ----

  /** The request in the worker's hands. */
  function InHand(w: WorkerPc): (q: seq<Request>) {
    match w
    case Busy(req) => [req]
    case Copying(req, _) => [req]
    case _ => []
  }

  ghost predicate Aligned(s: State) {
    |s.staging| == STAGING_SIZE && |s.results| <= |s.issued| && |s.copies| == |s.results|
  }

  /** Both buses stay within their room, and an upload within the staging area. */
  ghost predicate SizesInv(s: State) {
    && |s.requests| <= BUS_ROOM && |s.responses| <= BUS_ROOM
    && (forall j | 0 <= j < |s.issued| :: s.issued[j].kind == Upload ==> s.issued[j].size <= STAGING_SIZE)
    && (s.sdk.Staging? ==> |s.sdk.data| <= STAGING_SIZE)
    && (s.worker.Copying? ==> |s.worker.got| <= s.worker.req.size)
  }

  /** A response was kept exactly when its push found room. */
  ghost predicate LoadsInv(kept: seq<bool>, loads: seq<Load>) {
    |loads| == |kept| && forall j | 0 <= j < |kept| :: kept[j] <==> FindsRoom(loads[j])
  }

  ghost predicate LineInv(s: State) {
    && Aligned(s)
    && s.issued[|s.results|..] == InHand(s.worker) + s.requests
    && (forall j | 0 <= j < |s.results| :: s.results[j].id == s.issued[j].id)
    && |s.kept| + (if s.worker.Replying? then 1 else 0) == |s.results|
    && (s.worker.Replying? ==> s.worker.resp == s.results[|s.results| - 1])
    && s.popped + s.responses == Kept(s.results, s.kept)
  }

  ghost predicate ReplayInv(s: State)
    requires LineInv(s)
  {
    && Replay(s.jobs) == (s.world, s.results)
    && BusRequests(s.jobs) == s.issued[..|s.results|]
    && (s.worker.Copying? ==> s.worker.req.kind == Upload && Usable(s.world.pool, s.worker.req.handle))
  }

  lemma ReplayOneMore(jobs: seq<Job>, job: Job)
    ensures var (w, out) := Replay(jobs);
      Replay(jobs + [job]) == (RunJob(w, job).0, out + RunJob(w, job).1)
    ensures BusRequests(jobs + [job]) == BusRequests(jobs) + (if job.FromBus? then [job.req] else [])
  {
    assert (jobs + [job])[..|jobs|] == jobs;
  }

  lemma JobsOneMore(jobs: seq<Job>, reqs: seq<Request>, oks: seq<bool>)
    requires 0 < |reqs| <= |oks|
    ensures jobs + JobsOf(reqs, oks) == (jobs + [FromBus(reqs[0], oks[0])]) + JobsOf(reqs[1..], oks[1..])
  {
  }

  lemma RunsOneMore(w: World, before: seq<Response>, reqs: seq<Request>, oks: seq<bool>)
    requires ValidPool(w.pool) && 0 < |reqs| <= |oks|
    ensures var (w1, out) := RunJob(w, FromBus(reqs[0], oks[0]));
      && RunRequests(w, reqs, oks).0 == RunRequests(w1, reqs[1..], oks[1..]).0
      && (before + out) + RunRequests(w1, reqs[1..], oks[1..]).1 == before + RunRequests(w, reqs, oks).1
  {
  }

  /** Running requests continues the replay of the jobs before them. */
  lemma {:induction false} RequestsAreReplayed(jobs: seq<Job>, reqs: seq<Request>, oks: seq<bool>)
    requires |reqs| <= |oks|
    ensures Replay(jobs + JobsOf(reqs, oks)).0 == RunRequests(Replay(jobs).0, reqs, oks).0
    ensures Replay(jobs + JobsOf(reqs, oks)).1 == Replay(jobs).1 + RunRequests(Replay(jobs).0, reqs, oks).1
    decreases |reqs|
  {
    if reqs == [] {
      assert jobs + JobsOf(reqs, oks) == jobs;
    } else {
      var more := jobs + [FromBus(reqs[0], oks[0])];
      ReplayOneMore(jobs, FromBus(reqs[0], oks[0]));
      RequestsAreReplayed(more, reqs[1..], oks[1..]);
      JobsOneMore(jobs, reqs, oks);
      RunsOneMore(Replay(jobs).0, Replay(jobs).1, reqs, oks);
    }
  }

  /** The response to one request, and what serving it does: an allocation succeeds exactly with a working
      device and a free slot and returns the handle taken, of the size asked for; an upload exactly on a
      live handle with a working map; a FREE always, and its handle is dead then. A request that fails
      leaves everything as it was. */
  lemma ServedExactly(w: World, req: Request, deviceOk: bool)
    requires ValidPool(w.pool)
    ensures var (w', out) := RunJob(w, FromBus(req, deviceOk));
      && |out| == 1 && out[0].id == req.id && (!out[0].success ==> w' == w && out[0].handle == 0)
      && match req.kind
         case Allocate =>
           && (out[0].success <==> deviceOk && HasFreeSlot(w.pool))
           && (out[0].success ==> Takes(w.pool, w'.pool, out[0].handle, req.size)
                                  && w' == w.(pool := w'.pool, plugin := w.plugin + {out[0].handle}))
         case Upload =>
           (out[0].success <==> 0 < req.handle < SLOTS && w.pool.active[req.handle] && deviceOk) && w' == w && out[0].handle == 0
         case Free =>
           && out[0].success && out[0].handle == 0
           && w' == w.(pool := w'.pool, plugin := w.plugin - {req.handle}) && w'.pool.size == w.pool.size
           && forall j | 0 <= j < SLOTS :: w'.pool.active[j] <==> w.pool.active[j] && j != req.handle
  {
    ClaimTakes(w.pool, req.size, deviceOk);
  }

  lemma SendKeepsLine(s: State, req: Request, next: SdkPc, stale: bool)
    requires LineInv(s)
    ensures LineInv(Send(s, req, next, stale))
  {
    if |s.requests| < BUS_ROOM && !stale {
      assert (s.issued + [req])[|s.results|..] == s.issued[|s.results|..] + [req];
      assert InHand(s.worker) + (s.requests + [req]) == InHand(s.worker) + s.requests + [req];
    }
  }

  lemma SendKeepsReplay(s: State, req: Request, next: SdkPc, stale: bool)
    requires LineInv(s) && ReplayInv(s) && LineInv(Send(s, req, next, stale))
    ensures ReplayInv(Send(s, req, next, stale))
  {
    assert (s.issued + [req])[..|s.results|] == s.issued[..|s.results|];
  }

  /** The request in hand is the next one in line. */
  lemma NextInLine(s: State)
    requires LineInv(s) && InHand(s.worker) != []
    ensures |s.results| < |s.issued| && s.issued[|s.results|] == s.worker.req
    ensures s.issued[|s.results| + 1..] == s.requests
    ensures s.issued[..|s.results| + 1] == s.issued[..|s.results|] + [s.worker.req]
  {
    var rest := s.issued[|s.results|..];
    assert rest[0] == s.worker.req;
    assert rest[1..] == s.requests;
    assert rest[1..] == s.issued[|s.results| + 1..];
  }

  lemma FinishKeepsLine(s: State, deviceOk: bool, copy: seq<Byte>)
    requires LineInv(s) && ReplayInv(s) && InHand(s.worker) != []
    ensures LineInv(Finish(s, FromBus(s.worker.req, deviceOk), copy))
  {
    NextInLine(s);
    var s' := Finish(s, FromBus(s.worker.req, deviceOk), copy);
    KeptIgnoresLater(s.results, [s'.worker.resp], s.kept);
    assert s'.results == s.results + [s'.worker.resp];
    assert s'.issued[|s'.results|..] == [] + s'.requests;
  }

  lemma FinishKeepsReplay(s: State, deviceOk: bool, copy: seq<Byte>)
    requires LineInv(s) && ReplayInv(s) && InHand(s.worker) != []
    requires LineInv(Finish(s, FromBus(s.worker.req, deviceOk), copy))
    ensures ReplayInv(Finish(s, FromBus(s.worker.req, deviceOk), copy))
  {
    NextInLine(s);
    ReplayOneMore(s.jobs, FromBus(s.worker.req, deviceOk));
  }

  lemma PollKeepsLine(s: State, stale: bool)
    requires LineInv(s) && ReplayInv(s) && Enabled(s, Poll(stale))
    ensures LineInv(Apply(s, Poll(stale))) && ReplayInv(Apply(s, Poll(stale)))
  {
    if s.responses != [] && !stale {
      var s' := Apply(s, Poll(stale));
      assert s'.popped + s'.responses == s.popped + s.responses;
    }
  }

  lemma SendKeepsBoth(s: State, req: Request, next: SdkPc, stale: bool)
    requires LineInv(s) && ReplayInv(s)
    ensures LineInv(Send(s, req, next, stale)) && ReplayInv(Send(s, req, next, stale))
  {
    SendKeepsLine(s, req, next, stale);
    SendKeepsReplay(s, req, next, stale);
  }

  /** What only the SDK looks at. */
  lemma SdkOnly(s: State, s': State)
    requires LineInv(s) && ReplayInv(s)
    requires s' == s.(staging := s'.staging, sdk := s'.sdk, finished := s'.finished, waits := s'.waits, frees := s'.frees, held := s'.held)
    requires |s'.staging| == |s.staging|
    ensures LineInv(s') && ReplayInv(s')
  {
  }

  lemma SdkStepKeepsLine(s: State, step: Step)
    requires LineInv(s) && ReplayInv(s) && Enabled(s, step)
    requires !step.Take? && !step.Execute? && !step.CopyByte? && !step.FinishCopy? && !step.Reply? && !step.Elsewhere?
    ensures LineInv(Apply(s, step)) && ReplayInv(Apply(s, step))
  {
    if step.CallAllocate? {
      SendKeepsBoth(s, RequestOf(AllocCall(step.id, step.size)), Waiting(AllocCall(step.id, step.size), POLLS), step.stale);
    } else if step.CallFree? {
      SendKeepsBoth(s, Request(0, Free, 0, step.handle), Idle, step.stale);
      SdkOnly(Send(s, Request(0, Free, 0, step.handle), Idle, step.stale), Apply(s, step));
    } else if step.SendUpload? {
      var call := UploadCall(step.id, s.sdk.handle, s.sdk.data);
      SendKeepsBoth(s, RequestOf(call), Waiting(call, POLLS), step.stale);
    } else if step.Poll? {
      PollKeepsLine(s, step.stale);
    } else {
      SdkOnly(s, Apply(s, step));
    }
  }

  lemma ReplyKeepsLine(s: State, stale: bool)
    requires LineInv(s) && ReplayInv(s) && s.worker.Replying?
    ensures LineInv(Apply(s, Reply(stale))) && ReplayInv(Apply(s, Reply(stale)))
  {
    var s', room := Apply(s, Reply(stale)), FindsRoom(Load(|s.responses|, stale));
    KeptOneMore(s.results, s.kept, room);
    assert s'.popped + s'.responses == s.popped + s.responses + (if room then [s.worker.resp] else []);
  }

  lemma TakeKeepsLine(s: State)
    requires LineInv(s) && ReplayInv(s) && Enabled(s, Take)
    ensures LineInv(Apply(s, Take)) && ReplayInv(Apply(s, Take))
  {
    assert InHand(s.worker) + s.requests == [s.requests[0]] + s.requests[1..];
  }

  lemma WorkerStepKeepsLine(s: State, step: Step)
    requires LineInv(s) && ReplayInv(s) && Enabled(s, step)
    requires step.Take? || step.Execute? || step.CopyByte? || step.FinishCopy? || step.Reply? || step.Elsewhere?
    ensures LineInv(Apply(s, step)) && ReplayInv(Apply(s, step))
  {
    match step
    case Execute(deviceOk) =>
      FinishKeepsLine(s, deviceOk, []);
      FinishKeepsReplay(s, deviceOk, []);
    case FinishCopy =>
      FinishKeepsLine(s, true, s.worker.got);
      FinishKeepsReplay(s, true, s.worker.got);
    case Reply(stale) =>
      ReplyKeepsLine(s, stale);
    case Elsewhere(act) =>
      ReplayOneMore(s.jobs, Other(act));
      assert s.results + [] == s.results;
    case Take =>
      TakeKeepsLine(s);
    case CopyByte =>
  }

  lemma StepKeepsLine(s: State, step: Step)
    requires LineInv(s) && ReplayInv(s) && Enabled(s, step)
    ensures LineInv(Apply(s, step)) && ReplayInv(Apply(s, step))
  {
    if step.Take? || step.Execute? || step.CopyByte? || step.FinishCopy? || step.Reply? || step.Elsewhere? {
      WorkerStepKeepsLine(s, step);
    } else {
      SdkStepKeepsLine(s, step);
    }
  }

  lemma WorkerStepKeepsSizes(s: State, step: Step)
    requires LineInv(s) && SizesInv(s) && Enabled(s, step)
    requires step.Take? || step.Execute? || step.CopyByte? || step.FinishCopy? || step.Reply? || step.Elsewhere?
    ensures SizesInv(Apply(s, step))
  {
    if step.Execute? {
      NextInLine(s);
    }
  }

  lemma SdkStepKeepsSizes(s: State, step: Step)
    requires SizesInv(s) && Enabled(s, step)
    requires !step.Take? && !step.Execute? && !step.CopyByte? && !step.FinishCopy? && !step.Reply? && !step.Elsewhere?
    ensures SizesInv(Apply(s, step))
  {
  }

  lemma StepKeepsSizes(s: State, step: Step)
    requires LineInv(s) && SizesInv(s) && Enabled(s, step)
    ensures SizesInv(Apply(s, step))
  {
    if step.Take? || step.Execute? || step.CopyByte? || step.FinishCopy? || step.Reply? || step.Elsewhere? {
      WorkerStepKeepsSizes(s, step);
    } else {
      SdkStepKeepsSizes(s, step);
    }
  }

  lemma StepKeepsLoads(s: State, step: Step)
    requires LoadsInv(s.kept, s.loads) && Enabled(s, step)
    ensures LoadsInv(Apply(s, step).kept, Apply(s, step).loads)
  {
  }

  lemma {:induction false} RunKeepsLineAndReplay(s: State, steps: seq<Step>)
    requires LineInv(s) && ReplayInv(s) && LoadsInv(s.kept, s.loads) && Legal(s, steps)
    ensures LineInv(Exec(s, steps)) && ReplayInv(Exec(s, steps)) && LoadsInv(Exec(s, steps).kept, Exec(s, steps).loads)
    decreases |steps|
  {
    if steps != [] {
      StepKeepsLine(s, steps[0]);
      StepKeepsLoads(s, steps[0]);
      RunKeepsLineAndReplay(Apply(s, steps[0]), steps[1..]);
    }
  }

  /** Refinement, for any choice of ids: the responses the SDK has taken or can still take are, in
      order, the results of running the issued requests through one sequential allocator, less the
      lost ones; and a response is lost exactly when 31 were waiting or the load of its push was stale. */
  lemma RefinesSequentialAllocator(s: State, steps: seq<Step>)
    requires IsInit(s) && Legal(s, steps)
    ensures var e := Exec(s, steps);
      && Replay(e.jobs) == (e.world, e.results)
      && BusRequests(e.jobs) <= e.issued && |BusRequests(e.jobs)| == |e.results|
      && |e.kept| <= |e.results| && e.popped + e.responses == Kept(e.results, e.kept)
      && |e.loads| == |e.kept| && forall j | 0 <= j < |e.kept| :: e.kept[j] <==> e.loads[j].waiting < 31 && !e.loads[j].stale
  {
    RunKeepsLineAndReplay(s, steps);
  }
}
