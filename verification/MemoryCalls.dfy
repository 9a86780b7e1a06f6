/** What the memory calls of sdk/src/dsp_accel_sdk.cpp promise the plugin over whole runs of the memory
    bus: whose result a call returns, which depends on its request id, and who owns a handle. */
module MemoryCalls {
  import opened HandlePool
  import opened MemoryBus
  import opened Selection

  // ---- Outstanding ids ----

  /** A request with this id waits to be served, is in the worker's hands, or has a response that is
      about to be pushed or waits to be taken. */
  predicate Outstanding(s: State, id: nat) {
    || (exists i :: 0 <= i < |s.requests| && s.requests[i].id == id)
    || (InHand(s.worker) != [] && InHand(s.worker)[0].id == id)
    || (s.worker.Replying? && s.worker.resp.id == id)
    || (exists i :: 0 <= i < |s.responses| && s.responses[i].id == id)
  }

  /** The caller's part: the id a call draws is not outstanding. (The source draws it with rand(), and
      FREE always uses 0.) */
  predicate ClearId(s: State, step: Step) {
    step.CallAllocate? || step.SendUpload? ==> !Outstanding(s, step.id)
  }

  predicate ClearIds(s: State, steps: seq<Step>)
    requires Legal(s, steps)
    decreases |steps|
  {
    steps == [] || (ClearId(s, steps[0]) && ClearIds(Apply(s, steps[0]), steps[1..]))
  }

  /** The n-th request of all is not done with: not served, or its response not taken. */
  ghost predicate Live(s: State, n: nat) {
    || |s.kept| <= n < |s.issued|
    || exists k :: |s.popped| <= k < |Picks(s.kept)| && Picks(s.kept)[k] == n
  }

  /** The response at the head of the bus answers this request. */
  lemma ResponseAt(s: State, i: nat)
    requires LineInv(s) && i < |s.responses|
    ensures |Picks(s.kept)| == |s.popped| + |s.responses|
    ensures var n := Picks(s.kept)[|s.popped| + i];
      n < |s.kept| && s.responses[i] == s.results[n] && s.responses[i].id == s.issued[n].id && Live(s, n)
  {
    KeptArePicks(s.results, s.kept);
    assert s.responses[i] == (s.popped + s.responses)[|s.popped| + i];
  }

  lemma QueuedIsLive(s: State, id: nat)
    requires LineInv(s) && Outstanding(s, id)
    ensures exists n :: 0 <= n < |s.issued| && Live(s, n) && s.issued[n].id == id
  {
    if i :| 0 <= i < |s.requests| && s.requests[i].id == id {
      var n := |s.results| + |InHand(s.worker)| + i;
      assert s.issued[n] == s.issued[|s.results|..][|InHand(s.worker)| + i];
      assert Live(s, n);
    } else if InHand(s.worker) != [] && InHand(s.worker)[0].id == id {
      NextInLine(s);
      assert Live(s, |s.results|);
    } else if s.worker.Replying? && s.worker.resp.id == id {
      assert Live(s, |s.kept|);
    } else {
      var i :| 0 <= i < |s.responses| && s.responses[i].id == id;
      ResponseAt(s, i);
    }
  }

  lemma LiveIsOutstanding(s: State, n: nat)
    requires LineInv(s) && Live(s, n)
    ensures n < |s.issued| && Outstanding(s, s.issued[n].id)
  {
    KeptArePicks(s.results, s.kept);
    if |s.results| <= n {
      var i := n - |s.results|;
      assert s.issued[n] == s.issued[|s.results|..][i] == (InHand(s.worker) + s.requests)[i];
      if i >= |InHand(s.worker)| {
        assert s.requests[i - |InHand(s.worker)|] == s.issued[n];
      }
    } else if n < |s.kept| {
      var k :| |s.popped| <= k < |Picks(s.kept)| && Picks(s.kept)[k] == n;
      ResponseAt(s, k - |s.popped|);
    }
  }

  /** While a call waits, no other live request has its id. */
  ghost predicate OnlyOwn(s: State) {
    s.sdk.Waiting? ==> forall n | 0 <= n < |s.issued| - 1 && Live(s, n) :: s.issued[n].id != s.sdk.call.id
  }

  lemma PicksOneMore(keep: seq<bool>, b: bool)
    ensures Picks(keep + [b]) == Picks(keep) + if b then [|keep|] else []
  {
    assert (keep + [b])[..|keep|] == keep;
  }

  /** What a step can do to the responses kept and taken. */
  lemma KeptAndPopped(s: State, step: Step)
    requires Enabled(s, step)
    ensures var s' := Apply(s, step);
      && |s'.kept| >= |s.kept| && |s'.popped| >= |s.popped|
      && (!step.Reply? ==> s'.kept == s.kept)
      && (step.Reply? ==> s'.kept == s.kept + [FindsRoom(Load(|s.responses|, step.stale))] && s'.issued == s.issued)
  {
  }

  /** No step but the sending of a request makes one live. */
  lemma OnlySendingMakesLive(s: State, step: Step, n: nat)
    requires LineInv(s) && Enabled(s, step) && n < |s.issued| && Live(Apply(s, step), n)
    ensures Live(s, n)
  {
    KeptAndPopped(s, step);
    if step.Reply? {
      PicksOneMore(s.kept, FindsRoom(Load(|s.responses|, step.stale)));
    }
  }

  lemma StepKeepsOnlyOwn(s: State, step: Step)
    requires LineInv(s) && OnlyOwn(s) && Enabled(s, step)
    requires ClearId(s, step) || Apply(s, step).issued == s.issued
    ensures OnlyOwn(Apply(s, step))
  {
    var s' := Apply(s, step);
    if s'.sdk.Waiting? {
      forall n | 0 <= n < |s'.issued| - 1 && Live(s', n) ensures s'.issued[n].id != s'.sdk.call.id {
        OnlySendingMakesLive(s, step, n);
        LiveIsOutstanding(s, n);
      }
    }
  }

  // ---- Honest success ----

  /** While a call waits, its request is the last issued, and for an upload nothing disturbs the
      staging area or the bytes the worker has copied from it for this request. */
  ghost predicate CallInv(s: State)
    requires Aligned(s)
  {
    match s.sdk
    case Idle => true
    case Staging(_, data, done) =>
      done <= |data| <= STAGING_SIZE && s.staging[..done] == data[..done]
    case Waiting(call, _) =>
      && s.issued != [] && s.issued[|s.issued| - 1] == RequestOf(call)
      && (call.UploadCall? ==>
            && |call.data| <= STAGING_SIZE && s.staging[..|call.data|] == call.data
            && (s.worker.Copying? && |s.results| == |s.issued| - 1 ==> s.worker.got <= call.data)
            && (|s.results| == |s.issued| && s.results[|s.issued| - 1].success ==> s.copies[|s.issued| - 1] == call.data))
  }

  /** What a successful return guarantees about the request it stands for. */
  ghost predicate Honest(s: State, r: Return) {
    r.success ==>
      && r.index < |s.results| && |s.results| <= |s.issued| && |s.copies| == |s.results|
      && s.issued[r.index] == RequestOf(r.call)
      && s.results[r.index] == Response(r.call.id, r.handle, true)
      && (r.call.UploadCall? ==> s.copies[r.index] == r.call.data)
  }

  ghost predicate Inv(s: State) {
    && LineInv(s) && ReplayInv(s) && OnlyOwn(s) && CallInv(s)
    && forall r | r in s.finished :: Honest(s, r)
  }

  /** A response that carries the waiting call's id can only be the result of its own request. */
  lemma ResponseIsOwn(s: State)
    requires Inv(s) && s.sdk.Waiting? && s.responses != [] && s.responses[0].id == s.sdk.call.id
    ensures |s.results| == |s.issued| && s.responses[0] == s.results[|s.issued| - 1]
  {
    ResponseAt(s, 0);
  }

  lemma StagingKeepsCall(s: State)
    requires Aligned(s) && CallInv(s) && Enabled(s, StageByte)
    ensures CallInv(Apply(s, StageByte))
  {
    var k, s' := s.sdk.done, Apply(s, StageByte);
    assert s'.staging[..k + 1] == s.staging[..k] + [s.sdk.data[k]];
    assert s.sdk.data[..k + 1] == s.sdk.data[..k] + [s.sdk.data[k]];
  }

  /** A request just pushed is behind everything the worker has or is serving. */
  lemma SendKeepsCall(s: State, call: Call, stale: bool)
    requires LineInv(s)
    requires call.UploadCall? ==> |call.data| <= STAGING_SIZE && s.staging[..|call.data|] == call.data
    ensures CallInv(Send(s, RequestOf(call), Waiting(call, POLLS), stale))
  {
    if InHand(s.worker) != [] {
      NextInLine(s);
    }
  }

  lemma SdkStepKeepsCall(s: State, step: Step)
    requires LineInv(s) && CallInv(s) && Enabled(s, step)
    requires !step.Take? && !step.Execute? && !step.CopyByte? && !step.FinishCopy? && !step.Reply? && !step.Elsewhere?
    ensures CallInv(Apply(s, step))
  {
    match step
    case CallAllocate(id, size, stale) => SendKeepsCall(s, AllocCall(id, size), stale);
    case SendUpload(id, stale) =>
      assert s.sdk.data[..s.sdk.done] == s.sdk.data;
      SendKeepsCall(s, UploadCall(id, s.sdk.handle, s.sdk.data), stale);
    case StageByte => StagingKeepsCall(s);
    case _ =>
  }

  lemma CopyKeepsCall(s: State)
    requires Aligned(s) && CallInv(s) && Enabled(s, CopyByte)
    requires |s.results| < |s.issued| && s.issued[|s.results|] == s.worker.req
    ensures CallInv(Apply(s, CopyByte))
  {
    if s.sdk.Waiting? && s.sdk.call.UploadCall? && |s.results| == |s.issued| - 1 {
      var k, data := |s.worker.got|, s.sdk.call.data;
      assert s.staging[k] == s.staging[..|data|][k] == data[k];
    }
  }

  /** The worker finishes with the waiting call's own request only after copying all of its bytes. */
  lemma FinishKeepsCall(s: State, deviceOk: bool, copy: seq<Byte>)
    requires Aligned(s) && CallInv(s) && InHand(s.worker) != [] && ValidPool(s.world.pool)
    requires |s.results| < |s.issued| && s.issued[|s.results|] == s.worker.req
    requires s.worker.Busy? ==> copy == [] && !(s.worker.req.kind == Upload && Usable(s.world.pool, s.worker.req.handle) && deviceOk)
    requires s.worker.Copying? ==> copy == s.worker.got && |copy| == s.worker.req.size
    ensures CallInv(Finish(s, FromBus(s.worker.req, deviceOk), copy))
  {
  }

  lemma WorkerStepKeepsCall(s: State, step: Step)
    requires LineInv(s) && CallInv(s) && Enabled(s, step)
    requires step.Take? || step.Execute? || step.CopyByte? || step.FinishCopy? || step.Reply? || step.Elsewhere?
    ensures CallInv(Apply(s, step))
  {
    if InHand(s.worker) != [] {
      NextInLine(s);
    }
    match step
    case Execute(deviceOk) =>
      var req := s.worker.req;
      if !(req.kind == Upload && Usable(s.world.pool, req.handle) && deviceOk) {
        FinishKeepsCall(s, deviceOk, []);
      }
    case CopyByte => CopyKeepsCall(s);
    case FinishCopy =>
      if ValidPool(s.world.pool) {
        FinishKeepsCall(s, true, s.worker.got);
      }
    case _ =>
  }

  lemma StepKeepsCall(s: State, step: Step)
    requires LineInv(s) && CallInv(s) && Enabled(s, step)
    ensures CallInv(Apply(s, step))
  {
    if step.Take? || step.Execute? || step.CopyByte? || step.FinishCopy? || step.Reply? || step.Elsewhere? {
      WorkerStepKeepsCall(s, step);
    } else {
      SdkStepKeepsCall(s, step);
    }
  }

  /** What holds of a past return goes on holding: nothing issued, served or copied is ever changed. */
  lemma PastStaysHonest(s: State, step: Step, r: Return)
    requires Aligned(s) && Enabled(s, step) && Aligned(Apply(s, step)) && Honest(s, r)
    ensures Honest(Apply(s, step), r)
  {
  }

  lemma NewReturnIsHonest(s: State, stale: bool, r: Return)
    requires Inv(s) && Enabled(s, Poll(stale)) && r in Apply(s, Poll(stale)).finished && r !in s.finished
    ensures Honest(Apply(s, Poll(stale)), r)
  {
    ResponseIsOwn(s);
  }

  lemma StepKeepsHonest(s: State, step: Step, r: Return)
    requires Inv(s) && Enabled(s, step) && Aligned(Apply(s, step)) && r in Apply(s, step).finished
    ensures Honest(Apply(s, step), r)
  {
    if r in s.finished {
      PastStaysHonest(s, step, r);
    } else if step.Poll? {
      NewReturnIsHonest(s, step.stale, r);
    }
  }

  lemma StepKeepsInv(s: State, step: Step)
    requires Inv(s) && Enabled(s, step) && ClearId(s, step)
    ensures Inv(Apply(s, step))
  {
    var s' := Apply(s, step);
    StepKeepsLine(s, step);
    StepKeepsOnlyOwn(s, step);
    StepKeepsCall(s, step);
    forall r | r in s'.finished ensures Honest(s', r) {
      StepKeepsHonest(s, step, r);
    }
  }

  lemma {:induction false} RunKeepsInv(s: State, steps: seq<Step>)
    requires Inv(s) && Legal(s, steps) && ClearIds(s, steps)
    ensures Inv(Exec(s, steps))
    decreases |steps|
  {
    if steps != [] {
      StepKeepsInv(s, steps[0]);
      RunKeepsInv(Apply(s, steps[0]), steps[1..]);
    }
  }

  /** As long as no call draws an outstanding id, a call that reports success got the result of its own
      request, however many earlier calls timed out: allocate_vram returns the handle issued for it, and
      for upload_buffer the worker copied exactly the bytes that were passed in. */
  lemma SuccessIsHonest(s: State, steps: seq<Step>, r: Return)
    requires IsInit(s) && Legal(s, steps) && ClearIds(s, steps)
    requires r in Exec(s, steps).finished && r.success
    ensures var e := Exec(s, steps);
      && r.index < |e.results| <= |e.issued| && |e.copies| == |e.results|
      && e.results[r.index] == Response(r.call.id, r.handle, true)
      && match r.call
         case AllocCall(id, size) => e.issued[r.index] == Request(id, Allocate, size, 0)
         case UploadCall(id, handle, data) =>
           e.issued[r.index] == Request(id, Upload, |data|, handle) && e.copies[r.index] == data
  {
    RunKeepsInv(s, steps);
    assert Honest(Exec(s, steps), r);
  }

  // ---- Who owns a handle ----

  /** The plugin's rule: free only a handle that allocate_vram returned and that has not been freed since. */
  predicate OwnFree(s: State, step: Step) {
    step.CallFree? ==> step.handle in s.held
  }

  predicate OwnFrees(s: State, steps: seq<Step>)
    requires Legal(s, steps)
    decreases |steps|
  {
    steps == [] || (OwnFree(s, steps[0]) && OwnFrees(Apply(s, steps[0]), steps[1..]))
  }

  /** The n-th request is a FREE that the worker, having served `served` requests, has yet to carry out. */
  predicate FreeInFlight(issued: seq<Request>, served: nat, n: nat) {
    served <= n < |issued| && issued[n].kind == Free
  }

  /** What the plugin holds and what it has asked to be freed are different handles, and the pool has
      all of them down as the plugin's. */
  ghost predicate OwnedInv(plugin: set<nat>, held: set<nat>, issued: seq<Request>, served: nat) {
    && held <= plugin
    && (forall n: nat | FreeInFlight(issued, served, n) :: issued[n].handle in plugin && issued[n].handle !in held)
    && (forall m: nat, n: nat | m < n && FreeInFlight(issued, served, m) && FreeInFlight(issued, served, n) ::
          issued[m].handle != issued[n].handle)
  }

  /** A handle allocated to the waiting call and not yet returned is the plugin's too, a new one, and of
      the size asked for. */
  ghost predicate UnreturnedInv(sdk: SdkPc, results: seq<Response>, pushed: nat, w: World, held: set<nat>) {
    sdk.Waiting? && sdk.call.AllocCall? && |results| == pushed && results != [] && results[|results| - 1].success ==>
      var h := results[|results| - 1].handle;
      h in w.plugin && h !in held && h < |w.pool.size| && w.pool.size[h] == sdk.call.size
  }

  ghost predicate OwnerInv(s: State) {
    && Disjoint(s.world)
    && OwnedInv(s.world.plugin, s.held, s.issued, |s.results|)
    && UnreturnedInv(s.sdk, s.results, |s.issued|, s.world, s.held)
  }

  lemma AllocationIsOwned(w: World, size: nat, deviceOk: bool, held: set<nat>, issued: seq<Request>, served: nat)
    requires Disjoint(w) && OwnedInv(w.plugin, held, issued, served) && served < |issued|
    ensures var (w', h) := (Do(w, PluginAlloc(size, deviceOk)), Claim(w.pool, size, deviceOk).1);
      Disjoint(w') && OwnedInv(w'.plugin, held, issued, served + 1) && (h != 0 ==> h in w'.plugin && h !in held && w'.pool.size[h] == size)
  {
    ActKeepsDisjoint(w, PluginAlloc(size, deviceOk));
    ClaimedIsNew(w, size, deviceOk);
  }

  lemma FreeIsOwned(w: World, held: set<nat>, issued: seq<Request>, served: nat)
    requires Disjoint(w) && OwnedInv(w.plugin, held, issued, served) && FreeInFlight(issued, served, served)
    ensures var w' := Do(w, PluginFree(issued[served].handle));
      Disjoint(w') && OwnedInv(w'.plugin, held, issued, served + 1)
  {
    FreeingOwnHandlesIsDisciplined(w, issued[served].handle);
    ActKeepsDisjoint(w, PluginFree(issued[served].handle));
  }

  lemma ExecuteKeepsOwner(s: State, deviceOk: bool, copy: seq<Byte>)
    requires LineInv(s) && OwnerInv(s) && CallInv(s) && InHand(s.worker) != []
    ensures OwnerInv(Finish(s, FromBus(s.worker.req, deviceOk), copy))
  {
    NextInLine(s);
    var req := s.worker.req;
    match req.kind
    case Allocate => AllocationIsOwned(s.world, req.size, deviceOk, s.held, s.issued, |s.results|);
    case Free => FreeIsOwned(s.world, s.held, s.issued, |s.results|);
    case Upload =>
  }

  lemma PollKeepsOwner(s: State, stale: bool)
    requires Inv(s) && OwnerInv(s) && Enabled(s, Poll(stale))
    ensures OwnerInv(Apply(s, Poll(stale)))
  {
    if !stale && s.responses != [] && Ends(s.sdk.call, s.responses[0]) {
      ResponseIsOwn(s);
    }
  }

  /** Freeing a held handle gives it up and puts it in flight; other requests change nothing here. */
  lemma SentIsOwned(plugin: set<nat>, held: set<nat>, issued: seq<Request>, served: nat, req: Request)
    requires OwnedInv(plugin, held, issued, served) && (req.kind == Free ==> req.handle in held)
    ensures OwnedInv(plugin, if req.kind == Free then held - {req.handle} else held, issued + [req], served)
  {
  }

  lemma SendKeepsOwner(s: State, step: Step)
    requires Aligned(s) && OwnerInv(s) && Enabled(s, step) && OwnFree(s, step)
    requires step.CallAllocate? || step.CallFree? || step.SendUpload?
    ensures OwnerInv(Apply(s, step))
  {
    var req;
    if step.CallAllocate? {
      req := RequestOf(AllocCall(step.id, step.size));
    } else if step.CallFree? {
      req := Request(0, Free, 0, step.handle);
    } else {
      req := RequestOf(UploadCall(step.id, s.sdk.handle, s.sdk.data));
    }
    SentIsOwned(s.world.plugin, s.held, s.issued, |s.results|, req);
  }

  lemma WorkerStepKeepsOwner(s: State, step: Step)
    requires LineInv(s) && CallInv(s) && OwnerInv(s) && Enabled(s, step)
    requires step.Take? || step.Execute? || step.CopyByte? || step.FinishCopy? || step.Reply? || step.Elsewhere?
    ensures OwnerInv(Apply(s, step))
  {
    if step.Execute? {
      ExecuteKeepsOwner(s, step.deviceOk, []);
    } else if step.FinishCopy? {
      ExecuteKeepsOwner(s, true, s.worker.got);
    } else if step.Elsewhere? {
      ActKeepsDisjoint(s.world, step.act);
    }
  }

  lemma StepKeepsOwner(s: State, step: Step)
    requires Inv(s) && OwnerInv(s) && Enabled(s, step) && OwnFree(s, step)
    ensures OwnerInv(Apply(s, step))
  {
    if step.CallAllocate? || step.CallFree? || step.SendUpload? {
      SendKeepsOwner(s, step);
    } else if step.Poll? {
      PollKeepsOwner(s, step.stale);
    } else if !step.CallUpload? && !step.StageByte? && !step.GiveUp? {
      WorkerStepKeepsOwner(s, step);
    }
  }

  lemma {:induction false} RunKeepsOwner(s: State, steps: seq<Step>)
    requires Inv(s) && OwnerInv(s) && Legal(s, steps) && ClearIds(s, steps) && OwnFrees(s, steps)
    ensures OwnerInv(Exec(s, steps))
    decreases |steps|
  {
    if steps != [] {
      StepKeepsInv(s, steps[0]);
      StepKeepsOwner(s, steps[0]);
      RunKeepsOwner(Apply(s, steps[0]), steps[1..]);
    }
  }

  /** A plugin that draws no outstanding id and frees only what it was returned and has not freed keeps
      all handles apart, although its FREEs are carried out later and timed-out calls leave handles
      behind: what it holds is live, and is no instance's state buffer and no import. */
  lemma PluginKeepsHandlesApart(s: State, steps: seq<Step>)
    requires IsInit(s) && Legal(s, steps) && ClearIds(s, steps) && OwnFrees(s, steps)
    ensures var e := Exec(s, steps);
      && Disjoint(e.world)
      && forall h | h in e.held :: h < SLOTS && e.world.pool.active[h] && !StateHandle(e.world, h) && h !in e.world.imports
  {
    FreshWorldIsDisjoint();
    RunKeepsOwner(s, steps);
  }
}
