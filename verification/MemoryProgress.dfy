/** When the memory calls can do what they are for: return success, and free a handle. */
module MemoryProgress {
  import opened HandlePool
  import opened MemoryBus
  import opened MemoryCalls
  import opened MemoryFooling
  import opened Selection

  // ---- Success ----

  /** Some continuation ends the call just sent with success. */
  ghost predicate CanReturnSuccess(s: State) {
    exists t, h :: Reaches(s, t) && t.issued == s.issued && ReturnsSuccess(s, t, h)
  }

  ghost predicate ReturnsSuccess(s: State, t: State, h: nat) {
    s.sdk.Waiting? && s.issued != [] && t.finished == s.finished + [Return(s.sdk.call, |s.issued| - 1, true, h)]
  }

  /** A waiting call whose own request, the only live one of its id, cannot succeed any more. */
  ghost predicate Hopeless(s: State)
    requires LineInv(s)
  {
    s.sdk.Waiting? ==>
      OnlyOwn(s) && s.issued != [] && s.issued[|s.issued| - 1].id == s.sdk.call.id && !CanSucceed(s, |s.issued| - 1)
  }

  lemma HopelessPollFails(s: State, stale: bool)
    requires RunInv(s) && Hopeless(s) && Enabled(s, Poll(stale))
    ensures var s' := Apply(s, Poll(stale));
      s'.finished == s.finished || (|s'.finished| == |s.finished| + 1 && !s'.finished[|s.finished|].success && s'.finished[..|s.finished|] == s.finished)
  {
    if s.responses != [] && !stale && Ends(s.sdk.call, s.responses[0]) {
      ResponseAt(s, 0);
      KeptArePicks(s.results, s.kept);
    }
  }

  lemma StaysHopeless(s: State, step: Step)
    requires RunInv(s) && Hopeless(s) && Enabled(s, step) && Apply(s, step).issued == s.issued
    ensures RunInv(Apply(s, step)) && Hopeless(Apply(s, step))
  {
    StepKeepsRun(s, step);
    var s' := Apply(s, step);
    if s'.sdk.Waiting? {
      WaitsForSame(s, step);
      StepKeepsOnlyOwn(s, step);
      if CanSucceed(s', |s.issued| - 1) {
        ChancesOnlyShrink(s, step, |s.issued| - 1);
      }
    }
  }

  /** Every call finished from here on fails. */
  ghost predicate OnlyFailures(s: State, t: State) {
    |s.finished| <= |t.finished| && s.finished == t.finished[..|s.finished|]
    && forall k | |s.finished| <= k < |t.finished| :: !t.finished[k].success
  }

  lemma FailureStep(s: State, step: Step)
    requires RunInv(s) && Hopeless(s) && Enabled(s, step)
    ensures OnlyFailures(s, Apply(s, step))
  {
    if step.Poll? {
      HopelessPollFails(s, step.stale);
    }
  }

  lemma FailuresAddUp(s: State, s': State, t: State)
    requires OnlyFailures(s, s') && OnlyFailures(s', t)
    ensures OnlyFailures(s, t)
  {
    forall k | |s.finished| <= k < |t.finished| ensures !t.finished[k].success {
      if k < |s'.finished| {
        assert t.finished[k] == t.finished[..|s'.finished|][k];
      }
    }
  }

  lemma {:induction false} HopelessRunFails(s: State, steps: seq<Step>)
    requires RunInv(s) && Hopeless(s) && Legal(s, steps) && Exec(s, steps).issued == s.issued
    ensures OnlyFailures(s, Exec(s, steps))
    decreases |steps|
  {
    if steps != [] {
      var s' := Apply(s, steps[0]);
      IssuedKept(s, steps[0]);
      IssuedGrows(s', steps[1..]);
      StaysHopeless(s, steps[0]);
      FailureStep(s, steps[0]);
      HopelessRunFails(s', steps[1..]);
      FailuresAddUp(s, s', Exec(s', steps[1..]));
    }
  }

  lemma EndsOnOwn(t: State)
    requires RunInv(t) && OnlyOwn(t) && t.issued != [] && EndsBy(t, |t.issued| - 1) && CanSucceed(t, |t.issued| - 1)
    ensures |t.results| == |t.issued| && t.responses[0] == t.results[|t.issued| - 1] && t.responses[0].success
  {
    ResponseAt(t, 0);
    KeptArePicks(t.results, t.kept);
  }

  /** The waiting call's own request has succeeded, and the next poll takes its response. */
  ghost predicate AtSuccess(t: State) {
    && RunInv(t) && t.sdk.Waiting? && Enabled(t, Poll(false)) && t.issued != []
    && |t.results| == |t.issued| && t.results[|t.issued| - 1].success
    && t.responses != [] && t.responses[0] == t.results[|t.issued| - 1] && Ends(t.sdk.call, t.responses[0])
  }

  function OwnHandle(t: State): (h: nat)
    requires t.results != []
  {
    t.results[|t.results| - 1].handle
  }

  lemma SuccessIsReturned(s: State, t: State)
    requires Reaches(s, t) && StillWaits(s, t) && AtSuccess(t)
    ensures var u := Apply(t, Poll(false));
      && Reaches(s, u) && u.issued == s.issued && ReturnsSuccess(s, u, OwnHandle(t))
      && u.held == if s.sdk.call.AllocCall? then s.held + {OwnHandle(t)} else s.held
  {
    ReachStep(s, t, Poll(false));
  }

  /** A call that waits under a clear id, whose own request can succeed, gets to its success. */
  lemma OwnRequestSucceeds(s: State) returns (t: State)
    requires RunInv(s) && OnlyOwn(s) && s.sdk.Waiting? && s.sdk.polls == POLLS && s.issued != []
    requires |s.kept| < |s.issued| && s.issued[|s.issued| - 1].id == s.sdk.call.id && CanSucceed(s, |s.issued| - 1)
    ensures Reaches(s, t) && StillWaits(s, t) && AtSuccess(t)
    ensures Careful(s) ==> Careful(t)
  {
    CallMayEnd(s);
    t := GetsEnded(s, |s.issued| - 1);
    EndsOnOwn(t);
  }

  lemma CallMayEnd(s: State)
    requires RunInv(s) && s.sdk.Waiting? && s.sdk.polls == POLLS && s.issued != []
    requires |s.kept| < |s.issued| && s.issued[|s.issued| - 1].id == s.sdk.call.id && CanSucceed(s, |s.issued| - 1)
    ensures MayEndOn(s, |s.issued| - 1)
  {
    LiveCount(s);
  }

  lemma LiveCount(s: State)
    requires RunInv(s)
    ensures |s.responses| <= BUS_ROOM && |s.issued| - |s.kept| <= BUS_ROOM + 2
  {
    assert |s.issued[|s.results|..]| == |InHand(s.worker)| + |s.requests|;
  }

  /** The request that a call is about to send can succeed: an allocation, if a slot is free or a FREE
      before it makes one free; an upload, if its handle is in range. */
  ghost predicate WillHaveAChance(s: State, call: Call) {
    match call
    case AllocCall(_, _) => (ValidPool(s.world.pool) && HasFreeSlot(s.world.pool)) || FreesBefore(s, |s.issued|)
    case UploadCall(_, handle, _) => 0 < handle < SLOTS
  }

  lemma SameFreesBefore(s: State, s': State, call: Call)
    requires Sent(s, s', call)
    ensures FreesBefore(s', |s.issued|) <==> FreesBefore(s, |s.issued|)
  {
    var n := |s.issued|;
    if FreesBefore(s, n) {
      var m :| |s.results| <= m < n && s.issued[m].kind == Free && 0 < s.issued[m].handle < SLOTS;
      assert s'.issued[m] == s.issued[m];
    }
    if FreesBefore(s', n) {
      var m :| |s'.results| <= m < n && s'.issued[m].kind == Free && 0 < s'.issued[m].handle < SLOTS;
      assert s'.issued[m] == s.issued[m];
    }
  }

  lemma ChanceOfOwn(s: State, s': State, call: Call)
    requires LineInv(s) && LineInv(s') && Sent(s, s', call)
    ensures CanSucceed(s', |s.issued|) <==> WillHaveAChance(s, call)
    ensures |s'.kept| < |s'.issued| && s'.issued[|s.issued|] == RequestOf(call)
  {
    SameFreesBefore(s, s', call);
    OwnIsBehind(s, s', call);
  }

  /** What is sent is not yet in the worker's hands. */
  lemma OwnIsBehind(s: State, s': State, call: Call)
    requires LineInv(s) && LineInv(s') && Sent(s, s', call)
    ensures InHand(s'.worker) != [] ==> |s'.results| < |s.issued|
  {
    if InHand(s.worker) != [] {
      NextInLine(s);
    }
  }

  /** The step that sends a call's request. */
  ghost predicate Sends(s: State, step: Step, call: Call) {
    (step == CallAllocate(call.id, RequestOf(call).size, false) && call.AllocCall?)
    || (step == SendUpload(call.id, false) && s.sdk.Staging? && call == UploadCall(call.id, s.sdk.handle, s.sdk.data))
  }

  /** A call's request has just been sent under a clear id. */
  ghost predicate JustSent(s: State, s': State, call: Call) {
    RunInv(s) && RunInv(s') && Sent(s, s', call) && OnlyOwn(s')
  }

  lemma SendingIsSent(s: State, step: Step, call: Call)
    requires RunInv(s) && Enabled(s, step) && Sends(s, step, call) && |s.requests| < BUS_ROOM && !Outstanding(s, call.id)
    ensures JustSent(s, Apply(s, step), call)
  {
    StepKeepsRun(s, step);
    StepKeepsOnlyOwn(s, step);
  }

  lemma WithAChance(s: State, s': State, call: Call) returns (t: State)
    requires JustSent(s, s', call) && WillHaveAChance(s, call)
    ensures Reaches(s', t) && StillWaits(s', t) && AtSuccess(t) && (Careful(s') ==> Careful(t))
  {
    ChanceOfOwn(s, s', call);
    t := OwnRequestSucceeds(s');
  }

  lemma WithoutAChance(s: State, s': State, call: Call)
    requires JustSent(s, s', call) && !WillHaveAChance(s, call)
    ensures !CanReturnSuccess(s')
  {
    ChanceOfOwn(s, s', call);
    forall u, h | Reaches(s', u) && u.issued == s'.issued ensures !ReturnsSuccess(s', u, h) {
      var steps :| Legal(s', steps) && Exec(s', steps) == u;
      HopelessRunFails(s', steps);
      FailureIsNoSuccess(s', u, h);
    }
  }

  lemma FailureIsNoSuccess(s: State, t: State, h: nat)
    requires OnlyFailures(s, t)
    ensures !ReturnsSuccess(s, t, h)
  {
    assert |t.finished| > |s.finished| ==> !t.finished[|s.finished|].success;
  }

  /** Exactly when a call can succeed: a call that draws a clear id can return success in some
      continuation if and only if its request has a chance on the pool. */
  lemma CallSucceedsExactlyWhen(i: State, s: State, step: Step, call: Call)
    requires IsInit(i) && Reaches(i, s) && Enabled(s, step) && Sends(s, step, call)
    requires |s.requests| < BUS_ROOM && !Outstanding(s, call.id)
    ensures CanReturnSuccess(Apply(s, step)) <==> WillHaveAChance(s, call)
  {
    var before :| Legal(i, before) && Exec(i, before) == s;
    InitReaches(i, s, before);
    var s' := Apply(s, step);
    SendingIsSent(s, step, call);
    if WillHaveAChance(s, call) {
      var t := WithAChance(s, s', call);
      SuccessIsReturned(s', t);
    } else {
      WithoutAChance(s, s', call);
    }
  }

  /** A careful plugin's allocation with a chance. */
  lemma CarefulAllocation(s: State, id: nat, size: nat) returns (t: State)
    requires RunInv(s) && Careful(s) && Enabled(s, CallAllocate(id, size, false)) && |s.requests| < BUS_ROOM
    requires !Outstanding(s, id) && WillHaveAChance(s, AllocCall(id, size))
    ensures var s' := Apply(s, CallAllocate(id, size, false));
      && Sent(s, s', AllocCall(id, size)) && Reaches(s', t) && StillWaits(s', t) && AtSuccess(t)
      && Careful(t) && Careful(Apply(t, Poll(false)))
  {
    var step := CallAllocate(id, size, false);
    SendingIsSent(s, step, AllocCall(id, size));
    StepKeepsInv(s, step);
    StepKeepsOwner(s, step);
    t := WithAChance(s, Apply(s, step), AllocCall(id, size));
    QuietPluginKeeps(t, Poll(false));
  }

  lemma CarefulRun(i: State, steps: seq<Step>)
    requires IsInit(i) && Legal(i, steps) && ClearIds(i, steps) && OwnFrees(i, steps)
    ensures RunInv(Exec(i, steps)) && Careful(Exec(i, steps))
  {
    FreshWorldIsDisjoint();
    MemoryCalls.RunKeepsInv(i, steps);
    RunKeepsOwner(i, steps);
    InitReaches(i, Exec(i, steps), steps);
  }

  /** The allocation `call`, sent in s, has returned a new handle in u. */
  ghost predicate YieldsNewHandle(s: State, u: State, call: Call, h: nat) {
    && u.finished == s.finished + [Return(call, |s.issued|, true, h)]
    && h !in s.held && u.held == s.held + {h}
    && 0 < h < SLOTS && ValidPool(u.world.pool) && u.world.pool.active[h]
    && call.AllocCall? && u.world.pool.size[h] == call.size
  }

  lemma SuccessYieldsNewHandle(s: State, s': State, t: State, call: Call)
    requires Sent(s, s', call) && call.AllocCall? && s'.finished == s.finished && s'.held == s.held
    requires Reaches(s', t) && StillWaits(s', t) && AtSuccess(t) && Careful(t) && Careful(Apply(t, Poll(false)))
    ensures Reaches(s', Apply(t, Poll(false))) && YieldsNewHandle(s, Apply(t, Poll(false)), call, OwnHandle(t))
  {
    SuccessIsReturned(s', t);
    NewHandleIsLive(t, Apply(t, Poll(false)), OwnHandle(t));
  }

  /** What allocate_vram is for: as long as the plugin follows the rules for ids and handles, a call with
      room on the bus and a chance on the pool has a continuation in which it returns a handle that is
      live, of the size asked for, and new to the plugin, which holds it from then on. */
  lemma AllocationYieldsNewHandle(i: State, steps: seq<Step>, id: nat, size: nat) returns (u: State, h: nat)
    requires IsInit(i) && Legal(i, steps) && ClearIds(i, steps) && OwnFrees(i, steps)
    requires var s := Exec(i, steps);
      && Enabled(s, CallAllocate(id, size, false)) && |s.requests| < BUS_ROOM
      && !Outstanding(s, id) && WillHaveAChance(s, AllocCall(id, size))
    ensures var s := Exec(i, steps);
      && Reaches(Apply(s, CallAllocate(id, size, false)), u) && YieldsNewHandle(s, u, AllocCall(id, size), h)
  {
    var s := Exec(i, steps);
    CarefulRun(i, steps);
    var t := CarefulAllocation(s, id, size);
    SuccessYieldsNewHandle(s, Apply(s, CallAllocate(id, size, false)), t, AllocCall(id, size));
    u, h := Apply(t, Poll(false)), OwnHandle(t);
  }

  lemma NewHandleIsLive(t: State, u: State, h: nat)
    requires Careful(t) && Careful(u) && t.sdk.Waiting? && t.sdk.call.AllocCall? && h in u.held
    requires |t.results| == |t.issued| && t.issued != [] && t.results[|t.issued| - 1].success && t.results[|t.issued| - 1].handle == h
    requires u.world == t.world
    ensures h !in t.held && 0 < h < SLOTS && ValidPool(u.world.pool) && u.world.pool.active[h]
    ensures u.world.pool.size[h] == t.sdk.call.size
  {
  }

  // ---- Freeing ----

  /** How far the worker is from finishing the next request. */
  function Distance(w: WorkerPc): (n: nat) {
    match w
    case Replying(_) => 3
    case Ready => 2
    case Busy(_) => 1
    case Copying(_, _) => 0
  }

  /** The worker's next step towards finishing the next request. */
  function ServingStep(w: WorkerPc): (step: Step) {
    match w
    case Replying(_) => Reply(false)
    case Ready => Take
    case Busy(_) => Execute(false)
    case Copying(req, got) => if |got| == req.size then FinishCopy else CopyByte
  }

  lemma ServingStepOn(s: State)
    requires RunInv(s) && |s.results| < |s.issued|
    ensures Enabled(s, ServingStep(s.worker))
    ensures var s' := Apply(s, ServingStep(s.worker));
      && RunInv(s') && s'.issued == s.issued
      && if |s'.results| > |s.results| then |s'.results| == |s.results| + 1
         else
           && s'.results == s.results
           && (Distance(s'.worker) < Distance(s.worker)
               || (Distance(s'.worker) == Distance(s.worker) && 0 <= BytesLeft(s'.worker) < BytesLeft(s.worker)))
  {
    PoolIsValid(s);
    assert s.issued[|s.results|..] == InHand(s.worker) + s.requests;
    if InHand(s.worker) != [] {
      NextInLine(s);
    }
    StepKeepsRun(s, ServingStep(s.worker));
  }

  /** Finishing a FREE makes its handle dead. */
  lemma FreeFinishes(s: State)
    requires RunInv(s) && |s.results| < |s.issued| && s.issued[|s.results|].kind == Free
    requires Enabled(s, ServingStep(s.worker)) && |Apply(s, ServingStep(s.worker)).results| > |s.results|
    ensures var s' := Apply(s, ServingStep(s.worker)); var h := s.issued[|s.results|].handle;
      ValidPool(s'.world.pool) && (h < SLOTS ==> !s'.world.pool.active[h])
  {
    PoolIsValid(s);
    NextInLine(s);
    FreeExactly(s.world, s.worker.req.handle);
  }

  /** The worker gets to the n-th request, a FREE, and carries it out. */
  lemma {:induction false} FreeIsCarriedOut(s: State, n: nat) returns (t: State)
    requires RunInv(s) && |s.results| <= n < |s.issued| && s.issued[n].kind == Free
    ensures Reaches(s, t) && t.issued == s.issued && |t.results| == n + 1
    ensures ValidPool(t.world.pool) && (s.issued[n].handle < SLOTS ==> !t.world.pool.active[s.issued[n].handle])
    decreases |s.issued| - |s.results|, Distance(s.worker), BytesLeft(s.worker)
  {
    ServingStepOn(s);
    var step := ServingStep(s.worker);
    var s' := Apply(s, step);
    if |s'.results| == n + 1 && |s.results| == n {
      FreeFinishes(s);
      t := s';
      Here(t);
    } else {
      t := FreeIsCarriedOut(s', n);
    }
    FirstStep(s, step, t);
  }

  /** What free_vram is for: with room on the bus, the call has a continuation in which the worker has
      carried it out, and then the handle is dead. */
  lemma FreeTakesEffect(i: State, s: State, h: nat) returns (t: State)
    requires IsInit(i) && Reaches(i, s) && Enabled(s, CallFree(h, false)) && |s.requests| < BUS_ROOM && h < SLOTS
    ensures var s' := Apply(s, CallFree(h, false));
      && Reaches(s', t) && t.issued == s.issued + [Request(0, Free, 0, h)] && |t.results| == |t.issued|
      && ValidPool(t.world.pool) && !t.world.pool.active[h]
  {
    var before :| Legal(i, before) && Exec(i, before) == s;
    InitReaches(i, s, before);
    StepKeepsRun(s, CallFree(h, false));
    t := FreeIsCarriedOut(Apply(s, CallFree(h, false)), |s.issued|);
  }
}
