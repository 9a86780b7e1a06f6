/** Exactly when a memory call can be fooled: when it can end on the response to another request. */
module MemoryFooling {
  import opened Bits
  import opened HandlePool
  import opened MemoryBus
  import opened MemoryCalls
  import opened Selection

  ghost predicate Reaches(s: State, t: State) {
    exists steps :: Legal(s, steps) && Exec(s, steps) == t
  }

  lemma {:induction false} OneMoreStep(s: State, steps: seq<Step>, step: Step)
    requires Legal(s, steps) && Enabled(Exec(s, steps), step)
    ensures Legal(s, steps + [step]) && Exec(s, steps + [step]) == Apply(Exec(s, steps), step)
    decreases |steps|
  {
    if steps == [] {
      assert ([] + [step])[1..] == [];
      assert Legal(Apply(s, step), []);
    } else {
      assert (steps + [step])[1..] == steps[1..] + [step];
      OneMoreStep(Apply(s, steps[0]), steps[1..], step);
    }
  }

  lemma ReachStep(s: State, t: State, step: Step)
    requires Reaches(s, t) && Enabled(t, step)
    ensures Reaches(s, Apply(t, step))
  {
    var steps :| Legal(s, steps) && Exec(s, steps) == t;
    OneMoreStep(s, steps, step);
  }

  lemma FirstStep(s: State, step: Step, t: State)
    requires Enabled(s, step) && Reaches(Apply(s, step), t)
    ensures Reaches(s, t)
  {
    var rest :| Legal(Apply(s, step), rest) && Exec(Apply(s, step), rest) == t;
    assert ([step] + rest)[1..] == rest;
    assert Legal(s, [step] + rest) && Exec(s, [step] + rest) == t;
  }

  lemma Here(s: State)
    ensures Reaches(s, s)
  {
    assert Legal(s, []) && Exec(s, []) == s;
  }

  /** The next poll ends the waiting call on the response to an earlier request. */
  ghost predicate Fooled(t: State) {
    && Enabled(t, Poll(false)) && t.responses != [] && Ends(t.sdk.call, t.responses[0])
    && |t.popped| < |Picks(t.kept)| && Picks(t.kept)[|t.popped|] != |t.issued| - 1
  }

  ghost predicate RunInv(s: State) {
    LineInv(s) && ReplayInv(s) && SizesInv(s)
  }

  lemma StepKeepsRun(s: State, step: Step)
    requires RunInv(s) && Enabled(s, step)
    ensures RunInv(Apply(s, step))
  {
    StepKeepsLine(s, step);
    StepKeepsSizes(s, step);
  }

  lemma {:induction false} InitReaches(i: State, s: State, steps: seq<Step>)
    requires RunInv(i) && Legal(i, steps) && Exec(i, steps) == s
    ensures RunInv(s)
    decreases |steps|
  {
    if steps != [] {
      StepKeepsRun(i, steps[0]);
      InitReaches(Apply(i, steps[0]), s, steps[1..]);
    }
  }

  lemma IssuedKept(s: State, step: Step)
    requires Enabled(s, step)
    ensures s.issued <= Apply(s, step).issued
  {
  }

  lemma {:induction false} IssuedGrows(s: State, steps: seq<Step>)
    requires Legal(s, steps)
    ensures s.issued <= Exec(s, steps).issued
    decreases |steps|
  {
    if steps != [] {
      IssuedKept(s, steps[0]);
      IssuedGrows(Apply(s, steps[0]), steps[1..]);
    }
  }

  /** Some continuation ends the call just sent on the response to an earlier request. (A later
      request would show in `issued`.) */
  ghost predicate CanBeFooled(s: State) {
    exists t :: Reaches(s, t) && t.issued == s.issued && Fooled(t)
  }

  // ---- Which requests can still succeed ----

  /** Some request before the n-th will free a slot when it is served. */
  ghost predicate FreesBefore(s: State, n: nat)
    requires n <= |s.issued|
  {
    exists m :: |s.results| <= m < n && s.issued[m].kind == Free && 0 < s.issued[m].handle < SLOTS
  }

  /** The n-th request has succeeded, or still can: a FREE always does; an upload in the worker's hands
      needs a live handle, and one still to come only a handle that some claim may make live by then; an
      allocation needs a free slot, or a FREE before it that makes one. */
  ghost predicate CanSucceed(s: State, n: nat)
    requires LineInv(s) && n < |s.issued|
  {
    if n < |s.results| then s.results[n].success
    else
      match s.issued[n].kind
      case Free => true
      case Upload =>
        if n == |s.results| && InHand(s.worker) != []
        then ValidPool(s.world.pool) && Usable(s.world.pool, s.issued[n].handle)
        else 0 < s.issued[n].handle < SLOTS
      case Allocate => (ValidPool(s.world.pool) && HasFreeSlot(s.world.pool)) || FreesBefore(s, n)
  }

  lemma PoolIsValid(s: State)
    requires LineInv(s) && ReplayInv(s)
    ensures ValidPool(s.world.pool)
  {
  }

  /** Nothing but a FREE makes a slot free. */
  lemma OnlyFreeMakesRoom(w: World, act: Act)
    requires ValidPool(w.pool) && !HasFreeSlot(w.pool) && HasFreeSlot(Do(w, act).pool)
    ensures act.PluginFree? && 0 < act.handle < SLOTS
  {
    var h :| 1 <= h < SLOTS && !Do(w, act).pool.active[h];
    assert w.pool.active[h];
  }

  /** Serving a request settles whether it succeeded. */
  lemma FinishedCouldSucceed(s: State, deviceOk: bool, copy: seq<Byte>, n: nat)
    requires RunInv(s) && InHand(s.worker) != [] && n < |s.issued|
    requires LineInv(Finish(s, FromBus(s.worker.req, deviceOk), copy))
    requires CanSucceed(Finish(s, FromBus(s.worker.req, deviceOk), copy), n)
    ensures CanSucceed(s, n)
  {
    PoolIsValid(s);
    NextInLine(s);
    var s', req, m := Finish(s, FromBus(s.worker.req, deviceOk), copy), s.worker.req, |s.results|;
    if n == m {
      if req.kind == Allocate {
        ClaimTakes(s.world.pool, req.size, deviceOk);
      }
    } else if n > m && s.issued[n].kind == Allocate {
      if FreesBefore(s', n) {
        var k :| |s'.results| <= k < n && s'.issued[k].kind == Free && 0 < s'.issued[k].handle < SLOTS;
        assert FreesBefore(s, n);
      } else if !HasFreeSlot(s.world.pool) {
        if req.kind == Allocate {
          OnlyFreeMakesRoom(s.world, PluginAlloc(req.size, deviceOk));
        } else if req.kind == Free {
          OnlyFreeMakesRoom(s.world, PluginFree(req.handle));
          assert s.issued[m].kind == Free && 0 < s.issued[m].handle < SLOTS;
        }
      }
    }
  }

  lemma ElsewhereCouldSucceed(s: State, act: Act, n: nat)
    requires RunInv(s) && Enabled(s, Elsewhere(act)) && n < |s.issued|
    requires LineInv(Apply(s, Elsewhere(act))) && CanSucceed(Apply(s, Elsewhere(act)), n)
    ensures CanSucceed(s, n)
  {
    var s' := Apply(s, Elsewhere(act));
    if n >= |s.results| && s.issued[n].kind == Allocate && !HasFreeSlot(s.world.pool) {
      if HasFreeSlot(s'.world.pool) {
        OnlyFreeMakesRoom(s.world, act);
      }
      assert FreesBefore(s', n);
      var k :| |s'.results| <= k < n && s'.issued[k].kind == Free && 0 < s'.issued[k].handle < SLOTS;
      assert FreesBefore(s, n);
    }
  }

  /** Steps that serve nothing and leave the pool alone. */
  lemma QuietCouldSucceed(s: State, s': State, n: nat)
    requires LineInv(s) && LineInv(s') && n < |s.issued| && s.issued <= s'.issued && s'.results == s.results && s'.world == s.world
    requires InHand(s.worker) != [] ==> InHand(s'.worker) != []
    requires CanSucceed(s', n)
    ensures CanSucceed(s, n)
  {
    if n >= |s.results| && s.issued[n].kind == Allocate && FreesBefore(s', n) {
      var k :| |s'.results| <= k < n && s'.issued[k].kind == Free && 0 < s'.issued[k].handle < SLOTS;
      assert FreesBefore(s, n);
    }
  }

  /** The step neither finishes a request nor uses the pool otherwise. */
  predicate IsQuiet(s: State, step: Step) {
    !step.FinishCopy? && !step.Elsewhere?
    && (step.Execute? ==>
          s.worker.Busy? && ValidPool(s.world.pool)
          && s.worker.req.kind == Upload && Usable(s.world.pool, s.worker.req.handle) && step.deviceOk)
  }

  lemma QuietStep(s: State, step: Step)
    requires Enabled(s, step) && IsQuiet(s, step)
    ensures var s' := Apply(s, step);
      && s.issued <= s'.issued && s'.results == s.results && s'.world == s.world
      && (InHand(s.worker) != [] ==> InHand(s'.worker) != [])
  {
  }

  /** A chance to succeed never comes up anew. */
  lemma ChancesOnlyShrink(s: State, step: Step, n: nat)
    requires RunInv(s) && Enabled(s, step) && n < |s.issued| && LineInv(Apply(s, step))
    requires n < |Apply(s, step).issued| && CanSucceed(Apply(s, step), n)
    ensures CanSucceed(s, n)
  {
    PoolIsValid(s);
    if IsQuiet(s, step) {
      QuietStep(s, step);
      QuietCouldSucceed(s, Apply(s, step), n);
    } else if step.FinishCopy? {
      FinishedCouldSucceed(s, true, s.worker.got, n);
    } else if step.Execute? {
      FinishedCouldSucceed(s, step.deviceOk, [], n);
    } else {
      ElsewhereCouldSucceed(s, step.act, n);
    }
  }

  // ---- Calls that cannot be fooled ----

  /** May the response to the n-th request end this call? An upload ends on any response of its id. */
  ghost predicate CanEnd(s: State, call: Call, n: nat)
    requires LineInv(s) && n < |s.issued|
  {
    s.issued[n].id == call.id && (call.AllocCall? ==> CanSucceed(s, n))
  }

  /** While a call waits, the response to no earlier request can end it. */
  ghost predicate Safe(s: State)
    requires LineInv(s)
  {
    s.sdk.Waiting? ==> forall n | 0 <= n < |s.issued| - 1 && Live(s, n) :: !CanEnd(s, s.sdk.call, n)
  }

  lemma SafeIsNotFooled(s: State)
    requires LineInv(s) && Safe(s)
    ensures !Fooled(s)
  {
    if Fooled(s) {
      ResponseAt(s, 0);
      KeptArePicks(s.results, s.kept);
    }
  }

  /** A call goes on waiting, and none starts to, unless a request is sent. */
  lemma WaitsForSame(s: State, step: Step)
    requires Enabled(s, step) && Apply(s, step).issued == s.issued && Apply(s, step).sdk.Waiting?
    ensures s.sdk.Waiting? && Apply(s, step).sdk.call == s.sdk.call
  {
  }

  lemma StillCannotEnd(s: State, step: Step, n: nat)
    requires RunInv(s) && Safe(s) && Enabled(s, step) && Apply(s, step).issued == s.issued && LineInv(Apply(s, step))
    requires Apply(s, step).sdk.Waiting? && n < |s.issued| - 1 && Live(Apply(s, step), n)
    ensures !CanEnd(Apply(s, step), Apply(s, step).sdk.call, n)
  {
    WaitsForSame(s, step);
    OnlySendingMakesLive(s, step, n);
    assert !CanEnd(s, s.sdk.call, n);
    if CanSucceed(Apply(s, step), n) {
      ChancesOnlyShrink(s, step, n);
    }
  }

  lemma UnsentStepKeepsSafe(s: State, step: Step)
    requires RunInv(s) && Safe(s) && Enabled(s, step) && Apply(s, step).issued == s.issued
    ensures RunInv(Apply(s, step)) && Safe(Apply(s, step))
  {
    var s' := Apply(s, step);
    StepKeepsRun(s, step);
    if s'.sdk.Waiting? {
      forall n | 0 <= n < |s'.issued| - 1 && Live(s', n) ensures !CanEnd(s', s'.sdk.call, n) {
        StillCannotEnd(s, step, n);
      }
    }
  }

  lemma {:induction false} NeverFooled(s: State, steps: seq<Step>)
    requires RunInv(s) && Safe(s) && Legal(s, steps) && Exec(s, steps).issued == s.issued
    ensures !Fooled(Exec(s, steps))
    decreases |steps|
  {
    if steps == [] {
      SafeIsNotFooled(s);
    } else {
      var s' := Apply(s, steps[0]);
      IssuedKept(s, steps[0]);
      IssuedGrows(s', steps[1..]);
      UnsentStepKeepsSafe(s, steps[0]);
      NeverFooled(s', steps[1..]);
    }
  }

  // ---- Calls that can ----

  /** A call waits, and the n-th request is live and can end it; there are polls enough to take every
      response before it. */
  ghost predicate MayEndOn(s: State, n: nat) {
    && RunInv(s) && s.sdk.Waiting? && n < |s.issued| && Live(s, n) && CanEnd(s, s.sdk.call, n)
    && s.sdk.polls > |s.responses| + |s.issued| - |s.kept|
  }

  /** The next poll ends the call, on the response to the n-th request or one before it. */
  ghost predicate EndsBy(t: State, n: nat) {
    && Enabled(t, Poll(false)) && t.responses != [] && Ends(t.sdk.call, t.responses[0])
    && |t.popped| < |Picks(t.kept)| && Picks(t.kept)[|t.popped|] <= n
  }

  lemma HeadEnds(s: State, n: nat)
    requires MayEndOn(s, n) && s.responses != [] && Ends(s.sdk.call, s.responses[0])
    ensures EndsBy(s, n)
  {
    KeptArePicks(s.results, s.kept);
    ResponseAt(s, 0);
  }

  /** The call goes on waiting, and nothing has been sent, returned or freed. */
  ghost predicate StillWaits(s: State, t: State) {
    && t.issued == s.issued && s.sdk.Waiting? && t.sdk.Waiting? && t.sdk.call == s.sdk.call
    && t.finished == s.finished && t.held == s.held
  }

  lemma PollPassesOver(s: State, n: nat)
    requires MayEndOn(s, n) && s.responses != [] && !Ends(s.sdk.call, s.responses[0])
    ensures var s' := Apply(s, Poll(false));
      && MayEndOn(s', n) && StillWaits(s, s') && (CanSucceed(s, n) ==> CanSucceed(s', n))
      && s'.kept == s.kept && s'.worker == s.worker && s'.world == s.world && |s'.responses| < |s.responses|
  {
    ResponseAt(s, 0);
    KeptArePicks(s.results, s.kept);
    StepKeepsRun(s, Poll(false));
    ChanceKept(s, Apply(s, Poll(false)), n);
  }

  /** Steps that serve nothing and leave the pool alone keep the chances, too. */
  lemma ChanceKept(s: State, s': State, n: nat)
    requires LineInv(s) && LineInv(s') && n < |s.issued| && s'.issued == s.issued && s'.results == s.results && s'.world == s.world
    requires InHand(s'.worker) != [] && n == |s.results| && s.issued[n].kind == Upload && 0 < s.issued[n].handle < SLOTS ==>
      InHand(s.worker) != [] || (ValidPool(s.world.pool) && Usable(s.world.pool, s.issued[n].handle))
    requires InHand(s.worker) != [] ==> InHand(s'.worker) != []
    ensures CanSucceed(s, n) ==> CanSucceed(s', n)
  {
    if n >= |s.results| && s.issued[n].kind == Allocate && FreesBefore(s, n) {
      var k :| |s.results| <= k < n && s.issued[k].kind == Free && 0 < s.issued[k].handle < SLOTS;
      assert FreesBefore(s', n);
    }
  }

  /** How far the worker is from replying to the request it will serve next. */
  function Phase(w: WorkerPc): (n: nat) {
    match w
    case Ready => 3
    case Busy(_) => 2
    case Copying(_, _) => 1
    case Replying(_) => 0
  }

  function BytesLeft(w: WorkerPc): (n: int) {
    if w.Copying? then w.req.size - |w.got| else 0
  }

  function FreeSlots(w: World): (n: int) {
    SLOTS - Count(w.pool.active)
  }

  /** The n-th request is an upload that is next in line and whose handle is not live yet. */
  ghost predicate NeedsClaim(s: State, n: nat)
    requires RunInv(s) && n < |s.issued|
  {
    PoolIsValid(s);
    s.worker.Ready? && n == |s.results| && s.issued[n].kind == Upload
    && 0 < s.issued[n].handle < SLOTS && !Usable(s.world.pool, s.issued[n].handle)
  }

  /** The worker's next step on the way to a success of the n-th request: it lets everything before
      fail, and imports the segment until an upload's handle is live. */
  ghost function Toward(s: State, n: nat): (step: Step)
    requires RunInv(s) && n < |s.issued|
  {
    match s.worker
    case Replying(_) => Reply(false)
    case Ready => if NeedsClaim(s, n) then Elsewhere(SetBypass(true, 0, 0, true)) else Take
    case Busy(_) => Execute(n == |s.results|)
    case Copying(req, got) => if |got| == req.size then FinishCopy else CopyByte
  }

  lemma TowardIsEnabled(s: State, n: nat)
    requires RunInv(s) && |s.kept| <= n < |s.issued|
    ensures Enabled(s, Toward(s, n))
  {
    PoolIsValid(s);
    if s.worker.Copying? {
      NextInLine(s);
    }
  }

  /** Serving the n-th request with a working device turns its chance into success. */
  lemma FinishSucceeds(s: State, copy: seq<Byte>)
    requires RunInv(s) && InHand(s.worker) != [] && |s.results| < |s.issued| && CanSucceed(s, |s.results|)
    requires s.worker.Busy? ==> !(s.worker.req.kind == Upload && Usable(s.world.pool, s.worker.req.handle))
    requires LineInv(Finish(s, FromBus(s.worker.req, true), copy))
    ensures CanSucceed(Finish(s, FromBus(s.worker.req, true), copy), |s.results|)
  {
    PoolIsValid(s);
    NextInLine(s);
    if s.worker.req.kind == Allocate {
      ClaimTakes(s.world.pool, s.worker.req.size, true);
    }
  }

  /** What becomes of the pool when a request is served without success. */
  lemma FailingKeepsRoom(w: World, req: Request, deviceOk: bool)
    requires ValidPool(w.pool) && (req.kind == Allocate ==> !deviceOk)
    ensures var w' := RunJob(w, FromBus(req, deviceOk)).0;
      && (HasFreeSlot(w.pool) ==> HasFreeSlot(w'.pool))
      && (req.kind == Free && 0 < req.handle < SLOTS ==> HasFreeSlot(w'.pool))
  {
    var w' := RunJob(w, FromBus(req, deviceOk)).0;
    if HasFreeSlot(w.pool) {
      var h :| 1 <= h < SLOTS && !w.pool.active[h];
      assert !w'.pool.active[h];
    }
    if req.kind == Free && 0 < req.handle < SLOTS {
      assert !w'.pool.active[req.handle];
    }
  }

  lemma OtherFreesRemain(s: State, s': State, n: nat)
    requires |s.results| < n < |s.issued| && s'.issued == s.issued && |s'.results| == |s.results| + 1 && FreesBefore(s, n)
    requires s.issued[|s.results|].kind == Free ==> !(0 < s.issued[|s.results|].handle < SLOTS)
    ensures FreesBefore(s', n)
  {
  }

  /** A request served without success, in terms of what it does to the state. */
  ghost predicate Failed(s: State, s': State) {
    && s'.issued == s.issued && |s'.results| == |s.results| + 1 && s.results <= s'.results && InHand(s'.worker) == []
    && ValidPool(s.world.pool) && ValidPool(s'.world.pool) && (HasFreeSlot(s.world.pool) ==> HasFreeSlot(s'.world.pool))
    && (|s.results| < |s.issued| && s.issued[|s.results|].kind == Free && 0 < s.issued[|s.results|].handle < SLOTS
        ==> HasFreeSlot(s'.world.pool))
  }

  lemma FinishIsFailed(s: State, deviceOk: bool, copy: seq<Byte>)
    requires RunInv(s) && InHand(s.worker) != [] && (s.worker.req.kind == Allocate ==> !deviceOk)
    ensures ValidPool(s.world.pool) && Failed(s, Finish(s, FromBus(s.worker.req, deviceOk), copy))
  {
    PoolIsValid(s);
    NextInLine(s);
    FailingKeepsRoom(s.world, s.worker.req, deviceOk);
  }

  /** It keeps the chance of every later request. */
  lemma FailedKeepsChance(s: State, s': State, n: nat)
    requires LineInv(s) && LineInv(s') && Failed(s, s') && |s.results| < n < |s.issued| && CanSucceed(s, n)
    ensures CanSucceed(s', n)
  {
    if s.issued[n].kind == Allocate && !HasFreeSlot(s'.world.pool) {
      OtherFreesRemain(s, s', n);
    }
  }

  lemma FinishKeepsChance(s: State, deviceOk: bool, copy: seq<Byte>, n: nat)
    requires RunInv(s) && InHand(s.worker) != [] && |s.results| <= n < |s.issued| && CanSucceed(s, n)
    requires s.worker.Busy? ==>
      deviceOk == (n == |s.results|)
      && !(s.worker.req.kind == Upload && Usable(s.world.pool, s.worker.req.handle) && deviceOk)
    requires s.worker.Copying? ==> deviceOk
    requires LineInv(Finish(s, FromBus(s.worker.req, deviceOk), copy))
    ensures CanSucceed(Finish(s, FromBus(s.worker.req, deviceOk), copy), n)
  {
    if n == |s.results| {
      FinishSucceeds(s, copy);
    } else {
      FinishIsFailed(s, deviceOk, copy);
      FailedKeepsChance(s, Finish(s, FromBus(s.worker.req, deviceOk), copy), n);
    }
  }

  /** Closer to the reply to the n-th request. */
  ghost predicate Closer(s: State, s': State) {
    |s'.kept| > |s.kept| || (|s'.kept| == |s.kept| && s'.responses == [] && CloserPhase(s, s'))
  }

  ghost predicate CloserPhase(s: State, s': State) {
    || Phase(s'.worker) < Phase(s.worker)
    || (Phase(s'.worker) == Phase(s.worker) && 0 <= FreeSlots(s'.world) < FreeSlots(s.world))
    || (Phase(s'.worker) == Phase(s.worker) && s'.world == s.world && 0 <= BytesLeft(s'.worker) < BytesLeft(s.worker))
  }

  lemma ClaimFillsSlot(w: World, h: nat)
    requires ValidPool(w.pool) && 0 < h < SLOTS && !w.pool.active[h]
    ensures var w' := Do(w, SetBypass(true, 0, 0, true)); 0 <= FreeSlots(w') < FreeSlots(w)
  {
    ClaimTakes(w.pool, 0, true);
    ClaimCounts(w.pool, 0);
  }

  lemma ServingIsCloser(s: State, n: nat, step: Step)
    requires RunInv(s) && |s.kept| <= n < |s.issued| && s.responses == [] && Enabled(s, step)
    requires step == Toward(s, n)
    ensures var s' := Apply(s, step);
      && Closer(s, s') && s'.sdk == s.sdk && s'.issued == s.issued && s'.popped == s.popped
      && s'.finished == s.finished && s'.held == s.held
      && |s'.responses| - |s'.kept| == -|s.kept|
      && (if step.Reply? then s'.kept == s.kept + [true] else s'.kept == s.kept)
  {
    PoolIsValid(s);
    if s.worker.Ready? && NeedsClaim(s, n) {
      ClaimFillsSlot(s.world, s.issued[n].handle);
    }
  }

  lemma ServingKeepsChance(s: State, n: nat, step: Step)
    requires RunInv(s) && |s.kept| <= n < |s.issued| && s.responses == [] && Enabled(s, step)
    requires step == Toward(s, n)
    requires LineInv(Apply(s, step)) && Apply(s, step).issued == s.issued && CanSucceed(s, n)
    ensures CanSucceed(Apply(s, step), n)
  {
    PoolIsValid(s);
    if IsQuiet(s, step) {
      QuietStep(s, step);
      ChanceKept(s, Apply(s, step), n);
    } else if step.FinishCopy? {
      FinishKeepsChance(s, true, s.worker.got, n);
    } else if step.Execute? {
      FinishKeepsChance(s, step.deviceOk, [], n);
    }
  }

  /** The chosen step of the worker, taken. */
  lemma ServingKeepsEnd(s: State, n: nat) returns (step: Step)
    requires MayEndOn(s, n) && s.responses == []
    ensures Enabled(s, step) && MayEndOn(Apply(s, step), n) && StillWaits(s, Apply(s, step)) && Closer(s, Apply(s, step))
    ensures CanSucceed(s, n) ==> CanSucceed(Apply(s, step), n)
    ensures !step.CallAllocate? && !step.SendUpload? && !step.CallFree?
  {
    LiveWhenNoneWaits(s, n);
    step := Toward(s, n);
    TowardIsEnabled(s, n);
    ServingIsCloser(s, n, step);
    StepKeepsRun(s, step);
    if CanSucceed(s, n) {
      ServingKeepsChance(s, n, step);
    }
    StaysLive(s, Apply(s, step), n);
  }

  lemma LiveWhenNoneWaits(s: State, n: nat)
    requires LineInv(s) && s.responses == [] && Live(s, n)
    ensures |s.kept| <= n < |s.issued| && |Picks(s.kept)| == |s.popped|
  {
    KeptArePicks(s.results, s.kept);
    assert s.popped + s.responses == s.popped;
  }

  lemma StaysLive(s: State, s': State, n: nat)
    requires |s.kept| <= n < |s.issued| && s'.issued == s.issued && s'.popped == s.popped && |Picks(s.kept)| == |s.popped|
    requires s'.kept == s.kept || s'.kept == s.kept + [true]
    ensures Live(s', n)
  {
    PicksOneMore(s.kept, true);
    if n == |s.kept| && s'.kept == s.kept + [true] {
      assert Picks(s'.kept)[|Picks(s.kept)|] == n;
    }
  }

  /** What a plugin that follows the rules for ids and handles keeps. */
  ghost predicate Careful(s: State) {
    Inv(s) && OwnerInv(s)
  }

  /** Steps that send and free nothing keep it. */
  lemma QuietPluginKeeps(s: State, step: Step)
    requires RunInv(s) && Enabled(s, step) && !step.CallAllocate? && !step.SendUpload? && !step.CallFree?
    ensures OnlyOwn(s) ==> OnlyOwn(Apply(s, step))
    ensures Careful(s) ==> Careful(Apply(s, step))
  {
    if OnlyOwn(s) {
      StepKeepsOnlyOwn(s, step);
    }
    if Careful(s) {
      StepKeepsInv(s, step);
      StepKeepsOwner(s, step);
    }
  }

  /** Such a call gets to its end: the plugin polls whatever is there, and the worker serves on when
      nothing is. */
  lemma {:induction false} GetsEnded(s: State, n: nat) returns (t: State)
    requires MayEndOn(s, n)
    ensures Reaches(s, t) && RunInv(t) && StillWaits(s, t) && EndsBy(t, n) && (CanSucceed(s, n) ==> CanSucceed(t, n))
    ensures (OnlyOwn(s) ==> OnlyOwn(t)) && (Careful(s) ==> Careful(t))
    decreases |s.issued| - |s.kept|, Phase(s.worker), FreeSlots(s.world), BytesLeft(s.worker), |s.responses|
  {
    if s.responses != [] && Ends(s.sdk.call, s.responses[0]) {
      t := s;
      HeadEnds(s, n);
      Here(s);
    } else if s.responses != [] {
      PollPassesOver(s, n);
      QuietPluginKeeps(s, Poll(false));
      t := GetsEnded(Apply(s, Poll(false)), n);
      FirstStep(s, Poll(false), t);
    } else {
      var step := ServingKeepsEnd(s, n);
      QuietPluginKeeps(s, step);
      t := GetsEnded(Apply(s, step), n);
      FirstStep(s, step, t);
    }
  }

  // ---- Exactly when ----

  /** A request that can end the call is outstanding when the call sends its own. */
  ghost predicate FoolerOutstanding(s: State, call: Call)
    requires LineInv(s)
  {
    exists n :: 0 <= n < |s.issued| && Live(s, n) && CanEnd(s, call, n)
  }

  lemma SentKeepsChance(s: State, s': State, n: nat)
    requires LineInv(s) && LineInv(s') && n < |s.issued| && s.issued <= s'.issued
    requires s'.results == s.results && s'.world == s.world && s'.worker == s.worker && CanSucceed(s, n)
    ensures CanSucceed(s', n)
  {
    if n >= |s.results| && s.issued[n].kind == Allocate && FreesBefore(s, n) {
      var k :| |s.results| <= k < n && s.issued[k].kind == Free && 0 < s.issued[k].handle < SLOTS;
      assert s'.issued[k] == s.issued[k];
    }
  }

  /** What sending a request changes. */
  ghost predicate Sent(s: State, s': State, call: Call) {
    s' == s.(requests := s'.requests, issued := s.issued + [RequestOf(call)], since := |s.popped|, asked := 0, sdk := Waiting(call, POLLS))
  }

  /** Sending a request changes nothing about those before it. */
  lemma SentBehind(s: State, s': State, call: Call, n: nat)
    requires LineInv(s) && LineInv(s') && n < |s.issued| && Sent(s, s', call)
    ensures Live(s', n) <==> Live(s, n)
    ensures CanEnd(s', call, n) <==> CanEnd(s, call, n)
  {
    if CanSucceed(s', n) {
      QuietCouldSucceed(s, s', n);
    } else if CanSucceed(s, n) {
      SentKeepsChance(s, s', n);
    }
  }

  lemma CanBeFooledExactlyWhen(s: State, call: Call, step: Step)
    requires RunInv(s) && Enabled(s, step) && |s.requests| < BUS_ROOM
    requires (step == CallAllocate(call.id, RequestOf(call).size, false) && call.AllocCall?)
          || (step == SendUpload(call.id, false) && call == UploadCall(call.id, s.sdk.handle, s.sdk.data))
    ensures CanBeFooled(Apply(s, step)) <==> FoolerOutstanding(s, call)
  {
    var s' := Apply(s, step);
    StepKeepsRun(s, step);
    assert Sent(s, s', call);
    if FoolerOutstanding(s, call) {
      var n :| 0 <= n < |s.issued| && Live(s, n) && CanEnd(s, call, n);
      SentBehind(s, s', call, n);
      assert s.issued[|s.results|..] == InHand(s.worker) + s.requests;
      var t := GetsEnded(s', n);
    } else {
      forall n | 0 <= n < |s'.issued| - 1 && Live(s', n) ensures !CanEnd(s', call, n) {
        SentBehind(s, s', call, n);
      }
      forall t | Reaches(s', t) && t.issued == s'.issued ensures !Fooled(t) {
        var steps :| Legal(s', steps) && Exec(s', steps) == t;
        NeverFooled(s', steps);
      }
    }
  }

  /** Exactly which ids are dangerous for an upload: it can end on the response to another request if
      and only if its id is outstanding when its request is sent. */
  lemma UploadCanBeFooledExactlyWhen(i: State, s: State, id: nat)
    requires IsInit(i) && Reaches(i, s)
    requires Enabled(s, SendUpload(id, false)) && |s.requests| < BUS_ROOM
    ensures CanBeFooled(Apply(s, SendUpload(id, false))) <==> Outstanding(s, id)
  {
    var before :| Legal(i, before) && Exec(i, before) == s;
    InitReaches(i, s, before);
    var call := UploadCall(id, s.sdk.handle, s.sdk.data);
    CanBeFooledExactlyWhen(s, call, SendUpload(id, false));
    if Outstanding(s, id) {
      QueuedIsLive(s, id);
      var n :| 0 <= n < |s.issued| && Live(s, n) && s.issued[n].id == id;
      assert CanEnd(s, call, n);
    } else if FoolerOutstanding(s, call) {
      var n :| 0 <= n < |s.issued| && Live(s, n) && CanEnd(s, call, n);
      LiveIsOutstanding(s, n);
    }
  }

  /** And for an allocation: if and only if some live request of its id has succeeded or still can. */
  lemma AllocationCanBeFooledExactlyWhen(i: State, s: State, id: nat, size: nat)
    requires IsInit(i) && Reaches(i, s)
    requires Enabled(s, CallAllocate(id, size, false)) && |s.requests| < BUS_ROOM
    ensures LineInv(s)
    ensures CanBeFooled(Apply(s, CallAllocate(id, size, false)))
       <==> exists n :: 0 <= n < |s.issued| && Live(s, n) && s.issued[n].id == id && CanSucceed(s, n)
  {
    var before :| Legal(i, before) && Exec(i, before) == s;
    InitReaches(i, s, before);
    var call := AllocCall(id, size);
    CanBeFooledExactlyWhen(s, call, CallAllocate(id, size, false));
    if FoolerOutstanding(s, call) {
      var n :| 0 <= n < |s.issued| && Live(s, n) && CanEnd(s, call, n);
      assert s.issued[n].id == id && CanSucceed(s, n);
    } else if n :| 0 <= n < |s.issued| && Live(s, n) && s.issued[n].id == id && CanSucceed(s, n) {
      assert CanEnd(s, call, n);
    }
  }

  /** The worker has served a FREE of handle 1. */
  lemma FreeIsServed(s: State) returns (t: State)
    requires IsInit(s)
    ensures Reaches(s, t) && t.worker == Replying(Response(0, 0, true)) && t.staging == s.staging && t.sdk.Idle?
    ensures t.requests == [] && t.responses == [] && |t.issued| == |t.results| == 1 && t.finished == []
  {
    var req := Request(0, Free, 0, 1);
    t := s;
    Here(s);
    ReachStep(s, t, CallFree(1, false));
    t := t.(requests := [req], issued := [req], frees := [FreeCall(1, 0)]);
    ReachStep(s, t, Take);
    t := t.(requests := [], worker := Busy(req));
    ReachStep(s, t, Execute(true));
    t := Finish(t, FromBus(req, true), []);
  }

  /** Its response, which carries id 0, is still waiting. */
  lemma FreeLeavesResponse(s: State) returns (t: State)
    requires IsInit(s)
    ensures Reaches(s, t) && |t.staging| == STAGING_SIZE && t.sdk.Idle? && t.requests == []
    ensures t.responses == [Response(0, 0, true)] && |t.issued| == |t.results| == 1 && t.finished == []
  {
    t := FreeIsServed(s);
    ReachStep(s, t, Reply(false));
    t := Apply(t, Reply(false));
  }

  /** A run in which a call is fooled, and the false answer is a success: an upload that draws id 0 takes
      the late response of an earlier FREE for its own, and the worker has not looked at its request. */
  lemma ZeroIdUploadIsDishonest(s: State)
    requires IsInit(s)
    ensures exists t ::
      Reaches(s, t) && t.finished == [Return(UploadCall(0, 1, [7]), 1, true, 0)] && |t.results| == 1
  {
    var call := UploadCall(0, 1, [7]);
    var t := FreeLeavesResponse(s);
    ReachStep(s, t, CallUpload(1, [7]));
    t := t.(sdk := Staging(1, [7], 0));
    ReachStep(s, t, StageByte);
    t := t.(staging := t.staging[0 := 7], sdk := Staging(1, [7], 1));
    ReachStep(s, t, SendUpload(0, false));
    t := Send(t, Request(0, Upload, 1, 1), Waiting(call, POLLS), false);
    ReachStep(s, t, Poll(false));
    t := Apply(t, Poll(false));
    assert t.finished == [Return(call, 1, true, 0)];
  }
}
