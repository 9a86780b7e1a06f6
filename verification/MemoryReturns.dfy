/** What the memory calls of sdk/src/dsp_accel_sdk.cpp return, over every run and whatever ids they draw,
    and which handles the plugin holds by what it was returned and what it freed. */
module MemoryReturns {
  import opened MemoryBus

  // ---- What a call returns ----

  /** The response a call is polling for: one under its id, and for allocate_vram a successful one. */
  predicate IsAnswer(call: Call, resp: Response) {
    match call
    case AllocCall(id, _) => resp.id == id && resp.success
    case UploadCall(id, _, _) => resp.id == id
  }

  /** None of the responses taken from position `from` up to `to` is an answer to the call. */
  predicate NoAnswer(call: Call, popped: seq<Response>, from: nat, to: nat) {
    forall j | from <= j < to && j < |popped| :: !IsAnswer(call, popped[j])
  }

  /** The call returned on the first answer among the responses taken while it waited, with just what
      that says; or, none having come, it gave up after 500 polls and returned failure. */
  predicate Settled(r: Return, w: Wait, popped: seq<Response>) {
    && w.from <= w.to <= |popped| && w.polls <= 500
    && if w.from < w.to && IsAnswer(r.call, popped[w.to - 1]) then
         && NoAnswer(r.call, popped, w.from, w.to - 1)
         && r.success == popped[w.to - 1].success && r.handle == popped[w.to - 1].handle
       else
         NoAnswer(r.call, popped, w.from, w.to) && w.polls == 500 && !r.success && r.handle == 0
  }

  /** How many calls have sent a request that is answered: all but the FREEs. */
  function Asking(issued: seq<Request>): (n: nat) {
    if issued == [] then 0 else Asking(issued[..|issued| - 1]) + if issued[|issued| - 1].kind == Free then 0 else 1
  }

  ghost predicate WaitInv(s: State) {
    && s.since <= |s.popped|
    && (s.sdk.Waiting? ==> s.asked + s.sdk.polls == 500 && NoAnswer(s.sdk.call, s.popped, s.since, |s.popped|))
    && |s.waits| == |s.finished|
    && (forall k | 0 <= k < |s.finished| :: Settled(s.finished[k], s.waits[k], s.popped))
    && Asking(s.issued) == |s.finished| + (if s.sdk.Waiting? then 1 else 0)
  }

  /** Later responses change nothing about a settled call. */
  lemma SettledStays(r: Return, w: Wait, popped: seq<Response>, more: seq<Response>)
    requires Settled(r, w, popped)
    ensures Settled(r, w, popped + more)
  {
    assert forall j | 0 <= j < |popped| :: (popped + more)[j] == popped[j];
  }

  lemma PollKeepsWait(s: State, stale: bool)
    requires WaitInv(s) && Enabled(s, Poll(stale))
    ensures WaitInv(Apply(s, Poll(stale)))
  {
    if s.responses != [] && !stale {
      forall k | 0 <= k < |s.finished| ensures Settled(s.finished[k], s.waits[k], s.popped + [s.responses[0]]) {
        SettledStays(s.finished[k], s.waits[k], s.popped, [s.responses[0]]);
      }
    }
  }

  lemma AskingOneMore(issued: seq<Request>, req: Request)
    ensures Asking(issued + [req]) == Asking(issued) + if req.kind == Free then 0 else 1
  {
    assert (issued + [req])[..|issued|] == issued;
  }

  lemma SendKeepsWait(s: State, req: Request, next: SdkPc, stale: bool)
    requires WaitInv(s) && !s.sdk.Waiting?
    requires if req.kind == Free then next.Idle? else next.Waiting? && next.polls == 500
    ensures WaitInv(Send(s, req, next, stale))
  {
    AskingOneMore(s.issued, req);
  }

  lemma StepKeepsWait(s: State, step: Step)
    requires WaitInv(s) && Enabled(s, step)
    ensures WaitInv(Apply(s, step))
  {
    if step.Poll? {
      PollKeepsWait(s, step.stale);
    } else if step.CallAllocate? {
      var call := AllocCall(step.id, step.size);
      SendKeepsWait(s, RequestOf(call), Waiting(call, POLLS), step.stale);
    } else if step.SendUpload? {
      var call := UploadCall(step.id, s.sdk.handle, s.sdk.data);
      SendKeepsWait(s, RequestOf(call), Waiting(call, POLLS), step.stale);
    } else if step.CallFree? {
      SendKeepsWait(s, Request(0, Free, 0, step.handle), Idle, step.stale);
    }
  }

  /** A call's request is sent exactly when fewer than 31 are waiting and the load is not stale; a call
      whose request is not sent is over at once and has changed nothing else. */
  lemma SentExactlyWhen(s: State, step: Step)
    requires Enabled(s, step) && (step.CallAllocate? || step.SendUpload? || step.CallFree?)
    ensures var s', sent := Apply(s, step), |s.requests| < 31 && !step.stale;
      && (sent ==> |s'.requests| == |s.requests| + 1 && s'.requests[..|s.requests|] == s.requests
                   && s'.issued == s.issued + [s'.requests[|s.requests|]]
                   && (s'.sdk.Waiting? <==> !step.CallFree?))
      && (!sent ==> s' == s.(sdk := Idle, frees := s'.frees, held := s'.held) && (!step.CallFree? ==> s' == s.(sdk := Idle)))
  {
  }

  // ---- Which handles the plugin holds ----

  /** The k-th finished call returned this handle from allocate_vram. */
  predicate Returned(s: State, k: nat, h: nat) {
    k < |s.finished| && s.finished[k].call.AllocCall? && s.finished[k].success && s.finished[k].handle == h
  }

  /** free_vram was called with this handle after the k-th call had finished. */
  predicate FreedAfter(s: State, k: nat, h: nat) {
    exists i :: 0 <= i < |s.frees| && s.frees[i].handle == h && k < s.frees[i].after
  }

  ghost predicate HeldInv(s: State) {
    && (forall i | 0 <= i < |s.frees| :: s.frees[i].after <= |s.finished|)
    && forall h: nat :: h in s.held <==> exists k: nat :: Returned(s, k, h) && !FreedAfter(s, k, h)
  }

  /** A call that finishes leaves what was returned and freed before as it was. */
  lemma FinishedStays(s: State, s': State, r: Return, k: nat, h: nat)
    requires s'.finished == s.finished + [r] && s'.frees == s.frees && k < |s.finished|
    ensures Returned(s', k, h) <==> Returned(s, k, h)
    ensures FreedAfter(s', k, h) <==> FreedAfter(s, k, h)
  {
  }

  lemma FinishKeepsHeld(s: State, s': State, r: Return)
    requires HeldInv(s) && s'.finished == s.finished + [r] && s'.frees == s.frees
    requires s'.held == if r.call.AllocCall? && r.success then s.held + {r.handle} else s.held
    ensures HeldInv(s')
  {
    var n := |s.finished|;
    forall h: nat ensures h in s'.held <==> exists k: nat :: Returned(s', k, h) && !FreedAfter(s', k, h) {
      forall k: nat | k < n
        ensures Returned(s', k, h) <==> Returned(s, k, h)
        ensures FreedAfter(s', k, h) <==> FreedAfter(s, k, h)
      {
        FinishedStays(s, s', r, k, h);
      }
      if h in s.held {
        var k: nat :| Returned(s, k, h) && !FreedAfter(s, k, h);
        assert Returned(s', k, h) && !FreedAfter(s', k, h);
      } else if h in s'.held {
        assert Returned(s', n, h) && !FreedAfter(s', n, h);
      }
    }
  }

  lemma FreeKeepsHeld(s: State, s': State, f: nat)
    requires HeldInv(s) && s'.finished == s.finished && s'.frees == s.frees + [FreeCall(f, |s.finished|)]
    requires s'.held == s.held - {f}
    ensures HeldInv(s')
  {
    forall h: nat ensures h in s'.held <==> exists k: nat :: Returned(s', k, h) && !FreedAfter(s', k, h) {
      forall k: nat | k < |s.finished|
        ensures Returned(s', k, h) <==> Returned(s, k, h)
        ensures FreedAfter(s', k, h) <==> FreedAfter(s, k, h) || h == f
      {
        assert s'.frees[|s.frees|] == FreeCall(f, |s.finished|);
        if i :| 0 <= i < |s.frees| && s.frees[i].handle == h && k < s.frees[i].after {
          assert s'.frees[i] == s.frees[i];
        }
      }
      if h in s.held && h != f {
        var k: nat :| Returned(s, k, h) && !FreedAfter(s, k, h);
        assert Returned(s', k, h) && !FreedAfter(s', k, h);
      }
    }
  }

  lemma OtherKeepsHeld(s: State, s': State)
    requires HeldInv(s) && s'.finished == s.finished && s'.frees == s.frees && s'.held == s.held
    ensures HeldInv(s')
  {
    forall h: nat, k: nat ensures Returned(s', k, h) == Returned(s, k, h) && FreedAfter(s', k, h) == FreedAfter(s, k, h) {
    }
  }

  lemma StepKeepsHeld(s: State, step: Step)
    requires HeldInv(s) && Enabled(s, step)
    ensures HeldInv(Apply(s, step))
  {
    var s' := Apply(s, step);
    if step.CallFree? {
      FreeKeepsHeld(s, s', step.handle);
    } else if s'.finished != s.finished {
      FinishKeepsHeld(s, s', s'.finished[|s.finished|]);
    } else {
      OtherKeepsHeld(s, s');
    }
  }

  // ---- Over whole runs ----

  lemma {:induction false} RunKeepsReturns(s: State, steps: seq<Step>)
    requires WaitInv(s) && HeldInv(s) && Legal(s, steps)
    ensures WaitInv(Exec(s, steps)) && HeldInv(Exec(s, steps))
    decreases |steps|
  {
    if steps != [] {
      StepKeepsWait(s, steps[0]);
      StepKeepsHeld(s, steps[0]);
      RunKeepsReturns(Apply(s, steps[0]), steps[1..]);
    }
  }

  /** On every run and under any ids: each allocate_vram or upload_buffer whose request was sent either
      waits, having seen no answer yet, or has returned exactly what the first answer among the responses
      it saw says, or failure after 500 polls without one. */
  lemma CallsReturnFirstAnswer(s: State, steps: seq<Step>)
    requires IsInit(s) && Legal(s, steps)
    ensures var e := Exec(s, steps);
      && |e.waits| == |e.finished|
      && (forall k | 0 <= k < |e.finished| :: Settled(e.finished[k], e.waits[k], e.popped))
      && (e.sdk.Waiting? ==> e.asked + e.sdk.polls == 500 && NoAnswer(e.sdk.call, e.popped, e.since, |e.popped|))
      && Asking(e.issued) == |e.finished| + (if e.sdk.Waiting? then 1 else 0)
  {
    RunKeepsReturns(s, steps);
  }

  /** And the plugin holds exactly the handles that allocate_vram has returned and that it has not called
      free_vram on since. */
  lemma HeldExactly(s: State, steps: seq<Step>, h: nat)
    requires IsInit(s) && Legal(s, steps)
    ensures var e := Exec(s, steps);
      h in e.held <==> exists k: nat :: Returned(e, k, h) && !FreedAfter(e, k, h)
  {
    RunKeepsReturns(s, steps);
  }
}
