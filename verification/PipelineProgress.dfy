/** What the audio pipeline can still do: whole calls of dispatch and whole turns of the worker as runs
    of their steps, and from them the exact condition under which another frame can be committed. */
module PipelineProgress {
  import opened Control
  import opened Frame
  import opened Ring
  import opened SlotQueue
  import opened Pipeline
  import opened PipelineProof
  import opened PipelineTheorems

  /** The stage works in place, so what it leaves in the slot is a block of legal size. */
  ghost predicate InPlace(stage: Stage) {
    forall p, b | ValidBlock(b) :: ValidBlock(stage(p, b).block)
  }

  // ---- A whole dispatch call ----

  /** One frame that means the call's clamped block has joined the queue; the rest is as it was. */
  ghost predicate Appended(before: RingState<AudioFrame>, after: RingState<AudioFrame>, a: DispatchArgs) {
    && ValidRing(before) && ValidRing(after) && ValidArgs(a)
    && Appends(Contents(before), Contents(after), a)
  }

  ghost function Committed(s: State, inq: RingState<AudioFrame>, a: DispatchArgs): (s': State)
    requires ValidArgs(a)
  {
    s.(inq := inq, disp := DCommitted, args := s.args + [a], blocksIn := s.blocksIn + [ClampedBlock(a)],
       eventsBefore := s.eventsBefore + [|s.events|])
  }

  lemma FillStep(stage: Stage, s: State, step: Step)
    requires Inv(stage, s) && (step.WriteHeader? || step.WriteChannel?) && DispatchEnabled(s, step)
    ensures var s' := DispatchApply(s, step);
      && Inv(stage, s') && Contents(s'.inq) == Contents(s.inq) && s' == s.(inq := s'.inq, disp := s'.disp)
  {
    DispatchKeepsInv(stage, s, step);
    WriteAtTail(s.inq, DispatchApply(s, step).inq.data[s.disp.slot]);
  }

  /** Moving the tail appends the frame in the slot behind the queue. */
  lemma TailPublishes(r: RingState<AudioFrame>)
    requires ValidRing(r) && |r.data| == DEPTH && |Contents(r)| < DEPTH - 1
    ensures var r' := r.(tail := (r.tail + 1) % DEPTH); ValidRing(r') && Contents(r') == Contents(r) + [r.data[r.tail]]
  {
    PushAppends(r, r.data[r.tail]);
    assert r.data[r.tail := r.data[r.tail]] == r.data;
  }

  lemma CommitAppendsFrame(r: RingState<AudioFrame>, a: DispatchArgs)
    requires ValidRing(r) && |r.data| == DEPTH && |Contents(r)| < DEPTH - 1
    requires ValidArgs(a) && FilledTo(r.data[r.tail], ClampedBlock(a), |ClampedBlock(a).channels|)
    ensures Appended(r, r.(tail := (r.tail + 1) % DEPTH), a)
  {
    TailPublishes(r);
    FilledIsPayload(r.data[r.tail], ClampedBlock(a));
  }

  lemma CommitPublishes(s: State)
    requires CountInv(s) && InInv(s) && DispatchEnabled(s, Commit)
    ensures var s' := DispatchApply(s, Commit);
      Appended(s.inq, s'.inq, s.disp.args) && s' == Committed(s, s'.inq, s.disp.args)
  {
    RingTests(s.inq, s.released, InQueue(s));
    CommitAppendsFrame(s.inq, s.disp.args);
  }

  lemma CommitStep(stage: Stage, s: State)
    requires Inv(stage, s) && DispatchEnabled(s, Commit)
    ensures var s' := DispatchApply(s, Commit);
      Inv(stage, s') && Appended(s.inq, s'.inq, s.disp.args) && s' == Committed(s, s'.inq, s.disp.args)
  {
    CommitPublishes(s);
    DispatchKeepsInv(stage, s, Commit);
  }

  /** A dispatch that has reserved its slot can always fill and commit it. */
  lemma FinishDispatch(stage: Stage, s: State) returns (t: State)
    requires Inv(stage, s) && (s.disp.DReserved? || s.disp.DFilling?)
    ensures LeadsBy(Dispatching, stage, s, t) && Inv(stage, t)
    ensures Appended(s.inq, t.inq, s.disp.args) && t == Committed(s, t.inq, s.disp.args)
    decreases s.disp.DReserved?, if s.disp.DFilling? then |ClampedBlock(s.disp.args).channels| - s.disp.next else 0
  {
    var b := ClampedBlock(s.disp.args);
    if s.disp.DFilling? && s.disp.next == |b.channels| {
      CommitStep(stage, s);
      t := DispatchApply(s, Commit);
      Here(stage, t, Dispatching);
      FirstStep(stage, s, Commit, t, Dispatching);
    } else {
      var step := if s.disp.DReserved? then WriteHeader else WriteChannel;
      FillStep(stage, s, step);
      t := FinishDispatch(stage, DispatchApply(s, step));
      FirstStep(stage, s, step, t, Dispatching);
    }
  }

  lemma ReserveStep(stage: Stage, s: State)
    requires Inv(stage, s) && s.disp.DChecked?
    ensures var s' := DispatchApply(s, Reserve);
      && Inv(stage, s')
      && s' == s.(disp := if |Contents(s.inq)| == DEPTH - 1 then DIdle else DReserved(s.disp.args, s.inq.tail))
  {
    DispatchKeepsInv(stage, s, Reserve);
    RingTests(s.inq, s.released, InQueue(s));
  }

  lemma CheckOrSignalStep(stage: Stage, s: State, step: Step)
    requires Inv(stage, s) && DispatchEnabled(s, step) && (step.Check? || step.Signal?)
    ensures Enabled(stage, s, step) && Inv(stage, Apply(stage, s, step)) && Apply(stage, s, step) == DispatchApply(s, step)
  {
    DispatchKeepsInv(stage, s, step);
  }

  /** From the error check on. */
  lemma DispatchChecked(stage: Stage, s: State) returns (t: State)
    requires Inv(stage, s) && s.disp.DChecked?
    ensures LeadsBy(Dispatching, stage, s, t) && Inv(stage, t)
    ensures |Contents(s.inq)| == DEPTH - 1 ==> t == s.(disp := DIdle)
    ensures |Contents(s.inq)| < DEPTH - 1 ==> Appended(s.inq, t.inq, s.disp.args) && t == Committed(s, t.inq, s.disp.args)
  {
    ReserveStep(stage, s);
    var s' := DispatchApply(s, Reserve);
    t := s';
    if s'.disp.DIdle? {
      Here(stage, t, Dispatching);
    } else {
      t := FinishDispatch(stage, s');
    }
    FirstStep(stage, s, Reserve, t, Dispatching);
  }

  /** The effect of one dispatch call. */
  ghost predicate Dispatched(s: State, t: State, a: DispatchArgs, ok: bool)
    requires ValidArgs(a) && ValidRing(s.inq)
  {
    if s.failed || |Contents(s.inq)| == DEPTH - 1 then t == s
    else
      && Appended(s.inq, t.inq, a)
      && t == Committed(s, t.inq, a).(
           disp := DIdle,
           eSend := if ok then s.eSend + 1 else s.eSend,
           unsignalled := if ok then s.unsignalled else s.unsignalled + 1)
  }

  lemma CallToCommit(stage: Stage, s: State, a: DispatchArgs) returns (t: State)
    requires Inv(stage, s) && s.disp.DIdle? && ValidArgs(a) && !s.failed
    ensures Enabled(stage, s, Check(a)) && LeadsBy(Dispatching, stage, Apply(stage, s, Check(a)), t) && Inv(stage, t)
    ensures |Contents(s.inq)| == DEPTH - 1 ==> t == s
    ensures |Contents(s.inq)| < DEPTH - 1 ==> Appended(s.inq, t.inq, a) && t == Committed(s, t.inq, a)
  {
    CheckOrSignalStep(stage, s, Check(a));
    t := DispatchChecked(stage, DispatchApply(s, Check(a)));
  }

  lemma CallWithRoom(stage: Stage, s: State, a: DispatchArgs, ok: bool) returns (t: State)
    requires Inv(stage, s) && s.disp.DIdle? && ValidArgs(a) && !s.failed && |Contents(s.inq)| < DEPTH - 1
    ensures Enabled(stage, s, Check(a)) && LeadsBy(Dispatching, stage, Apply(stage, s, Check(a)), t) && Inv(stage, t)
    ensures Dispatched(s, t, a, ok)
  {
    var u := CallToCommit(stage, s, a);
    t := SignalAfter(stage, Apply(stage, s, Check(a)), u, ok, Dispatching);
  }

  /** A dispatch call taken without interruption, its error check first and then steps of dispatch only,
      has the effect of the call as one operation: refused after an error and on a full queue, and
      otherwise one frame more. */
  lemma DispatchRun(stage: Stage, s: State, a: DispatchArgs, ok: bool) returns (t: State)
    requires Inv(stage, s) && s.disp.DIdle? && ValidArgs(a)
    ensures Enabled(stage, s, Check(a)) && LeadsBy(Dispatching, stage, Apply(stage, s, Check(a)), t) && Inv(stage, t)
    ensures t.disp.DIdle? && ValidRing(s.inq) && Dispatched(s, t, a, ok)
  {
    if s.failed {
      t := s;
      Here(stage, s, Dispatching);
    } else if |Contents(s.inq)| < DEPTH - 1 {
      t := CallWithRoom(stage, s, a, ok);
    } else {
      t := CallToCommit(stage, s, a);
    }
  }

  lemma SignalAfter(stage: Stage, s: State, t: State, ok: bool, side: Side) returns (u: State)
    requires LeadsBy(side, stage, s, t) && By(side, Signal(ok)) && Inv(stage, t) && t.disp.DCommitted?
    ensures LeadsBy(side, stage, s, u) && Inv(stage, u)
    ensures u == t.(disp := DIdle, eSend := if ok then t.eSend + 1 else t.eSend,
                    unsignalled := if ok then t.unsignalled else t.unsignalled + 1)
  {
    CheckOrSignalStep(stage, t, Signal(ok));
    u := DispatchApply(t, Signal(ok));
    Here(stage, u, side);
    FirstStep(stage, t, Signal(ok), u, side);
    Then(stage, s, t, u, side);
  }

  // ---- The worker, up to the release of a frame ----

  /** A signal is pending, or the worker has woken for a frame and not yet released it. */
  ghost predicate Served(s: State) {
    s.eSend > 0 || s.work.WWoken? || Holding(s.work)
  }

  function Rank(w: WorkerPc): (n: nat) {
    match w
    case WNotify => 8
    case WTop => 7
    case WPoll => 6
    case WWoken => 5
    case WOwns(_) => 4
    case WProcessed(_) => 3
    case WReservedOut(_, _) => 2
    case WFillingOut(_, _, _) => 1
    case WRelease => 0
  }

  function Left(s: State): (n: int) {
    if s.work.WTop? then |s.control|
    else if s.work.WFillingOut? then MAX_CHANNELS - s.work.next
    else 0
  }

  /** What the worker's own steps leave alone on the way to the release. */
  ghost predicate SameCalls(s: State, t: State) {
    && t.disp == s.disp && t.args == s.args && t.blocksIn == s.blocksIn && t.unsignalled == s.unsignalled
    && (s.work.WWoken? || Holding(s.work) ==> t.stuck == s.stuck && t.eSend == s.eSend)
  }

  /** The oldest input frame, while the worker holds it. */
  lemma HeldFrame(s: State)
    requires CountInv(s) && InInv(s) && Holding(s.work)
    ensures var f := s.inq.data[s.inq.head]; ValidFrame(f) && PayloadOf(f) == InQueue(s)[0]
    ensures s.work.WOwns? || s.work.WProcessed? || s.work.WReservedOut? || s.work.WFillingOut? ==> s.work.slot == s.inq.head
  {
    RingRetire(s.inq, s.released, InQueue(s));
  }

  lemma WorkerCanWake(stage: Stage, s: State) returns (step: Step)
    requires Inv(stage, s) && Served(s) && !Holding(s.work)
    ensures IsWorker(step) && !step.PollTimeout? && WorkerEnabled(stage, s, step)
  {
    if s.work.WTop? {
      step := if s.control != [] then ApplyControl else ControlDrained;
    } else if s.work.WPoll? {
      step := Wake;
    } else if s.work.WWoken? {
      step := Peek;
    } else {
      step := Notify(true);
    }
  }

  lemma WorkerCanServe(stage: Stage, s: State) returns (step: Step)
    requires Inv(stage, s) && InPlace(stage) && Holding(s.work) && !s.work.WFillingOut?
    ensures IsWorker(step) && !step.PollTimeout? && WorkerEnabled(stage, s, step)
  {
    HeldFrame(s);
    if s.work.WOwns? {
      var f := s.inq.data[s.work.slot];
      step := Process(FrameOf(stage(s.params, PayloadOf(f)).block, f.instanceId));
    } else if s.work.WProcessed? {
      step := ReserveOut;
    } else if s.work.WReservedOut? {
      step := WriteHeaderOut;
    } else {
      step := CommitRead;
    }
  }

  lemma WorkerCanFill(stage: Stage, s: State) returns (step: Step)
    requires Inv(stage, s) && s.work.WFillingOut?
    ensures (step.WriteChannelOut? || step.CommitOut?) && WorkerEnabled(stage, s, step)
  {
    HeldFrame(s);
    step := if s.work.next == s.inq.data[s.work.slot].channelCount then CommitOut else WriteChannelOut;
  }

  /** Each such step brings the release closer and leaves the plugin's side alone. */
  lemma WorkerMovesOn(stage: Stage, s: State, step: Step)
    requires Sized(s.inq) && Sized(s.outq) && IsWorker(step) && !step.PollTimeout? && WorkerEnabled(stage, s, step)
    requires Served(s) && !s.work.WRelease? && (s.work.WWoken? ==> s.inq.head != s.inq.tail)
    ensures var s' := WorkerApply(stage, s, step);
      && Served(s') && SameCalls(s, s') && s'.released == s.released
      && (Rank(s'.work) < Rank(s.work) || (Rank(s'.work) == Rank(s.work) && 0 <= Left(s) && Left(s') < Left(s)))
  {
  }

  /** A worker that has a frame to serve always has a step of its own to take. */
  lemma WorkerCanStep(stage: Stage, s: State) returns (step: Step)
    requires Inv(stage, s) && InPlace(stage) && Served(s)
    ensures IsWorker(step) && !step.PollTimeout? && WorkerEnabled(stage, s, step)
    ensures s.work.WWoken? ==> s.inq.head != s.inq.tail
  {
    if s.work.WFillingOut? {
      step := WorkerCanFill(stage, s);
    } else if Holding(s.work) {
      step := WorkerCanServe(stage, s);
    } else {
      step := WorkerCanWake(stage, s);
      if s.work.WWoken? {
        WakeFindsInput(s);
      }
    }
  }

  /** How a frame fares, together with what the worker leaves alone meanwhile. */
  datatype Outcome = Outcome(
    blocksOut: seq<Block>, fates: seq<bool>, failed: bool, params: Params, readBack: seq<Read>, eRecv: nat)

  ghost function OutcomeOf(s: State): (o: Outcome) {
    Outcome(s.blocksOut, s.fates, s.failed, s.params, s.readBack, s.eRecv)
  }

  /** What will have become of the frame being served when it is released. */
  ghost function Foreseen(stage: Stage, s: State): (o: Outcome)
    requires s.released < |s.blocksIn| && ValidRing(s.outq)
  {
    var r := stage(s.params, s.blocksIn[s.released]);
    var room := |Contents(s.outq)| < DEPTH - 1;
    OutcomeOf(s).(
      blocksOut := if Worked(s.work) then s.blocksOut else s.blocksOut + [r.block],
      fates := if s.work.WRelease? then s.fates else s.fates + [s.work.WReservedOut? || s.work.WFillingOut? || room],
      failed := s.failed || (!Worked(s.work) && !r.ok))
  }

  lemma OutTests(stage: Stage, s: State)
    requires Inv(stage, s)
    ensures ValidRing(s.outq) && |Contents(s.outq)| == |Delivered(s)| - |s.readBack|
    ensures (s.outq.tail + 1) % DEPTH == s.outq.head <==> |Contents(s.outq)| == DEPTH - 1
    ensures s.work.WWoken? || Holding(s.work) ==> s.released < |s.blocksIn|
  {
    if s.work.WWoken? {
      WakeFindsInput(s);
    }
    RingTests(s.outq, |s.readBack|, Delivered(s)[|s.readBack|..]);
  }

  /** No step on the way changes that. */
  lemma ProcessIsForeseen(stage: Stage, s: State, after: AudioFrame)
    requires Sized(s.inq) && Sized(s.outq) && WorkerEnabled(stage, s, Process(after))
    requires s.released < |s.blocksIn| && PayloadOf(s.inq.data[s.work.slot]) == s.blocksIn[s.released]
    ensures Foreseen(stage, WorkerApply(stage, s, Process(after))) == Foreseen(stage, s)
  {
  }

  lemma ForeseenIsKept(stage: Stage, s: State, step: Step)
    requires Sized(s.inq) && Sized(s.outq) && IsWorker(step) && WorkerEnabled(stage, s, step)
    requires (s.work.WWoken? || Holding(s.work)) && !s.work.WOwns? && !s.work.WRelease? && s.released < |s.blocksIn|
    requires (s.outq.tail + 1) % DEPTH == s.outq.head <==> |Contents(s.outq)| == DEPTH - 1
    requires s.work.WWoken? ==> s.inq.head != s.inq.tail
    ensures var s' := WorkerApply(stage, s, step);
      ValidRing(s'.outq) && Holding(s'.work) && s'.blocksIn == s.blocksIn && s'.released == s.released
      && Foreseen(stage, s') == Foreseen(stage, s)
  {
  }

  lemma ServingStep(stage: Stage, s: State, step: Step)
    requires Inv(stage, s) && IsWorker(step) && WorkerEnabled(stage, s, step)
    requires (s.work.WWoken? || Holding(s.work)) && !s.work.WRelease?
    ensures ValidRing(s.outq) && s.released < |s.blocksIn|
    ensures var s' := WorkerApply(stage, s, step);
      ValidRing(s'.outq) && Holding(s'.work) && s'.released < |s'.blocksIn| && Foreseen(stage, s') == Foreseen(stage, s)
  {
    OutTests(stage, s);
    if s.work.WOwns? {
      HeldFrame(s);
      ProcessIsForeseen(stage, s, step.after);
    } else {
      if s.work.WWoken? {
        WakeFindsInput(s);
      }
      ForeseenIsKept(stage, s, step);
    }
  }

  /** The worker has woken for a frame; what is left of the turn is serving it. */
  predicate Awake(w: WorkerPc) { w.WWoken? || Holding(w) }

  /** The frame's release, and what holds of it. */
  ghost predicate Released(stage: Stage, s: State, t: State) {
    && SameCalls(s, t) && t.released == s.released + 1 && t.work.WNotify?
    && ValidRing(s.outq) && s.released < |s.blocksIn| && OutcomeOf(t) == Foreseen(stage, s)
  }

  lemma ReleaseStep(stage: Stage, s: State) returns (t: State)
    requires Inv(stage, s) && s.work.WRelease?
    ensures LeadsBy(Serving, stage, s, t) && Inv(stage, t) && Released(stage, s, t)
  {
    OutTests(stage, s);
    StepKeepsInv(stage, s, CommitRead);
    t := WorkerApply(stage, s, CommitRead);
    Here(stage, t, Serving);
    FirstStep(stage, s, CommitRead, t, Serving);
  }

  lemma ServeOnce(stage: Stage, s: State) returns (step: Step, s': State)
    requires Inv(stage, s) && InPlace(stage) && Awake(s.work) && !s.work.WRelease?
    ensures By(Serving, step) && Enabled(stage, s, step) && s' == Apply(stage, s, step) && Inv(stage, s')
    ensures Awake(s'.work) && SameCalls(s, s') && s'.released == s.released
    ensures Rank(s'.work) < Rank(s.work) || (Rank(s'.work) == Rank(s.work) && 0 <= Left(s) && Left(s') < Left(s))
    ensures ValidRing(s.outq) && s.released < |s.blocksIn| && ValidRing(s'.outq) && s'.released < |s'.blocksIn|
    ensures Foreseen(stage, s') == Foreseen(stage, s)
  {
    step := WorkerCanStep(stage, s);
    s' := WorkerApply(stage, s, step);
    WorkerMovesOn(stage, s, step);
    ServingStep(stage, s, step);
    StepKeepsInv(stage, s, step);
  }

  /** Once awake for a frame, the worker can release it by serving steps alone, as foreseen. */
  lemma ServingReleases(stage: Stage, s: State) returns (t: State)
    requires Inv(stage, s) && InPlace(stage) && Awake(s.work)
    ensures LeadsBy(Serving, stage, s, t) && Inv(stage, t) && Released(stage, s, t)
    decreases Rank(s.work), Left(s)
  {
    if s.work.WRelease? {
      t := ReleaseStep(stage, s);
    } else {
      var step, s' := ServeOnce(stage, s);
      t := ServingReleases(stage, s');
      FirstStep(stage, s, step, t, Serving);
    }
  }

  /** A worker that has a frame to serve can release it, whatever it is doing. */
  lemma WorkerReleases(stage: Stage, s: State) returns (t: State)
    requires Inv(stage, s) && InPlace(stage) && Served(s)
    ensures Leads(stage, s, t) && Inv(stage, t) && SameCalls(s, t) && t.released == s.released + 1
    decreases Rank(s.work), Left(s)
  {
    if Awake(s.work) {
      t := ServingReleases(stage, s);
      Loosen(stage, s, t, Serving);
    } else {
      var step := WorkerCanStep(stage, s);
      StepKeepsInv(stage, s, step);
      WorkerMovesOn(stage, s, step);
      t := WorkerReleases(stage, WorkerApply(stage, s, step));
      FirstStep(stage, s, step, t);
    }
  }

  // ---- Lost signals ----

  /** The frames that will never be made up for: merged into another wakeup, or never signalled. */
  function Lost(s: State): (n: nat) { s.stuck + s.unsignalled }

  lemma QueueSize(stage: Stage, s: State)
    requires Inv(stage, s)
    ensures ValidRing(s.inq) && |Contents(s.inq)| == |s.blocksIn| - s.released <= DEPTH - 1
    ensures s.eSend + Lost(s) <= |Contents(s.inq)|
    ensures s.work.WWoken? || Holding(s.work) ==> Lost(s) < |Contents(s.inq)|
    ensures s.disp.DReserved? || s.disp.DFilling? ==> |Contents(s.inq)| < DEPTH - 1
    ensures !s.disp.DCommitted? && Lost(s) < |Contents(s.inq)| ==> Served(s)
  {
    RingTests(s.inq, s.released, InQueue(s));
  }

  lemma MergeStep(stage: Stage, s: State, step: Step)
    requires Enabled(stage, s, step) && s.stuck <= DEPTH - 2 && s.eSend + s.stuck <= DEPTH - 1
    ensures Apply(stage, s, step).stuck <= DEPTH - 2
  {
  }

  lemma {:induction false} MergesStayBelow(stage: Stage, s: State, steps: seq<Step>)
    requires Inv(stage, s) && Legal(stage, s, steps) && s.stuck <= DEPTH - 2
    ensures Exec(stage, s, steps).stuck <= DEPTH - 2
    decreases |steps|
  {
    if steps != [] {
      QueueSize(stage, s);
      MergeStep(stage, s, steps[0]);
      StepKeepsInv(stage, s, steps[0]);
      MergesStayBelow(stage, Apply(stage, s, steps[0]), steps[1..]);
    }
  }

  /** Merged wakeups alone never cost more than fourteen frames: a fifteenth loss takes a signal that
      could not be sent. */
  lemma MergingAloneLosesAtMostFourteen(stage: Stage, s: State)
    requires Reachable(stage, s)
    ensures s.stuck <= 14 && s.stuck + s.unsignalled <= 15
    ensures s.stuck + s.unsignalled == 15 ==> s.unsignalled > 0
  {
    ReachableInv(stage, s);
    QueueSize(stage, s);
    var steps :| Legal(stage, Init(), steps) && AllBy(Anyone, steps) && Exec(stage, Init(), steps) == s;
    InitHasInv(stage);
    MergesStayBelow(stage, Init(), steps);
  }

  // ---- When another frame can be committed ----

  /** Some continuation commits another frame. */
  ghost predicate CanCommit(stage: Stage, s: State) {
    exists t :: Leads(stage, s, t) && |t.blocksIn| > |s.blocksIn|
  }

  lemma LostSignalsKeepOutCommits(stage: Stage, s: State, step: Step)
    requires Inv(stage, s) && Enabled(stage, s, step) && Lost(s) >= DEPTH - 1
    ensures var s' := Apply(stage, s, step); s'.blocksIn == s.blocksIn && Lost(s') >= DEPTH - 1
  {
    QueueSize(stage, s);
  }

  lemma {:induction false} LostSignalsStop(stage: Stage, s: State, steps: seq<Step>)
    requires Inv(stage, s) && Legal(stage, s, steps) && Lost(s) >= DEPTH - 1
    ensures Exec(stage, s, steps).blocksIn == s.blocksIn
    decreases |steps|
  {
    if steps != [] {
      LostSignalsKeepOutCommits(stage, s, steps[0]);
      StepKeepsInv(stage, s, steps[0]);
      LostSignalsStop(stage, Apply(stage, s, steps[0]), steps[1..]);
    }
  }

  /** A dispatch past the error check commits, if need be after the worker has made room. */
  lemma CheckedCallCommits(stage: Stage, s: State)
    requires Inv(stage, s) && InPlace(stage) && s.disp.DChecked? && Lost(s) < DEPTH - 1
    ensures CanCommit(stage, s)
  {
    QueueSize(stage, s);
    var r := s;
    if |Contents(s.inq)| == DEPTH - 1 {
      r := WorkerReleases(stage, s);
      QueueSize(stage, r);
    } else {
      Here(stage, s);
    }
    var t := DispatchChecked(stage, r);
    Loosen(stage, r, t, Dispatching);
    Then(stage, s, r, t);
  }

  lemma IdleCallCommits(stage: Stage, s: State)
    requires Inv(stage, s) && InPlace(stage) && s.disp.DIdle? && !s.failed && Lost(s) < DEPTH - 1
    ensures CanCommit(stage, s)
  {
    CheckOrSignalStep(stage, s, Check(EMPTY_CALL));
    var s' := DispatchApply(s, Check(EMPTY_CALL));
    CheckedCallCommits(stage, s');
    var t :| Leads(stage, s', t) && |t.blocksIn| > |s'.blocksIn|;
    FirstStep(stage, s, Check(EMPTY_CALL), t);
  }

  lemma CommittedCallCommitsAgain(stage: Stage, s: State)
    requires Inv(stage, s) && InPlace(stage) && s.disp.DCommitted? && !s.failed && Lost(s) < DEPTH - 1
    ensures CanCommit(stage, s)
  {
    Here(stage, s);
    var s' := SignalAfter(stage, s, s, true, Anyone);
    IdleCallCommits(stage, s');
    var t :| Leads(stage, s', t) && |t.blocksIn| > |s'.blocksIn|;
    Then(stage, s, s', t);
  }

  /** dispatch is past the error check of a call and has not committed its frame. */
  predicate PastCheck(d: DispatchPc) { d.DChecked? || d.DReserved? || d.DFilling? }

  /** Exactly when the plugin can still get a frame in: fewer than fifteen frames have lost their
      signal, and no error has been reported since the last error check. */
  lemma AnotherFrameExactlyWhen(stage: Stage, s: State)
    requires Reachable(stage, s) && InPlace(stage)
    ensures CanCommit(stage, s) <==> s.stuck + s.unsignalled < 15 && (!s.failed || PastCheck(s.disp))
  {
    ReachableInv(stage, s);
    QueueSize(stage, s);
    if s.disp.DReserved? || s.disp.DFilling? {
      var t := FinishDispatch(stage, s);
      Loosen(stage, s, t, Dispatching);
    } else if Lost(s) < DEPTH - 1 && (!s.failed || s.disp.DChecked?) {
      if s.disp.DChecked? {
        CheckedCallCommits(stage, s);
      } else if s.disp.DIdle? {
        IdleCallCommits(stage, s);
      } else {
        CommittedCallCommitsAgain(stage, s);
      }
    } else {
      CannotCommit(stage, s);
    }
  }

  lemma CannotCommit(stage: Stage, s: State)
    requires Inv(stage, s) && (Lost(s) >= DEPTH - 1 || (s.failed && !PastCheck(s.disp)))
    ensures !CanCommit(stage, s)
  {
    forall t | Leads(stage, s, t) ensures |t.blocksIn| <= |s.blocksIn| {
      var steps :| Legal(stage, s, steps) && AllBy(Anyone, steps) && Exec(stage, s, steps) == t;
      if Lost(s) >= DEPTH - 1 {
        LostSignalsStop(stage, s, steps);
      } else {
        FailureStopsDispatch(stage, s, steps);
        RunKeepsInv(stage, s, steps);
      }
    }
  }

  // ---- The bounds are reached ----

  /** The plugin can fill the queue with signalled frames while the worker does not look. */
  lemma {:induction false} ManyDispatches(stage: Stage, s: State, n: nat) returns (t: State)
    requires Inv(stage, s) && s.disp.DIdle? && !s.failed && |s.blocksIn| - s.released + n <= DEPTH - 1
    ensures Leads(stage, s, t) && Inv(stage, t) && t.disp.DIdle? && !t.failed && t.eSend == s.eSend + n
    ensures t.work == s.work && t.stuck == s.stuck && t.unsignalled == s.unsignalled && t.released == s.released
    ensures |t.blocksIn| == |s.blocksIn| + n && t.control == s.control
    decreases n
  {
    if n == 0 {
      t := s;
      Here(stage, s);
    } else {
      QueueSize(stage, s);
      var s' := CallWithRoom(stage, s, EMPTY_CALL, true);
      Loosen(stage, Apply(stage, s, Check(EMPTY_CALL)), s', Dispatching);
      FirstStep(stage, s, Check(EMPTY_CALL), s');
      t := ManyDispatches(stage, s', n - 1);
      Then(stage, s, s', t);
    }
  }

  /** Any number of losses up to fourteen comes about by merging alone: n + 1 calls, and one wakeup. */
  lemma MergingLoses(stage: Stage, n: nat) returns (t: State)
    requires n <= DEPTH - 2
    ensures Reachable(stage, t) && Inv(stage, t) && t.stuck == n && t.unsignalled == 0
    ensures t.work.WWoken? && t.disp.DIdle? && !t.failed && |t.blocksIn| - t.released == n + 1
  {
    InitHasInv(stage);
    var s := ManyDispatches(stage, Init(), n + 1);
    ReachableStep(stage, s, ControlDrained);
    var s' := WorkerApply(stage, s, ControlDrained);
    ReachableStep(stage, s', Wake);
    t := WorkerApply(stage, s', Wake);
    ReachableInv(stage, t);
  }

  lemma JamRun(stage: Stage) returns (t: State)
    requires InPlace(stage)
    ensures Reachable(stage, t) && Inv(stage, t) && t.stuck == 14 && t.unsignalled == 1
  {
    var s := MergingLoses(stage, DEPTH - 2);
    CheckOrSignalStep(stage, s, Check(EMPTY_CALL));
    ReachableStep(stage, s, Check(EMPTY_CALL));
    var s1 := DispatchApply(s, Check(EMPTY_CALL));
    var s2 := WorkerReleases(stage, s1);
    QueueSize(stage, s2);
    var s3 := DispatchChecked(stage, s2);
    Loosen(stage, s2, s3, Dispatching);
    Then(stage, s1, s2, s3);
    t := SignalAfter(stage, s1, s3, false, Anyone);
    Then(stage, Init(), s1, t);
  }

  /** A jam: fifteen calls whose signals merge into one wakeup, and one call whose signal fails. From
      there on no frame is ever committed. */
  lemma JamIsReachable(stage: Stage)
    requires InPlace(stage)
    ensures exists s :: Reachable(stage, s) && s.stuck == 14 && s.unsignalled == 1 && !CanCommit(stage, s)
  {
    var t := JamRun(stage);
    CannotCommit(stage, t);
  }
}
