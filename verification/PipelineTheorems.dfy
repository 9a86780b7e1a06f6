/** What the audio pipeline guarantees over whole runs: `s` is any state some interleaving reaches. */
module PipelineTheorems {
  import opened Control
  import opened Frame
  import opened Ring
  import opened Selection
  import opened SlotQueue
  import opened Pipeline
  import opened PipelineProof

  /** Whose steps a run consists of: anyone's, or those of one call after the step that begins it. */
  datatype Side = Anyone | Dispatching | Serving | Reading

  predicate By(side: Side, step: Step) {
    match side
    case Anyone => true
    case Dispatching => IsDispatch(step) && !step.Check?
    case Serving =>
      step.Peek? || step.Process? || step.ReserveOut? || step.WriteHeaderOut? || step.WriteChannelOut?
      || step.CommitOut? || step.CommitRead? || step.Notify?
    case Reading => IsReader(step) && !step.WakeReader?
  }

  predicate AllBy(side: Side, steps: seq<Step>) {
    forall i | 0 <= i < |steps| :: By(side, steps[i])
  }

  /** Some run of this side's steps leads from s to t. */
  ghost predicate LeadsBy(side: Side, stage: Stage, s: State, t: State) {
    exists steps :: Legal(stage, s, steps) && AllBy(side, steps) && Exec(stage, s, steps) == t
  }

  ghost predicate Leads(stage: Stage, s: State, t: State) {
    LeadsBy(Anyone, stage, s, t)
  }

  ghost predicate Reachable(stage: Stage, s: State) {
    Leads(stage, Init(), s)
  }

  lemma Here(stage: Stage, s: State, side: Side := Anyone)
    ensures LeadsBy(side, stage, s, s)
  {
    assert Legal(stage, s, []) && AllBy(side, []) && Exec(stage, s, []) == s;
  }

  lemma FirstStep(stage: Stage, s: State, step: Step, t: State, side: Side := Anyone)
    requires Enabled(stage, s, step) && By(side, step) && LeadsBy(side, stage, Apply(stage, s, step), t)
    ensures LeadsBy(side, stage, s, t)
  {
    var s' := Apply(stage, s, step);
    var rest :| Legal(stage, s', rest) && AllBy(side, rest) && Exec(stage, s', rest) == t;
    var steps := [step] + rest;
    assert steps[1..] == rest;
    assert Legal(stage, s, steps) && AllBy(side, steps) && Exec(stage, s, steps) == t;
  }

  lemma {:induction false} Onward(stage: Stage, s: State, steps: seq<Step>, u: State, side: Side)
    requires Legal(stage, s, steps) && AllBy(side, steps) && LeadsBy(side, stage, Exec(stage, s, steps), u)
    ensures LeadsBy(side, stage, s, u)
    decreases |steps|
  {
    if steps != [] {
      assert AllBy(side, steps[1..]);
      Onward(stage, Apply(stage, s, steps[0]), steps[1..], u, side);
      FirstStep(stage, s, steps[0], u, side);
    }
  }

  lemma Then(stage: Stage, s: State, t: State, u: State, side: Side := Anyone)
    requires LeadsBy(side, stage, s, t) && LeadsBy(side, stage, t, u)
    ensures LeadsBy(side, stage, s, u)
  {
    var steps :| Legal(stage, s, steps) && AllBy(side, steps) && Exec(stage, s, steps) == t;
    Onward(stage, s, steps, u, side);
  }

  /** A run of one side's steps is a run. */
  lemma Loosen(stage: Stage, s: State, t: State, side: Side)
    requires LeadsBy(side, stage, s, t)
    ensures Leads(stage, s, t)
  {
    var steps :| Legal(stage, s, steps) && AllBy(side, steps) && Exec(stage, s, steps) == t;
    assert AllBy(Anyone, steps);
  }

  lemma ReachableStep(stage: Stage, s: State, step: Step)
    requires Reachable(stage, s) && Enabled(stage, s, step)
    ensures Reachable(stage, Apply(stage, s, step))
  {
    Here(stage, Apply(stage, s, step));
    FirstStep(stage, s, step, Apply(stage, s, step));
    Then(stage, Init(), s, Apply(stage, s, step));
  }

  lemma ReachableInv(stage: Stage, s: State)
    requires Reachable(stage, s)
    ensures Inv(stage, s)
  {
    var steps :| Legal(stage, Init(), steps) && AllBy(Anyone, steps) && Exec(stage, Init(), steps) == s;
    InitHasInv(stage);
    RunKeepsInv(stage, Init(), steps);
  }

  /** A wait that succeeds on either eventfd finds a frame in its queue, although the worker signals
      the plugin even after dropping an output. */
  lemma EveryWakeFindsAFrame(stage: Stage, s: State)
    requires Reachable(stage, s)
    ensures ValidRing(s.inq) && ValidRing(s.outq)
    ensures s.work.WWoken? ==> Contents(s.inq) != []
    ensures s.reader.RWoken? ==> Contents(s.outq) != []
  {
    ReachableInv(stage, s);
    RingTests(s.inq, s.released, InQueue(s));
    RingTests(s.outq, |s.readBack|, Delivered(s)[|s.readBack|..]);
  }

  /** Frames are conserved: every committed input frame is still queued, waits as output, has been
      read, or was dropped on a full out_queue; between the fate of its output and the commit of its
      input the worker's frame is counted on both sides. */
  lemma FramesAreConserved(stage: Stage, s: State)
    requires Reachable(stage, s)
    ensures ValidRing(s.inq) && ValidRing(s.outq)
    ensures |s.blocksIn| + (if s.work.WRelease? then 1 else 0)
         == |Contents(s.inq)| + |Contents(s.outq)| + |s.readBack| + Misses(s.fates)
  {
    ReachableInv(stage, s);
    RingTests(s.inq, s.released, InQueue(s));
    RingTests(s.outq, |s.readBack|, Delivered(s)[|s.readBack|..]);
    KeptAndMissed(s.blocksOut, s.fates);
  }

  /** Order and content: the k-th successful read returns the stage's result for one dispatched block,
      later reads return later blocks, and no block is read twice. */
  lemma ReadsFollowDispatchOrder(stage: Stage, s: State)
    requires Reachable(stage, s)
    ensures |s.readBack| <= |Picks(s.fates)| && |s.eventsAt| == |s.blocksOut| <= |s.args| && |s.fates| <= |s.blocksOut|
    ensures forall j, k | 0 <= j < k < |s.readBack| :: Picks(s.fates)[j] < Picks(s.fates)[k] < |s.fates|
    ensures forall k | 0 <= k < |s.readBack| ::
      var n := Picks(s.fates)[k];
      && n < |s.blocksOut| && ValidArgs(s.args[n]) && s.eventsAt[n] <= |s.events|
      && s.readBack[k].block == stage(ApplyAll(s.events[..s.eventsAt[n]]), ClampedBlock(s.args[n])).block
  {
    ReachableInv(stage, s);
    KeptArePicks(s.blocksOut, s.fates);
  }

  /** Sample round trip: under a stage that changes nothing, a read leaves in the caller's buffers
      exactly the first min(frames, 256) samples of the first min(channels, 8, read channels) channels
      of the call it answers, whatever the recycled slots held, and nothing else changes. */
  lemma SampleRoundTrip(stage: Stage, s: State, k: nat)
    requires Reachable(stage, s) && k < |s.readBack|
    requires forall p, b :: stage(p, b).block == b
    ensures k < |Picks(s.fates)| && Picks(s.fates)[k] < |s.args|
    ensures
      var r, a := s.readBack[k], s.args[Picks(s.fates)[k]];
      var frames, channels := Min(a.frames, MAX_FRAMES), Min(Min(a.channels, MAX_CHANNELS), Uint32(r.channels));
      && ValidArgs(a) && frames >= 0 && |r.after| == |r.before| >= channels
      && (forall c | 0 <= c < channels ::
            |r.before[c]| >= frames && r.after[c] == a.buffers[c][..frames] + r.before[c][frames..])
      && (forall c | channels <= c < |r.before| :: r.after[c] == r.before[c])
  {
    ReadsFollowDispatchOrder(stage, s);
    ReachableInv(stage, s);
    assert IsCopyOf(s.readBack[k], Delivered(s)[k]);
    var a := s.args[Picks(s.fates)[k]];
    assert s.readBack[k].block == ClampedBlock(a);
    ValidArgsExactlyWhen(a);
    ClampHoldsExactlyWhen(a.frames, MAX_FRAMES);
    ClampHoldsExactlyWhen(a.channels, MAX_CHANNELS);
  }

  /** Clock round trip: under a stage that keeps the timestamp, the block a read returns bears the clock
      reading of the very call it answers. */
  lemma StampRoundTrip(stage: Stage, s: State, k: nat)
    requires Reachable(stage, s) && k < |s.readBack|
    requires forall p, b :: stage(p, b).block.timestamp == b.timestamp
    ensures k < |Picks(s.fates)| && Picks(s.fates)[k] < |s.args|
    ensures s.readBack[k].block.timestamp == s.args[Picks(s.fates)[k]].now
  {
    ReadsFollowDispatchOrder(stage, s);
    ClampedBlockExactly(s.args[Picks(s.fates)[k]]);
  }

  /** How long a copy read_output is about to make: as many samples as the call it answers put in,
      whatever count the reading call names. (ReadFitsExactlyWhen says when that overruns a buffer.) */
  lemma WaitingBlockLength(stage: Stage, s: State)
    requires Reachable(stage, s) && s.reader.ROwns?
    requires forall p, b :: stage(p, b).block.frames == b.frames
    ensures |s.readBack| < |Picks(s.fates)| && Picks(s.fates)[|s.readBack|] < |s.args| && s.reader.slot < |s.outq.data|
    ensures s.outq.data[s.reader.slot].frameCount == Min(s.args[Picks(s.fates)[|s.readBack|]].frames, MAX_FRAMES)
  {
    ReachableInv(stage, s);
    ReaderSlotIsOldest(s);
    OldestOut(s);
    KeptArePicks(s.blocksOut, s.fates);
    var a := s.args[Picks(s.fates)[|s.readBack|]];
    ValidArgsExactlyWhen(a);
    ClampHoldsExactlyWhen(a.frames, MAX_FRAMES);
  }

  /** Zero-copy ownership: the slot being filled is never the slot being worked on or read, in either queue. */
  lemma SlotsAreNeverShared(stage: Stage, s: State)
    requires Reachable(stage, s)
    ensures (s.disp.DReserved? || s.disp.DFilling?)
            && (s.work.WOwns? || s.work.WProcessed? || s.work.WReservedOut? || s.work.WFillingOut?)
            ==> s.disp.slot != s.work.slot
    ensures (s.work.WReservedOut? || s.work.WFillingOut?) && s.reader.ROwns? ==> s.work.out != s.reader.slot
  {
    ReachableInv(stage, s);
    if (s.disp.DReserved? || s.disp.DFilling?) && Holding(s.work) {
      SlotsDiffer(s.released, s.released + |InQueue(s)|);
    }
    if (s.work.WReservedOut? || s.work.WFillingOut?) && s.reader.ROwns? {
      SlotsDiffer(|s.readBack|, |Delivered(s)|);
    }
  }

  /** The exact cost of merged wakeups: in every state in_queue holds one frame for each signal that is
      pending, was merged into another or failed, one for a frame about to be signalled, and one for the
      frame the worker has woken for. */
  lemma QueueCountsSignals(stage: Stage, s: State)
    requires Reachable(stage, s)
    ensures ValidRing(s.inq) && |Contents(s.inq)| ==
      s.eSend + s.stuck + s.unsignalled
      + (if s.disp.DCommitted? then 1 else 0)
      + (if s.work.WWoken? || Holding(s.work) then 1 else 0)
  {
    ReachableInv(stage, s);
    RingTests(s.inq, s.released, InQueue(s));
  }

  /** So when both sides are at rest, it holds precisely the frames whose signal was lost. */
  lemma RestingQueueCountsLostSignals(stage: Stage, s: State)
    requires Reachable(stage, s)
    requires s.eSend == 0 && !s.disp.DCommitted? && (s.work.WTop? || s.work.WPoll? || s.work.WNotify?)
    ensures ValidRing(s.inq) && |Contents(s.inq)| == s.stuck + s.unsignalled
    ensures Contents(s.inq) == [] <==> s.stuck == 0 && s.unsignalled == 0
  {
    QueueCountsSignals(stage, s);
  }

  lemma ControlFitsStep(stage: Stage, s: State, step: Step)
    requires Enabled(stage, s, step) && |s.control| <= CONTROL_ROOM
    ensures |Apply(stage, s, step).control| <= CONTROL_ROOM
  {
  }

  lemma {:induction false} ControlFits(stage: Stage, s: State, steps: seq<Step>)
    requires Legal(stage, s, steps) && |s.control| <= CONTROL_ROOM
    ensures |Exec(stage, s, steps).control| <= CONTROL_ROOM
    decreases |steps|
  {
    if steps != [] {
      ControlFitsStep(stage, s, steps[0]);
      ControlFits(stage, Apply(stage, s, steps[0]), steps[1..]);
    }
  }

  /** set_param accepts an event exactly when fewer than 63 accepted ones have yet to be applied, and
      then it is the newest of them. */
  lemma EventAcceptedExactlyWhen(stage: Stage, s: State, e: ControlEvent)
    requires Reachable(stage, s)
    ensures Enabled(stage, s, SetParam(e)) && s.applied <= |s.events| <= s.applied + 63
    ensures var t := Apply(stage, s, SetParam(e));
      && t.events == (if |s.events| - s.applied < 63 then s.events + [e] else s.events)
      && t.applied == s.applied && t.params == s.params && t.control == t.events[t.applied..]
  {
    ReachableInv(stage, s);
    var steps :| Legal(stage, Init(), steps) && AllBy(Anyone, steps) && Exec(stage, Init(), steps) == s;
    ControlFits(stage, Init(), steps);
    SetParamKeepsControl(stage, s, e);
  }

  /** Control staleness: when the worker processes frame n, it has applied, in push order, every event
      pushed before any earlier frame was committed; only events newer than frame n - 1 can be missed. */
  lemma EventsMissAtMostOneFrame(stage: Stage, s: State, m: nat, n: nat)
    requires Reachable(stage, s) && m < n < |s.blocksOut|
    ensures |s.eventsAt| == |s.blocksOut| && n < |s.eventsBefore|
    ensures s.eventsBefore[m] <= s.eventsAt[n] <= |s.events|
  {
    ReachableInv(stage, s);
  }

  /** Exactly which events a frame misses: those pushed after the worker last found the control bus
      empty. Frame n is processed under all the others, in push order. */
  lemma FrameMissesExactlyLaterEvents(stage: Stage, s: State, n: nat, k: nat)
    requires Reachable(stage, s) && n < |s.blocksOut| && k < |s.events|
    ensures |s.drains| == |s.eventsAt| == |s.blocksOut| <= |s.blocksIn| && s.drains[n] <= |s.events|
    ensures k < s.eventsAt[n] <==> k < s.drains[n]
    ensures s.blocksOut[n] == stage(ApplyAll(s.events[..s.drains[n]]), s.blocksIn[n]).block
  {
    ReachableInv(stage, s);
  }

  const EMPTY_CALL: DispatchArgs := DispatchArgs([], 0, 0, 0)

  /** The worker has drained the bus; then the plugin has pushed one event and reserved a slot. */
  lemma ReserveAfterDrain(stage: Stage, e: ControlEvent) returns (s: State)
    ensures Reachable(stage, s)
    ensures s == Init().(control := [e], events := [e], work := WPoll, disp := DReserved(EMPTY_CALL, 0))
  {
    s := Init();
    Here(stage, s);
    ReachableStep(stage, s, ControlDrained);
    s := s.(work := WPoll);
    ReachableStep(stage, s, SetParam(e));
    s := s.(control := [e], events := [e]);
    ReachableStep(stage, s, Check(EMPTY_CALL));
    s := s.(disp := DChecked(EMPTY_CALL));
    ReachableStep(stage, s, Reserve);
    s := s.(disp := DReserved(EMPTY_CALL, 0));
  }

  /** It goes on to fill the slot with an empty block, commit it and signal. */
  lemma DispatchAfterDrain(stage: Stage, e: ControlEvent) returns (s: State)
    ensures Reachable(stage, s)
    ensures s == Init().(
      inq := Init().inq.(tail := 1), eSend := 1, control := [e], work := WPoll, events := [e],
      args := [EMPTY_CALL], blocksIn := [Block(0, 0, [])], eventsBefore := [1])
  {
    s := ReserveAfterDrain(stage, e);
    assert s.inq.data[0 := Silence()] == s.inq.data;
    ReachableStep(stage, s, WriteHeader);
    s := s.(disp := DFilling(EMPTY_CALL, 0, 0));
    ReachableStep(stage, s, Commit);
    s := DispatchApply(s, Commit);
    ReachableStep(stage, s, Signal(true));
    s := s.(eSend := 1, disp := DIdle);
  }

  /** The bound is tight: a frame can be processed without an event that was pushed before it, when the
      worker had already drained the bus. */
  lemma FrameMayMissItsOwnEvent(stage: Stage, e: ControlEvent)
    requires forall p, b :: stage(p, b) == StageResult(true, b)
    ensures exists s :: Reachable(stage, s) && s.events == [e] && s.eventsBefore == [1] && s.eventsAt == [0]
  {
    var s := DispatchAfterDrain(stage, e);
    ReachableStep(stage, s, Wake);
    s := s.(eSend := 0, work := WWoken);
    ReachableStep(stage, s, Peek);
    s := s.(work := WOwns(0));
    ReachableStep(stage, s, Process(Silence()));
    s := WorkerApply(stage, s, Process(Silence()));
    assert s.eventsAt == [0];
  }

  /** dispatch never writes instance_id, so every frame the worker processes carries id 0 and all of
      them share one state buffer. */
  lemma EveryFrameHasInstanceZero(stage: Stage, s: State)
    requires Reachable(stage, s) && s.work.WOwns?
    ensures s.work.slot < |s.inq.data| && s.inq.data[s.work.slot].instanceId == 0
  {
    ReachableInv(stage, s);
  }

  /** After a failed stage no new dispatch gets past the error check: at most the one already past it
      commits its frame. */
  lemma {:induction false} FailureStopsDispatch(stage: Stage, s: State, steps: seq<Step>)
    requires Legal(stage, s, steps) && s.failed
    ensures var e := Exec(stage, s, steps);
      |s.args| <= |e.args| <= |s.args| + (if s.disp.DIdle? || s.disp.DCommitted? then 0 else 1)
    decreases |steps|
  {
    if steps != [] {
      FailureStopsDispatch(stage, Apply(stage, s, steps[0]), steps[1..]);
    }
  }
}
