/** What every reachable state of the audio pipeline keeps. Each clause of the invariant speaks about
    the few members it needs, so that a step leaves most of them alone. */
module PipelineProof {
  import opened Control
  import opened Frame
  import opened Ring
  import opened Selection
  import opened SlotQueue
  import opened Pipeline

  // ---- The input side ----

  /** The worker has an input frame that it has not yet committed as read. */
  predicate Holding(w: WorkerPc) {
    w.WOwns? || w.WProcessed? || w.WReservedOut? || w.WFillingOut? || w.WRelease?
  }

  /** It has also run the stage on that frame, in place. */
  predicate Worked(w: WorkerPc) {
    w.WProcessed? || w.WReservedOut? || w.WFillingOut? || w.WRelease?
  }

  ghost predicate CountInv(s: State) {
    && |s.args| == |s.blocksIn| == |s.eventsBefore| && |s.eventsAt| == |s.blocksOut|
    && s.released <= |s.blocksIn|
    && |s.blocksOut| == s.released + (if Worked(s.work) then 1 else 0)
    && |s.fates| == s.released + (if s.work.WRelease? then 1 else 0)
    && (Holding(s.work) ==> s.released < |s.blocksIn|)
  }

  /** The blocks now in in_queue; the oldest is the stage's result once the worker has run it. */
  ghost function InQueue(s: State): (q: seq<Block>)
    requires CountInv(s)
    ensures |q| == |s.blocksIn| - s.released
  {
    if Worked(s.work) then [s.blocksOut[s.released]] + s.blocksIn[s.released + 1..] else s.blocksIn[s.released..]
  }

  /** Committed blocks are the clamped buffers of the calls behind them. */
  ghost predicate ClampInv(args: seq<DispatchArgs>, blocks: seq<Block>) {
    |args| == |blocks| && forall i | 0 <= i < |args| :: ValidArgs(args[i]) && blocks[i] == ClampedBlock(args[i])
  }

  ghost predicate DispatchPcInv(disp: DispatchPc, inq: RingState<AudioFrame>, size: nat)
    requires Sized(inq)
  {
    match disp
    case DIdle => true
    case DCommitted => true
    case DChecked(args) => ValidArgs(args)
    case DReserved(args, slot) => ValidArgs(args) && slot == inq.tail && size < DEPTH - 1
    case DFilling(args, slot, next) =>
      ValidArgs(args) && slot == inq.tail && size < DEPTH - 1 && FilledTo(inq.data[slot], ClampedBlock(args), next)
  }

  /** The slot the worker works in is the oldest one of in_queue. */
  ghost predicate WorkerSlotInv(work: WorkerPc, head: nat) {
    work.WOwns? || work.WProcessed? || work.WReservedOut? || work.WFillingOut? ==> work.slot == head
  }

  /** dispatch never sets instance_id. */
  ghost predicate NoInstanceIds(inq: RingState<AudioFrame>) {
    forall i | 0 <= i < |inq.data| :: inq.data[i].instanceId == 0
  }

  /** in_queue holds the blocks `q`, the oldest being number `lo`, and both sides know their slot. */
  ghost predicate InView(inq: RingState<AudioFrame>, lo: nat, q: seq<Block>, disp: DispatchPc, work: WorkerPc) {
    && RingHolds(inq, lo, q)
    && DispatchPcInv(disp, inq, |q|)
    && WorkerSlotInv(work, inq.head)
    && NoInstanceIds(inq)
  }

  ghost predicate InInv(s: State)
    requires CountInv(s)
  {
    InView(s.inq, s.released, InQueue(s), s.disp, s.work) && ClampInv(s.args, s.blocksIn)
  }

  // ---- The output side ----

  /** The blocks that found room in out_queue, in order. */
  ghost function Delivered(s: State): (q: seq<Block>)
    requires |s.fates| <= |s.blocksOut|
  {
    Kept(s.blocksOut, s.fates)
  }

  ghost predicate OutRingInv(outq: RingState<AudioFrame>, read: nat, outs: seq<Block>) {
    read <= |outs| && RingHolds(outq, read, outs[read..])
  }

  /** The slot the worker fills in out_queue is the free one behind the newest block. */
  ghost predicate FillInv(work: WorkerPc, outq: RingState<AudioFrame>, size: int, blocksOut: seq<Block>, released: nat)
    requires Sized(outq)
  {
    && (work.WReservedOut? || work.WFillingOut? ==> work.out == outq.tail && size < DEPTH - 1)
    && (work.WFillingOut? ==>
          && released < |blocksOut| && ValidBlock(blocksOut[released])
          && FilledTo(outq.data[work.out], blocksOut[released], work.next))
  }

  ghost predicate ReaderPcInv(reader: ReaderPc, outq: RingState<AudioFrame>, read: nat, outs: seq<Block>) {
    reader.ROwns? ==>
      && reader.slot == outq.head && read < |outs| && ValidBlock(outs[read])
      && reader.next <= ReadChannels(outs[read], reader.channels)
      && Received(reader.before, reader.buffers, outs[read], reader.next)
  }

  /** Each successful read_output handed the caller the next delivered block. */
  ghost predicate ReadBackInv(readBack: seq<Read>, outs: seq<Block>) {
    |readBack| <= |outs| && forall k | 0 <= k < |readBack| :: IsCopyOf(readBack[k], outs[k])
  }

  ghost predicate IsCopyOf(r: Read, b: Block) {
    r.block == b && ValidBlock(b) && Received(r.before, r.after, b, ReadChannels(b, r.channels))
  }

  ghost predicate OutInv(s: State)
    requires CountInv(s)
  {
    && (forall b | b in s.blocksOut :: ValidBlock(b))
    && OutRingInv(s.outq, |s.readBack|, Delivered(s))
    && FillInv(s.work, s.outq, |Delivered(s)| - |s.readBack|, s.blocksOut, s.released)
    && ReaderPcInv(s.reader, s.outq, |s.readBack|, Delivered(s))
    && ReadBackInv(s.readBack, Delivered(s))
  }

  // ---- Signals ----

  /** Every frame in in_queue is accounted for: its signal is pending, was merged into another wakeup,
      failed, is about to be sent, or has woken the worker. */
  ghost predicate SendInv(s: State) {
    |s.blocksIn| - s.released ==
      s.eSend + s.stuck + s.unsignalled
      + (if s.disp.DCommitted? then 1 else 0)
      + (if s.work.WWoken? || Holding(s.work) then 1 else 0)
  }

  /** Every wakeup the reader has had or can get is covered by a frame in out_queue. */
  ghost predicate RecvInv(s: State)
    requires |s.fates| <= |s.blocksOut|
  {
    |Delivered(s)| - |s.readBack| >=
      (if s.reader.RIdle? then 0 else 1)
      + (if s.eRecv > 0 then 1 else 0)
      + (if s.work.WRelease? || s.work.WNotify? then 1 else 0)
  }

  // ---- Control events and the stage ----

  ghost predicate BusInv(events: seq<ControlEvent>, control: seq<ControlEvent>, applied: nat, params: Params) {
    applied <= |events| && control == events[applied..] && params == ApplyAll(events[..applied])
  }

  /** Past the drain, the worker has applied everything pushed before the frames it has released. */
  ghost predicate DrainInv(work: WorkerPc, eventsBefore: seq<nat>, released: nat, applied: nat) {
    && released <= |eventsBefore|
    && (work.WPoll? || work.WWoken? || work.WOwns? ==> forall n | 0 <= n < released :: eventsBefore[n] <= applied)
  }

  /** Between the drain and the stage nothing is applied, so each frame is processed under exactly the
      events that had been pushed when the bus was last found empty. */
  ghost predicate LastDrainInv(work: WorkerPc, applied: nat, drainedAt: nat, eventsAt: seq<nat>, drains: seq<nat>) {
    && (work.WPoll? || work.WWoken? || work.WOwns? ==> applied == drainedAt)
    && eventsAt == drains
  }

  ghost predicate StaleInv(eventsBefore: seq<nat>, eventsAt: seq<nat>, pushed: nat) {
    && |eventsAt| <= |eventsBefore|
    && (forall n | 0 <= n < |eventsBefore| :: eventsBefore[n] <= pushed)
    && (forall n | 0 <= n < |eventsAt| :: eventsAt[n] <= pushed)
    && forall m, n | 0 <= m < n < |eventsAt| :: eventsBefore[m] <= eventsAt[n]
  }

  ghost predicate StageInv(stage: Stage, events: seq<ControlEvent>, eventsAt: seq<nat>, ins: seq<Block>, outs: seq<Block>) {
    && |eventsAt| == |outs| <= |ins|
    && forall n | 0 <= n < |outs| ::
         eventsAt[n] <= |events| && outs[n] == stage(ApplyAll(events[..eventsAt[n]]), ins[n]).block
  }

  ghost predicate ControlInv(stage: Stage, s: State) {
    && BusInv(s.events, s.control, s.applied, s.params)
    && DrainInv(s.work, s.eventsBefore, s.released, s.applied)
    && LastDrainInv(s.work, s.applied, s.drainedAt, s.eventsAt, s.drains)
    && StaleInv(s.eventsBefore, s.eventsAt, |s.events|)
    && StageInv(stage, s.events, s.eventsAt, s.blocksIn, s.blocksOut)
  }

  ghost predicate Inv(stage: Stage, s: State) {
    && CountInv(s) && InInv(s) && OutInv(s) && SendInv(s) && RecvInv(s) && ControlInv(stage, s)
  }

  // ---- Steps of dispatch ----

  /** Writing into the reserved slot. */
  lemma FillKeepsIn(s: State, step: Step)
    requires CountInv(s) && InInv(s) && (step.WriteHeader? || step.WriteChannel?) && DispatchEnabled(s, step)
    ensures InInv(DispatchApply(s, step))
  {
    var f' := DispatchApply(s, step).inq.data[s.disp.slot];
    RingWriteBehind(s.inq, s.released, InQueue(s), f');
    if step.WriteChannel? {
      PutChannelFills(s.inq.data[s.disp.slot], ClampedBlock(s.disp.args), s.disp.next);
    }
  }

  lemma CommitAppends(s: State)
    requires CountInv(s) && Sized(s.inq) && DispatchEnabled(s, Commit)
    ensures CountInv(DispatchApply(s, Commit))
    ensures InQueue(DispatchApply(s, Commit)) == InQueue(s) + [ClampedBlock(s.disp.args)]
  {
    var b, n := ClampedBlock(s.disp.args), s.released;
    assert (s.blocksIn + [b])[n..] == s.blocksIn[n..] + [b];
    if Worked(s.work) {
      assert (s.blocksIn + [b])[n + 1..] == s.blocksIn[n + 1..] + [b];
    }
  }

  lemma CommitKeepsIn(s: State)
    requires CountInv(s) && InInv(s) && DispatchEnabled(s, Commit)
    ensures CountInv(DispatchApply(s, Commit)) && InInv(DispatchApply(s, Commit))
  {
    CommitAppends(s);
    FilledIsPayload(s.inq.data[s.disp.slot], ClampedBlock(s.disp.args));
    RingPublish(s.inq, s.released, InQueue(s));
  }

  /** Steps that move dispatch on without touching the ring. */
  lemma NewDispatchPcKeepsIn(s: State, disp: DispatchPc, eSend: nat, unsignalled: nat)
    requires CountInv(s) && InInv(s) && DispatchPcInv(disp, s.inq, |s.blocksIn| - s.released)
    ensures var s' := s.(disp := disp, eSend := eSend, unsignalled := unsignalled); CountInv(s') && InInv(s')
  {
  }

  lemma ReserveKeepsIn(s: State)
    requires CountInv(s) && InInv(s) && DispatchEnabled(s, Reserve)
    ensures CountInv(DispatchApply(s, Reserve)) && InInv(DispatchApply(s, Reserve))
  {
    RingTests(s.inq, s.released, InQueue(s));
    var s' := DispatchApply(s, Reserve);
    NewDispatchPcKeepsIn(s, s'.disp, s.eSend, s.unsignalled);
  }

  lemma CheckSignalKeepsIn(s: State, step: Step)
    requires CountInv(s) && InInv(s) && (step.Check? || step.Signal?) && DispatchEnabled(s, step)
    ensures CountInv(DispatchApply(s, step)) && InInv(DispatchApply(s, step))
  {
    var s' := DispatchApply(s, step);
    NewDispatchPcKeepsIn(s, s'.disp, s'.eSend, s'.unsignalled);
  }

  lemma DispatchKeepsIn(s: State, step: Step)
    requires CountInv(s) && InInv(s) && IsDispatch(step) && DispatchEnabled(s, step)
    ensures CountInv(DispatchApply(s, step)) && InInv(DispatchApply(s, step))
  {
    if step.WriteHeader? || step.WriteChannel? {
      FillKeepsIn(s, step);
    } else if step.Commit? {
      CommitKeepsIn(s);
    } else if step.Reserve? {
      ReserveKeepsIn(s);
    } else {
      CheckSignalKeepsIn(s, step);
    }
  }

  /** What dispatch never touches. */
  ghost predicate SameOut(s: State, s': State) {
    && s'.outq == s.outq && s'.work == s.work && s'.reader == s.reader && s'.eRecv == s.eRecv
    && s'.released == s.released && s'.blocksOut == s.blocksOut && s'.fates == s.fates && s'.readBack == s.readBack
  }

  lemma DispatchLeavesOut(s: State, step: Step)
    requires Sized(s.inq) && IsDispatch(step) && DispatchEnabled(s, step)
    ensures SameOut(s, DispatchApply(s, step))
  {
  }

  lemma SameOutKeeps(s: State, s': State)
    requires CountInv(s) && CountInv(s') && SameOut(s, s')
    ensures OutInv(s) ==> OutInv(s')
    ensures RecvInv(s) ==> RecvInv(s')
  {
    assert Delivered(s') == Delivered(s);
  }

  lemma DispatchKeepsOut(s: State, step: Step)
    requires CountInv(s) && OutInv(s) && RecvInv(s) && Sized(s.inq) && IsDispatch(step) && DispatchEnabled(s, step)
    requires CountInv(DispatchApply(s, step))
    ensures OutInv(DispatchApply(s, step)) && RecvInv(DispatchApply(s, step))
  {
    DispatchLeavesOut(s, step);
    SameOutKeeps(s, DispatchApply(s, step));
  }

  lemma DispatchKeepsSend(s: State, step: Step)
    requires SendInv(s) && Sized(s.inq) && IsDispatch(step) && DispatchEnabled(s, step)
    ensures SendInv(DispatchApply(s, step))
  {
  }

  lemma CommitKeepsControl(stage: Stage, s: State)
    requires CountInv(s) && ControlInv(stage, s) && Sized(s.inq) && DispatchEnabled(s, Commit)
    ensures ControlInv(stage, DispatchApply(s, Commit))
  {
  }

  /** What dispatch leaves alone except when it commits. */
  ghost predicate SameControl(s: State, s': State) {
    && s'.events == s.events && s'.control == s.control && s'.applied == s.applied && s'.params == s.params
    && s'.work == s.work && s'.released == s.released && s'.blocksIn == s.blocksIn && s'.blocksOut == s.blocksOut
    && s'.eventsBefore == s.eventsBefore && s'.eventsAt == s.eventsAt && s'.drainedAt == s.drainedAt && s'.drains == s.drains
  }

  lemma DispatchLeavesControl(s: State, step: Step)
    requires Sized(s.inq) && IsDispatch(step) && DispatchEnabled(s, step) && !step.Commit?
    ensures SameControl(s, DispatchApply(s, step))
  {
  }

  lemma DispatchKeepsControl(stage: Stage, s: State, step: Step)
    requires CountInv(s) && ControlInv(stage, s) && Sized(s.inq) && IsDispatch(step) && DispatchEnabled(s, step)
    ensures ControlInv(stage, DispatchApply(s, step))
  {
    if step.Commit? {
      CommitKeepsControl(stage, s);
    } else {
      DispatchLeavesControl(s, step);
    }
  }

  lemma DispatchKeepsInv(stage: Stage, s: State, step: Step)
    requires Inv(stage, s) && IsDispatch(step) && DispatchEnabled(s, step)
    ensures Inv(stage, DispatchApply(s, step))
  {
    DispatchKeepsIn(s, step);
    DispatchKeepsOut(s, step);
    DispatchKeepsSend(s, step);
    DispatchKeepsControl(stage, s, step);
  }

  // ---- Steps of read_output ----

  /** Delivered blocks are among the produced ones, so they are valid. */
  lemma KeptAll(xs: seq<Block>, keep: seq<bool>)
    requires |keep| <= |xs| && forall b | b in xs :: ValidBlock(b)
    ensures forall b | b in Kept(xs, keep) :: ValidBlock(b)
  {
    forall b | b in Kept(xs, keep) ensures ValidBlock(b) {
      KeptComesFrom(xs, keep, b);
    }
  }

  /** The slot being read is the oldest delivered block that has not been read. */
  lemma OldestOut(s: State)
    requires CountInv(s) && OutInv(s) && s.outq.head != s.outq.tail
    ensures var outs, n := Delivered(s), |s.readBack|;
      && n < |outs| && ValidBlock(outs[n])
      && ValidFrame(s.outq.data[s.outq.head]) && PayloadOf(s.outq.data[s.outq.head]) == outs[n]
      && OutRingInv(s.outq.(head := (s.outq.head + 1) % DEPTH), n + 1, outs)
  {
    var outs, n := Delivered(s), |s.readBack|;
    RingTests(s.outq, n, outs[n..]);
    KeptAll(s.blocksOut, s.fates);
    RingRetire(s.outq, n, outs[n..]);
    assert outs[n..][1..] == outs[n + 1..];
  }

  lemma ReaderSlotIsOldest(s: State)
    requires CountInv(s) && OutInv(s) && s.reader.ROwns?
    ensures s.outq.head != s.outq.tail
  {
    RingTests(s.outq, |s.readBack|, Delivered(s)[|s.readBack|..]);
  }

  lemma ReadChannelKeepsOut(s: State)
    requires CountInv(s) && OutInv(s) && ReaderEnabled(s, ReadChannel)
    ensures OutInv(ReaderApply(s, ReadChannel))
  {
    ReaderSlotIsOldest(s);
    OldestOut(s);
  }

  lemma CommitReadOutKeepsOut(s: State)
    requires CountInv(s) && OutInv(s) && ReaderEnabled(s, CommitReadOut)
    ensures OutInv(ReaderApply(s, CommitReadOut))
  {
    ReaderSlotIsOldest(s);
    OldestOut(s);
  }

  lemma ReaderKeepsOut(s: State, step: Step)
    requires CountInv(s) && OutInv(s) && IsReader(step) && ReaderEnabled(s, step)
    ensures CountInv(ReaderApply(s, step)) && OutInv(ReaderApply(s, step))
  {
    if step.ReadChannel? {
      ReadChannelKeepsOut(s);
    } else if step.CommitReadOut? {
      CommitReadOutKeepsOut(s);
    } else if step.PeekOut? && s.outq.head != s.outq.tail {
      OldestOut(s);
    }
  }

  lemma ReaderKeepsSignals(s: State, step: Step)
    requires CountInv(s) && OutInv(s) && SendInv(s) && RecvInv(s) && IsReader(step) && ReaderEnabled(s, step)
    ensures SendInv(ReaderApply(s, step)) && RecvInv(ReaderApply(s, step))
  {
  }

  lemma ReaderKeepsIn(s: State, step: Step)
    requires CountInv(s) && InInv(s) && Sized(s.outq) && IsReader(step) && ReaderEnabled(s, step)
    ensures CountInv(ReaderApply(s, step)) && InInv(ReaderApply(s, step))
  {
  }

  lemma ReaderKeepsInv(stage: Stage, s: State, step: Step)
    requires Inv(stage, s) && IsReader(step) && ReaderEnabled(s, step)
    ensures Inv(stage, ReaderApply(s, step))
  {
    ReaderKeepsOut(s, step);
    ReaderKeepsIn(s, step);
    ReaderKeepsSignals(s, step);
  }

  // ---- Steps of the worker ----

  /** Running the stage in place replaces the oldest input block by the stage's result. */
  lemma ProcessReplaces(stage: Stage, s: State, after: AudioFrame)
    requires CountInv(s) && Sized(s.inq) && Sized(s.outq) && WorkerEnabled(stage, s, Process(after))
    ensures var s' := WorkerApply(stage, s, Process(after));
      CountInv(s') && InQueue(s) != [] && InQueue(s') == InQueue(s)[0 := PayloadOf(after)]
  {
  }

  lemma ProcessKeepsIn(stage: Stage, s: State, after: AudioFrame)
    requires CountInv(s) && InInv(s) && Sized(s.outq) && WorkerEnabled(stage, s, Process(after))
    ensures CountInv(WorkerApply(stage, s, Process(after))) && InInv(WorkerApply(stage, s, Process(after)))
  {
    ProcessReplaces(stage, s, after);
    RingRework(s.inq, s.released, InQueue(s), after);
    RingTests(s.inq, s.released, InQueue(s));
  }

  lemma CommitReadRetires(stage: Stage, s: State)
    requires CountInv(s) && Sized(s.inq) && Sized(s.outq) && WorkerEnabled(stage, s, CommitRead)
    ensures var s' := WorkerApply(stage, s, CommitRead);
      CountInv(s') && InQueue(s) != [] && InQueue(s') == InQueue(s)[1..]
  {
  }

  lemma RetireKeepsView(inq: RingState<AudioFrame>, lo: nat, q: seq<Block>, disp: DispatchPc, work: WorkerPc)
    requires InView(inq, lo, q, disp, work) && q != []
    ensures InView(inq.(head := (inq.head + 1) % DEPTH), lo + 1, q[1..], disp, WNotify)
  {
    RingRetire(inq, lo, q);
  }

  lemma RetiredKeepsIn(s: State, s': State)
    requires CountInv(s) && InInv(s) && CountInv(s') && InQueue(s) != [] && InQueue(s') == InQueue(s)[1..]
    requires s' == s.(inq := s.inq.(head := (s.inq.head + 1) % DEPTH), work := WNotify, released := s.released + 1)
    ensures InInv(s')
  {
    RetireKeepsView(s.inq, s.released, InQueue(s), s.disp, s.work);
  }

  lemma CommitReadKeepsIn(stage: Stage, s: State)
    requires CountInv(s) && InInv(s) && Sized(s.outq) && WorkerEnabled(stage, s, CommitRead)
    ensures CountInv(WorkerApply(stage, s, CommitRead)) && InInv(WorkerApply(stage, s, CommitRead))
  {
    CommitReadRetires(stage, s);
    RetiredKeepsIn(s, WorkerApply(stage, s, CommitRead));
  }

  predicate IsWorker(step: Step) {
    !IsDispatch(step) && !IsReader(step) && !step.SetParam?
  }

  /** A successful wait on e_send always finds a frame: peek_read is never null after it. */
  lemma WakeFindsInput(s: State)
    requires CountInv(s) && InInv(s) && SendInv(s) && s.work.WWoken?
    ensures s.inq.head != s.inq.tail && s.released < |s.blocksIn|
  {
    RingTests(s.inq, s.released, InQueue(s));
  }

  lemma PeekKeepsIn(stage: Stage, s: State)
    requires CountInv(s) && InInv(s) && SendInv(s) && Sized(s.outq) && WorkerEnabled(stage, s, Peek)
    ensures CountInv(WorkerApply(stage, s, Peek)) && InInv(WorkerApply(stage, s, Peek))
  {
    WakeFindsInput(s);
  }

  lemma ReserveOutKeepsIn(stage: Stage, s: State)
    requires CountInv(s) && InInv(s) && Sized(s.outq) && WorkerEnabled(stage, s, ReserveOut)
    ensures CountInv(WorkerApply(stage, s, ReserveOut)) && InInv(WorkerApply(stage, s, ReserveOut))
  {
  }

  lemma FillOutKeepsIn(stage: Stage, s: State, step: Step)
    requires CountInv(s) && InInv(s) && Sized(s.outq) && WorkerEnabled(stage, s, step)
    requires step.WriteHeaderOut? || step.WriteChannelOut? || step.CommitOut?
    ensures CountInv(WorkerApply(stage, s, step)) && InInv(WorkerApply(stage, s, step))
  {
  }

  /** The steps between frames. */
  predicate IsIdling(step: Step) {
    step.ApplyControl? || step.ControlDrained? || step.PollTimeout? || step.Wake? || step.Notify?
  }

  lemma IdlingKeepsIn(stage: Stage, s: State, step: Step)
    requires CountInv(s) && InInv(s) && Sized(s.outq) && WorkerEnabled(stage, s, step) && IsIdling(step)
    ensures CountInv(WorkerApply(stage, s, step)) && InInv(WorkerApply(stage, s, step))
  {
  }

  lemma WorkerKeepsIn(stage: Stage, s: State, step: Step)
    requires CountInv(s) && InInv(s) && SendInv(s) && Sized(s.outq) && IsWorker(step) && WorkerEnabled(stage, s, step)
    ensures CountInv(WorkerApply(stage, s, step)) && InInv(WorkerApply(stage, s, step))
  {
    if step.Process? {
      ProcessKeepsIn(stage, s, step.after);
    } else if step.CommitRead? {
      CommitReadKeepsIn(stage, s);
    } else if step.Peek? {
      PeekKeepsIn(stage, s);
    } else if step.ReserveOut? {
      ReserveOutKeepsIn(stage, s);
    } else if IsIdling(step) {
      IdlingKeepsIn(stage, s, step);
    } else {
      FillOutKeepsIn(stage, s, step);
    }
  }

  // ---- The worker and out_queue ----

  lemma ProcessKeepsOut(stage: Stage, s: State, after: AudioFrame)
    requires CountInv(s) && OutInv(s) && Sized(s.inq) && WorkerEnabled(stage, s, Process(after))
    requires CountInv(WorkerApply(stage, s, Process(after)))
    ensures OutInv(WorkerApply(stage, s, Process(after)))
    ensures Delivered(WorkerApply(stage, s, Process(after))) == Delivered(s)
  {
    KeptIgnoresLater(s.blocksOut, [PayloadOf(after)], s.fates);
  }

  lemma NewWorkKeepsOut(s: State, work: WorkerPc, fates: seq<bool>)
    requires CountInv(s) && OutInv(s) && |fates| <= |s.blocksOut| && Kept(s.blocksOut, fates) == Delivered(s)
    requires CountInv(s.(work := work, fates := fates))
    requires FillInv(work, s.outq, |Delivered(s)| - |s.readBack|, s.blocksOut, s.released)
    ensures OutInv(s.(work := work, fates := fates))
  {
  }

  lemma ReserveOutKeepsOut(stage: Stage, s: State)
    requires CountInv(s) && OutInv(s) && Sized(s.inq) && WorkerEnabled(stage, s, ReserveOut)
    ensures CountInv(WorkerApply(stage, s, ReserveOut)) && OutInv(WorkerApply(stage, s, ReserveOut))
    ensures Delivered(WorkerApply(stage, s, ReserveOut)) == Delivered(s)
    ensures WorkerApply(stage, s, ReserveOut).work.WRelease? ==> |Delivered(s)| - |s.readBack| == DEPTH - 1
  {
    RingTests(s.outq, |s.readBack|, Delivered(s)[|s.readBack|..]);
    KeptOneMore(s.blocksOut, s.fates, false);
    var s' := WorkerApply(stage, s, ReserveOut);
    NewWorkKeepsOut(s, s'.work, s'.fates);
  }

  /** A write to the reserved output slot leaves everything delivered as it is. */
  lemma SlotWriteKeepsOut(s: State, f: AudioFrame, next: nat)
    requires CountInv(s) && OutInv(s) && (s.work.WReservedOut? || s.work.WFillingOut?) && s.released < |s.blocksOut|
    requires ValidBlock(s.blocksOut[s.released]) && FilledTo(f, s.blocksOut[s.released], next)
    ensures var s' := s.(outq := s.outq.(data := s.outq.data[s.work.out := f]), work := WFillingOut(s.work.slot, s.work.out, next));
      CountInv(s') && OutInv(s')
  {
    var outs, n := Delivered(s), |s.readBack|;
    RingTests(s.outq, n, outs[n..]);
    RingWriteBehind(s.outq, n, outs[n..], f);
  }

  /** What the worker copies out is the stage's result. */
  lemma WorkedFrame(s: State)
    requires CountInv(s) && InInv(s) && (s.work.WReservedOut? || s.work.WFillingOut?)
    ensures s.released < |s.blocksOut| && s.work.slot == s.inq.head
    ensures ValidFrame(s.inq.data[s.inq.head]) && PayloadOf(s.inq.data[s.inq.head]) == s.blocksOut[s.released]
  {
    RingRetire(s.inq, s.released, InQueue(s));
  }

  /** Writing into the reserved output slot: the worker copies the stage's result, channel by channel. */
  lemma FillOutKeepsOut(stage: Stage, s: State, step: Step)
    requires CountInv(s) && InInv(s) && OutInv(s) && WorkerEnabled(stage, s, step)
    requires step.WriteHeaderOut? || step.WriteChannelOut?
    ensures CountInv(WorkerApply(stage, s, step)) && OutInv(WorkerApply(stage, s, step))
  {
    WorkedFrame(s);
    var slot, b := s.outq.data[s.work.out], s.blocksOut[s.released];
    if step.WriteHeaderOut? {
      SlotWriteKeepsOut(s, PutHeader(slot, b), 0);
    } else {
      PutChannelFills(slot, b, s.work.next);
      SlotWriteKeepsOut(s, PutChannel(slot, s.work.next, b.channels[s.work.next]), s.work.next + 1);
    }
  }

  lemma PublishOut(outq: RingState<AudioFrame>, read: nat, outs: seq<Block>, b: Block)
    requires OutRingInv(outq, read, outs) && |outs| - read < DEPTH - 1
    requires ValidFrame(outq.data[outq.tail]) && PayloadOf(outq.data[outq.tail]) == b
    ensures OutRingInv(outq.(tail := (outq.tail + 1) % DEPTH), read, outs + [b])
  {
    RingPublish(outq, read, outs[read..]);
    assert (outs + [b])[read..] == outs[read..] + [b];
  }

  lemma CommitOutPublishes(stage: Stage, s: State)
    requires CountInv(s) && InInv(s) && OutInv(s) && WorkerEnabled(stage, s, CommitOut)
    ensures OutRingInv(s.outq.(tail := (s.outq.tail + 1) % DEPTH), |s.readBack|, Delivered(s) + [s.blocksOut[s.released]])
  {
    var b := s.blocksOut[s.released];
    RingRetire(s.inq, s.released, InQueue(s));
    FilledIsPayload(s.outq.data[s.work.out], b);
    PublishOut(s.outq, |s.readBack|, Delivered(s), b);
  }

  /** One delivered block more, at the end, leaves what the reader has done and is doing as it is. */
  lemma MoreDelivered(reader: ReaderPc, outq: RingState<AudioFrame>, tail: nat, readBack: seq<Read>, outs: seq<Block>, b: Block)
    requires ReaderPcInv(reader, outq, |readBack|, outs) && ReadBackInv(readBack, outs)
    ensures ReaderPcInv(reader, outq.(tail := tail), |readBack|, outs + [b]) && ReadBackInv(readBack, outs + [b])
  {
  }

  lemma CommitOutKeepsOut(stage: Stage, s: State)
    requires CountInv(s) && InInv(s) && OutInv(s) && WorkerEnabled(stage, s, CommitOut)
    ensures CountInv(WorkerApply(stage, s, CommitOut)) && OutInv(WorkerApply(stage, s, CommitOut))
    ensures Delivered(WorkerApply(stage, s, CommitOut)) == Delivered(s) + [s.blocksOut[s.released]]
  {
    var outs, b, s' := Delivered(s), s.blocksOut[s.released], WorkerApply(stage, s, CommitOut);
    CommitOutPublishes(stage, s);
    KeptOneMore(s.blocksOut, s.fates, true);
    MoreDelivered(s.reader, s.outq, s'.outq.tail, s.readBack, outs, b);
    assert Delivered(s') == outs + [b];
  }

  lemma RestKeepsOut(stage: Stage, s: State, step: Step)
    requires CountInv(s) && OutInv(s) && Sized(s.inq) && WorkerEnabled(stage, s, step)
    requires IsIdling(step) || step.Peek? || step.CommitRead?
    requires CountInv(WorkerApply(stage, s, step))
    ensures OutInv(WorkerApply(stage, s, step))
  {
  }

  lemma WorkerKeepsOut(stage: Stage, s: State, step: Step)
    requires CountInv(s) && InInv(s) && OutInv(s) && IsWorker(step) && WorkerEnabled(stage, s, step)
    requires CountInv(WorkerApply(stage, s, step))
    ensures OutInv(WorkerApply(stage, s, step))
  {
    if step.Process? {
      ProcessKeepsOut(stage, s, step.after);
    } else if step.ReserveOut? {
      ReserveOutKeepsOut(stage, s);
    } else if step.WriteHeaderOut? || step.WriteChannelOut? {
      FillOutKeepsOut(stage, s, step);
    } else if step.CommitOut? {
      CommitOutKeepsOut(stage, s);
    } else {
      RestKeepsOut(stage, s, step);
    }
  }

  // ---- The worker, the signals and the control bus ----

  lemma WorkerKeepsSend(stage: Stage, s: State, step: Step)
    requires CountInv(s) && InInv(s) && SendInv(s) && Sized(s.outq) && IsWorker(step) && WorkerEnabled(stage, s, step)
    ensures SendInv(WorkerApply(stage, s, step))
  {
    if step.Peek? {
      WakeFindsInput(s);
    }
  }

  lemma RestKeepsRecv(stage: Stage, s: State, step: Step)
    requires CountInv(s) && RecvInv(s) && Sized(s.inq) && Sized(s.outq) && IsWorker(step) && WorkerEnabled(stage, s, step)
    requires !step.Process? && !step.ReserveOut? && !step.CommitOut?
    ensures |WorkerApply(stage, s, step).fates| <= |WorkerApply(stage, s, step).blocksOut| && RecvInv(WorkerApply(stage, s, step))
  {
  }

  lemma WorkerKeepsRecv(stage: Stage, s: State, step: Step)
    requires CountInv(s) && InInv(s) && OutInv(s) && RecvInv(s)
    requires IsWorker(step) && WorkerEnabled(stage, s, step) && CountInv(WorkerApply(stage, s, step))
    ensures RecvInv(WorkerApply(stage, s, step))
  {
    if step.Process? {
      ProcessKeepsOut(stage, s, step.after);
    } else if step.ReserveOut? {
      ReserveOutKeepsOut(stage, s);
    } else if step.CommitOut? {
      CommitOutKeepsOut(stage, s);
    } else {
      RestKeepsRecv(stage, s, step);
    }
  }

  lemma ApplyControlKeepsBus(s: State)
    requires BusInv(s.events, s.control, s.applied, s.params) && s.control != []
    ensures BusInv(s.events, s.control[1..], s.applied + 1, ApplyEvent(s.params, s.control[0]))
  {
    assert s.events[..s.applied + 1][..s.applied] == s.events[..s.applied];
  }

  lemma ProcessKeepsStage(stage: Stage, s: State, after: AudioFrame)
    requires CountInv(s) && InInv(s) && ControlInv(stage, s) && Sized(s.outq) && WorkerEnabled(stage, s, Process(after))
    ensures ControlInv(stage, WorkerApply(stage, s, Process(after)))
  {
    RingRetire(s.inq, s.released, InQueue(s));
  }

  lemma ApplyControlKeepsControl(stage: Stage, s: State)
    requires CountInv(s) && ControlInv(stage, s) && Sized(s.inq) && Sized(s.outq) && WorkerEnabled(stage, s, ApplyControl)
    ensures ControlInv(stage, WorkerApply(stage, s, ApplyControl))
  {
    ApplyControlKeepsBus(s);
  }

  lemma RestKeepsControl(stage: Stage, s: State, step: Step)
    requires CountInv(s) && ControlInv(stage, s) && Sized(s.inq) && Sized(s.outq)
    requires IsWorker(step) && WorkerEnabled(stage, s, step) && !step.ApplyControl? && !step.Process?
    ensures ControlInv(stage, WorkerApply(stage, s, step))
  {
  }

  lemma WorkerKeepsControl(stage: Stage, s: State, step: Step)
    requires CountInv(s) && InInv(s) && ControlInv(stage, s) && Sized(s.outq)
    requires IsWorker(step) && WorkerEnabled(stage, s, step) && CountInv(WorkerApply(stage, s, step))
    ensures ControlInv(stage, WorkerApply(stage, s, step))
  {
    if step.ApplyControl? {
      ApplyControlKeepsControl(stage, s);
    } else if step.Process? {
      ProcessKeepsStage(stage, s, step.after);
    } else {
      RestKeepsControl(stage, s, step);
    }
  }

  lemma NewEventKeepsBus(events: seq<ControlEvent>, control: seq<ControlEvent>, applied: nat, params: Params, e: ControlEvent)
    requires BusInv(events, control, applied, params)
    ensures BusInv(events + [e], control + [e], applied, params)
  {
    assert (events + [e])[applied..] == events[applied..] + [e];
    assert (events + [e])[..applied] == events[..applied];
  }

  lemma NewEventKeepsStage(
      stage: Stage, events: seq<ControlEvent>, eventsAt: seq<nat>, ins: seq<Block>, outs: seq<Block>, e: ControlEvent)
    requires StageInv(stage, events, eventsAt, ins, outs)
    ensures StageInv(stage, events + [e], eventsAt, ins, outs)
  {
    forall n | 0 <= n < |outs| ensures (events + [e])[..eventsAt[n]] == events[..eventsAt[n]] {
    }
  }

  lemma SetParamKeepsControl(stage: Stage, s: State, event: ControlEvent)
    requires ControlInv(stage, s)
    ensures ControlInv(stage, SetParamApply(s, event))
  {
    NewEventKeepsBus(s.events, s.control, s.applied, s.params, event);
    NewEventKeepsStage(stage, s.events, s.eventsAt, s.blocksIn, s.blocksOut, event);
  }

  lemma SetParamKeepsIn(s: State, event: ControlEvent)
    requires CountInv(s) && InInv(s)
    ensures var s' := SetParamApply(s, event); CountInv(s') && InInv(s')
  {
    var s' := SetParamApply(s, event);
    assert InQueue(s') == InQueue(s);
  }

  lemma SetParamKeepsOut(s: State, event: ControlEvent)
    requires CountInv(s) && OutInv(s)
    ensures var s' := SetParamApply(s, event); CountInv(s') && OutInv(s')
  {
    var s' := SetParamApply(s, event);
    assert Delivered(s') == Delivered(s);
  }

  lemma SetParamKeepsInv(stage: Stage, s: State, event: ControlEvent)
    requires Inv(stage, s)
    ensures Inv(stage, SetParamApply(s, event))
  {
    SetParamKeepsControl(stage, s, event);
    SetParamKeepsIn(s, event);
    SetParamKeepsOut(s, event);
  }

  lemma StepKeepsInv(stage: Stage, s: State, step: Step)
    requires Inv(stage, s) && Enabled(stage, s, step)
    ensures Inv(stage, Apply(stage, s, step))
  {
    if IsDispatch(step) {
      DispatchKeepsInv(stage, s, step);
    } else if IsReader(step) {
      ReaderKeepsInv(stage, s, step);
    } else if step.SetParam? {
      SetParamKeepsInv(stage, s, step.event);
    } else {
      WorkerKeepsIn(stage, s, step);
      WorkerKeepsOut(stage, s, step);
      WorkerKeepsSend(stage, s, step);
      WorkerKeepsRecv(stage, s, step);
      WorkerKeepsControl(stage, s, step);
    }
  }

  lemma InitHasInv(stage: Stage)
    ensures Inv(stage, Init())
  {
    assert Init().events[..0] == [];
  }

  lemma {:induction false} RunKeepsInv(stage: Stage, s: State, steps: seq<Step>)
    requires Inv(stage, s) && Legal(stage, s, steps)
    ensures Inv(stage, Exec(stage, s, steps))
    decreases |steps|
  {
    if steps != [] {
      StepKeepsInv(stage, s, steps[0]);
      RunKeepsInv(stage, Apply(stage, s, steps[0]), steps[1..]);
    }
  }
}
