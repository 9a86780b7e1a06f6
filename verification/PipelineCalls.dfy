/** The steps of one wakeup of the worker and of one read_output, taken without interruption, have the
    effect of the calls as single operations (WorkerProcess.ServeFrame and SdkContext.ReadOutput).
    DispatchRun in PipelineProgress.dfy says the same of dispatch. */
module PipelineCalls {
  import opened Frame
  import opened Ring
  import opened Selection
  import opened SlotQueue
  import opened Pipeline
  import opened PipelineProof
  import opened PipelineTheorems
  import opened PipelineProgress

  /** The blocks now in out_queue. */
  ghost function OutQueue(s: State): (q: seq<Block>)
    requires |s.fates| <= |s.blocksOut| && |s.readBack| <= |Delivered(s)|
  {
    Delivered(s)[|s.readBack|..]
  }

  /** The frames in the two rings mean the blocks of the two queues. */
  lemma QueuesMean(stage: Stage, s: State)
    requires Inv(stage, s)
    ensures ValidRing(s.inq) && ValidRing(s.outq)
    ensures (forall f | f in Contents(s.inq) :: ValidFrame(f)) && Payloads(Contents(s.inq)) == InQueue(s)
    ensures (forall f | f in Contents(s.outq) :: ValidFrame(f)) && Payloads(Contents(s.outq)) == OutQueue(s)
  {
    ContentsMean(s.inq, s.released, InQueue(s));
    ContentsMean(s.outq, |s.readBack|, OutQueue(s));
  }

  /** The effect of one wakeup of the worker, as ServeFrame promises it. */
  ghost predicate OneWakeup(stage: Stage, s: State, t: State, notifyOk: bool)
    requires CountInv(s) && CountInv(t) && |s.readBack| <= |Delivered(s)| && |t.readBack| <= |Delivered(t)|
    requires InQueue(s) != []
  {
    var r := stage(s.params, InQueue(s)[0]);
    && PassesOne(InQueue(s), InQueue(t), OutQueue(s), OutQueue(t), r.block, DEPTH - 1)
    && t.eSend == 0 && t.failed == (s.failed || !r.ok)
    && t.eRecv == s.eRecv + (if notifyOk then 1 else 0)
    && t.disp == s.disp && t.readBack == s.readBack
  }

  lemma NewDelivery(blocks: seq<Block>, fates: seq<bool>, b: Block, room: bool)
    requires |fates| == |blocks|
    ensures Kept(blocks + [b], fates + [room]) == Kept(blocks, fates) + if room then [b] else []
  {
    KeptOneMore(blocks + [b], fates, room);
    KeptIgnoresLater(blocks, [b], fates);
  }

  lemma WakeStep(stage: Stage, s: State)
    requires Inv(stage, s) && s.work.WPoll? && s.eSend > 0
    ensures var s' := WorkerApply(stage, s, Wake);
      && Enabled(stage, s, Wake) && Apply(stage, s, Wake) == s' && Inv(stage, s')
      && s'.released < |s'.blocksIn| && ValidRing(s'.outq)
  {
    StepKeepsInv(stage, s, Wake);
    OutTests(stage, WorkerApply(stage, s, Wake));
  }

  lemma NotifyStep(stage: Stage, s: State, ok: bool)
    requires Inv(stage, s) && s.work.WNotify?
    ensures var t := s.(eRecv := if ok then s.eRecv + 1 else s.eRecv, work := WTop);
      Enabled(stage, s, Notify(ok)) && Apply(stage, s, Notify(ok)) == t && Inv(stage, t)
  {
    StepKeepsInv(stage, s, Notify(ok));
  }

  /** What the queues hold after the frame that `foreseen` speaks about has been released. */
  lemma ReleasedQueues(stage: Stage, s: State, t: State)
    requires CountInv(s) && CountInv(t) && s.work.WWoken? && t.work.WTop? && s.released < |s.blocksIn|
    requires t.released == s.released + 1 && t.blocksIn == s.blocksIn
    requires |s.readBack| <= |Delivered(s)| && t.readBack == s.readBack
    requires ValidRing(s.outq) && |Contents(s.outq)| == |Delivered(s)| - |s.readBack|
    requires t.blocksOut == Foreseen(stage, s).blocksOut && t.fates == Foreseen(stage, s).fates
    ensures |s.readBack| <= |Delivered(t)| && InQueue(s) != []
    ensures InQueue(t) == InQueue(s)[1..] && InQueue(s)[0] == s.blocksIn[s.released]
    ensures OutQueue(t) == if |OutQueue(s)| < DEPTH - 1
                           then OutQueue(s) + [stage(s.params, InQueue(s)[0]).block] else OutQueue(s)
  {
    NewDelivery(s.blocksOut, s.fates, stage(s.params, s.blocksIn[s.released]).block, |Contents(s.outq)| < DEPTH - 1);
  }

  lemma ServeAfterWake(stage: Stage, s: State, notifyOk: bool) returns (t: State)
    requires Inv(stage, s) && InPlace(stage) && s.work.WWoken? && s.released < |s.blocksIn| && ValidRing(s.outq)
    ensures LeadsBy(Serving, stage, s, t) && Inv(stage, t) && t.work.WTop? && SameCalls(s, t) && t.released == s.released + 1
    ensures OutcomeOf(t).(eRecv := s.eRecv) == Foreseen(stage, s)
    ensures t.eRecv == s.eRecv + (if notifyOk then 1 else 0)
  {
    var u := ServingReleases(stage, s);
    NotifyStep(stage, u, notifyOk);
    t := Apply(stage, u, Notify(notifyOk));
    Here(stage, t, Serving);
    FirstStep(stage, u, Notify(notifyOk), t, Serving);
    Then(stage, s, u, t, Serving);
  }

  lemma ServedIsOneWakeup(stage: Stage, s: State, t: State, notifyOk: bool)
    requires CountInv(s) && CountInv(t) && s.work.WPoll? && t.work.WTop? && s.released < |s.blocksIn|
    requires |s.readBack| <= |Delivered(s)| && ValidRing(s.outq) && |Contents(s.outq)| == |Delivered(s)| - |s.readBack|
    requires var s' := s.(eSend := 0, stuck := t.stuck, work := WWoken);
      && SameCalls(s', t) && t.released == s.released + 1
      && OutcomeOf(t).(eRecv := s.eRecv) == Foreseen(stage, s') && t.eRecv == s.eRecv + (if notifyOk then 1 else 0)
    ensures InQueue(s) != [] && |t.readBack| <= |Delivered(t)| && OneWakeup(stage, s, t, notifyOk)
  {
    var s' := s.(eSend := 0, stuck := t.stuck, work := WWoken);
    assert InQueue(s') == InQueue(s) && OutQueue(s') == OutQueue(s);
    ReleasedQueues(stage, s', t);
  }

  /** A wakeup of the worker, the read of e_send first and then serving steps only, has the effect of
      the turn as one operation. */
  lemma WakeupRun(stage: Stage, s: State, notifyOk: bool) returns (t: State)
    requires Inv(stage, s) && InPlace(stage) && s.work.WPoll? && s.eSend > 0
    ensures Enabled(stage, s, Wake) && LeadsBy(Serving, stage, Apply(stage, s, Wake), t) && Inv(stage, t)
    ensures InQueue(s) != [] && t.work.WTop? && OneWakeup(stage, s, t, notifyOk)
  {
    WakeStep(stage, s);
    var s' := WorkerApply(stage, s, Wake);
    OutTests(stage, s');
    t := ServeAfterWake(stage, s', notifyOk);
    ServedIsOneWakeup(stage, s, t, notifyOk);
  }

  // ---- read_output ----

  /** The oldest output block, while the reader owns its slot. */
  lemma OwnedOut(stage: Stage, s: State)
    requires Inv(stage, s) && s.reader.ROwns?
    ensures s.reader.slot < DEPTH && |s.readBack| < |Delivered(s)|
    ensures ValidFrame(s.outq.data[s.reader.slot]) && PayloadOf(s.outq.data[s.reader.slot]) == Delivered(s)[|s.readBack|]
    ensures s.reader.next <= ReadChannels(Delivered(s)[|s.readBack|], s.reader.channels)
    ensures Received(s.reader.before, s.reader.buffers, Delivered(s)[|s.readBack|], s.reader.next)
  {
    ReaderSlotIsOldest(s);
    OldestOut(s);
  }

  /** A reader that owns the oldest output block can copy it out and retire it. */
  lemma CopyOutRun(stage: Stage, s: State) returns (t: State)
    requires Inv(stage, s) && s.reader.ROwns? && |s.readBack| < |Delivered(s)|
    requires ReadFits(Delivered(s)[|s.readBack|], s.reader.channels, Sizes(s.reader.before))
    ensures LeadsBy(Reading, stage, s, t) && Inv(stage, t) && |t.readBack| == |s.readBack| + 1 && t.readBack[..|s.readBack|] == s.readBack
    ensures var r := t.readBack[|s.readBack|];
      && t == s.(outq := t.outq, reader := RIdle, readBack := t.readBack)
      && r.channels == s.reader.channels && r.before == s.reader.before && IsCopyOf(r, Delivered(s)[|s.readBack|])
    decreases ReadChannels(Delivered(s)[|s.readBack|], s.reader.channels) - s.reader.next
  {
    OwnedOut(stage, s);
    var b, c := Delivered(s)[|s.readBack|], s.reader.next;
    if c == ReadChannels(b, s.reader.channels) {
      StepKeepsInv(stage, s, CommitReadOut);
      t := Apply(stage, s, CommitReadOut);
      Here(stage, t, Reading);
      FirstStep(stage, s, CommitReadOut, t, Reading);
    } else {
      assert b.frames <= Sizes(s.reader.before)[c] && s.reader.buffers[c] == s.reader.before[c];
      StepKeepsInv(stage, s, ReadChannel);
      t := CopyOutRun(stage, Apply(stage, s, ReadChannel));
      FirstStep(stage, s, ReadChannel, t, Reading);
    }
  }

  lemma WakeReaderStep(stage: Stage, s: State, buffers: seq<seq<Sample>>, channels: Int32)
    requires Inv(stage, s) && s.reader.RIdle? && s.eRecv > 0
    ensures var t := s.(eRecv := 0, reader := RWoken(buffers, channels));
      && Enabled(stage, s, WakeReader(buffers, channels)) && Apply(stage, s, WakeReader(buffers, channels)) == t
      && Inv(stage, t) && |t.readBack| < |Delivered(t)|
  {
    StepKeepsInv(stage, s, WakeReader(buffers, channels));
  }

  lemma PeekOutStep(stage: Stage, s: State)
    requires Inv(stage, s) && s.reader.RWoken?
    ensures var t := s.(reader := ROwns(s.reader.before, s.reader.channels, s.outq.head, s.reader.before, 0));
      Enabled(stage, s, PeekOut) && Apply(stage, s, PeekOut) == t && Inv(stage, t)
  {
    RingTests(s.outq, |s.readBack|, Delivered(s)[|s.readBack|..]);
    StepKeepsInv(stage, s, PeekOut);
  }

  lemma ReaderWakes(stage: Stage, s: State, buffers: seq<seq<Sample>>, channels: Int32) returns (t: State)
    requires Inv(stage, s) && s.reader.RIdle? && s.eRecv > 0
    ensures Enabled(stage, s, WakeReader(buffers, channels))
    ensures LeadsBy(Reading, stage, Apply(stage, s, WakeReader(buffers, channels)), t)
    ensures Inv(stage, t) && |s.readBack| < |Delivered(s)|
    ensures t == s.(eRecv := 0, reader := ROwns(buffers, channels, s.outq.head, buffers, 0))
  {
    WakeReaderStep(stage, s, buffers, channels);
    var s' := Apply(stage, s, WakeReader(buffers, channels));
    PeekOutStep(stage, s');
    t := Apply(stage, s', PeekOut);
    Here(stage, t, Reading);
    FirstStep(stage, s', PeekOut, t, Reading);
  }

  lemma ReadQueues(s: State, t: State)
    requires CountInv(s) && |s.readBack| < |Delivered(s)| && |t.readBack| == |s.readBack| + 1
    requires t == s.(outq := t.outq, eRecv := 0, reader := RIdle, readBack := t.readBack)
    ensures CountInv(t) && OutQueue(t) == OutQueue(s)[1..] && InQueue(t) == InQueue(s)
    ensures OutQueue(s)[0] == Delivered(s)[|s.readBack|]
  {
  }

  /** read_output, the read of eventfd_recv first and then its own steps only, has the effect of the
      call as one operation: with a signal pending there is a block to read, and if the buffers can
      take it, it is copied out and leaves the queue. */
  lemma ReadRun(stage: Stage, s: State, buffers: seq<seq<Sample>>, channels: Int32) returns (t: State)
    requires Inv(stage, s) && s.reader.RIdle? && s.eRecv > 0
    requires OutQueue(s) != [] ==> ReadFits(OutQueue(s)[0], channels, Sizes(buffers))
    ensures Enabled(stage, s, WakeReader(buffers, channels))
    ensures LeadsBy(Reading, stage, Apply(stage, s, WakeReader(buffers, channels)), t) && Inv(stage, t)
    ensures OutQueue(s) != [] && t == s.(outq := t.outq, eRecv := 0, reader := RIdle, readBack := t.readBack)
    ensures OutQueue(t) == OutQueue(s)[1..] && |t.readBack| == |s.readBack| + 1
    ensures var r := t.readBack[|s.readBack|];
      r.before == buffers && r.channels == channels && IsCopyOf(r, OutQueue(s)[0])
  {
    var s' := ReaderWakes(stage, s, buffers, channels);
    t := CopyOutRun(stage, s');
    ReadQueues(s, t);
    Then(stage, Apply(stage, s, WakeReader(buffers, channels)), s', t, Reading);
  }
}
