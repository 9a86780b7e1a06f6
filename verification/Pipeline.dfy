/** The audio pipeline: one plugin calling dispatch, read_output and set_param
    (sdk/src/dsp_accel_sdk.cpp) and one worker running its main loop (daemon/worker.cpp), over two
    zero-copy rings, the control bus and two eventfd counters, all steps interleaved.

    Dispatching and reading back may overlap each other as well as the worker, which covers a plugin
    that does both on one thread. Loads are up to date (SpscProtocol.dfy treats stale ones). The
    control bus is a bounded queue (RefinesBoundedFifo there). A stage is any function of the
    parameters and the block; it works in place and may scribble over the unused samples. */
module Pipeline {
  import opened Control
  import opened Frame
  import opened Ring
  import opened SlotQueue

  const CONTROL_ROOM: nat := 63

  datatype StageResult = StageResult(ok: bool, block: Block)
  type Stage = (Params, Block) -> StageResult

  // ---- State ----

  datatype DispatchPc =
    | DIdle
    | DChecked(args: DispatchArgs)                                     // last_error was NONE
    | DReserved(args: DispatchArgs, slot: nat)
    | DFilling(args: DispatchArgs, slot: nat, next: nat)               // header and `next` channels written
    | DCommitted                                                       // frame published, not yet signalled

  datatype WorkerPc =
    | WTop                                    // draining the control bus
    | WPoll
    | WWoken                                  // e_send read
    | WOwns(slot: nat)                        // peek_read returned this slot
    | WProcessed(slot: nat)
    | WReservedOut(slot: nat, out: nat)
    | WFillingOut(slot: nat, out: nat, next: nat)
    | WRelease                                // output committed or dropped, input not yet committed
    | WNotify                                 // input committed, plugin not yet signalled

  datatype ReaderPc =
    | RIdle
    | RWoken(before: seq<seq<Sample>>, channels: Int32)  // eventfd_recv read
    | ROwns(before: seq<seq<Sample>>, channels: Int32, slot: nat, buffers: seq<seq<Sample>>, next: nat)

  datatype Read = Read(block: Block, channels: Int32, before: seq<seq<Sample>>, after: seq<seq<Sample>>)

  datatype State = State(
    inq: RingState<AudioFrame>,
    outq: RingState<AudioFrame>,
    eSend: nat,
    eRecv: nat,
    failed: bool,                     // last_error is no longer NONE
    control: seq<ControlEvent>,
    applied: nat,                     // control events applied so far
    params: Params,
    disp: DispatchPc,
    work: WorkerPc,
    reader: ReaderPc,
    // What has happened so far:
    events: seq<ControlEvent>,        // every event pushed on the control bus
    args: seq<DispatchArgs>,          // the call behind each committed input frame
    blocksIn: seq<Block>,             // the block it carried
    eventsBefore: seq<nat>,           // how many events had been pushed when it was committed
    released: nat,                    // input frames committed as read by the worker
    blocksOut: seq<Block>,            // what the stage made of each input frame
    eventsAt: seq<nat>,               // how many events had been applied when it did
    drainedAt: nat,                   // how many events had been pushed when the worker last found the bus empty
    drains: seq<nat>,                 // that number, for each frame, when the stage ran
    fates: seq<bool>,                 // whether the output of each frame found room in out_queue
    readBack: seq<Read>,              // successful read_output calls
    stuck: nat,                       // sum of (value - 1) over the worker's reads of e_send
    unsignalled: nat)                 // input frames whose signal failed

  function Silence(): (f': AudioFrame) {
    AudioFrame(0, 0, 0, 0, seq(SAMPLES, _ => 0.0))
  }

  function Init(): (s': State) {
    var ring := RingState(0, 0, seq(DEPTH, _ => Silence()));
    State(ring, ring, 0, 0, false, [], 0, Defaults(), DIdle, WTop, RIdle, [], [], [], [], 0, [], [], 0, [], [], [], 0, 0)
  }

  // ---- Steps ----

  datatype Step =
    | SetParam(event: ControlEvent)
    // dispatch
    | Check(args: DispatchArgs)
    | Reserve
    | WriteHeader
    | WriteChannel
    | Commit
    | Signal(ok: bool)
    // worker
    | ApplyControl
    | ControlDrained
    | PollTimeout
    | Wake
    | Peek
    | Process(after: AudioFrame)
    | ReserveOut
    | WriteHeaderOut
    | WriteChannelOut
    | CommitOut
    | CommitRead
    | Notify(ok: bool)
    // read_output
    | WakeReader(buffers: seq<seq<Sample>>, channels: Int32)
    | PeekOut
    | ReadChannel
    | CommitReadOut

  predicate IsDispatch(step: Step) {
    step.Check? || step.Reserve? || step.WriteHeader? || step.WriteChannel? || step.Commit? || step.Signal?
  }

  predicate IsReader(step: Step) {
    step.WakeReader? || step.PeekOut? || step.ReadChannel? || step.CommitReadOut?
  }

  ghost predicate DispatchEnabled(s: State, step: Step)
    requires Sized(s.inq)
  {
    match step
    case Check(args) => s.disp.DIdle? && ValidArgs(args)
    case Reserve => s.disp.DChecked?
    case WriteHeader => s.disp.DReserved? && s.disp.slot < DEPTH && ValidArgs(s.disp.args)
    case WriteChannel =>
      s.disp.DFilling? && s.disp.slot < DEPTH && ValidArgs(s.disp.args)
      && s.disp.next < |ClampedBlock(s.disp.args).channels|
    case Commit => s.disp.DFilling? && ValidArgs(s.disp.args) && s.disp.next == |ClampedBlock(s.disp.args).channels|
    case Signal(_) => s.disp.DCommitted?
    case _ => false
  }

  ghost function DispatchApply(s: State, step: Step): (s': State)
    requires Sized(s.inq) && DispatchEnabled(s, step)
  {
    match step
    case Check(args) => if s.failed then s else s.(disp := DChecked(args))
    case Reserve =>
      if (s.inq.tail + 1) % DEPTH == s.inq.head then s.(disp := DIdle)
      else s.(disp := DReserved(s.disp.args, s.inq.tail))
    case WriteHeader =>
      var f := PutHeader(s.inq.data[s.disp.slot], ClampedBlock(s.disp.args));
      s.(inq := s.inq.(data := s.inq.data[s.disp.slot := f]), disp := DFilling(s.disp.args, s.disp.slot, 0))
    case WriteChannel =>
      var f := PutChannel(s.inq.data[s.disp.slot], s.disp.next, ClampedBlock(s.disp.args).channels[s.disp.next]);
      s.(inq := s.inq.(data := s.inq.data[s.disp.slot := f]), disp := s.disp.(next := s.disp.next + 1))
    case Commit =>
      s.(inq := s.inq.(tail := (s.inq.tail + 1) % DEPTH), disp := DCommitted,
         args := s.args + [s.disp.args], blocksIn := s.blocksIn + [ClampedBlock(s.disp.args)], eventsBefore := s.eventsBefore + [|s.events|])
    case Signal(ok) =>
      if ok then s.(eSend := s.eSend + 1, disp := DIdle) else s.(unsignalled := s.unsignalled + 1, disp := DIdle)
    case _ => s
  }

  ghost predicate WorkerEnabled(stage: Stage, s: State, step: Step)
    requires Sized(s.inq) && Sized(s.outq)
  {
    match step
    case ApplyControl => s.work.WTop? && s.control != []
    case ControlDrained => s.work.WTop? && s.control == []
    case PollTimeout => s.work.WPoll?
    case Wake => s.work.WPoll? && s.eSend > 0
    case Peek => s.work.WWoken?
    case Process(after) =>
      && s.work.WOwns? && s.work.slot < DEPTH && ValidFrame(s.inq.data[s.work.slot])
      && ValidFrame(after) && after.instanceId == s.inq.data[s.work.slot].instanceId
      && PayloadOf(after) == stage(s.params, PayloadOf(s.inq.data[s.work.slot])).block
    case ReserveOut => s.work.WProcessed?
    case WriteHeaderOut =>
      s.work.WReservedOut? && s.work.slot < DEPTH && s.work.out < DEPTH && ValidFrame(s.inq.data[s.work.slot])
    case WriteChannelOut =>
      && s.work.WFillingOut? && s.work.slot < DEPTH && s.work.out < DEPTH && ValidFrame(s.inq.data[s.work.slot])
      && s.work.next < s.inq.data[s.work.slot].channelCount
    case CommitOut =>
      s.work.WFillingOut? && s.work.slot < DEPTH && s.work.next == s.inq.data[s.work.slot].channelCount
    case CommitRead => s.work.WRelease?
    case Notify(_) => s.work.WNotify?
    case _ => false
  }

  ghost function WorkerApply(stage: Stage, s: State, step: Step): (s': State)
    requires Sized(s.inq) && Sized(s.outq) && WorkerEnabled(stage, s, step)
  {
    match step
    case ApplyControl => s.(params := ApplyEvent(s.params, s.control[0]), control := s.control[1..], applied := s.applied + 1)
    case ControlDrained => s.(work := WPoll, drainedAt := |s.events|)
    case PollTimeout => s.(work := WTop)
    case Wake => s.(eSend := 0, stuck := s.stuck + (s.eSend - 1), work := WWoken)
    case Peek => s.(work := if s.inq.head == s.inq.tail then WTop else WOwns(s.inq.head))
    case Process(after) =>
      var f := s.inq.data[s.work.slot];
      s.(inq := s.inq.(data := s.inq.data[s.work.slot := after]),
         failed := s.failed || !stage(s.params, PayloadOf(f)).ok,
         work := WProcessed(s.work.slot),
         blocksOut := s.blocksOut + [PayloadOf(after)], eventsAt := s.eventsAt + [s.applied],
         drains := s.drains + [s.drainedAt])
    case ReserveOut =>
      if (s.outq.tail + 1) % DEPTH == s.outq.head then s.(work := WRelease, fates := s.fates + [false])
      else s.(work := WReservedOut(s.work.slot, s.outq.tail))
    case WriteHeaderOut =>
      var f := PutHeader(s.outq.data[s.work.out], PayloadOf(s.inq.data[s.work.slot]));
      s.(outq := s.outq.(data := s.outq.data[s.work.out := f]), work := WFillingOut(s.work.slot, s.work.out, 0))
    case WriteChannelOut =>
      var f := PutChannel(s.outq.data[s.work.out], s.work.next, ChannelOf(s.inq.data[s.work.slot], s.work.next));
      s.(outq := s.outq.(data := s.outq.data[s.work.out := f]), work := s.work.(next := s.work.next + 1))
    case CommitOut =>
      s.(outq := s.outq.(tail := (s.outq.tail + 1) % DEPTH), work := WRelease, fates := s.fates + [true])
    case CommitRead => s.(inq := s.inq.(head := (s.inq.head + 1) % DEPTH), work := WNotify, released := s.released + 1)
    case Notify(ok) => s.(eRecv := if ok then s.eRecv + 1 else s.eRecv, work := WTop)
    case _ => s
  }

  ghost predicate ReaderEnabled(s: State, step: Step)
    requires Sized(s.outq)
  {
    match step
    case WakeReader(_, _) => s.reader.RIdle? && s.eRecv > 0
    case PeekOut => s.reader.RWoken?
    case ReadChannel =>
      && s.reader.ROwns? && s.reader.slot < DEPTH && ValidFrame(s.outq.data[s.reader.slot])
      && s.reader.next < ReadChannels(PayloadOf(s.outq.data[s.reader.slot]), s.reader.channels)
      // the caller's buffer can take the block
      && s.reader.next < |s.reader.buffers| && s.outq.data[s.reader.slot].frameCount <= |s.reader.buffers[s.reader.next]|
    case CommitReadOut =>
      && s.reader.ROwns? && s.reader.slot < DEPTH && ValidFrame(s.outq.data[s.reader.slot])
      && s.reader.next == ReadChannels(PayloadOf(s.outq.data[s.reader.slot]), s.reader.channels)
    case _ => false
  }

  ghost function ReaderApply(s: State, step: Step): (s': State)
    requires Sized(s.outq) && ReaderEnabled(s, step)
  {
    match step
    case WakeReader(buffers, channels) => s.(eRecv := 0, reader := RWoken(buffers, channels))
    case PeekOut =>
      s.(reader := if s.outq.head == s.outq.tail then RIdle
                   else ROwns(s.reader.before, s.reader.channels, s.outq.head, s.reader.before, 0))
    case ReadChannel =>
      var c, f := s.reader.next, s.outq.data[s.reader.slot];
      s.(reader := s.reader.(buffers := s.reader.buffers[c := Blit(s.reader.buffers[c], 0, ChannelOf(f, c))], next := c + 1))
    case CommitReadOut =>
      var r := Read(PayloadOf(s.outq.data[s.reader.slot]), s.reader.channels, s.reader.before, s.reader.buffers);
      s.(outq := s.outq.(head := (s.outq.head + 1) % DEPTH), reader := RIdle, readBack := s.readBack + [r])
    case _ => s
  }

  ghost function SetParamApply(s: State, event: ControlEvent): (s': State) {
    if |s.control| < CONTROL_ROOM then s.(control := s.control + [event], events := s.events + [event]) else s
  }

  ghost predicate Enabled(stage: Stage, s: State, step: Step) {
    && Sized(s.inq) && Sized(s.outq)
    && if IsDispatch(step) then DispatchEnabled(s, step)
       else if IsReader(step) then ReaderEnabled(s, step)
       else step.SetParam? || WorkerEnabled(stage, s, step)
  }

  ghost function Apply(stage: Stage, s: State, step: Step): (s': State)
    requires Enabled(stage, s, step)
  {
    if IsDispatch(step) then DispatchApply(s, step)
    else if IsReader(step) then ReaderApply(s, step)
    else if step.SetParam? then SetParamApply(s, step.event)
    else WorkerApply(stage, s, step)
  }

  ghost predicate Legal(stage: Stage, s: State, steps: seq<Step>)
    decreases |steps|
  {
    steps == [] || (Enabled(stage, s, steps[0]) && Legal(stage, Apply(stage, s, steps[0]), steps[1..]))
  }

  ghost function Exec(stage: Stage, s: State, steps: seq<Step>): (s': State)
    requires Legal(stage, s, steps)
    decreases |steps|
  {
    if steps == [] then s else Exec(stage, Apply(stage, s, steps[0]), steps[1..])
  }
}
