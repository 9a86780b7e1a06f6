/** The remote path end to end: RemoteDspNode sends to NetworkServerNode and reorders the echoes,
    over a network that may lose, duplicate and reorder every packet.

    Every packet ever put on the network stays available: losing it is never delivering it,
    duplicating it is delivering it again. A packet is tagged with the number of packets sent
    before it, which the 32-bit sequence id only gives modulo 2^32. The jitter buffer counts the
    positions of the stream it offers, and a position too has an id. Nothing here bounds how late a
    packet arrives or how far the sender runs ahead; RemoteOrder.dfy says what that does to the order. */
module RemotePath {
  import opened Base
  import opened Bits
  import opened RemoteNode

  /** A reply on its way back, tagged with the number of the packet it answers. */
  datatype Echo<F> = Echo(tag: nat, packet: Packet<F>)

  datatype State<F> = State(
    seqId: nat,
    sent: seq<Packet<F>>,
    echoes: seq<Echo<F>>,
    jitter: Jitter<F>,
    offered: seq<F>,         // every frame offered to out_queue.push so far
    accepted: map<nat, F>,   // the frames that passed the window test, by position in the stream
    source: map<nat, nat>,   // the number of the packet behind each of them
    delivered: set<nat>)     // the numbers of the audio packets whose echo has been received

  function Init<F>(zero: F): (s': State<F>) {
    State(0, [], [], Jitter(0, seq(WINDOW, _ => false), seq(WINDOW, _ => zero)), [], map[], map[], {})
  }

  datatype Step<F> =
    | Send(kind: PacketType, payload: Payload<F>)
    | ServeSent(i: nat)   // the server receives the i-th sent packet
    | Deliver(k: nat)     // the client receives the k-th reply

  /** The first position not yet offered; expected_seq_id is this number modulo 2^32. */
  function Frontier<F>(s: State<F>): (n: nat) { |s.offered| }

  /** The first position from the frontier on that has the id of packet `tag`. */
  function Position(tag: nat, frontier: nat): (p: nat)
    ensures frontier <= p < frontier + ID_SPACE && p % ID_SPACE == tag % ID_SPACE
  {
    frontier + (tag - frontier) % ID_SPACE
  }

  ghost predicate Enabled<F(!new)>(s: State<F>, step: Step<F>) {
    match step
    case Send(kind, payload) => kind == AudioFrame ==> payload.Audio?
    case ServeSent(i) => i < |s.sent|
    case Deliver(k) => k < |s.echoes| && ValidJitter(s.jitter)
  }

  ghost function Apply<F(!new)>(stage: F -> F, s: State<F>, step: Step<F>): (s': State<F>)
    requires Enabled(s, step)
  {
    match step
    case Send(kind, payload) =>
      s.(sent := s.sent + [Packet(MAGIC, kind, s.seqId, payload)], seqId := (s.seqId + 1) % ID_SPACE)
    case ServeSent(i) =>
      var reply := Serve(stage, s.sent[i]);
      if reply.None? then s else s.(echoes := s.echoes + [Echo(i, reply.value)])
    case Deliver(k) =>
      var Echo(tag, packet) := s.echoes[k];
      if packet.kind != AudioFrame || !packet.payload.Audio? then s
      else
        var (jitter, out) := Drain(Store(s.jitter, packet.sequenceId, packet.payload.frame));
        var p := Position(tag, Frontier(s));
        var s1 := s.(jitter := jitter, offered := s.offered + out, delivered := s.delivered + {tag});
        if InWindow(packet.sequenceId, s.jitter.expected)
        then s1.(accepted := s.accepted[p := packet.payload.frame], source := s.source[p := tag])
        else s1
  }

  ghost predicate Legal<F(!new)>(stage: F -> F, s: State<F>, steps: seq<Step<F>>)
    decreases |steps|
  {
    steps == [] || (Enabled(s, steps[0]) && Legal(stage, Apply(stage, s, steps[0]), steps[1..]))
  }

  ghost function Exec<F(!new)>(stage: F -> F, s: State<F>, steps: seq<Step<F>>): (s': State<F>)
    requires Legal(stage, s, steps)
    decreases |steps|
  {
    if steps == [] then s else Exec(stage, Apply(stage, s, steps[0]), steps[1..])
  }

  // ---- The window invariant ----

  /** For each of the 32 positions n of the window: slot n % 32 is occupied exactly when a frame has
      been accepted for n, and then holds it. Nothing beyond the window has been accepted. */
  ghost predicate WindowInv<F>(j: Jitter<F>, e: nat, accepted: map<nat, F>) {
    && ValidJitter(j) && j.expected == e % ID_SPACE
    && (forall n: nat | e <= n < e + WINDOW ::
          && (n in accepted <==> j.mask[n % WINDOW])
          && (n in accepted ==> j.buffer[n % WINDOW] == accepted[n]))
    && (forall n | n in accepted :: n < e + WINDOW)
  }

  /** A slot index computed from the 32-bit id is the one the position has. */
  lemma SlotOfId(n: nat)
    ensures n % ID_SPACE % WINDOW == n % WINDOW
  {
  }

  /** The signed 32-bit test sees numbers modulo 2^32 only: it is true exactly when the packet has the
      id of a position in the window. */
  lemma WindowTestIsExact(tag: nat, e: nat)
    ensures InWindow(tag % ID_SPACE, e % ID_SPACE) <==> Position(tag, e) < e + 32
  {
  }

  /** So it takes a packet one full id cycle late for the expected one. */
  lemma FullCycleDelayIsAccepted(e: nat)
    requires e >= ID_SPACE
    ensures !(e <= e - ID_SPACE < e + WINDOW) && InWindow((e - ID_SPACE) % ID_SPACE, e % ID_SPACE)
  {
    WindowTestIsExact(e - ID_SPACE, e);
  }

  lemma DistinctSlots(a: nat, b: nat)
    requires a < b < a + WINDOW
    ensures a % WINDOW != b % WINDOW
  {
  }

  /** Storing the frame of position p keeps the window invariant and overwrites no other live slot. */
  lemma StoreKeepsWindow<F>(j: Jitter<F>, e: nat, accepted: map<nat, F>, p: nat, frame: F)
    requires WindowInv(j, e, accepted) && e <= p < e + ID_SPACE
    ensures InWindow(p % ID_SPACE, j.expected) <==> p < e + WINDOW
    ensures WindowInv(Store(j, p % ID_SPACE, frame), e, if p < e + WINDOW then accepted[p := frame] else accepted)
  {
    WindowTestIsExact(p, e);
    SlotOfId(p);
    if p < e + WINDOW {
      var j' := Store(j, p % ID_SPACE, frame);
      forall n: nat | e <= n < e + WINDOW
        ensures n in accepted[p := frame] <==> j'.mask[n % WINDOW]
        ensures n in accepted[p := frame] ==> j'.buffer[n % WINDOW] == accepted[p := frame][n]
      {
        assert n in accepted <==> j.mask[n % WINDOW];
        if n < p {
          DistinctSlots(n, p);
        } else if p < n {
          DistinctSlots(p, n);
        }
      }
    }
  }

  /** Moving the window past an offered frame keeps the invariant, across the 2^32 wrap as well. */
  lemma AdvanceKeepsWindow<F>(j: Jitter<F>, e: nat, accepted: map<nat, F>)
    requires WindowInv(j, e, accepted) && e in accepted
    ensures WindowInv(Advance(j), e + 1, accepted)
    ensures j.buffer[j.expected % WINDOW] == accepted[e]
  {
    var j', slot := Advance(j), e % WINDOW;
    SlotOfId(e);
    SuccessorMod(e, ID_SPACE);
    assert j'.mask == j.mask[slot := false] && j'.buffer == j.buffer;
    forall n: nat | e + 1 <= n < e + 1 + WINDOW
      ensures n in accepted <==> j'.mask[n % WINDOW]
      ensures n in accepted ==> j'.buffer[n % WINDOW] == accepted[n]
    {
      if n < e + WINDOW {
        DistinctSlots(e, n);
        assert n in accepted <==> j.mask[n % WINDOW];
      } else {
        OneWindowOn(e);
        assert n == e + WINDOW && n !in accepted;
      }
    }
  }

  lemma OneWindowOn(e: nat)
    ensures (e + WINDOW) % WINDOW == e % WINDOW
  {
  }

  /** `out` holds the accepted frames of positions e, e + 1, ... without a gap. */
  ghost predicate Stretch<F>(e: nat, out: seq<F>, accepted: map<nat, F>) {
    forall n: nat | e <= n < e + |out| :: n in accepted && accepted[n] == out[n - e]
  }

  lemma StretchConcat<F>(e: nat, a: seq<F>, b: seq<F>, accepted: map<nat, F>)
    requires Stretch(e, a, accepted) && Stretch(e + |a|, b, accepted)
    ensures Stretch(e, a + b, accepted)
  {
  }

  lemma DrainUnfolds<F>(j: Jitter<F>)
    requires ValidJitter(j)
    ensures var ready := j.mask[j.expected % WINDOW];
      && (ready ==> Count(Advance(j).mask) < Count(j.mask))
      && Drain(j) == if ready then (Drain(Advance(j)).0, [j.buffer[j.expected % WINDOW]] + Drain(Advance(j)).1) else (j, [])
  {
    CountUpdate(j.mask, j.expected % WINDOW, false);
  }

  lemma FrontierSlot<F>(j: Jitter<F>, e: nat, accepted: map<nat, F>)
    requires WindowInv(j, e, accepted)
    ensures j.mask[j.expected % WINDOW] <==> e in accepted
  {
    SlotOfId(e);
    assert e in accepted <==> j.mask[e % WINDOW];
  }

  /** A drain from frontier `e` ended with this window, having offered these frames. */
  ghost predicate DrainedFrom<F>(e: nat, end: Jitter<F>, out: seq<F>, accepted: map<nat, F>) {
    WindowInv(end, e + |out|, accepted) && Stretch(e, out, accepted) && e + |out| !in accepted
  }

  lemma OneMoreOffered<F>(e: nat, end: Jitter<F>, out: seq<F>, accepted: map<nat, F>)
    requires e in accepted && DrainedFrom(e + 1, end, out, accepted)
    ensures DrainedFrom(e, end, [accepted[e]] + out, accepted)
  {
    StretchConcat(e, [accepted[e]], out, accepted);
  }

  /** The drain offers the accepted frames from the frontier on, and stops at the first missing one. */
  lemma {:induction false} DrainMovesFrontier<F>(j: Jitter<F>, e: nat, accepted: map<nat, F>)
    requires WindowInv(j, e, accepted)
    ensures var (j', out) := Drain(j);
      && WindowInv(j', e + |out|, accepted)
      && Stretch(e, out, accepted) && e + |out| !in accepted
    decreases Count(j.mask)
  {
    DrainUnfolds(j);
    FrontierSlot(j, e, accepted);
    if e in accepted {
      AdvanceKeepsWindow(j, e, accepted);
      DrainMovesFrontier(Advance(j), e + 1, accepted);
      var (end, out) := Drain(Advance(j));
      OneMoreOffered(e, end, out, accepted);
      assert DrainedFrom(e, Drain(j).0, Drain(j).1, accepted);
    }
  }

  lemma DrainExtends<F>(j: Jitter<F>, offered: seq<F>, accepted: map<nat, F>)
    requires WindowInv(j, |offered|, accepted) && Stretch(0, offered, accepted)
    ensures var (j', out) := Drain(j);
      && WindowInv(j', |offered + out|, accepted) && Stretch(0, offered + out, accepted)
      && |offered + out| !in accepted
  {
    DrainMovesFrontier(j, |offered|, accepted);
    StretchConcat(0, offered, Drain(j).1, accepted);
  }

  /** One received frame, stored and drained: the window, the frontier and the offered stream agree. */
  lemma ReceiveKeepsWindow<F>(j: Jitter<F>, offered: seq<F>, accepted: map<nat, F>, p: nat, frame: F)
    requires WindowInv(j, |offered|, accepted) && Stretch(0, offered, accepted)
    requires |offered| <= p < |offered| + ID_SPACE
    ensures InWindow(p % ID_SPACE, j.expected) <==> p < |offered| + WINDOW
    ensures
      var accepted' := if p < |offered| + WINDOW then accepted[p := frame] else accepted;
      var (j', out) := Drain(Store(j, p % ID_SPACE, frame));
      && WindowInv(j', |offered + out|, accepted') && Stretch(0, offered + out, accepted')
      && |offered + out| !in accepted'
  {
    var accepted' := if p < |offered| + WINDOW then accepted[p := frame] else accepted;
    StoreKeepsWindow(j, |offered|, accepted, p, frame);
    assert Stretch(0, offered, accepted');
    DrainExtends(Store(j, p % ID_SPACE, frame), offered, accepted');
  }

  // ---- Whole runs ----

  /** Ids on the wire are packet numbers modulo 2^32, and echoes are the server's answers. */
  ghost predicate WireInv<F(!new)>(stage: F -> F, s: State<F>) {
    && s.seqId == |s.sent| % ID_SPACE
    && (forall i | 0 <= i < |s.sent| ::
          && s.sent[i].magic == MAGIC && s.sent[i].sequenceId == i % ID_SPACE
          && (s.sent[i].kind == AudioFrame ==> s.sent[i].payload.Audio?))
    && (forall k | 0 <= k < |s.echoes| ::
          s.echoes[k].tag < |s.sent| && Some(s.echoes[k].packet) == Serve(stage, s.sent[s.echoes[k].tag]))
    && (forall n | n in s.delivered :: n < |s.sent| && s.sent[n].kind == AudioFrame)
  }

  /** Packet n is an audio packet, its echo has been received, and `frame` is its processed frame. */
  ghost predicate CameFrom<F(!new)>(stage: F -> F, s: State<F>, n: nat, frame: F) {
    && n in s.delivered && n < |s.sent| && s.sent[n].kind == AudioFrame && s.sent[n].payload.Audio?
    && frame == stage(s.sent[n].payload.frame)
  }

  /** Behind every accepted frame is a received audio packet with the id of its position. */
  ghost predicate SourceInv<F(!new)>(stage: F -> F, s: State<F>) {
    && s.source.Keys == s.accepted.Keys
    && forall p | p in s.accepted ::
         s.source[p] % ID_SPACE == p % ID_SPACE && CameFrom(stage, s, s.source[p], s.accepted[p])
  }

  ghost predicate StreamInv<F>(s: State<F>) {
    && WindowInv(s.jitter, Frontier(s), s.accepted)
    && Frontier(s) !in s.accepted
    && Stretch(0, s.offered, s.accepted)
  }

  ghost predicate Inv<F(!new)>(stage: F -> F, s: State<F>) {
    WireInv(stage, s) && SourceInv(stage, s) && StreamInv(s)
  }

  lemma StepKeepsWire<F(!new)>(stage: F -> F, s: State<F>, step: Step<F>)
    requires WireInv(stage, s) && Enabled(s, step)
    ensures WireInv(stage, Apply(stage, s, step))
  {
    match step
    case Send(_, _) => SuccessorMod(|s.sent|, ID_SPACE);
    case _ =>
  }

  predicate IsAudio<F>(e: Echo<F>) { e.packet.kind == AudioFrame && e.packet.payload.Audio? }

  /** Receiving an audio echo, in terms of positions. */
  lemma DeliverAt<F(!new)>(stage: F -> F, s: State<F>, k: nat)
    requires Inv(stage, s) && Enabled(s, Deliver(k)) && IsAudio(s.echoes[k])
    ensures var Echo(tag, packet) := s.echoes[k]; var p, e := Position(tag, Frontier(s)), Frontier(s);
      var s' := Apply(stage, s, Deliver(k));
      && packet.sequenceId == p % ID_SPACE && tag < |s.sent| && s.sent[tag].payload.Audio?
      && packet.payload.frame == stage(s.sent[tag].payload.frame)
      && s'.accepted == (if p < e + WINDOW then s.accepted[p := packet.payload.frame] else s.accepted)
      && s'.source == (if p < e + WINDOW then s.source[p := tag] else s.source)
      && s'.sent == s.sent && s'.delivered == s.delivered + {tag} && s.offered <= s'.offered
      && StreamInv(s')
  {
    var Echo(tag, packet) := s.echoes[k];
    assert packet == s.sent[tag].(payload := Audio(stage(s.sent[tag].payload.frame)));
    ReceiveKeepsWindow(s.jitter, s.offered, s.accepted, Position(tag, Frontier(s)), packet.payload.frame);
  }

  lemma DeliverKeepsInv<F(!new)>(stage: F -> F, s: State<F>, k: nat)
    requires Inv(stage, s) && Enabled(s, Deliver(k))
    ensures Inv(stage, Apply(stage, s, Deliver(k)))
  {
    StepKeepsWire(stage, s, Deliver(k));
    if IsAudio(s.echoes[k]) {
      DeliverAt(stage, s, k);
    }
  }

  lemma StepKeepsInv<F(!new)>(stage: F -> F, s: State<F>, step: Step<F>)
    requires Inv(stage, s) && Enabled(s, step)
    ensures Inv(stage, Apply(stage, s, step))
  {
    if step.Deliver? {
      DeliverKeepsInv(stage, s, step.k);
    } else {
      StepKeepsWire(stage, s, step);
    }
  }

  lemma {:induction false} RunKeepsInv<F(!new)>(stage: F -> F, s: State<F>, steps: seq<Step<F>>)
    requires Inv(stage, s) && Legal(stage, s, steps)
    ensures Inv(stage, Exec(stage, s, steps))
    decreases |steps|
  {
    if steps != [] {
      StepKeepsInv(stage, s, steps[0]);
      RunKeepsInv(stage, Apply(stage, s, steps[0]), steps[1..]);
    }
  }

  lemma ReachableInv<F(!new)>(stage: F -> F, zero: F, steps: seq<Step<F>>)
    requires Legal(stage, Init(zero), steps)
    ensures Inv(stage, Exec(stage, Init(zero), steps))
  {
    RunKeepsInv(stage, Init(zero), steps);
  }

  /** Safety, on every run however long: the frame offered at position i is the processed frame of a
      received audio packet that has the id of i. */
  lemma OffersReceivedFrames<F(!new)>(stage: F -> F, zero: F, steps: seq<Step<F>>)
    requires Legal(stage, Init(zero), steps)
    ensures var s := Exec(stage, Init(zero), steps);
      forall i | 0 <= i < |s.offered| ::
        i in s.source && s.source[i] % ID_SPACE == i % ID_SPACE && CameFrom(stage, s, s.source[i], s.offered[i])
  {
    ReachableInv(stage, zero, steps);
  }

  /** Precision: the frontier is the least position never accepted, and the slot of the expected id is
      empty, after every step. */
  lemma FrontierIsFirstGap<F(!new)>(stage: F -> F, zero: F, steps: seq<Step<F>>)
    requires Legal(stage, Init(zero), steps)
    ensures var s := Exec(stage, Init(zero), steps);
      && Frontier(s) !in s.accepted && (forall n: nat | n < Frontier(s) :: n in s.accepted)
      && ValidJitter(s.jitter) && !s.jitter.mask[s.jitter.expected % WINDOW]
  {
    ReachableInv(stage, zero, steps);
    var s := Exec(stage, Init(zero), steps);
    FrontierSlot(s.jitter, Frontier(s), s.accepted);
  }

  lemma AtFrontier(tag: nat, e: nat)
    ensures Position(tag, e) == e <==> tag % ID_SPACE == e % ID_SPACE
  {
  }

  /** The stream has passed a position it had come up to exactly when that has been accepted. */
  lemma PassedExactlyWhen<F>(s: State<F>, e: nat)
    requires StreamInv(s) && e <= |s.offered|
    ensures |s.offered| > e <==> e in s.accepted
  {
  }

  lemma MovesOnStep<F(!new)>(stage: F -> F, s: State<F>, k: nat)
    requires Inv(stage, s) && Enabled(s, Deliver(k))
    ensures s.offered <= Apply(stage, s, Deliver(k)).offered
    ensures s.offered != Apply(stage, s, Deliver(k)).offered
       <==> IsAudio(s.echoes[k]) && s.echoes[k].tag % ID_SPACE == Frontier(s) % ID_SPACE
  {
    if IsAudio(s.echoes[k]) {
      DeliverAt(stage, s, k);
      AtFrontier(s.echoes[k].tag, Frontier(s));
      PassedExactlyWhen(Apply(stage, s, Deliver(k)), Frontier(s));
    }
  }

  /** Receiving an echo moves the stream on exactly when it is audio and has the id of the frontier. */
  lemma StreamMovesExactlyWhen<F(!new)>(stage: F -> F, zero: F, steps: seq<Step<F>>, k: nat)
    requires Legal(stage, Init(zero), steps) && k < |Exec(stage, Init(zero), steps).echoes|
    ensures var s := Exec(stage, Init(zero), steps);
      && Enabled(s, Deliver(k)) && s.offered <= Apply(stage, s, Deliver(k)).offered
      && (s.offered != Apply(stage, s, Deliver(k)).offered
          <==> IsAudio(s.echoes[k]) && s.echoes[k].tag % ID_SPACE == Frontier(s) % ID_SPACE)
  {
    ReachableInv(stage, zero, steps);
    MovesOnStep(stage, Exec(stage, Init(zero), steps), k);
  }

  /** A packet that is not audio holds the stream at its position until another packet with its id, a
      whole number of cycles away, has been received as audio. */
  lemma NonAudioPacketHoldsStream<F(!new)>(stage: F -> F, zero: F, steps: seq<Step<F>>, m: nat)
    requires Legal(stage, Init(zero), steps)
    requires m < |Exec(stage, Init(zero), steps).sent| && Exec(stage, Init(zero), steps).sent[m].kind != AudioFrame
    ensures var s := Exec(stage, Init(zero), steps);
      |s.offered| > m ==> exists n :: n in s.delivered && n % ID_SPACE == m % ID_SPACE && (n + ID_SPACE <= m || m + ID_SPACE <= n)
  {
    OffersReceivedFrames(stage, zero, steps);
    var s := Exec(stage, Init(zero), steps);
    if |s.offered| > m {
      var n := s.source[m];
      assert n in s.delivered && n % ID_SPACE == m % ID_SPACE && n != m;
    }
  }
}
