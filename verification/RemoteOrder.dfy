/** In which order the remote path offers frames. The jitter buffer tells packets apart by their 32-bit
    id only, so the order holds exactly as long as no slot is drained that holds the echo of a packet
    sent one or more whole id cycles before it should have been. */
module RemoteOrder {
  import opened RemoteNode
  import opened RemotePath

  // ---- When the offered frames are in sending order ----

  /** The packet behind position i was sent before the one behind position j. */
  ghost predicate SentBefore(source: map<nat, nat>, i: nat, j: nat) {
    i in source && j in source && source[i] < source[j]
  }

  /** The packets behind the offered frames were sent one after the other. */
  ghost predicate InSendingOrder<F>(s: State<F>) {
    forall i: nat, j: nat | i < j < |s.offered| :: SentBefore(s.source, i, j)
  }

  /** How many id cycles after position p packet `tag` was sent; negative for an earlier cycle. */
  function Cycle(tag: nat, p: nat): (c: int) {
    (tag - p) / ID_SPACE
  }

  /** The echo has the id the jitter buffer waits for. */
  ghost predicate IsMissing<F>(s: State<F>, e: Echo<F>) {
    IsAudio(e) && e.tag % ID_SPACE == Frontier(s) % ID_SPACE
  }

  /** The slots from the one behind the frontier up to position n all hold a frame, so that they will be
      drained as soon as the missing id arrives. */
  ghost predicate HeldUpTo<F>(s: State<F>, n: nat) {
    forall d: nat | Frontier(s) < d <= n :: d in s.source
  }

  /** The packet behind position n is not of an earlier id cycle than the one behind the position before. */
  ghost predicate NotEarlier(source: map<nat, nat>, n: nat) {
    n > 0 && n - 1 in source && n in source ==> Cycle(source[n - 1], n - 1) <= Cycle(source[n], n)
  }

  /** What could be checked before the drain: if the echo received is the missing one, neither it nor
      any echo still in a slot that it sets free is of an earlier id cycle than the one that goes
      before it. */
  ghost predicate Orderly<F(!new)>(s: State<F>, step: Step<F>)
    requires Enabled(s, step)
  {
    step.Deliver? && IsMissing(s, s.echoes[step.k]) ==>
      forall n: nat | Frontier(s) <= n && HeldUpTo(s, n) ::
        NotEarlier(s.source[Frontier(s) := s.echoes[step.k].tag], n)
  }

  ghost predicate OrderlyRun<F(!new)>(stage: F -> F, s: State<F>, steps: seq<Step<F>>)
    requires Legal(stage, s, steps)
    decreases |steps|
  {
    steps == [] || (Orderly(s, steps[0]) && OrderlyRun(stage, Apply(stage, s, steps[0]), steps[1..]))
  }

  /** Of two neighbours in the stream the second was sent later exactly when it is not of an earlier cycle. */
  lemma LaterExactlyWhen(a: nat, b: nat, p: nat)
    requires a % ID_SPACE == p % ID_SPACE && b % ID_SPACE == (p + 1) % ID_SPACE
    ensures a < b <==> Cycle(a, p) <= Cycle(b, p + 1)
  {
    assert (a - p) % ID_SPACE == 0 && (b - (p + 1)) % ID_SPACE == 0;
  }

  ghost predicate Later(source: map<nat, nat>, n: nat) {
    n > 0 && SentBefore(source, n - 1, n)
  }

  ghost predicate Rising(source: map<nat, nat>, hi: nat) {
    forall n: nat | 0 < n < hi :: Later(source, n)
  }

  lemma {:induction false} RisingFar(source: map<nat, nat>, hi: nat, i: nat, j: nat)
    requires Rising(source, hi) && i < j < hi
    ensures SentBefore(source, i, j)
    decreases j
  {
    assert Later(source, j);
    if i < j - 1 {
      RisingFar(source, hi, i, j - 1);
    }
  }

  lemma OrderIsRising<F>(s: State<F>)
    ensures InSendingOrder(s) <==> Rising(s.source, |s.offered|)
  {
    if Rising(s.source, |s.offered|) {
      forall i: nat, j: nat | i < j < |s.offered| ensures SentBefore(s.source, i, j) {
        RisingFar(s.source, |s.offered|, i, j);
      }
    }
  }

  /** The drain goes exactly as far as the slots are held. */
  lemma DrainedExactlyHeld<F(!new)>(stage: F -> F, s: State<F>, k: nat, n: nat)
    requires Inv(stage, s) && Enabled(s, Deliver(k)) && IsMissing(s, s.echoes[k]) && Frontier(s) < n
    ensures n < |Apply(stage, s, Deliver(k)).offered| <==> HeldUpTo(s, n)
  {
    var s', e := Apply(stage, s, Deliver(k)), Frontier(s);
    DeliverAt(stage, s, k);
    AtFrontier(s.echoes[k].tag, e);
    assert forall d: nat | d > e :: d in s'.accepted <==> d in s.source;
    if n < |s'.offered| {
      forall d: nat | e < d <= n ensures d in s.source {
        assert d in s'.accepted;
      }
    } else {
      assert e in s'.accepted && |s'.offered| !in s'.accepted;
    }
  }

  /** Between accepted neighbours, "sent later" and "not of an earlier cycle" are the same. */
  lemma LaterIsNotEarlier<F(!new)>(stage: F -> F, s: State<F>, n: nat)
    requires SourceInv(stage, s) && n > 0 && n - 1 in s.accepted && n in s.accepted
    ensures Later(s.source, n) <==> NotEarlier(s.source, n)
  {
    var m: nat := n - 1;
    assert m in s.accepted;
    LaterExactlyWhen(s.source[m], s.source[n], m);
  }

  /** Below the frontier nothing changes; from there on the drained positions are the held ones. */
  lemma OrderAt<F(!new)>(stage: F -> F, s: State<F>, k: nat, n: nat)
    requires Inv(stage, s) && Enabled(s, Deliver(k)) && IsMissing(s, s.echoes[k]) && n > 0
    ensures var s', e := Apply(stage, s, Deliver(k)), Frontier(s);
      && s'.source == s.source[e := s.echoes[k].tag] && |s'.offered| > e
      && (n < e ==> (Later(s'.source, n) <==> Later(s.source, n)))
      && (e <= n ==> (n < |s'.offered| <==> HeldUpTo(s, n)))
      && (n < |s'.offered| ==> (Later(s'.source, n) <==> NotEarlier(s'.source, n)))
  {
    var s', e := Apply(stage, s, Deliver(k)), Frontier(s);
    DeliverAt(stage, s, k);
    AtFrontier(s.echoes[k].tag, e);
    PassedExactlyWhen(s', e);
    if n > e {
      DrainedExactlyHeld(stage, s, k, n);
    }
    if n < |s'.offered| {
      AcceptedBelow(s', n);
      DeliverKeepsInv(stage, s, k);
      LaterIsNotEarlier(stage, s', n);
    }
  }

  lemma AcceptedBelow<F>(s: State<F>, n: nat)
    requires StreamInv(s) && 0 < n < |s.offered|
    ensures n - 1 in s.accepted && n in s.accepted
  {
    var m: nat := n - 1;
    assert m in s.accepted;
  }

  lemma DrainKeepsOrderExactlyWhen<F(!new)>(stage: F -> F, s: State<F>, k: nat)
    requires Inv(stage, s) && Enabled(s, Deliver(k)) && IsMissing(s, s.echoes[k])
    ensures var s' := Apply(stage, s, Deliver(k));
      Rising(s'.source, |s'.offered|) <==> Rising(s.source, |s.offered|) && Orderly(s, Deliver(k))
  {
    var source, source', e := s.source, s.source[Frontier(s) := s.echoes[k].tag], Frontier(s);
    var end := |Apply(stage, s, Deliver(k)).offered|;
    OrderAt(stage, s, k, 1);
    forall n: nat | n > 0
      ensures n < e ==> (Later(source', n) <==> Later(source, n))
      ensures e <= n ==> (n < end <==> HeldUpTo(s, n))
      ensures n < end ==> (Later(source', n) <==> NotEarlier(source', n))
    {
      OrderAt(stage, s, k, n);
    }
    SplitAt(source, source', e, end, (n: nat) => HeldUpTo(s, n));
  }

  /** The order up to `end` is the order up to `e` and that of the held positions from `e` on. */
  lemma SplitAt(source: map<nat, nat>, source': map<nat, nat>, e: nat, end: nat, held: nat -> bool)
    requires e < end
    requires forall n: nat | 0 < n < e :: Later(source', n) <==> Later(source, n)
    requires forall n: nat | 0 < n && e <= n :: n < end <==> held(n)
    requires forall n: nat | 0 < n < end :: Later(source', n) <==> NotEarlier(source', n)
    ensures Rising(source', end) <==> Rising(source, e) && forall n: nat | e <= n && held(n) :: NotEarlier(source', n)
  {
    if Rising(source', end) {
      forall n: nat | e <= n && held(n) ensures NotEarlier(source', n) {
        assert n > 0 ==> Later(source', n);
      }
    }
  }

  lemma StepKeepsOrderExactlyWhen<F(!new)>(stage: F -> F, s: State<F>, step: Step<F>)
    requires Inv(stage, s) && Enabled(s, step)
    ensures var s' := Apply(stage, s, step);
      Rising(s'.source, |s'.offered|) <==> Rising(s.source, |s.offered|) && Orderly(s, step)
  {
    if step.Deliver? && IsMissing(s, s.echoes[step.k]) {
      DrainKeepsOrderExactlyWhen(stage, s, step.k);
    } else if step.Deliver? && IsAudio(s.echoes[step.k]) {
      var s', e := Apply(stage, s, step), Frontier(s);
      MovesOnStep(stage, s, step.k);
      DeliverAt(stage, s, step.k);
      AtFrontier(s.echoes[step.k].tag, e);
      forall n: nat | 0 < n < e ensures Later(s'.source, n) <==> Later(s.source, n) {
      }
    }
  }

  lemma {:induction false} RunKeepsOrderExactlyWhen<F(!new)>(stage: F -> F, s: State<F>, steps: seq<Step<F>>)
    requires Inv(stage, s) && Legal(stage, s, steps)
    ensures var t := Exec(stage, s, steps);
      Rising(t.source, |t.offered|) <==> Rising(s.source, |s.offered|) && OrderlyRun(stage, s, steps)
    decreases |steps|
  {
    if steps != [] {
      StepKeepsInv(stage, s, steps[0]);
      StepKeepsOrderExactlyWhen(stage, s, steps[0]);
      RunKeepsOrderExactlyWhen(stage, Apply(stage, s, steps[0]), steps[1..]);
    }
  }

  /** Exactly when the offered frames are in sending order, each once: whenever the missing id arrived,
      neither its echo nor one still in a slot that it set free was of an earlier id cycle than the one
      before it. */
  lemma InSendingOrderExactlyWhen<F(!new)>(stage: F -> F, zero: F, steps: seq<Step<F>>)
    requires Legal(stage, Init(zero), steps)
    ensures InSendingOrder(Exec(stage, Init(zero), steps)) <==> OrderlyRun(stage, Init(zero), steps)
  {
    RunKeepsOrderExactlyWhen(stage, Init(zero), steps);
    OrderIsRising(Exec(stage, Init(zero), steps));
  }

  // ---- Timely runs ----

  /** The packet is less than 2^32 - 31 numbers behind the frontier and less than 2^32 ahead of it. */
  predicate Timely(tag: nat, frontier: nat) {
    frontier - (ID_SPACE - WINDOW) <= tag < frontier + ID_SPACE
  }

  ghost predicate TimelyRun<F(!new)>(stage: F -> F, s: State<F>, steps: seq<Step<F>>)
    requires Legal(stage, s, steps)
    decreases |steps|
  {
    steps == [] ||
    (&& (steps[0].Deliver? ==> Timely(s.echoes[steps[0].k].tag, Frontier(s)))
     && TimelyRun(stage, Apply(stage, s, steps[0]), steps[1..]))
  }

  /** Every frame is at the position of its own packet. */
  ghost predicate AtOwnPosition<F>(s: State<F>) {
    forall p | p in s.source :: s.source[p] == p
  }

  /** On a timely packet the test says exactly whether its number is in the window. */
  lemma WindowTestOnTimely(tag: nat, e: nat)
    requires Timely(tag, e)
    ensures InWindow(tag % ID_SPACE, e % ID_SPACE) <==> e <= tag < e + WINDOW
  {
    WindowTestIsExact(tag, e);
  }

  lemma TimelyPosition(tag: nat, e: nat)
    requires Timely(tag, e) && Position(tag, e) < e + WINDOW
    ensures Position(tag, e) == tag
  {
  }

  lemma TimelyStepKeepsPosition<F(!new)>(stage: F -> F, s: State<F>, step: Step<F>)
    requires Inv(stage, s) && AtOwnPosition(s) && Enabled(s, step)
    requires step.Deliver? ==> Timely(s.echoes[step.k].tag, Frontier(s))
    ensures AtOwnPosition(Apply(stage, s, step))
  {
    if step.Deliver? && IsAudio(s.echoes[step.k]) {
      var tag, e := s.echoes[step.k].tag, Frontier(s);
      DeliverAt(stage, s, step.k);
      if Position(tag, e) < e + WINDOW {
        TimelyPosition(tag, e);
      }
    }
  }

  lemma {:induction false} TimelyKeepsPosition<F(!new)>(stage: F -> F, s: State<F>, steps: seq<Step<F>>)
    requires Inv(stage, s) && AtOwnPosition(s) && Legal(stage, s, steps) && TimelyRun(stage, s, steps)
    ensures AtOwnPosition(Exec(stage, s, steps))
    decreases |steps|
  {
    if steps != [] {
      StepKeepsInv(stage, s, steps[0]);
      TimelyStepKeepsPosition(stage, s, steps[0]);
      TimelyKeepsPosition(stage, Apply(stage, s, steps[0]), steps[1..]);
    }
  }

  /** While no packet comes that late and the sender never gets that far ahead, the frames offered are
      those of the first packets sent, which were all audio, each once and in sending order. */
  lemma TimelyRunsKeepOrder<F(!new)>(stage: F -> F, zero: F, steps: seq<Step<F>>)
    requires Legal(stage, Init(zero), steps) && TimelyRun(stage, Init(zero), steps)
    ensures var s := Exec(stage, Init(zero), steps);
      && InSendingOrder(s) && |s.offered| <= |s.sent|
      && forall i | 0 <= i < |s.offered| :: CameFrom(stage, s, i, s.offered[i])
  {
    OffersReceivedFrames(stage, zero, steps);
    TimelyKeepsPosition(stage, Init(zero), steps);
    var s := Exec(stage, Init(zero), steps);
    if |s.offered| > 0 {
      var i := |s.offered| - 1;
      assert CameFrom(stage, s, s.source[i], s.offered[i]);
    }
  }

  // ---- After the handshake ----

  /** Something has been offered exactly when an audio echo with id 0 has been received. */
  ghost predicate StartedByIdZero<F>(s: State<F>) {
    s.offered != [] <==> exists n :: n in s.delivered && n % ID_SPACE == 0
  }

  lemma DeliverKeepsStart<F(!new)>(stage: F -> F, s: State<F>, k: nat)
    requires Inv(stage, s) && StartedByIdZero(s) && Enabled(s, Deliver(k)) && IsAudio(s.echoes[k])
    ensures StartedByIdZero(Apply(stage, s, Deliver(k)))
  {
    var s', tag := Apply(stage, s, Deliver(k)), s.echoes[k].tag;
    MovesOnStep(stage, s, k);
    DeliverAt(stage, s, k);
    assert tag in s'.delivered;
    if s.offered != [] {
      var n :| n in s.delivered && n % ID_SPACE == 0;
      assert n in s'.delivered;
    }
  }

  lemma StepKeepsStart<F(!new)>(stage: F -> F, s: State<F>, step: Step<F>)
    requires Inv(stage, s) && StartedByIdZero(s) && Enabled(s, step)
    ensures StartedByIdZero(Apply(stage, s, step)) && s.sent <= Apply(stage, s, step).sent
  {
    if step.Deliver? && IsAudio(s.echoes[step.k]) {
      DeliverKeepsStart(stage, s, step.k);
    }
  }

  lemma {:induction false} RunKeepsStart<F(!new)>(stage: F -> F, s: State<F>, steps: seq<Step<F>>)
    requires Inv(stage, s) && StartedByIdZero(s) && Legal(stage, s, steps)
    ensures var t := Exec(stage, s, steps); StartedByIdZero(t) && s.sent <= t.sent && Inv(stage, t)
    decreases |steps|
  {
    if steps != [] {
      StepKeepsInv(stage, s, steps[0]);
      StepKeepsStart(stage, s, steps[0]);
      RunKeepsStart(stage, Apply(stage, s, steps[0]), steps[1..]);
    }
  }

  /** On every run, however long: something has been offered exactly when the echo of an audio packet
      whose number is a multiple of 2^32 has been received. */
  lemma OfferedExactlyWhenIdZeroArrived<F(!new)>(stage: F -> F, zero: F, steps: seq<Step<F>>)
    requires Legal(stage, Init(zero), steps)
    ensures var s := Exec(stage, Init(zero), steps);
      s.offered != [] <==> exists n :: n in s.delivered && n % ID_SPACE == 0
  {
    RunKeepsStart(stage, Init(zero), steps);
  }

  /** `init` spends id 0 on its handshake, which is never echoed as audio. So after it nothing is
      offered until the ids have come round: exactly until the echo of an audio packet numbered a
      positive multiple of 2^32 has been received, and so never within the first 2^32 packets. */
  lemma HandshakeHoldsStreamForOneCycle<F(!new)>(stage: F -> F, zero: F, steps: seq<Step<F>>)
    requires Legal(stage, Init(zero), [Send(Handshake, NoPayload)] + steps)
    ensures var s := Exec(stage, Init(zero), [Send(Handshake, NoPayload)] + steps);
      && (s.offered != [] <==> exists n :: n in s.delivered && n >= ID_SPACE && n % ID_SPACE == 0)
      && (|s.sent| <= ID_SPACE ==> s.offered == [])
  {
    var first := Send(Handshake, NoPayload);
    var all := [first] + steps;
    assert all[1..] == steps;
    StepKeepsInv(stage, Init(zero), first);
    StepKeepsStart(stage, Init(zero), first);
    RunKeepsStart(stage, Apply(stage, Init(zero), first), steps);
    var s := Exec(stage, Init(zero), all);
    assert s.sent[0].kind == Handshake && 0 !in s.delivered;
  }

  // ---- A run without delay, loss or duplication that is out of order ----

  /** One frame is sent as packet n, echoed as the k-th reply, and received, all at once. */
  function RoundTrip<F>(n: nat, k: nat, frame: F): (steps: seq<Step<F>>) {
    [Send(AudioFrame, Audio(frame)), ServeSent(n), Deliver(k)]
  }

  /** n control packets, which nobody answers. */
  function ControlPackets<F>(n: nat): (steps: seq<Step<F>>)
    ensures |steps| == n
  {
    if n == 0 then [] else [Send(PacketType.ControlEvent, Control(1, 1.0))] + ControlPackets(n - 1)
  }

  lemma {:induction false} RunConcat<F(!new)>(stage: F -> F, s: State<F>, a: seq<Step<F>>, b: seq<Step<F>>)
    requires Legal(stage, s, a) && Legal(stage, Exec(stage, s, a), b)
    ensures Legal(stage, s, a + b) && Exec(stage, s, a + b) == Exec(stage, Exec(stage, s, a), b)
    decreases |a|
  {
    if a == [] {
      assert a + b == b;
    } else {
      assert (a + b)[0] == a[0] && (a + b)[1..] == a[1..] + b;
      RunConcat(stage, Apply(stage, s, a[0]), a[1..], b);
    }
  }

  /** The audio echo of a frame sent as packet n. */
  function EchoOf<F>(stage: F -> F, n: nat, frame: F): (e: Echo<F>) {
    Echo(n, Packet(MAGIC, AudioFrame, n % ID_SPACE, Audio(stage(frame))))
  }

  lemma OneStep<F(!new)>(stage: F -> F, s: State<F>, a: Step<F>)
    requires Enabled(s, a)
    ensures Legal(stage, s, [a]) && Exec(stage, s, [a]) == Apply(stage, s, a)
  {
    var t := Apply(stage, s, a);
    assert [a][1..] == [] && Legal(stage, t, []) && Exec(stage, t, []) == t;
  }

  lemma ThreeSteps<F(!new)>(stage: F -> F, s: State<F>, a: Step<F>, b: Step<F>, c: Step<F>)
    requires Enabled(s, a) && Enabled(Apply(stage, s, a), b) && Enabled(Apply(stage, Apply(stage, s, a), b), c)
    ensures Legal(stage, s, [a, b, c])
    ensures Exec(stage, s, [a, b, c]) == Apply(stage, Apply(stage, Apply(stage, s, a), b), c)
  {
    var s1 := Apply(stage, s, a);
    OneStep(stage, s, a);
    OneStep(stage, s1, b);
    OneStep(stage, Apply(stage, s1, b), c);
    RunConcat(stage, s1, [b], [c]);
    RunConcat(stage, s, [a], [b] + [c]);
    assert [a] + ([b] + [c]) == [a, b, c];
  }

  lemma RoundTripRun<F(!new)>(stage: F -> F, s: State<F>, frame: F) returns (t: State<F>)
    requires Inv(stage, s)
    ensures var steps := RoundTrip(|s.sent|, |s.echoes|, frame);
      Legal(stage, s, steps) && Exec(stage, s, steps) == t && Inv(stage, t)
    ensures |t.sent| == |s.sent| + 1 && |t.echoes| == |s.echoes| + 1
    ensures var p, e := Position(|s.sent|, Frontier(s)), Frontier(s); var (jitter, out) := Drain(Store(s.jitter, |s.sent| % ID_SPACE, stage(frame)));
      && t.jitter == jitter && t.offered == s.offered + out
      && t.source == (if p < e + WINDOW then s.source[p := |s.sent|] else s.source)
  {
    var n, k := |s.sent|, |s.echoes|;
    var send: Step<F> := Send(AudioFrame, Audio(frame));
    var s1 := Apply(stage, s, send);
    StepKeepsInv(stage, s, send);
    var s2 := Apply(stage, s1, ServeSent(n));
    StepKeepsInv(stage, s1, ServeSent(n));
    assert s2.echoes == s.echoes + [EchoOf(stage, n, frame)];
    DeliverAt(stage, s2, k);
    t := Apply(stage, s2, Deliver(k));
    StepKeepsInv(stage, s2, Deliver(k));
    ThreeSteps(stage, s, send, ServeSent(n), Deliver(k));
  }

  lemma {:induction false} ControlPacketsRun<F(!new)>(stage: F -> F, s: State<F>, n: nat) returns (t: State<F>)
    requires Inv(stage, s)
    ensures Legal(stage, s, ControlPackets(n)) && Exec(stage, s, ControlPackets(n)) == t && Inv(stage, t)
    ensures |t.sent| == |s.sent| + n && t == s.(sent := t.sent, seqId := t.seqId)
    decreases n
  {
    if n == 0 {
      t := s;
    } else {
      var step: Step<F> := Send(PacketType.ControlEvent, Control(1, 1.0));
      StepKeepsInv(stage, s, step);
      t := ControlPacketsRun(stage, Apply(stage, s, step), n - 1);
      assert ControlPackets<F>(n)[1..] == ControlPackets<F>(n - 1);
    }
  }

  function Fresh<F>(zero: F): (j: Jitter<F>)
    ensures ValidJitter(j) && j.expected == 0
  {
    Init(zero).jitter
  }

  /** Packet 1 waits in its slot for id 0, and goes out right behind it. */
  lemma HeldThenFreed<F>(zero: F, f0: F, f1: F)
    ensures var held := Store(Fresh(zero), 1, f1);
      Drain(held) == (held, []) && Drain(Store(held, 0, f0)).1 == [f0, f1]
  {
    var held := Store(Fresh(zero), 1, f1);
    DrainUnfolds(held);
    var j := Store(held, 0, f0);
    DrainUnfolds(j);
    DrainUnfolds(Advance(j));
    DrainUnfolds(Advance(Advance(j)));
  }

  lemma HandshakeRun<F(!new)>(stage: F -> F, zero: F) returns (t: State<F>)
    ensures Legal(stage, Init(zero), [Send(Handshake, NoPayload)])
    ensures t == Exec(stage, Init(zero), [Send(Handshake, NoPayload)]) && Inv(stage, t)
    ensures |t.sent| == 1 && t.echoes == [] && t.jitter == Fresh(zero) && t.offered == [] && t.source == map[]
  {
    var first: Step<F> := Send(Handshake, NoPayload);
    StepKeepsInv(stage, Init(zero), first);
    t := Apply(stage, Init(zero), first);
    OneStep(stage, Init(zero), first);
  }

  /** Packet 1 comes back while the stream waits for id 0. */
  lemma SecondPacketIsHeld<F(!new)>(stage: F -> F, zero: F, s: State<F>, f1: F) returns (t: State<F>)
    requires Inv(stage, s) && |s.sent| == 1 && s.echoes == [] && s.jitter == Fresh(zero) && s.offered == [] && s.source == map[]
    ensures Legal(stage, s, RoundTrip(1, 0, f1)) && Exec(stage, s, RoundTrip(1, 0, f1)) == t && Inv(stage, t)
    ensures |t.sent| == 2 && |t.echoes| == 1 && t.offered == [] && t.source == map[1 := 1]
    ensures t.jitter == Store(Fresh(zero), 1, stage(f1))
  {
    HeldThenFreed(zero, stage(f1), stage(f1));
    t := RoundTripRun(stage, s, f1);
  }

  /** Packet 2^32 comes back and sets it free. */
  lemma HeldPacketIsFreed<F(!new)>(stage: F -> F, zero: F, s: State<F>, f0: F, f1: F) returns (t: State<F>)
    requires Inv(stage, s) && |s.sent| == ID_SPACE && |s.echoes| == 1 && s.offered == [] && s.source == map[1 := 1]
    requires s.jitter == Store(Fresh(zero), 1, stage(f1))
    ensures Legal(stage, s, RoundTrip(ID_SPACE, 1, f0)) && Exec(stage, s, RoundTrip(ID_SPACE, 1, f0)) == t
    ensures t.offered == [stage(f0), stage(f1)] && t.source == map[0 := ID_SPACE, 1 := 1]
  {
    HeldThenFreed(zero, stage(f0), stage(f1));
    t := RoundTripRun(stage, s, f0);
  }

  lemma FourRuns<F(!new)>(stage: F -> F, s: State<F>, a: seq<Step<F>>, b: seq<Step<F>>, c: seq<Step<F>>, d: seq<Step<F>>)
    requires Legal(stage, s, a) && Legal(stage, Exec(stage, s, a), b)
    requires Legal(stage, Exec(stage, Exec(stage, s, a), b), c)
    requires Legal(stage, Exec(stage, Exec(stage, Exec(stage, s, a), b), c), d)
    ensures Legal(stage, s, a + (b + (c + d)))
    ensures Exec(stage, s, a + (b + (c + d))) == Exec(stage, Exec(stage, Exec(stage, Exec(stage, s, a), b), c), d)
  {
    var s1 := Exec(stage, s, a);
    var s2 := Exec(stage, s1, b);
    RunConcat(stage, s2, c, d);
    RunConcat(stage, s1, b, c + d);
    RunConcat(stage, s, a, b + (c + d));
  }

  /** The handshake; packet 1; control packets until the ids have come round; packet 2^32. */
  function FullCycle<F>(f0: F, f1: F): (steps: seq<Step<F>>) {
    [Send(Handshake, NoPayload)] + (RoundTrip(1, 0, f1) + (ControlPackets(ID_SPACE - 2) + RoundTrip(ID_SPACE, 1, f0)))
  }

  /** No delay, loss or duplication is needed for frames out of order: after the handshake, packet 1
      stays in its slot until the ids have come round, and is then offered behind the frame that was
      sent 2^32 packets later. */
  lemma OrderFailsWithoutDelay<F(!new)>(stage: F -> F, zero: F, f0: F, f1: F)
    ensures Legal(stage, Init(zero), FullCycle(f0, f1))
    ensures var s := Exec(stage, Init(zero), FullCycle(f0, f1));
      && s.offered == [stage(f0), stage(f1)] && s.source == map[0 := ID_SPACE, 1 := 1]
      && !InSendingOrder(s)
  {
    var s1 := HandshakeRun(stage, zero);
    var s2 := SecondPacketIsHeld(stage, zero, s1, f1);
    var s3 := ControlPacketsRun(stage, s2, ID_SPACE - 2);
    var s4 := HeldPacketIsFreed(stage, zero, s3, f0, f1);
    FourRuns(stage, Init(zero), [Send(Handshake, NoPayload)], RoundTrip(1, 0, f1), ControlPackets(ID_SPACE - 2), RoundTrip(ID_SPACE, 1, f0));
    assert !SentBefore(s4.source, 0, 1);
  }
}
