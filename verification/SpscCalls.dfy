/** The atomic steps of one ring call, taken without interruption and with up-to-date loads, have
    exactly the effect of the call as one operation (Ring.dfy). */
module SpscCalls {
  import opened Base
  import opened SpscProtocol
  import R = Ring

  function SlotItem<T>(s: State<T>, slot: nat): (x: T) {
    var l := Last(s.log, slot);
    if l >= 0 then s.log[l].item else s.zero
  }

  /** The three members of the ring as they are now. */
  function Members<T>(s: State<T>): (r: R.RingState<T>)
    requires s.headStores != [] && s.tailStores != []
  {
    R.RingState(s.headStores[|s.headStores| - 1], s.tailStores[|s.tailStores| - 1].value,
                seq(s.cap, slot requires 0 <= slot < s.cap => SlotItem(s, slot)))
  }

  /** The slots of the counters from lo on, without remainders. */
  lemma SlotOrder(lo: nat, n: nat, cap: nat)
    requires cap > 0 && lo <= n < lo + cap
    ensures n % cap == if lo % cap + (n - lo) < cap then lo % cap + (n - lo) else lo % cap + (n - lo) - cap
  {
    var q, r := lo / cap, lo % cap;
    assert lo == q * cap + r;
    if r + (n - lo) < cap {
      assert n == q * cap + (r + (n - lo));
      MultipleMod(q, cap, r + (n - lo));
    } else {
      assert n == (q + 1) * cap + (r + (n - lo) - cap);
      MultipleMod(q + 1, cap, r + (n - lo) - cap);
    }
  }

  /** A ring whose counters are reduced from lo and hi holds the slots from lo to hi. */
  lemma RingHoldsSlots<T>(r: R.RingState<T>, cap: nat, lo: nat, hi: nat, i: nat)
    requires |r.data| == cap > 0 && lo <= hi < lo + cap && r.head == lo % cap && r.tail == hi % cap
    ensures R.ValidRing(r) && |R.Contents(r)| == hi - lo
    ensures i < hi - lo ==> R.Contents(r)[i] == r.data[(lo + i) % cap]
  {
    SlotOrder(lo, hi, cap);
    R.ContentsAt(r, i);
    if i < hi - lo {
      SlotOrder(lo, lo + i, cap);
    }
  }

  lemma MembersAre<T>(s: State<T>)
    requires HistoryInv(s)
    ensures var r := Members(s);
      R.ValidRing(r) && r.head == s.Pops() % s.cap && r.tail == s.Pushes() % s.cap && |r.data| == s.cap
  {
  }

  lemma QueueItem<T>(s: State<T>, i: nat)
    requires HistoryInv(s) && i < |Queue(s)|
    ensures (s.Pops() + i) % s.cap < |Members(s).data|
    ensures Queue(s)[i] == Members(s).data[(s.Pops() + i) % s.cap]
  {
    var n: nat := s.Pops() + i;
    var slot: nat := n % s.cap;
    assert Queue(s)[i] == ItemAt(s, n) == SlotItem(s, slot);
    assert Members(s).data[slot] == SlotItem(s, slot);
  }

  /** Nothing but the ring, its two counters and the queue matters here. */
  lemma RingHoldsQueue<T>(r: R.RingState<T>, cap: nat, lo: nat, hi: nat, q: seq<T>)
    requires |r.data| == cap > 0 && lo <= hi < lo + cap && r.head == lo % cap && r.tail == hi % cap
    requires |q| == hi - lo && forall i: nat | i < |q| :: q[i] == r.data[(lo + i) % cap]
    ensures R.ValidRing(r) && R.Contents(r) == q
  {
    RingHoldsSlots(r, cap, lo, hi, 0);
    forall i: nat | i < |q| ensures R.Contents(r)[i] == q[i] {
      RingHoldsSlots(r, cap, lo, hi, i);
    }
  }

  /** In every reachable state the members are a valid ring, and hold the queue. */
  lemma MembersHoldQueue<T>(s: State<T>)
    requires HistoryInv(s)
    ensures R.ValidRing(Members(s)) && R.Contents(Members(s)) == Queue(s)
  {
    MembersAre(s);
    forall i: nat | i < |Queue(s)|
      ensures (s.Pops() + i) % s.cap < |Members(s).data| && Queue(s)[i] == Members(s).data[(s.Pops() + i) % s.cap]
    {
      QueueItem(s, i);
    }
    RingHoldsQueue(Members(s), s.cap, s.Pops(), s.Pushes(), Queue(s));
  }

  lemma TwoSteps<T>(s: State<T>, a: Step<T>, b: Step<T>)
    requires Enabled(s, a) && Enabled(Apply(s, a), b)
    ensures var t := Apply(s, a);
      Legal(s, [a, b]) && Exec(s, [a, b]) == Apply(t, b) && Trace(s, [a, b]) == Emit(s, a) + Emit(t, b)
  {
    var t := Apply(Apply(s, a), b);
    assert Legal(t, []) && Exec(t, []) == t && Trace(t, []) == [];
    assert [a, b][1..] == [b] && [b][1..] == [];
    assert Legal(Apply(s, a), [b]) && Exec(Apply(s, a), [b]) == t && Trace(Apply(s, a), [b]) == Emit(Apply(s, a), b);
  }

  lemma Assoc<T>(a: seq<T>, b: seq<T>, c: seq<T>)
    ensures (a + b) + c == a + (b + c)
  {
  }

  lemma {:induction false} RunConcat<T>(s: State<T>, a: seq<Step<T>>, b: seq<Step<T>>)
    requires Legal(s, a) && Legal(Exec(s, a), b)
    ensures Legal(s, a + b) && Exec(s, a + b) == Exec(Exec(s, a), b) && Trace(s, a + b) == Trace(s, a) + Trace(Exec(s, a), b)
    decreases |a|
  {
    if a == [] {
      assert a + b == b;
    } else {
      assert (a + b)[0] == a[0] && (a + b)[1..] == a[1..] + b;
      RunConcat(Apply(s, a[0]), a[1..], b);
      Assoc(Emit(s, a[0]), Trace(Apply(s, a[0]), a[1..]), Trace(Exec(s, a), b));
    }
  }

  lemma FourSteps<T>(s: State<T>, a: Step<T>, b: Step<T>, c: Step<T>, d: Step<T>)
    requires Enabled(s, a) && Enabled(Apply(s, a), b)
    requires Enabled(Apply(Apply(s, a), b), c) && Enabled(Apply(Apply(Apply(s, a), b), c), d)
    requires Emit(s, a) == Emit(Apply(s, a), b) == []
    ensures var s2 := Apply(Apply(s, a), b); var s3 := Apply(s2, c);
      Legal(s, [a, b, c, d]) && Exec(s, [a, b, c, d]) == Apply(s3, d) && Trace(s, [a, b, c, d]) == Emit(s2, c) + Emit(s3, d)
  {
    var s2 := Apply(Apply(s, a), b);
    TwoSteps(s, a, b);
    TwoSteps(s2, c, d);
    RunConcat(s, [a, b], [c, d]);
    assert [a, b] + [c, d] == [a, b, c, d];
    assert Trace(s, [a, b]) == [];
  }

  /** Writing the reserved slot and publishing it. */
  lemma WriteAndPublish<T>(s: State<T>, x: T)
    requires s.prod.PRoom? && s.cap > 0 && s.headStores != [] && s.tailStores != []
    ensures Enabled(s, PWriteSlot(x)) && Enabled(Apply(s, PWriteSlot(x)), PPublish)
    ensures var t := Apply(Apply(s, PWriteSlot(x)), PPublish);
      && t.headStores != [] && t.tailStores != []
      && Members(t).head == Members(s).head && Members(t).tail == (s.prod.curTail + 1) % s.cap
      && (s.prod.curTail < s.cap ==> Members(t).data == Members(s).data[s.prod.curTail := x])
  {
    var t := Apply(Apply(s, PWriteSlot(x)), PPublish);
    forall slot: nat | slot < s.cap ensures SlotItem(t, slot) == if slot == s.prod.curTail then x else SlotItem(s, slot) {
      LastAfter(s.log, SlotWrite(s.prod.curTail, x, false), slot);
    }
  }

  lemma SameMembers<T>(s: State<T>, t: State<T>)
    requires s.headStores != [] && s.tailStores != []
    requires t.cap == s.cap && t.zero == s.zero && t.log == s.log && t.headStores == s.headStores && t.tailStores == s.tailStores
    ensures Members(t) == Members(s)
  {
  }

  lemma ReserveSteps<T>(s: State<T>, load: Step<T>)
    requires s.prod.PIdle? && s.cap > 0 && s.headStores != [] && s.tailStores != [] && s.headSeen <= s.Pops()
    requires load == PLoadHead(s.Pops())
    ensures Enabled(s, PCall) && Enabled(Apply(s, PCall), load) && Emit(s, PCall) == []
    ensures var s1 := Apply(s, PCall); var t := Apply(s1, load);
      && t == s.(headSeen := s.Pops(), prod := t.prod)
      && if (s.tailStores[s.Pushes()].value + 1) % s.cap == s.headStores[s.Pops()]
         then t.prod.PIdle? && Emit(s1, load) == [PushRefused(true)]
         else t.prod == PRoom(s.tailStores[s.Pushes()].value, None) && Emit(s1, load) == []
  {
  }

  /** The steps of a push after the one that begins it, and those of a pop. */
  predicate InPush<T>(step: Step<T>) { step.PLoadHead? || step.PWriteSlot? || step.PPublish? }

  predicate InPop<T>(step: Step<T>) { step.CLoadTail? || step.CReadSlot? || step.CPublish? }

  /** push, or reserve_write and commit_write, taken without interruption: the result and the members are those of Ring.Push. */
  lemma PushRun<T>(s: State<T>, x: T) returns (steps: seq<Step<T>>, t: State<T>)
    requires Inv(s) && s.prod.PIdle?
    ensures steps != [] && steps[0] == PCall && forall i | 0 < i < |steps| :: InPush(steps[i])
    ensures Legal(s, steps) && t == Exec(s, steps) && t.prod.PIdle?
    ensures R.ValidRing(Members(s)) && t.headStores != [] && t.tailStores != []
    ensures var (r, ok) := R.Push(Members(s), x);
      Members(t) == r && Trace(s, steps) == [if ok then PushDone(x) else PushRefused(true)]
  {
    MembersAre(s);
    var load: Step<T> := PLoadHead(s.Pops());
    ReserveSteps(s, load);
    t := Apply(Apply(s, PCall), load);
    SameMembers(s, t);
    if t.prod.PIdle? {
      TwoSteps(s, PCall, load);
      steps := [PCall, load];
    } else {
      WriteAndPublish(t, x);
      FourSteps(s, PCall, load, PWriteSlot(x), PPublish);
      steps := [PCall, load, PWriteSlot(x), PPublish];
      t := Apply(Apply(t, PWriteSlot(x)), PPublish);
    }
  }

  /** The newest write to the peeked slot can be read. */
  ghost predicate NewestReadable<T>(s: State<T>) {
    s.cons.CHolding? ==>
      Last(s.log, s.cons.curHead) >= 0 && MayRead(s, s.cons.curHead, Some(Last(s.log, s.cons.curHead) as nat))
  }

  lemma PeekedIsReadable<T>(s: State<T>)
    requires Inv(s) && s.cons.CIdle?
    ensures Enabled(s, CCall) && Enabled(Apply(s, CCall), CLoadTail(s.Pushes()))
    ensures NewestReadable(Apply(Apply(s, CCall), CLoadTail(s.Pushes())))
  {
    StepRefines(s, CCall);
    StepRefines(Apply(s, CCall), CLoadTail(s.Pushes()));
    assert s.Pops() < s.Pushes() ==> Published(s, s.Pops());
  }

  lemma PeekSteps<T>(s: State<T>, load: Step<T>)
    requires s.cons.CIdle? && s.headStores != [] && s.tailStores != [] && s.tailSeen <= s.Pushes()
    requires load == CLoadTail(s.Pushes())
    ensures Enabled(s, CCall) && Enabled(Apply(s, CCall), load) && Emit(s, CCall) == []
    ensures var s1 := Apply(s, CCall); var t := Apply(s1, load); var head := s.headStores[s.Pops()];
      && t == s.(tailSeen := s.Pushes(), known := t.known, cons := t.cons)
      && if head == s.tailStores[s.Pushes()].value then t.cons.CIdle? && Emit(s1, load) == [PopRefused(true)]
         else t.cons == CHolding(head, None) && Emit(s1, load) == []
  {
  }

  /** Reading the peeked slot and retiring it. */
  lemma ReadAndRetire<T>(s: State<T>, read: Step<T>)
    requires s.cons.CHolding? && s.cap > 0 && s.headStores != [] && s.tailStores != [] && NewestReadable(s)
    requires read == CReadSlot(Some(Last(s.log, s.cons.curHead) as nat))
    ensures Enabled(s, read) && Enabled(Apply(s, read), CPublish)
    ensures var t := Apply(Apply(s, read), CPublish);
      && t.headStores != [] && t.tailStores != []
      && Members(t) == Members(s).(head := (s.cons.curHead + 1) % s.cap)
      && Emit(s, read) + Emit(Apply(s, read), CPublish) == [PopDone(SlotItem(s, s.cons.curHead))]
  {
    assert Members(Apply(Apply(s, read), CPublish)).data == Members(s).data;
  }

  /** pop, or peek_read and commit_read, taken without interruption: the result and the members are those of Ring.Pop. */
  lemma PopRun<T>(s: State<T>) returns (steps: seq<Step<T>>, t: State<T>)
    requires Inv(s) && s.cons.CIdle?
    ensures steps != [] && steps[0] == CCall && forall i | 0 < i < |steps| :: InPop(steps[i])
    ensures Legal(s, steps) && t == Exec(s, steps) && t.cons.CIdle?
    ensures R.ValidRing(Members(s)) && t.headStores != [] && t.tailStores != []
    ensures var (r, x) := R.Pop(Members(s));
      Members(t) == r && Trace(s, steps) == [if x.Some? then PopDone(x.value) else PopRefused(true)]
  {
    MembersAre(s);
    PeekedIsReadable(s);
    var load: Step<T> := CLoadTail(s.Pushes());
    PeekSteps(s, load);
    t := Apply(Apply(s, CCall), load);
    SameMembers(s, t);
    if t.cons.CIdle? {
      TwoSteps(s, CCall, load);
      steps := [CCall, load];
    } else {
      var read: Step<T> := CReadSlot(Some(Last(t.log, t.cons.curHead) as nat));
      ReadAndRetire(t, read);
      FourSteps(s, CCall, load, read, CPublish);
      steps := [CCall, load, read, CPublish];
      assert SlotItem(t, t.cons.curHead) == Members(s).data[Members(s).head];
      t := Apply(Apply(t, read), CPublish);
    }
  }
}
