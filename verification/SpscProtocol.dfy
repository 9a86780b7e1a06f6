/** One producer and one consumer on the ring of ipc_shm.hpp, with every atomic load, slot access and
    atomic store a step of its own. The steps cover both ways of using the ring: `push` and `pop`, which
    write and read the slot once, and the zero-copy calls, between which the producer may write the
    reserved slot any number of times and the consumer may read the peeked slot and work on it in place.

    Memory is weak. A load of the other side's counter returns any value stored there that is no
    older than the last one this side has acquired. An acquire load that returns the t-th store makes
    visible the producer's slot writes that preceded that store, and no others: a slot read returns any
    write to the slot that the consumer does not know to be overwritten, or the initial contents when
    it knows of no write to the slot. */
module SpscProtocol {
  import opened Base

  datatype ProducerPc<T> =
    | PIdle
    | PCalled(curTail: nat)
    | PRoom(curTail: nat, written: Option<T>)   // slot reserved, holding this value if written

  datatype ConsumerPc<T> =
    | CIdle
    | CCalled(curHead: nat)
    | CHolding(curHead: nat, seen: Option<T>)   // slot peeked, holding this value as far as was read or written

  datatype SlotWrite<T> = SlotWrite(slot: nat, item: T, byConsumer: bool)

  /** A store to tail_: its value, and how many of the slot writes so far it releases. */
  datatype TailStore = TailStore(value: nat, releases: nat)

  datatype State<T> = State(
    cap: nat,
    zero: T,
    headStores: seq<nat>,        // every value of head_, in modification order
    tailStores: seq<TailStore>,  // every value of tail_, in modification order
    log: seq<SlotWrite<T>>,      // every write to data_, in execution order
    headSeen: nat,               // newest store of head_ the producer has acquired
    tailSeen: nat,               // newest store of tail_ the consumer has acquired
    known: nat,                  // the producer's writes among the first `known` are visible to the consumer
    prod: ProducerPc<T>,
    cons: ConsumerPc<T>)
  {
    function Pops(): (n: int) { |headStores| - 1 }
    function Pushes(): (n: int) { |tailStores| - 1 }
  }

  function Init<T>(cap: nat, zero: T): (s': State<T>) {
    State(cap, zero, [0], [TailStore(0, 0)], [], 0, 0, 0, PIdle, CIdle)
  }

  datatype Step<T> =
    | PCall                        // push, reserve_write: relaxed load of tail_
    | PLoadHead(h: nat)            // push, reserve_write: acquire load of head_ returns its h-th store
    | PWriteSlot(item: T)          // a write to data_[current_tail]
    | PPublish                     // push, commit_write: release store of tail_
    | CCall                        // pop, peek_read: relaxed load of head_
    | CLoadTail(t: nat)            // pop, peek_read: acquire load of tail_ returns its t-th store
    | CReadSlot(from: Option<nat>) // a read of data_[current_head], returning that write
    | CWriteSlot(item: T)          // in-place work on data_[current_head]
    | CPublish                     // pop, commit_read: release store of head_

  /** The consumer knows its own writes and those released to it. */
  predicate Known<T>(s: State<T>, k: nat) {
    k < |s.log| && (s.log[k].byConsumer || k < s.known)
  }

  /** The slot writes a read of `slot` may return. */
  ghost predicate MayRead<T>(s: State<T>, slot: nat, from: Option<nat>) {
    match from
    case None => forall k: nat | Known(s, k) :: s.log[k].slot != slot
    case Some(j) =>
      && j < |s.log| && s.log[j].slot == slot
      && forall k: nat | j < k && Known(s, k) :: s.log[k].slot != slot
  }

  ghost predicate Enabled<T>(s: State<T>, step: Step<T>) {
    match step
    case PCall => s.prod.PIdle? && |s.tailStores| > 0
    case PLoadHead(h) => s.prod.PCalled? && s.cap > 0 && s.headSeen <= h < |s.headStores|
    case PWriteSlot(_) => s.prod.PRoom?
    case PPublish => s.prod.PRoom? && s.prod.written.Some? && s.cap > 0
    case CCall => s.cons.CIdle? && |s.headStores| > 0
    case CLoadTail(t) => s.cons.CCalled? && s.tailSeen <= t < |s.tailStores|
    case CReadSlot(from) => s.cons.CHolding? && MayRead(s, s.cons.curHead, from)
    case CWriteSlot(_) => s.cons.CHolding?
    case CPublish => s.cons.CHolding? && s.cons.seen.Some? && s.cap > 0
  }

  ghost function Apply<T>(s: State<T>, step: Step<T>): (s': State<T>)
    requires Enabled(s, step)
  {
    match step
    case PCall => s.(prod := PCalled(s.tailStores[s.Pushes()].value))
    case PLoadHead(h) =>
      var nextTail := (s.prod.curTail + 1) % s.cap;
      s.(headSeen := h, prod := if nextTail == s.headStores[h] then PIdle else PRoom(s.prod.curTail, None))
    case PWriteSlot(x) =>
      s.(log := s.log + [SlotWrite(s.prod.curTail, x, false)], prod := PRoom(s.prod.curTail, Some(x)))
    case PPublish =>
      s.(tailStores := s.tailStores + [TailStore((s.prod.curTail + 1) % s.cap, |s.log|)], prod := PIdle)
    case CCall => s.(cons := CCalled(s.headStores[s.Pops()]))
    case CLoadTail(t) =>
      s.(tailSeen := t,
         known := if s.known < s.tailStores[t].releases then s.tailStores[t].releases else s.known,
         cons := if s.cons.curHead == s.tailStores[t].value then CIdle else CHolding(s.cons.curHead, None))
    case CReadSlot(from) =>
      s.(cons := CHolding(s.cons.curHead, Some(if from.Some? then s.log[from.value].item else s.zero)))
    case CWriteSlot(x) =>
      s.(log := s.log + [SlotWrite(s.cons.curHead, x, true)], cons := CHolding(s.cons.curHead, Some(x)))
    case CPublish =>
      s.(headStores := s.headStores + [(s.cons.curHead + 1) % s.cap], cons := CIdle)
  }

  // ---- The specification: a bounded queue ----

  /** What the callers observe. `latest` says that the load behind a refusal returned the newest store. */
  datatype Event<T> =
    | PushDone(item: T)
    | PushRefused(latest: bool)
    | Reworked(item: T)
    | PopDone(item: T)
    | PopRefused(latest: bool)

  predicate FifoAllows<T(==)>(cap: nat, q: seq<T>, e: Event<T>) {
    match e
    case PushDone(_) => |q| < cap - 1
    case PushRefused(latest) => latest ==> |q| == cap - 1
    case Reworked(_) => q != []
    case PopDone(x) => q != [] && q[0] == x
    case PopRefused(latest) => latest ==> q == []
  }

  function FifoAfter<T>(q: seq<T>, e: Event<T>): (r: seq<T>) {
    match e
    case PushDone(x) => q + [x]
    case Reworked(x) => if q == [] then [] else q[0 := x]
    case PopDone(_) => if q == [] then [] else q[1..]
    case _ => q
  }

  predicate FifoAccepts<T(==)>(cap: nat, q: seq<T>, es: seq<Event<T>>)
    decreases |es|
  {
    es == [] || (FifoAllows(cap, q, es[0]) && FifoAccepts(cap, FifoAfter(q, es[0]), es[1..]))
  }

  function FifoFinal<T>(q: seq<T>, es: seq<Event<T>>): (r: seq<T>)
    decreases |es|
  {
    if es == [] then q else FifoFinal(FifoAfter(q, es[0]), es[1..])
  }

  ghost function Emit<T>(s: State<T>, step: Step<T>): (q: seq<Event<T>>)
    requires Enabled(s, step)
  {
    match step
    case PPublish => [PushDone(s.prod.written.value)]
    case PLoadHead(h) => if Apply(s, step).prod.PIdle? then [PushRefused(h == s.Pops())] else []
    case CWriteSlot(x) => [Reworked(x)]
    case CPublish => [PopDone(s.cons.seen.value)]
    case CLoadTail(t) => if Apply(s, step).cons.CIdle? then [PopRefused(t == s.Pushes())] else []
    case _ => []
  }

  // ---- Runs ----

  ghost predicate Legal<T>(s: State<T>, steps: seq<Step<T>>)
    decreases |steps|
  {
    steps == [] || (Enabled(s, steps[0]) && Legal(Apply(s, steps[0]), steps[1..]))
  }

  ghost function Exec<T>(s: State<T>, steps: seq<Step<T>>): (s': State<T>)
    requires Legal(s, steps)
    decreases |steps|
  {
    if steps == [] then s else Exec(Apply(s, steps[0]), steps[1..])
  }

  ghost function Trace<T>(s: State<T>, steps: seq<Step<T>>): (q: seq<Event<T>>)
    requires Legal(s, steps)
    decreases |steps|
  {
    if steps == [] then [] else Emit(s, steps[0]) + Trace(Apply(s, steps[0]), steps[1..])
  }

  // ---- The invariant ----

  /** The newest write to a slot, or -1. */
  function Last<T>(log: seq<SlotWrite<T>>, slot: nat): (l: int)
    ensures -1 <= l < |log| && (l >= 0 ==> log[l].slot == slot)
    ensures forall k | l < k < |log| :: log[k].slot != slot
  {
    if log == [] then -1
    else
      var n := |log| - 1;
      if log[n].slot == slot then n else Last(log[..n], slot)
  }

  lemma LastAfter<T>(log: seq<SlotWrite<T>>, w: SlotWrite<T>, slot: nat)
    ensures Last(log + [w], slot) == if w.slot == slot then |log| else Last(log, slot)
  {
    assert (log + [w])[..|log|] == log;
  }

  ghost predicate HistoryInv<T>(s: State<T>) {
    && s.cap > 0 && |s.headStores| > 0 && |s.tailStores| > 0
    && (forall h | 0 <= h < |s.headStores| :: s.headStores[h] == h % s.cap)
    && (forall t | 0 <= t < |s.tailStores| :: s.tailStores[t].value == t % s.cap && s.tailStores[t].releases <= |s.log|)
    && (forall t, u | 0 <= t <= u < |s.tailStores| :: s.tailStores[t].releases <= s.tailStores[u].releases)
    && s.headSeen <= s.Pops() <= s.tailSeen <= s.Pushes() <= s.headSeen + s.cap - 1
    && s.known == s.tailStores[s.tailSeen].releases
  }

  /** The n-th item of all is the newest write to its slot, and was released by the store that
      published it unless the consumer has since worked on it in place. */
  ghost predicate Published<T>(s: State<T>, n: nat)
    requires HistoryInv(s) && s.Pops() <= n < s.Pushes()
  {
    var l := Last(s.log, n % s.cap);
    l >= 0 && (l < s.tailStores[n + 1].releases || (n == s.Pops() && s.log[l].byConsumer))
  }

  ghost function ItemAt<T>(s: State<T>, n: nat): (r: T)
    requires HistoryInv(s)
  {
    var l := Last(s.log, n % s.cap);
    if l >= 0 then s.log[l].item else s.zero
  }

  ghost predicate ProducerInv<T>(s: State<T>)
    requires HistoryInv(s)
  {
    match s.prod
    case PIdle => true
    case PCalled(curTail) => curTail == s.Pushes() % s.cap
    case PRoom(curTail, written) =>
      && curTail == s.Pushes() % s.cap && s.Pushes() - s.headSeen <= s.cap - 2
      && (written.Some? ==> Last(s.log, curTail) >= 0 && ItemAt(s, s.Pushes()) == written.value)
  }

  ghost predicate ConsumerInv<T>(s: State<T>)
    requires HistoryInv(s)
  {
    match s.cons
    case CIdle => true
    case CCalled(curHead) => curHead == s.Pops() % s.cap
    case CHolding(curHead, seen) =>
      && curHead == s.Pops() % s.cap && s.Pops() < s.tailSeen
      && (seen.Some? ==> seen.value == ItemAt(s, s.Pops()))
  }

  ghost predicate Inv<T>(s: State<T>) {
    && HistoryInv(s) && ProducerInv(s) && ConsumerInv(s)
    && forall n: nat | s.Pops() <= n < s.Pushes() :: Published(s, n)
  }

  /** The queue the ring stands for: published and not yet retired. */
  ghost function Queue<T>(s: State<T>): (q: seq<T>)
    requires HistoryInv(s)
    ensures |q| == s.Pushes() - s.Pops()
  {
    seq(s.Pushes() - s.Pops(), i requires 0 <= i < s.Pushes() - s.Pops() => ItemAt(s, s.Pops() + i))
  }

  /** However old the value of head_ the producer loads, its full test is exact for that value:
      it refuses precisely when Capacity - 1 items were still there. */
  lemma FullTestIsExact<T>(s: State<T>, h: nat)
    requires Inv(s) && s.prod.PCalled? && s.headSeen <= h < |s.headStores|
    ensures (s.prod.curTail + 1) % s.cap == s.headStores[h] <==> s.Pushes() - h == s.cap - 1
  {
    SuccessorMod(s.Pushes(), s.cap);
    FullLead(s.Pushes() + 1, h, s.cap);
  }

  /** Likewise for the consumer's empty test. */
  lemma EmptyTestIsExact<T>(s: State<T>, t: nat)
    requires Inv(s) && s.cons.CCalled? && s.tailSeen <= t < |s.tailStores|
    ensures s.cons.curHead == s.tailStores[t].value <==> t == s.Pops()
  {
    if s.Pops() % s.cap == t % s.cap {
      SameSlot(s.Pops(), t, s.cap);
    }
  }

  /** Out of all the writes a slot read might return, only the newest one is possible, and it is the
      item at the front of the queue. */
  lemma ReadIsDetermined<T>(s: State<T>, from: Option<nat>)
    requires Inv(s) && s.cons.CHolding? && MayRead(s, s.cons.curHead, from)
    ensures from.Some? && from.value == Last(s.log, s.cons.curHead)
    ensures s.log[from.value].item == ItemAt(s, s.Pops()) == Queue(s)[0]
  {
    var n := s.Pops();
    assert Published(s, n);
    assert s.tailStores[n + 1].releases <= s.tailStores[s.tailSeen].releases;
    assert Known(s, Last(s.log, s.cons.curHead));
  }

  /** The reserved slot and the peeked slot are never the same, so no two conflicting accesses to a
      slot are ever possible at the same time. */
  lemma NoSlotRace<T>(s: State<T>)
    requires Inv(s) && s.prod.PRoom? && s.cons.CHolding?
    ensures s.prod.curTail != s.cons.curHead
  {
    if s.prod.curTail == s.cons.curHead {
      SameSlot(s.Pops(), s.Pushes(), s.cap);
    }
  }

  // ---- Steps ----

  /** A write to one slot leaves the items of all other slots. */
  lemma WriteElsewhere<T>(s: State<T>, w: SlotWrite<T>, lo: nat, hi: nat)
    requires HistoryInv(s) && lo <= hi && w.slot == hi % s.cap && hi - lo < s.cap
    ensures forall n: nat | lo <= n < hi :: n % s.cap != w.slot && Last(s.log + [w], n % s.cap) == Last(s.log, n % s.cap)
  {
    forall n: nat | lo <= n < hi
      ensures n % s.cap != w.slot && Last(s.log + [w], n % s.cap) == Last(s.log, n % s.cap)
    {
      if n % s.cap == hi % s.cap {
        SameSlot(n, hi, s.cap);
      }
      LastAfter(s.log, w, n % s.cap);
    }
  }

  lemma WriteKeepsItems<T>(s: State<T>, x: T)
    requires Inv(s) && Enabled(s, PWriteSlot(x))
    ensures var s' := Apply(s, PWriteSlot(x));
      && HistoryInv(s') && Last(s'.log, s.prod.curTail) == |s.log|
      && (forall n: nat | s.Pops() <= n < s.Pushes() :: Published(s', n))
      && (forall n: nat | s.Pops() <= n < s.Pushes() :: ItemAt(s', n) == ItemAt(s, n))
  {
    var s', w := Apply(s, PWriteSlot(x)), SlotWrite(s.prod.curTail, x, false);
    WriteElsewhere(s, w, s.Pops(), s.Pushes());
    LastAfter(s.log, w, s.prod.curTail);
    forall n: nat | s.Pops() <= n < s.Pushes() ensures Published(s', n) && ItemAt(s', n) == ItemAt(s, n) {
      assert Published(s, n);
    }
  }

  lemma ProducerWriteRefines<T>(s: State<T>, x: T)
    requires Inv(s) && Enabled(s, PWriteSlot(x))
    ensures Inv(Apply(s, PWriteSlot(x))) && Queue(Apply(s, PWriteSlot(x))) == Queue(s)
  {
    WriteKeepsItems(s, x);
  }

  lemma PublishKeepsHistory<T>(s: State<T>)
    requires Inv(s) && Enabled(s, PPublish)
    ensures HistoryInv(Apply(s, PPublish)) && Apply(s, PPublish).Pushes() == s.Pushes() + 1
  {
    SuccessorMod(s.Pushes(), s.cap);
  }

  lemma ProducerPublishRefines<T>(s: State<T>)
    requires Inv(s) && Enabled(s, PPublish)
    ensures Inv(Apply(s, PPublish)) && Queue(Apply(s, PPublish)) == Queue(s) + [s.prod.written.value]
    ensures |Queue(s)| < s.cap - 1
  {
    var s' := Apply(s, PPublish);
    PublishKeepsHistory(s);
    forall n: nat | s.Pops() <= n < s.Pushes() ensures Published(s', n) && ItemAt(s', n) == ItemAt(s, n) {
      assert Published(s, n);
    }
    assert Published(s', s.Pushes()) && ItemAt(s', s.Pushes()) == s.prod.written.value;
  }

  /** In-place work on the peeked slot is work on the front item, whose slot no other item shares. */
  lemma WorkAtFront<T>(s: State<T>, w: SlotWrite<T>)
    requires Inv(s) && s.cons.CHolding? && w.slot == s.cons.curHead
    ensures Last(s.log + [w], w.slot) == |s.log|
    ensures forall n: nat | s.Pops() < n <= s.Pushes() && n < s.Pops() + s.cap ::
              n % s.cap != w.slot && Last(s.log + [w], n % s.cap) == Last(s.log, n % s.cap)
  {
    LastAfter(s.log, w, w.slot);
    forall n: nat | s.Pops() < n <= s.Pushes() && n < s.Pops() + s.cap
      ensures n % s.cap != w.slot && Last(s.log + [w], n % s.cap) == Last(s.log, n % s.cap)
    {
      if n % s.cap == s.Pops() % s.cap {
        SameSlot(s.Pops(), n, s.cap);
      }
      LastAfter(s.log, w, n % s.cap);
    }
  }

  lemma WorkKeepsItems<T>(s: State<T>, x: T)
    requires Inv(s) && Enabled(s, CWriteSlot(x))
    ensures var s' := Apply(s, CWriteSlot(x));
      && HistoryInv(s')
      && (forall n: nat | s.Pops() <= n < s.Pushes() :: Published(s', n))
      && (forall n: nat | s.Pops() <= n < s.Pushes() :: ItemAt(s', n) == if n == s.Pops() then x else ItemAt(s, n))
  {
    var s' := Apply(s, CWriteSlot(x));
    WorkAtFront(s, SlotWrite(s.cons.curHead, x, true));
    forall n: nat | s.Pops() <= n < s.Pushes()
      ensures Published(s', n) && ItemAt(s', n) == if n == s.Pops() then x else ItemAt(s, n)
    {
      assert Published(s, n);
    }
  }

  lemma ConsumerWriteRefines<T>(s: State<T>, x: T)
    requires Inv(s) && Enabled(s, CWriteSlot(x))
    ensures Inv(Apply(s, CWriteSlot(x)))
    ensures Queue(s) != [] && Queue(Apply(s, CWriteSlot(x))) == Queue(s)[0 := x]
  {
    WorkKeepsItems(s, x);
    WorkAtFront(s, SlotWrite(s.cons.curHead, x, true));
  }

  lemma RetireKeepsItems<T>(s: State<T>)
    requires Inv(s) && Enabled(s, CPublish)
    ensures var s' := Apply(s, CPublish);
      && HistoryInv(s') && s'.Pops() == s.Pops() + 1
      && (forall n: nat | s'.Pops() <= n < s.Pushes() :: Published(s', n))
      && (forall n: nat :: ItemAt(s', n) == ItemAt(s, n))
  {
    var s' := Apply(s, CPublish);
    SuccessorMod(s.Pops(), s.cap);
    forall n: nat | s'.Pops() <= n < s.Pushes() ensures Published(s', n) {
      assert Published(s, n);
    }
  }

  lemma ConsumerPublishRefines<T>(s: State<T>)
    requires Inv(s) && Enabled(s, CPublish)
    ensures Inv(Apply(s, CPublish)) && Queue(s) == [s.cons.seen.value] + Queue(Apply(s, CPublish))
  {
    RetireKeepsItems(s);
  }

  /** Calls and loads, which store nothing, leave every item where it is. */
  lemma NothingStored<T>(s: State<T>, s': State<T>)
    requires Inv(s) && HistoryInv(s')
    requires s' == s.(headSeen := s'.headSeen, tailSeen := s'.tailSeen, known := s'.known, prod := s'.prod, cons := s'.cons)
    ensures forall n: nat :: ItemAt(s', n) == ItemAt(s, n)
    ensures forall n: nat | s.Pops() <= n < s.Pushes() :: Published(s', n)
    ensures Queue(s') == Queue(s)
  {
    forall n: nat | s.Pops() <= n < s.Pushes() ensures Published(s', n) {
      assert Published(s, n);
    }
  }

  lemma ProducerLoadRefines<T>(s: State<T>, h: nat)
    requires Inv(s) && Enabled(s, PLoadHead(h))
    ensures Inv(Apply(s, PLoadHead(h))) && Queue(Apply(s, PLoadHead(h))) == Queue(s)
  {
    FullTestIsExact(s, h);
    NothingStored(s, Apply(s, PLoadHead(h)));
  }

  lemma ConsumerLoadRefines<T>(s: State<T>, t: nat)
    requires Inv(s) && Enabled(s, CLoadTail(t))
    ensures Inv(Apply(s, CLoadTail(t))) && Queue(Apply(s, CLoadTail(t))) == Queue(s)
  {
    EmptyTestIsExact(s, t);
    NothingStored(s, Apply(s, CLoadTail(t)));
  }

  lemma ConsumerReadRefines<T>(s: State<T>, from: Option<nat>)
    requires Inv(s) && Enabled(s, CReadSlot(from))
    ensures Inv(Apply(s, CReadSlot(from))) && Queue(Apply(s, CReadSlot(from))) == Queue(s)
  {
    ReadIsDetermined(s, from);
    NothingStored(s, Apply(s, CReadSlot(from)));
  }

  lemma CallRefines<T>(s: State<T>, step: Step<T>)
    requires Inv(s) && Enabled(s, step) && (step.PCall? || step.CCall?)
    ensures Inv(Apply(s, step)) && Queue(Apply(s, step)) == Queue(s)
  {
    NothingStored(s, Apply(s, step));
  }

  /** Every step keeps the invariant and is either silent or a legal move of the bounded queue. */
  lemma StepRefines<T>(s: State<T>, step: Step<T>)
    requires Inv(s) && Enabled(s, step)
    ensures Inv(Apply(s, step))
    ensures FifoAccepts(s.cap, Queue(s), Emit(s, step))
    ensures FifoFinal(Queue(s), Emit(s, step)) == Queue(Apply(s, step))
  {
    match step
    case PWriteSlot(x) => ProducerWriteRefines(s, x);
    case PPublish => ProducerPublishRefines(s);
    case PLoadHead(h) =>
      ProducerLoadRefines(s, h);
      FullTestIsExact(s, h);
    case CWriteSlot(x) => ConsumerWriteRefines(s, x);
    case CLoadTail(t) =>
      ConsumerLoadRefines(s, t);
      EmptyTestIsExact(s, t);
    case CReadSlot(from) => ConsumerReadRefines(s, from);
    case CPublish => ConsumerPublishRefines(s);
    case _ => CallRefines(s, step);
  }

  lemma {:induction false} FifoCompose<T>(cap: nat, q: seq<T>, es: seq<Event<T>>, fs: seq<Event<T>>)
    requires FifoAccepts(cap, q, es) && FifoAccepts(cap, FifoFinal(q, es), fs)
    ensures FifoAccepts(cap, q, es + fs) && FifoFinal(q, es + fs) == FifoFinal(FifoFinal(q, es), fs)
    decreases |es|
  {
    if es == [] {
      assert es + fs == fs;
    } else {
      assert (es + fs)[1..] == es[1..] + fs;
      FifoCompose(cap, FifoAfter(q, es[0]), es[1..], fs);
    }
  }

  lemma {:induction false} RunRefines<T>(s: State<T>, steps: seq<Step<T>>)
    requires Inv(s) && Legal(s, steps)
    ensures Inv(Exec(s, steps)) && Exec(s, steps).cap == s.cap
    ensures FifoAccepts(s.cap, Queue(s), Trace(s, steps))
    ensures FifoFinal(Queue(s), Trace(s, steps)) == Queue(Exec(s, steps))
    decreases |steps|
  {
    if steps != [] {
      StepRefines(s, steps[0]);
      RunRefines(Apply(s, steps[0]), steps[1..]);
      FifoCompose(s.cap, Queue(s), Emit(s, steps[0]), Trace(Apply(s, steps[0]), steps[1..]));
    }
  }

  /** Every interleaving, under every choice of stale loads, behaves as a queue bounded by Capacity - 1. */
  lemma RefinesBoundedFifo<T>(cap: nat, zero: T, steps: seq<Step<T>>)
    requires cap > 0 && Legal(Init(cap, zero), steps)
    ensures Inv(Exec(Init(cap, zero), steps))
    ensures FifoAccepts(cap, [], Trace(Init(cap, zero), steps))
    ensures FifoFinal([], Trace(Init(cap, zero), steps)) == Queue(Exec(Init(cap, zero), steps))
    ensures |Queue(Exec(Init(cap, zero), steps))| <= cap - 1
  {
    var s := Init(cap, zero);
    MultipleMod(0, cap, 0);
    assert Queue(s) == [];
    assert HistoryInv(s);
    RunRefines(s, steps);
  }

  function PushedBy<T>(e: Event<T>): (q: seq<T>) {
    if e.PushDone? then [e.item] else []
  }

  function PoppedBy<T>(e: Event<T>): (q: seq<T>) {
    if e.PopDone? then [e.item] else []
  }

  function Pushed<T>(es: seq<Event<T>>): (q: seq<T>) {
    if es == [] then [] else PushedBy(es[0]) + Pushed(es[1..])
  }

  function Popped<T>(es: seq<Event<T>>): (q: seq<T>) {
    if es == [] then [] else PoppedBy(es[0]) + Popped(es[1..])
  }

  predicate Untouched<T>(es: seq<Event<T>>) {
    forall i | 0 <= i < |es| :: !es[i].Reworked?
  }

  lemma {:induction false} FifoCounts<T>(cap: nat, q: seq<T>, es: seq<Event<T>>)
    requires FifoAccepts(cap, q, es)
    ensures |q| + |Pushed(es)| == |Popped(es)| + |FifoFinal(q, es)|
    decreases |es|
  {
    if es != [] {
      FifoCounts(cap, FifoAfter(q, es[0]), es[1..]);
    }
  }

  lemma MoveKeepsOrder<T>(cap: nat, q: seq<T>, e: Event<T>)
    requires FifoAllows(cap, q, e) && !e.Reworked?
    ensures q + PushedBy(e) == PoppedBy(e) + FifoAfter(q, e)
  {
  }

  lemma {:induction false} FifoOrder<T>(cap: nat, q: seq<T>, es: seq<Event<T>>)
    requires FifoAccepts(cap, q, es) && Untouched(es)
    ensures q + Pushed(es) == Popped(es) + FifoFinal(q, es)
    decreases |es|
  {
    if es != [] {
      var e, rest := es[0], es[1..];
      MoveKeepsOrder(cap, q, e);
      assert Untouched(rest);
      FifoOrder(cap, FifoAfter(q, e), rest);
      Regroup(q, PushedBy(e), PoppedBy(e), FifoAfter(q, e), Pushed(rest), Popped(rest), FifoFinal(q, es));
    }
  }

  lemma Regroup<T>(q: seq<T>, x: seq<T>, y: seq<T>, q': seq<T>, pushed: seq<T>, popped: seq<T>, left: seq<T>)
    requires q + x == y + q' && q' + pushed == popped + left
    ensures q + (x + pushed) == (y + popped) + left
  {
    assert q + (x + pushed) == (q + x) + pushed;
    assert (y + q') + pushed == y + (q' + pushed);
    assert y + (popped + left) == (y + popped) + left;
  }

  /** Items come out exactly once and in order, at most Capacity - 1 being under way; and unmodified, if
      the consumer does no work in place. */
  lemma ItemsArriveOnceInOrder<T>(cap: nat, zero: T, steps: seq<Step<T>>)
    requires cap > 0 && Legal(Init(cap, zero), steps)
    ensures var trace := Trace(Init(cap, zero), steps);
      && 0 <= |Pushed(trace)| - |Popped(trace)| <= cap - 1
      && (Untouched(trace) ==> Popped(trace) <= Pushed(trace))
  {
    RefinesBoundedFifo(cap, zero, steps);
    var trace := Trace(Init(cap, zero), steps);
    FifoCounts(cap, [], trace);
    if Untouched(trace) {
      FifoOrder(cap, [], trace);
      assert Pushed(trace) == [] + Pushed(trace) == Popped(trace) + FifoFinal([], trace);
    }
  }
}
