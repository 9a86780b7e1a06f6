/** The single-producer single-consumer ring of the shared memory segment, in its modulo form
    (daemon/ipc/include/ipc_shm.hpp) and its bit-mask form (Linux_DSP_accelleration.hpp).

    Both classes run one call at a time here; SpscProtocol.dfy interleaves their atomic steps.
    A pointer into data_ is the index of the slot it points to. `head + 1` and `tail + 1` never
    exceed Capacity, so a size_t cannot wrap in them. */
module Ring {
  import opened Base

  /** The three members of the ring, as a value. */
  datatype RingState<T> = RingState(head: nat, tail: nat, data: seq<T>)

  predicate ValidRing<T>(r: RingState<T>) {
    r.head < |r.data| && r.tail < |r.data|
  }

  /** The queue a ring stands for, oldest item first. */
  function Contents<T>(r: RingState<T>): (q: seq<T>)
    requires ValidRing(r)
    ensures |q| < |r.data|
  {
    if r.head <= r.tail then r.data[r.head..r.tail] else r.data[r.head..] + r.data[..r.tail]
  }

  /** What `push` does to the three members, and what it returns. */
  function Push<T>(r: RingState<T>, item: T): (pushed: (RingState<T>, bool))
    requires ValidRing(r)
  {
    var next := (r.tail + 1) % |r.data|;
    if next == r.head then (r, false)
    else (RingState(r.head, next, r.data[r.tail := item]), true)
  }

  /** What `pop` does to the three members, and what it hands out. */
  function Pop<T>(r: RingState<T>): (popped: (RingState<T>, Option<T>))
    requires ValidRing(r)
  {
    if r.head == r.tail then (r, None)
    else (RingState((r.head + 1) % |r.data|, r.tail, r.data), Some(r.data[r.head]))
  }

  /** Item i of the queue lies i slots behind the head. */
  lemma ContentsAt<T>(r: RingState<T>, i: nat)
    requires ValidRing(r)
    ensures |Contents(r)| == if r.head <= r.tail then r.tail - r.head else r.tail - r.head + |r.data|
    ensures i < |Contents(r)| ==>
      Contents(r)[i] == r.data[if r.head + i < |r.data| then r.head + i else r.head + i - |r.data|]
  {
  }

  /** The queue of a ring in which one more slot has been filled and the tail moved over it. */
  lemma TailMoves<T>(r: RingState<T>, item: T, next: nat)
    requires ValidRing(r) && next == (if r.tail + 1 == |r.data| then 0 else r.tail + 1)
    ensures next == r.head <==> |Contents(r)| == |r.data| - 1
    ensures next != r.head ==>
      Contents(RingState(r.head, next, r.data[r.tail := item])) == Contents(r) + [item]
  {
  }

  /** The queue of a ring whose head has moved over the oldest item. */
  lemma HeadMoves<T>(r: RingState<T>, next: nat)
    requires ValidRing(r) && r.head != r.tail && next == (if r.head + 1 == |r.data| then 0 else r.head + 1)
    ensures Contents(r) == [r.data[r.head]] + Contents(RingState(next, r.tail, r.data))
  {
  }

  /** `push` appends to the queue unless Capacity - 1 items are already there. */
  lemma PushAppends<T>(r: RingState<T>, item: T)
    requires ValidRing(r)
    ensures var (r', ok) := Push(r, item);
      && ValidRing(r') && |r'.data| == |r.data|
      && (ok <==> |Contents(r)| < |r.data| - 1)
      && Contents(r') == if ok then Contents(r) + [item] else Contents(r)
  {
    WrapStep(r.tail, |r.data|);
    TailMoves(r, item, (r.tail + 1) % |r.data|);
  }

  /** `pop` removes the oldest item unless the queue is empty. */
  lemma PopRemovesOldest<T>(r: RingState<T>)
    requires ValidRing(r)
    ensures var (r', x) := Pop(r);
      && ValidRing(r') && |r'.data| == |r.data|
      && (x.Some? <==> Contents(r) != [])
      && (x.Some? ==> Contents(r) == [x.value] + Contents(r'))
      && (x.None? ==> r' == r)
  {
    if r.head != r.tail {
      WrapStep(r.head, |r.data|);
      HeadMoves(r, (r.head + 1) % |r.data|);
    }
  }

  /** The queue after pushing `xs` in order; a push onto a full queue loses the item. */
  function PushAll<F>(q: seq<F>, cap: nat, xs: seq<F>): (q': seq<F>) {
    if xs == [] then q
    else
      var q' := PushAll(q, cap, xs[..|xs| - 1]);
      if |q'| < cap - 1 then q' + [xs[|xs| - 1]] else q'
  }

  lemma PushAllOneMore<F>(q: seq<F>, cap: nat, xs: seq<F>, x: F)
    ensures var q' := PushAll(q, cap, xs);
      PushAll(q, cap, xs + [x]) == if |q'| < cap - 1 then q' + [x] else q'
  {
    assert (xs + [x])[..|xs|] == xs;
  }

  /** The slot behind the newest item is free: writing to it changes no item of the queue. */
  lemma WriteAtTail<T>(r: RingState<T>, x: T)
    requires ValidRing(r)
    ensures Contents(r.(data := r.data[r.tail := x])) == Contents(r)
  {
  }

  /** Writing to the head slot of a non-empty ring changes the oldest item and nothing else. */
  lemma WriteAtHead<T>(r: RingState<T>, x: T)
    requires ValidRing(r) && r.head != r.tail
    ensures Contents(r) != [] && Contents(r)[0] == r.data[r.head]
    ensures Contents(r.(data := r.data[r.head := x])) == Contents(r)[0 := x]
  {
  }

  /** ShmSPSCRingBuffer of ipc_shm.hpp: counters wrap with `%`. */
  class ShmSPSCRingBuffer<T> {
    var head: nat
    var tail: nat
    const data: array<T>

    ghost predicate Valid()
      reads this
    {
      head < data.Length && tail < data.Length
    }

    ghost function State(): (r: RingState<T>)
      reads this, data
    {
      RingState(head, tail, data[..])
    }

    ghost function Queue(): (q: seq<T>)
      requires Valid()
      reads this, data
      ensures |q| < data.Length
    {
      Contents(State())
    }

    constructor (capacity: nat, zero: T)
      requires capacity > 0
      ensures Valid() && fresh(data) && data.Length == capacity
      ensures head == tail == 0 && Queue() == []
      ensures forall i | 0 <= i < capacity :: data[i] == zero
    {
      head, tail := 0, 0;
      data := new T[capacity](_ => zero);
    }

    method PushItem(item: T) returns (ok: bool)
      requires Valid()
      modifies this`tail, data
      ensures Valid() && (State(), ok) == Push(old(State()), item)
      ensures ok <==> |old(Queue())| < data.Length - 1
      ensures Queue() == if ok then old(Queue()) + [item] else old(Queue())
    {
      PushAppends(State(), item);
      var currentTail := tail;
      var nextTail := (currentTail + 1) % data.Length;
      if nextTail == head {
        return false;
      }
      data[currentTail] := item;
      tail := nextTail;
      return true;
    }

    method PopItem() returns (x: Option<T>)
      requires Valid()
      modifies this`head
      ensures Valid() && (State(), x) == Pop(old(State()))
      ensures x.Some? <==> old(Queue()) != []
      ensures x.Some? ==> old(Queue()) == [x.value] + Queue()
      ensures x.None? ==> Queue() == []
    {
      PopRemovesOldest(State());
      var currentHead := head;
      if currentHead == tail {
        return None;
      }
      x := Some(data[currentHead]);
      head := (currentHead + 1) % data.Length;
    }

    /** The slot holding the oldest item, left in the queue. */
    method PeekRead() returns (slot: Option<nat>)
      requires Valid()
      ensures slot.Some? <==> Queue() != []
      ensures slot.Some? ==> slot.value == head && data[head] == Queue()[0]
    {
      var currentHead := head;
      if currentHead == tail {
        return None;
      }
      return Some(currentHead);
    }

    /** Callers have a non-null `peek_read` in hand. */
    method CommitRead()
      requires Valid() && Queue() != []
      modifies this`head
      ensures Valid() && Queue() == old(Queue())[1..] && head == (old(head) + 1) % data.Length
    {
      PopRemovesOldest(State());
      var r' := Pop(State()).0;
      head := (head + 1) % data.Length;
      assert State() == r';
    }

    /** The slot the next `commit_write` will publish; it lies outside the queue. */
    method ReserveWrite() returns (slot: Option<nat>)
      requires Valid()
      ensures slot.Some? <==> |Queue()| < data.Length - 1
      ensures slot.Some? ==> slot.value == tail
    {
      PushAppends(State(), data[tail]);
      var currentTail := tail;
      var nextTail := (currentTail + 1) % data.Length;
      if nextTail == head {
        return None;
      }
      return Some(currentTail);
    }

    /** Callers have a non-null `reserve_write` in hand. */
    method CommitWrite()
      requires Valid() && |Queue()| < data.Length - 1
      modifies this`tail
      ensures Valid() && Queue() == old(Queue()) + [data[old(tail)]] && tail == (old(tail) + 1) % data.Length
    {
      PushAppends(State(), data[tail]);
      assert data[..][tail := data[tail]] == data[..];
      tail := (tail + 1) % data.Length;
    }

    method IsEmpty() returns (empty: bool)
      requires Valid()
      ensures empty <==> Queue() == []
    {
      return head == tail;
    }
  }

  // ---- The bit-mask variant ----

  /** Bitwise and of two unsigned numbers, bit by bit. */
  function And(a: nat, b: nat): (n: nat) {
    if a == 0 || b == 0 then 0 else (a % 2) * (b % 2) + 2 * And(a / 2, b / 2)
  }

  function Pow2(k: nat): (p: nat)
    ensures p >= 1
  {
    if k == 0 then 1 else 2 * Pow2(k - 1)
  }

  /** The static_assert of the bit-mask ring. */
  predicate PassesStaticAssert(cap: nat)
    requires cap > 0
  {
    And(cap, cap - 1) == 0
  }

  /** The static_assert admits the powers of two and nothing else. */
  lemma {:induction false} StaticAssertMeansPowerOfTwo(cap: nat)
    requires cap > 0
    ensures PassesStaticAssert(cap) <==> exists k: nat :: cap == Pow2(k)
  {
    if cap == 1 {
      assert cap == Pow2(0);
    } else if cap % 2 == 0 {
      assert (cap - 1) / 2 == cap / 2 - 1 && (cap - 1) % 2 == 1;
      assert And(cap, cap - 1) == 2 * And(cap / 2, cap / 2 - 1);
      StaticAssertMeansPowerOfTwo(cap / 2);
      if PassesStaticAssert(cap) {
        var k: nat :| cap / 2 == Pow2(k);
        assert cap == Pow2(k + 1);
      } else {
        forall k: nat ensures cap != Pow2(k) {
          if k > 0 {
            assert cap / 2 != Pow2(k - 1);
          }
        }
      }
    } else {
      AndSelf(cap / 2);
      assert (cap - 1) / 2 == cap / 2;
      forall k: nat ensures cap != Pow2(k) {
        if k > 0 {
          assert Pow2(k) == 2 * Pow2(k - 1);
        }
      }
    }
  }

  lemma {:induction false} AndSelf(a: nat)
    ensures And(a, a) == a
  {
    if a > 0 {
      AndSelf(a / 2);
    }
  }

  /** Masking with a power of two less one is taking the remainder. */
  lemma {:induction false} MaskIsRemainder(x: nat, k: nat)
    ensures And(x, Pow2(k) - 1) == x % Pow2(k)
  {
    if k == 0 {
      assert Pow2(k) == 1;
    } else if x == 0 {
      MultipleMod(0, Pow2(k), 0);
    } else {
      var p := Pow2(k - 1);
      assert Pow2(k) == 2 * p;
      MaskIsRemainder(x / 2, k - 1);
      MaskTwice(x, p);
    }
  }

  /** One more bit: if masking the upper bits of x takes their remainder, so does masking x. */
  lemma MaskTwice(x: nat, p: nat)
    requires p > 0 && And(x / 2, p - 1) == x / 2 % p
    ensures And(x, 2 * p - 1) == x % (2 * p)
  {
    OddMask(x, p);
    HalvedRemainder(x, p);
  }

  lemma OddMask(x: nat, p: nat)
    requires p > 0
    ensures And(x, 2 * p - 1) == x % 2 + 2 * And(x / 2, p - 1)
  {
    assert (2 * p - 1) / 2 == p - 1 && (2 * p - 1) % 2 == 1;
  }

  lemma HalvedRemainder(x: nat, p: nat)
    requires p > 0
    ensures x % (2 * p) == x % 2 + 2 * (x / 2 % p)
  {
    var y := x / 2;
    var q, r := y / p, y % p;
    assert y == q * p + r;
    assert x == q * (2 * p) + (x % 2 + 2 * r);
    MultipleMod(q, 2 * p, x % 2 + 2 * r);
  }

  /** For every capacity the bit-mask ring compiles with, its successor is the modulo ring's. */
  lemma MaskSuccessor(x: nat, cap: nat)
    requires cap > 0 && PassesStaticAssert(cap)
    ensures And(x + 1, cap - 1) == (x + 1) % cap
  {
    StaticAssertMeansPowerOfTwo(cap);
    var k: nat :| cap == Pow2(k);
    MaskIsRemainder(x + 1, k);
  }

  /** ShmSPSCRingBuffer of Linux_DSP_accelleration.hpp: counters wrap with `& (Capacity - 1)`.
      Its methods meet the modulo ring's specification exactly. */
  class MaskSPSCRingBuffer<T> {
    var head: nat
    var tail: nat
    const data: array<T>

    ghost predicate Valid()
      reads this
    {
      head < data.Length && tail < data.Length && PassesStaticAssert(data.Length)
    }

    ghost function State(): (r: RingState<T>)
      reads this, data
    {
      RingState(head, tail, data[..])
    }

    constructor (capacity: nat, zero: T)
      requires capacity > 0 && PassesStaticAssert(capacity)
      ensures Valid() && fresh(data) && data.Length == capacity
      ensures State() == RingState(0, 0, seq(capacity, _ => zero))
    {
      head, tail := 0, 0;
      data := new T[capacity](_ => zero);
    }

    method PushItem(item: T) returns (ok: bool)
      requires Valid()
      modifies this`tail, data
      ensures Valid() && (State(), ok) == Push(old(State()), item)
    {
      MaskSuccessor(tail, data.Length);
      var currentTail := tail;
      var nextTail := And(currentTail + 1, data.Length - 1);
      if nextTail == head {
        return false;
      }
      data[currentTail] := item;
      tail := nextTail;
      return true;
    }

    method PopItem() returns (x: Option<T>)
      requires Valid()
      modifies this`head
      ensures Valid() && (State(), x) == Pop(old(State()))
    {
      MaskSuccessor(head, data.Length);
      var currentHead := head;
      if currentHead == tail {
        return None;
      }
      x := Some(data[currentHead]);
      head := And(currentHead + 1, data.Length - 1);
    }
  }

  datatype Op<T> = DoPush(item: T) | DoPop
  datatype Outcome<T> = Pushed(ok: bool) | Popped(x: Option<T>)

  /** Both rings carry out the same operations; every result and every member agrees throughout. */
  method Lockstep<T>(a: ShmSPSCRingBuffer<T>, b: MaskSPSCRingBuffer<T>, ops: seq<Op<T>>)
    returns (ra: seq<Outcome<T>>, rb: seq<Outcome<T>>)
    requires a.Valid() && b.Valid() && a.State() == b.State() && a.data != b.data
    modifies a, a.data, b, b.data
    ensures a.Valid() && b.Valid() && a.State() == b.State()
    ensures ra == rb && |ra| == |ops|
  {
    ra, rb := [], [];
    for i := 0 to |ops|
      invariant a.Valid() && b.Valid() && a.State() == b.State()
      invariant ra == rb && |ra| == i
    {
      match ops[i]
      case DoPush(item) =>
        var x := a.PushItem(item);
        var y := b.PushItem(item);
        ra, rb := ra + [Pushed(x)], rb + [Pushed(y)];
      case DoPop =>
        var x := a.PopItem();
        var y := b.PopItem();
        ra, rb := ra + [Popped(x)], rb + [Popped(y)];
    }
  }
}
