/** The sixteen slots of an audio queue, seen through the two ends of the queue as unbounded
    counters: the blocks in the queue, and what in-place writes to a slot do to them. */
module SlotQueue {
  import opened Frame
  import opened Ring

  const DEPTH: nat := 16

  function Slot(n: nat): (r: nat) { n % DEPTH }

  /** Slot n % 16 holds block n of the queue that starts at block number `lo`. */
  ghost predicate Holds(data: seq<AudioFrame>, lo: nat, blocks: seq<Block>) {
    && |data| == DEPTH && |blocks| < DEPTH
    && forall n: nat | lo <= n < lo + |blocks| ::
         ValidFrame(data[Slot(n)]) && PayloadOf(data[Slot(n)]) == blocks[n - lo]
  }

  lemma SlotsDiffer(a: nat, b: nat)
    requires a < b < a + DEPTH
    ensures Slot(a) != Slot(b)
  {
  }

  /** Writing to the slot behind the newest block disturbs no block of the queue. */
  lemma WriteBehind(data: seq<AudioFrame>, lo: nat, blocks: seq<Block>, f: AudioFrame)
    requires Holds(data, lo, blocks)
    ensures Holds(data[Slot(lo + |blocks|) := f], lo, blocks)
  {
    forall n: nat | lo <= n < lo + |blocks| ensures Slot(n) != Slot(lo + |blocks|) {
      SlotsDiffer(n, lo + |blocks|);
    }
  }

  /** Moving the tail publishes that slot as the newest block. */
  lemma Publish(data: seq<AudioFrame>, lo: nat, blocks: seq<Block>)
    requires Holds(data, lo, blocks) && |blocks| < DEPTH - 1 && ValidFrame(data[Slot(lo + |blocks|)])
    ensures Holds(data, lo, blocks + [PayloadOf(data[Slot(lo + |blocks|)])])
  {
  }

  /** Moving the head retires the oldest block. */
  lemma Retire(data: seq<AudioFrame>, lo: nat, blocks: seq<Block>)
    requires Holds(data, lo, blocks) && blocks != []
    ensures Holds(data, lo + 1, blocks[1..])
  {
  }

  /** Working in place on the oldest block changes that block only. */
  lemma Rework(data: seq<AudioFrame>, lo: nat, blocks: seq<Block>, f: AudioFrame)
    requires Holds(data, lo, blocks) && blocks != [] && ValidFrame(f)
    ensures Holds(data[Slot(lo) := f], lo, blocks[0 := PayloadOf(f)])
  {
    forall n: nat | lo < n < lo + |blocks| ensures Slot(n) != Slot(lo) {
      SlotsDiffer(lo, n);
    }
  }

  lemma NextSlot(n: nat)
    ensures (Slot(n) + 1) % DEPTH == Slot(n + 1)
  {
  }

  ghost predicate Sized(r: RingState<AudioFrame>) {
    |r.data| == DEPTH && ValidRing(r) && forall i | 0 <= i < DEPTH :: |r.data[i].samples| == SAMPLES
  }

  /** The ring holds exactly these blocks, the oldest being number `lo` of all that went through it. */
  ghost predicate RingHolds(r: RingState<AudioFrame>, lo: nat, blocks: seq<Block>) {
    Sized(r) && r.head == Slot(lo) && r.tail == Slot(lo + |blocks|) && Holds(r.data, lo, blocks)
  }

  /** The two tests of the ring and the size of its queue, in terms of the blocks it holds. */
  lemma RingTests(r: RingState<AudioFrame>, lo: nat, blocks: seq<Block>)
    requires RingHolds(r, lo, blocks)
    ensures |Contents(r)| == |blocks| < DEPTH
    ensures r.head == r.tail <==> blocks == []
    ensures (r.tail + 1) % DEPTH == r.head <==> |blocks| == DEPTH - 1
  {
  }

  lemma RingWriteBehind(r: RingState<AudioFrame>, lo: nat, blocks: seq<Block>, f: AudioFrame)
    requires RingHolds(r, lo, blocks) && |f.samples| == SAMPLES
    ensures RingHolds(r.(data := r.data[r.tail := f]), lo, blocks)
  {
    WriteBehind(r.data, lo, blocks, f);
  }

  lemma RingPublish(r: RingState<AudioFrame>, lo: nat, blocks: seq<Block>)
    requires RingHolds(r, lo, blocks) && |blocks| < DEPTH - 1 && ValidFrame(r.data[r.tail])
    ensures RingHolds(r.(tail := (r.tail + 1) % DEPTH), lo, blocks + [PayloadOf(r.data[r.tail])])
  {
    Publish(r.data, lo, blocks);
    NextSlot(lo + |blocks|);
  }

  lemma RingRetire(r: RingState<AudioFrame>, lo: nat, blocks: seq<Block>)
    requires RingHolds(r, lo, blocks) && blocks != []
    ensures ValidFrame(r.data[r.head]) && PayloadOf(r.data[r.head]) == blocks[0]
    ensures RingHolds(r.(head := (r.head + 1) % DEPTH), lo + 1, blocks[1..])
  {
    Retire(r.data, lo, blocks);
    NextSlot(lo);
  }

  lemma RingRework(r: RingState<AudioFrame>, lo: nat, blocks: seq<Block>, f: AudioFrame)
    requires RingHolds(r, lo, blocks) && blocks != [] && ValidFrame(f)
    ensures RingHolds(r.(data := r.data[r.head := f]), lo, blocks[0 := PayloadOf(f)])
  {
    Rework(r.data, lo, blocks, f);
  }

  lemma ContentMeans(r: RingState<AudioFrame>, lo: nat, blocks: seq<Block>, i: nat)
    requires RingHolds(r, lo, blocks) && i < |blocks|
    ensures i < |Contents(r)| && Contents(r)[i] == r.data[Slot(lo + i)]
  {
    RingTests(r, lo, blocks);
    ContentsAt(r, i);
  }

  /** The frames in the ring mean the blocks it holds, one by one. */
  lemma ContentsMean(r: RingState<AudioFrame>, lo: nat, blocks: seq<Block>)
    requires RingHolds(r, lo, blocks)
    ensures (forall f | f in Contents(r) :: ValidFrame(f)) && Payloads(Contents(r)) == blocks
  {
    RingTests(r, lo, blocks);
    var q := Contents(r);
    forall i: nat | i < |blocks| ensures ValidFrame(q[i]) && PayloadOf(q[i]) == blocks[i] {
      ContentMeans(r, lo, blocks, i);
      var n: nat := lo + i;
      assert ValidFrame(r.data[Slot(n)]) && PayloadOf(r.data[Slot(n)]) == blocks[n - lo];
    }
    assert forall f | f in q :: ValidFrame(f);
    assert |Payloads(q)| == |blocks|;
  }
}
