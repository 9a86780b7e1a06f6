/** Small shared vocabulary: optional values and a few facts about remainders. */
module Base {

  datatype Option<+T> = None | Some(value: T)

  /** A nonzero multiple of `cap` is at least `cap` in size. */
  lemma SmallMultiple(d: int, cap: nat)
    requires 0 - cap < d * cap < cap
    ensures d == 0
  {
  }

  lemma MultipleMod(q: nat, cap: nat, r: nat)
    requires r < cap
    ensures (q * cap + r) % cap == r
  {
    var n := q * cap + r;
    var q', r' := n / cap, n % cap;
    assert n == q' * cap + r';
    assert (q' - q) * cap == r - r';
    SmallMultiple(q' - q, cap);
  }

  /** Two numbers less than one capacity apart share a slot only when they are equal. */
  lemma SameSlot(a: nat, b: nat, cap: nat)
    requires cap > 0
    requires a <= b < a + cap
    requires a % cap == b % cap
    ensures a == b
  {
    var qa, qb, r := a / cap, b / cap, a % cap;
    assert a == qa * cap + r;
    assert b == qb * cap + r;
    assert b - a == (qb - qa) * cap;
    SmallMultiple(qb - qa, cap);
  }

  /** Advancing a reduced counter by one is the same as reducing the advanced counter. */
  lemma SuccessorMod(n: nat, cap: nat)
    requires cap > 0
    ensures (n % cap + 1) % cap == (n + 1) % cap
  {
    var q, r := n / cap, n % cap;
    assert n == q * cap + r;
    if r + 1 == cap {
      assert n + 1 == (q + 1) * cap + 0;
      MultipleMod(q + 1, cap, 0);
      MultipleMod(1, cap, 0);
    } else {
      assert n + 1 == q * cap + (r + 1);
      MultipleMod(q, cap, r + 1);
      MultipleMod(0, cap, r + 1);
    }
  }

  /** A reduced counter tells "one full capacity ahead" apart from every smaller lead. */
  lemma FullLead(ahead: nat, behind: nat, cap: nat)
    requires cap > 0 && behind < ahead <= behind + cap
    ensures ahead % cap == behind % cap <==> ahead == behind + cap
  {
    if ahead == behind + cap {
      var q, r := behind / cap, behind % cap;
      assert ahead == (q + 1) * cap + r;
      MultipleMod(q + 1, cap, r);
    } else if ahead % cap == behind % cap {
      SameSlot(behind, ahead, cap);
    }
  }

  /** The successor of an index, without the remainder. */
  lemma WrapStep(i: nat, cap: nat)
    requires i < cap
    ensures (i + 1) % cap == if i + 1 == cap then 0 else i + 1
  {
    if i + 1 == cap {
      MultipleMod(1, cap, 0);
    } else {
      MultipleMod(0, cap, i + 1);
    }
  }
}
