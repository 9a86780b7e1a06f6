/** Counting the set flags of a flag array. */
module Bits {

  function Count(m: seq<bool>): (n: nat)
    ensures n <= |m|
  {
    if m == [] then 0 else (if m[0] then 1 else 0) + Count(m[1..])
  }

  lemma {:induction false} CountUpdate(m: seq<bool>, i: nat, b: bool)
    requires i < |m|
    ensures Count(m[i := b]) == Count(m) - (if m[i] then 1 else 0) + (if b then 1 else 0)
  {
    if i == 0 {
      assert m[0 := b][1..] == m[1..];
    } else {
      assert m[i := b][1..] == m[1..][i - 1 := b];
      CountUpdate(m[1..], i - 1, b);
    }
  }

  lemma {:induction false} CountFull(m: seq<bool>)
    ensures Count(m) == |m| <==> forall i | 0 <= i < |m| :: m[i]
  {
    if m != [] {
      CountFull(m[1..]);
      if Count(m) == |m| {
        forall i | 0 <= i < |m| ensures m[i] {
          if i > 0 {
            assert m[i] == m[1..][i - 1];
          }
        }
      } else if m[0] {
        var i :| 0 <= i < |m[1..]| && !m[1..][i];
        assert !m[i + 1];
      }
    }
  }
}
