/** Picking items of a sequence by flags, in order. */
module Selection {

  /** The items whose flag is set, in order. */
  function Kept<T>(xs: seq<T>, keep: seq<bool>): (r: seq<T>)
    requires |keep| <= |xs|
    ensures |r| <= |keep|
  {
    if keep == [] then []
    else
      var n := |keep| - 1;
      Kept(xs, keep[..n]) + if keep[n] then [xs[n]] else []
  }

  /** The positions of the set flags, in order. */
  function Picks(keep: seq<bool>): (q: seq<nat>) {
    if keep == [] then []
    else
      var n := |keep| - 1;
      Picks(keep[..n]) + if keep[n] then [n] else []
  }

  lemma {:induction false} KeptIgnoresLater<T>(xs: seq<T>, more: seq<T>, keep: seq<bool>)
    requires |keep| <= |xs|
    ensures Kept(xs + more, keep) == Kept(xs, keep)
    decreases |keep|
  {
    if keep != [] {
      KeptIgnoresLater(xs, more, keep[..|keep| - 1]);
    }
  }

  lemma KeptOneMore<T>(xs: seq<T>, keep: seq<bool>, b: bool)
    requires |keep| < |xs|
    ensures Kept(xs, keep + [b]) == Kept(xs, keep) + if b then [xs[|keep|]] else []
  {
    assert (keep + [b])[..|keep|] == keep;
  }

  /** A kept item is the item at its pick, and the picks are strictly increasing. */
  lemma {:induction false} KeptArePicks<T>(xs: seq<T>, keep: seq<bool>)
    requires |keep| <= |xs|
    ensures |Picks(keep)| == |Kept(xs, keep)|
    ensures forall k | 0 <= k < |Picks(keep)| :: Picks(keep)[k] < |keep| && Kept(xs, keep)[k] == xs[Picks(keep)[k]]
    ensures forall j, k | 0 <= j < k < |Picks(keep)| :: Picks(keep)[j] < Picks(keep)[k]
    decreases |keep|
  {
    if keep != [] {
      KeptArePicks(xs, keep[..|keep| - 1]);
    }
  }

  lemma KeptComesFrom<T>(xs: seq<T>, keep: seq<bool>, x: T)
    requires |keep| <= |xs| && x in Kept(xs, keep)
    ensures exists j :: 0 <= j < |keep| && xs[j] == x
  {
    KeptArePicks(xs, keep);
  }

  /** How many flags are not set. */
  function Misses(keep: seq<bool>): (n: nat) {
    if keep == [] then 0 else Misses(keep[..|keep| - 1]) + if keep[|keep| - 1] then 0 else 1
  }

  lemma {:induction false} KeptAndMissed<T>(xs: seq<T>, keep: seq<bool>)
    requires |keep| <= |xs|
    ensures |Kept(xs, keep)| + Misses(keep) == |keep|
    decreases |keep|
  {
    if keep != [] {
      KeptAndMissed(xs, keep[..|keep| - 1]);
    }
  }
}
