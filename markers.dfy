/** Marker lists: the target indices after which a block-boundary symbol goes. */
module Markers {

  /** The last marker, or 0 for an empty list (the position an alignment starts from). */
  function End(m: seq<int>): int {
    if m == [] then 0 else m[|m| - 1]
  }

  /** The marker before index k, with an implicit leading 0. */
  function Prev(m: seq<int>, k: int): int
    requires 0 <= k <= |m|
  {
    if k == 0 then 0 else m[k - 1]
  }

  predicate Sorted(m: seq<int>) {
    forall i, j :: 0 <= i <= j < |m| ==> m[i] <= m[j]
  }

  /** Each block covers between 0 and w new targets: starting from 0, every
      marker is at least the previous one and at most w beyond it. */
  predicate Staircase(m: seq<int>, w: int) {
    forall k :: 0 <= k < |m| ==> Prev(m, k) <= m[k] <= Prev(m, k) + w
  }

  /** A staircase is sorted and never goes below 0. */
  lemma StaircaseSorted(m: seq<int>, w: int)
    requires Staircase(m, w)
    ensures Sorted(m)
    ensures forall k :: 0 <= k < |m| ==> 0 <= m[k]
  {
    forall i, j | 0 <= i <= j < |m| ensures m[i] <= m[j] {
      StaircaseStep(m, w, i, j);
    }
    forall k | 0 <= k < |m| ensures 0 <= m[k] {
      StaircaseNonNegative(m, w, k);
    }
  }

  lemma {:induction false} StaircaseStep(m: seq<int>, w: int, i: int, j: int)
    requires Staircase(m, w) && 0 <= i <= j < |m|
    ensures m[i] <= m[j]
    decreases j - i
  {
    if i < j {
      StaircaseStep(m, w, i + 1, j);
      assert Prev(m, i + 1) == m[i];
    }
  }

  lemma {:induction false} StaircaseNonNegative(m: seq<int>, w: int, k: int)
    requires Staircase(m, w) && 0 <= k < |m|
    ensures 0 <= m[k]
  {
    if k > 0 {
      StaircaseNonNegative(m, w, k - 1);
      assert Prev(m, k) == m[k - 1];
    }
  }

  /** Extending a staircase by a marker 0 .. w beyond its end keeps it a staircase. */
  lemma StaircaseSnoc(m: seq<int>, w: int, v: int)
    requires Staircase(m, w) && End(m) <= v <= End(m) + w
    ensures Staircase(m + [v], w) && End(m + [v]) == v
  {
    var m' := m + [v];
    forall k | 0 <= k < |m'| ensures Prev(m', k) <= m'[k] <= Prev(m', k) + w {
      if k < |m| {
        assert Prev(m', k) == Prev(m, k);
      } else {
        assert Prev(m', k) == End(m);
      }
    }
  }

  /** n * w by repeated addition (n may be negative): the most targets n blocks
      can emit at up to w outputs each. Kept recursive so that proofs about
      block budgets stay linear. */
  function Capacity(n: int, w: nat): int
    decreases if n < 0 then -n else n
  {
    if n == 0 then 0
    else if n > 0 then Capacity(n - 1, w) + w
    else Capacity(n + 1, w) - w
  }

  lemma {:induction false} CapacityIsProduct(n: int, w: nat)
    ensures Capacity(n, w) == n * w
    decreases if n < 0 then -n else n
  {
    if n > 0 {
      CapacityIsProduct(n - 1, w);
      assert n * w == (n - 1) * w + w;
    } else if n < 0 {
      CapacityIsProduct(n + 1, w);
      assert n * w == (n + 1) * w - w;
    }
  }

  /** Marker k leaves the targets after it reachable in the blocks after block k + 1. */
  predicate Reachable(m: seq<int>, targetsLength: int, w: nat, totalBlocks: nat) {
    forall k :: 0 <= k < |m| ==> targetsLength - Capacity(totalBlocks - 1 - k, w) <= m[k]
  }

  lemma ReachableSnoc(m: seq<int>, targetsLength: int, w: nat, totalBlocks: nat, v: int)
    requires Reachable(m, targetsLength, w, totalBlocks)
    requires targetsLength - Capacity(totalBlocks - 1 - |m|, w) <= v
    ensures Reachable(m + [v], targetsLength, w, totalBlocks)
  {
    var m' := m + [v];
    forall k | 0 <= k < |m'| ensures targetsLength - Capacity(totalBlocks - 1 - k, w) <= m'[k] {
      if k < |m| {
        assert m'[k] == m[k];
      }
    }
  }

  /** Sum of a list of integers, taken from the end so that appending is one unfolding. */
  function Sum(s: seq<int>): int {
    if s == [] then 0 else Sum(s[..|s| - 1]) + s[|s| - 1]
  }
}
