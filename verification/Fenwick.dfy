/** The binary indexed tree behind the rolling valuation percentiles. */
module Fenwick {

  /** Bitwise and of two unbounded two's-complement integers, as Python computes it. */
  function And(a: int, b: int): int
    decreases if a < 0 then -a else a
  {
    if a == 0 || b == 0 then 0
    else if a == -1 then b
    else if b == -1 then a
    else 2 * And(a / 2, b / 2) + (a % 2) * (b % 2)
  }

  /** The largest power of two that divides n. */
  function LowBit(n: int): (r: int)
    requires n > 0
    ensures 0 < r <= n
  {
    if n % 2 == 1 then 1 else 2 * LowBit(n / 2)
  }

  lemma {:induction false} AndComplement(k: int)
    requires k >= 0
    ensures And(k, -k - 1) == 0
  {
    if k > 0 {
      assert (-k - 1) / 2 == -(k / 2) - 1;
      assert (k % 2) * ((-k - 1) % 2) == 0;
      AndComplement(k / 2);
    }
  }

  /** `current & -current` isolates the lowest set bit. */
  lemma {:induction false} AndNegationIsLowBit(n: int)
    requires n > 0
    ensures And(n, -n) == LowBit(n)
  {
    if n % 2 == 1 {
      if n > 1 {
        assert (-n) / 2 == -(n / 2) - 1;
        AndComplement(n / 2);
      }
    } else {
      assert (-n) / 2 == -(n / 2);
      AndNegationIsLowBit(n / 2);
    }
  }

  /** Climbing by the low bit at least doubles it. */
  lemma {:induction false} ClimbDoublesLowBit(n: int)
    requires n > 0
    ensures LowBit(n + LowBit(n)) >= 2 * LowBit(n)
  {
    if n % 2 == 0 {
      ClimbDoublesLowBit(n / 2);
      assert (n + LowBit(n)) / 2 == n / 2 + LowBit(n / 2);
    }
  }

  /** No node strictly between two consecutive climb positions reaches back past the first. */
  lemma {:induction false} BetweenClimbs(n: int, k: int)
    requires 0 < n < k < n + LowBit(n)
    ensures k - LowBit(k) >= n
  {
    if k % 2 == 0 {
      BetweenClimbs(n / 2, k / 2);
    }
  }

  /** The next climb position covers the same index, and no node in between does. */
  lemma {:induction false} ClimbCovers(n: int, index: int)
    requires n > 0 && n - LowBit(n) <= index < n
    ensures n < n + And(n, -n)
    ensures var next := n + And(n, -n); next - LowBit(next) <= index < next
    ensures forall k :: n < k < n + And(n, -n) ==> !Covers(k, index)
  {
    AndNegationIsLowBit(n);
    ClimbDoublesLowBit(n);
    forall k | n < k < n + LowBit(n) ensures !Covers(k, index) { BetweenClimbs(n, k); }
  }

  /** Node k of the tree includes position index in its sum. */
  ghost predicate Covers(k: int, index: int)
    requires k > 0
  {
    k - LowBit(k) <= index < k
  }

  /** Sum of s[lo..hi]. */
  ghost function Sum(s: seq<int>, lo: nat, hi: nat): int
    requires hi <= |s|
    decreases hi
  {
    if lo >= hi then 0 else Sum(s, lo, hi - 1) + s[hi - 1]
  }

  lemma {:induction false} SumSplit(s: seq<int>, lo: nat, mid: nat, hi: nat)
    requires lo <= mid <= hi <= |s|
    ensures Sum(s, lo, hi) == Sum(s, lo, mid) + Sum(s, mid, hi)
    decreases hi
  {
    if mid < hi { SumSplit(s, lo, mid, hi - 1); }
  }

  lemma {:induction false} SumUpdate(s: seq<int>, i: nat, delta: int, lo: nat, hi: nat)
    requires i < |s| && hi <= |s|
    ensures Sum(s[i := s[i] + delta], lo, hi) == Sum(s, lo, hi) + (if lo <= i < hi then delta else 0)
    decreases hi
  {
    if lo < hi { SumUpdate(s, i, delta, lo, hi - 1); }
  }

  /** Tree over `|counts|` positions; node k holds the sum of the LowBit(k) counts that end at k. */
  class FenwickTree {
    const tree: array<int>
    ghost var counts: seq<int>

    ghost predicate Valid()
      reads this, tree
    {
      && tree.Length == |counts| + 1
      && forall k :: 1 <= k <= |counts| ==> tree[k] == Sum(counts, k - LowBit(k), k)
    }

    constructor (size: nat)
      ensures Valid() && fresh(tree)
      ensures counts == seq(size, i => 0)
    {
      tree := new int[size + 1](i => 0);
      counts := seq(size, i => 0);
      new;
      forall k | 1 <= k <= size ensures Sum(counts, k - LowBit(k), k) == 0 {
        SumOfZeros(counts, k - LowBit(k), k);
      }
    }

    /** The loop: the delta goes into every node that covers the index. */
    method Climb(index: int, delta: int)
      requires tree.Length == |counts| + 1 && index >= 0
      modifies tree
      ensures forall k :: 1 <= k <= |counts| ==> tree[k] == old(tree[k]) + (if Covers(k, index) then delta else 0)
    {
      var current := index + 1;
      while current < tree.Length
        invariant current > 0 && Covers(current, index)
        invariant forall k :: 1 <= k <= |counts| ==>
          tree[k] == old(tree[k]) + (if k < current && Covers(k, index) then delta else 0)
        decreases tree.Length - current
      {
        tree[current] := tree[current] + delta;
        ClimbCovers(current, index);
        current := current + And(current, -current);
      }
    }

    /** An index past the end leaves the tree alone. A negative one never reaches this method:
        `current & -current` would be stuck at zero. */
    method Add(index: int, delta: int)
      requires Valid() && index >= 0
      modifies this, tree
      ensures Valid()
      ensures counts == if index < |old(counts)| then old(counts)[index := old(counts)[index] + delta] else old(counts)
    {
      Climb(index, delta);
      if index < |counts| {
        counts := counts[index := counts[index] + delta];
      }
      forall k | 1 <= k <= |counts| ensures tree[k] == Sum(counts, k - LowBit(k), k) {
        if index < |counts| { SumUpdate(old(counts), index, delta, k - LowBit(k), k); }
      }
    }

    method PrefixSum(index: int) returns (total: int)
      requires Valid()
      ensures total == if index < 0 then 0 else Sum(counts, 0, if index < |counts| then index + 1 else |counts|)
    {
      if index < 0 { return 0; }
      var current := if index + 1 < tree.Length - 1 then index + 1 else tree.Length - 1;
      ghost var start := current;
      total := 0;
      while current > 0
        invariant 0 <= current <= start
        invariant total + Sum(counts, 0, current) == Sum(counts, 0, start)
      {
        SumSplit(counts, 0, current - LowBit(current), current);
        total := total + tree[current];
        AndNegationIsLowBit(current);
        current := current - And(current, -current);
      }
    }
  }

  lemma {:induction false} SumOfZeros(s: seq<int>, lo: nat, hi: nat)
    requires hi <= |s| && forall i :: 0 <= i < |s| ==> s[i] == 0
    ensures Sum(s, lo, hi) == 0
    decreases hi
  {
    if lo < hi { SumOfZeros(s, lo, hi - 1); }
  }
}
