/** What the V1 and V2 aggregation circuits share: removal of the children's accumulators and the
    constraints that link two children into one range of claims. */
module Join {
  import opened Words
  import opened Field

  /** Depths up to 63 keep `1 << depth` inside a u64. */
  const MAX_DEPTH: nat := 63

  /** The first five instances of every leaf and intermediate circuit. */
  datatype Shared = Shared(start: F, end: F, vkHashHi: F, vkHashLo: F, root: F) {
    function ToSeq(): seq<F> {
      [start, end, vkHashHi, vkHashLo, root]
    }

    /** What every accepted circuit guarantees of its range. */
    ghost predicate RangeOk() {
      && start < end
      && end as int < TWO_64
    }

    /** Number of claims in the range, as an integer. */
    ghost function Count(): int {
      end as int - start as int
    }
  }

  function SharedOf(instances: seq<F>): Shared
    requires |instances| >= 5
  {
    Shared(instances[0], instances[1], instances[2], instances[3], instances[4])
  }

  /** The second child is a dummy when one child suffices for the claimed number of proofs. */
  predicate SecondIsDummy(numProofs: F, prevMax: nat) {
    numProofs as int <= prevMax
  }

  /** The constraints of `check_and_join_shared_instances`, over the field. */
  predicate JoinHolds(s0: Shared, s1: Shared, numProofs: F, prevMax: nat) {
    var dummy := SecondIsDummy(numProofs, prevMax);
    var end := if dummy then s0.end else s1.end;
    && Sub(s0.end, s0.start) as int <= prevMax
    && Sub(s1.end, s1.start) as int <= prevMax
    && (dummy || s0.end == s1.start)
    && (dummy || Sub(s0.end, s0.start) as int == prevMax)
    && Sub(end, s0.start) == numProofs
    && s0.vkHashHi == s1.vkHashHi && s0.vkHashLo == s1.vkHashLo && s0.root == s1.root
  }

  function Joined(s0: Shared, s1: Shared, numProofs: F, prevMax: nat): Shared {
    s0.(end := if SecondIsDummy(numProofs, prevMax) then s0.end else s1.end)
  }

  /** The field constraints hold exactly when, over the integers and without wrapping, either the right
      child is ignored, or the left child is full and the right child continues it; and the joined range is
      again a proper range below 2^64 whose size is the number of proofs. */
  lemma FieldJoinIsIntegerJoin(s0: Shared, s1: Shared, numProofs: F, prevMax: nat)
    requires s0.RangeOk() && s1.RangeOk()
    ensures JoinHolds(s0, s1, numProofs, prevMax) <==>
      var n0, n1 := s0.end as int - s0.start as int, s1.end as int - s1.start as int;
      && n0 <= prevMax && n1 <= prevMax
      && s0.vkHashHi == s1.vkHashHi && s0.vkHashLo == s1.vkHashLo && s0.root == s1.root
      && (numProofs as int == n0 || (n0 == prevMax && s0.end == s1.start && numProofs as int == prevMax + n1))
    ensures JoinHolds(s0, s1, numProofs, prevMax) ==>
      var j := Joined(s0, s1, numProofs, prevMax);
      j.RangeOk() && j.Count() == numProofs as int && 1 <= j.Count() <= 2 * prevMax
  {
    assert Sub(s0.end, s0.start) as int == s0.Count();
    assert Sub(s1.end, s1.start) as int == s1.Count();
  }

  /** Both values of the number of proofs are accepted when the left child is full and linked, so
      the witness, and not the children, decides whether the right child is used. */
  lemma JoinIsNotAFunction(s0: Shared, s1: Shared, prevMax: nat)
    requires s0.RangeOk() && s1.RangeOk()
    requires s0.Count() == prevMax && s1.Count() <= prevMax && s0.end == s1.start
    requires s0.vkHashHi == s1.vkHashHi && s0.vkHashLo == s1.vkHashLo && s0.root == s1.root
    ensures JoinHolds(s0, s1, prevMax as F, prevMax)
    ensures JoinHolds(s0, s1, (prevMax + s1.Count()) as F, prevMax)
  {
    FieldJoinIsIntegerJoin(s0, s1, prevMax as F, prevMax);
    FieldJoinIsIntegerJoin(s0, s1, (prevMax + s1.Count()) as F, prevMax);
  }

  lemma PowersFit(depth: nat)
    requires depth <= MAX_DEPTH
    ensures 2 * Pow2(depth) <= TWO_64
  {
    PowerValues();
    Pow2Monotone(depth + 1, 64);
  }

  /** The gates of `check_and_join_shared_instances`, in order. */
  method CheckAndJoinSharedInstances(ctx: Context, instances0: seq<F>, instances1: seq<F>, numProofs: F,
                                     maxDepth: nat, numInstancePrevDepth: nat)
    returns (newInstances: seq<F>, isSecondDummy: F)
    requires 1 <= maxDepth <= MAX_DEPTH + 1
    requires |instances0| == |instances1| == numInstancePrevDepth >= 5
    modifies ctx
    ensures var s0, s1, prevMax := SharedOf(instances0), SharedOf(instances1), Pow2(maxDepth - 1);
            && ctx.satisfied == (old(ctx.satisfied) && JoinHolds(s0, s1, numProofs, prevMax))
            && newInstances == Joined(s0, s1, numProofs, prevMax).ToSeq()
            && isSecondDummy == Bit(SecondIsDummy(numProofs, prevMax))
  {
    var startIdx, intermedIdx0 := instances0[0], instances0[1];
    var intermedIdx1, endIdx := instances1[0], instances1[1];
    var numProofs0 := Sub(intermedIdx0, startIdx);
    var numProofs1 := Sub(endIdx, intermedIdx1);

    var prevDepth := maxDepth - 1;
    PowersFit(prevDepth);
    var prevMaxProofsPlusOne := Pow2(prevDepth) + 1;
    ctx.CheckLessThanSafe(numProofs0, prevMaxProofsPlusOne);
    ctx.CheckLessThanSafe(numProofs1, prevMaxProofsPlusOne);

    isSecondDummy := Bit((numProofs as int) < prevMaxProofsPlusOne);
    endIdx := Select(intermedIdx0, endIdx, isSecondDummy);

    var eqCheck := IsEqual(intermedIdx0, intermedIdx1);
    eqCheck := Or(eqCheck, isSecondDummy);
    ctx.AssertIsConst(eqCheck, 1);

    var prevMaxProofs := Pow2(prevDepth) as F;
    var isMaxDepth0 := IsEqual(numProofs0, prevMaxProofs);
    eqCheck := Or(isMaxDepth0, isSecondDummy);
    ctx.AssertIsConst(eqCheck, 1);

    var boundaryNumDiff := Sub(endIdx, startIdx);
    ctx.ConstrainEqual(boundaryNumDiff, numProofs);

    for i := 2 to 5
      invariant ctx.satisfied == (old(ctx.satisfied)
        && numProofs0 as int <= prevMaxProofs as int && numProofs1 as int <= prevMaxProofs as int
        && (isSecondDummy == 1 || intermedIdx0 == intermedIdx1)
        && (isSecondDummy == 1 || numProofs0 == prevMaxProofs)
        && boundaryNumDiff == numProofs
        && forall j :: 2 <= j < i ==> instances0[j] == instances1[j])
    {
      ctx.ConstrainEqual(instances0[i], instances1[i]);
    }

    newInstances := [startIdx, endIdx] + instances0[2..5];
  }

  // ---------- removing old accumulators ----------

  /** `xs[from..]` without the positions in `indices`, everything else in its old order. */
  function Without<T>(xs: seq<T>, indices: set<nat>, from: nat): seq<T>
    requires from <= |xs|
    decreases |xs| - from
  {
    if from == |xs| then []
    else (if from in indices then [] else [xs[from]]) + Without(xs, indices, from + 1)
  }

  lemma {:induction false} WithoutKeepsGap<T>(xs: seq<T>, indices: set<nat>, from: nat, to: nat)
    requires from <= to <= |xs| && forall i :: from <= i < to ==> i !in indices
    ensures Without(xs, indices, from) == xs[from..to] + Without(xs, indices, to)
    decreases |xs| - from
  {
    if from < to {
      WithoutKeepsGap(xs, indices, from + 1, to);
      var x, gap, rest := [xs[from]], xs[from + 1..to], Without(xs, indices, to);
      assert xs[from..to] == x + gap;
      assert x + (gap + rest) == (x + gap) + rest;
    }
  }

  function ToSet(indices: seq<nat>): (s: set<nat>)
    ensures forall i :: i in s <==> i in indices
  {
    set i | i in indices
  }

  /** For an accumulator in front, removal leaves what is behind it; with none, everything. */
  lemma WithoutAccumulator<T>(xs: seq<T>, indices: set<nat>, n: nat)
    requires n <= |xs| && forall i :: i in indices <==> i < n
    ensures Without(xs, indices, 0) == xs[n..]
  {
    WithoutFront(xs, indices, n, 0);
    WithoutKeepsGap(xs, indices, n, |xs|);
  }

  lemma {:induction false} WithoutFront<T>(xs: seq<T>, indices: set<nat>, n: nat, from: nat)
    requires from <= n <= |xs| && forall i :: i in indices <==> i < n
    ensures Without(xs, indices, from) == Without(xs, indices, n)
    decreases n - from
  {
    if from < n {
      WithoutFront(xs, indices, n, from + 1);
    }
  }

  /** Removing one position shifts everything behind it, so removal runs from the highest index
      down; then it equals filtering by the original positions. */
  method RemoveAccumulators<T>(previousInstance: seq<T>, sortedIndices: seq<nat>) returns (remaining: seq<T>)
    requires forall i, j :: 0 <= i < j < |sortedIndices| ==> sortedIndices[i] < sortedIndices[j]
    requires forall i :: 0 <= i < |sortedIndices| ==> sortedIndices[i] < |previousInstance|
    ensures remaining == Without(previousInstance, ToSet(sortedIndices), 0)
  {
    remaining := previousInstance;
    var n := |sortedIndices|;
    ghost var xs, indices, bound := previousInstance, ToSet(sortedIndices), |previousInstance|;
    while n > 0
      invariant 0 <= n <= |sortedIndices| && bound <= |xs|
      invariant bound == if n == |sortedIndices| then |xs| else sortedIndices[n]
      invariant remaining == xs[..bound] + Without(xs, indices, bound)
    {
      n := n - 1;
      var i := sortedIndices[n];
      GapBetween(sortedIndices, n, bound);
      WithoutKeepsGap(xs, indices, i + 1, bound);
      remaining := remaining[..i] + remaining[i + 1..];
      bound := i;
    }
    WithoutKeepsGap(xs, indices, 0, bound);
  }

  lemma GapBetween(sortedIndices: seq<nat>, n: nat, bound: nat)
    requires n < |sortedIndices|
    requires forall i, j :: 0 <= i < j < |sortedIndices| ==> sortedIndices[i] < sortedIndices[j]
    requires n + 1 < |sortedIndices| ==> bound == sortedIndices[n + 1]
    ensures forall i :: sortedIndices[n] < i < bound ==> i !in sortedIndices
  {
    forall k | 0 <= k < |sortedIndices|
      ensures !(sortedIndices[n] < sortedIndices[k] < bound)
    {
      if n + 1 < k {
        assert sortedIndices[n + 1] < sortedIndices[k];
      } else if k < n {
        assert sortedIndices[k] < sortedIndices[n];
      }
    }
  }
}
