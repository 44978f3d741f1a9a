/** The off-chain Merkle tree of `merkleSisterNodes.ts`: layers, sister paths and their encoding for
    the V2 contract. */
module PathBuilder {
  import opened Words
  import opened Merkle
  import opened Claims
  import opened Wrappers

  // ---------- specification of a sister path ----------

  /** The sister of every node on the way up, leaf level first. */
  function Sisters(h: Hash, k: nat, leaves: seq<Word>, index: nat): (sisters: seq<Word>)
    requires |leaves| == Pow2(k) && index < |leaves|
    ensures |sisters| == k
  {
    if k == 0 then []
    else
      [leaves[SisterIndex(index)]] + Sisters(h, k - 1, PairUp(h, leaves), index / 2)
  }

  /** Whether each of those sisters is on the left. */
  function Directions(k: nat, index: nat): (isLeft: seq<bool>)
    ensures |isLeft| == k
  {
    if k == 0 then [] else [index % 2 == 1] + Directions(k - 1, index / 2)
  }

  lemma {:induction false} FoldFromFront(h: Hash, leaf: Word, sisters: seq<Word>, isLeft: seq<bool>, n: nat)
    requires n < |sisters| && n < |isLeft|
    ensures Fold(h, leaf, sisters, isLeft, n + 1)
         == Fold(h, h(StepPreimage(leaf, sisters[0], isLeft[0])), sisters[1..], isLeft[1..], n)
  {
    hide StepPreimage;
    if n > 0 {
      FoldFromFront(h, leaf, sisters, isLeft, n - 1);
    }
  }

  function SisterIndex(index: nat): nat {
    if index % 2 == 1 then index - 1 else index + 1
  }

  lemma PathStarts(h: Hash, k: nat, leaves: seq<Word>, index: nat)
    requires k > 0 && |leaves| == Pow2(k) && index < |leaves|
    ensures SisterIndex(index) < |leaves| && index / 2 < |PairUp(h, leaves)| == Pow2(k - 1)
    ensures Sisters(h, k, leaves, index)
         == [leaves[SisterIndex(index)]] + Sisters(h, k - 1, PairUp(h, leaves), index / 2)
    ensures Directions(k, index) == [index % 2 == 1] + Directions(k - 1, index / 2)
  {
  }

  lemma ParentOf(h: Hash, layer: seq<Word>, index: nat)
    requires |layer| % 2 == 0 && index < |layer|
    ensures SisterIndex(index) < |layer|
    ensures PairUp(h, layer)[index / 2]
         == h(StepPreimage(layer[index], layer[SisterIndex(index)], index % 2 == 1))
  {
  }

  /** The directions of a leaf's path spell its index. */
  lemma {:induction false} DirectionsSpellIndex(k: nat, index: nat)
    requires index < Pow2(k)
    ensures Index(Directions(k, index), k) == index
  {
    if k > 0 {
      DirectionsSpellIndex(k - 1, index / 2);
      IndexFromFront(Directions(k, index), k - 1);
      assert Directions(k, index)[1..] == Directions(k - 1, index / 2);
    }
  }

  /** Direction j is bit j of the index: a sister is on the left of a node at an odd position. */
  lemma {:induction false} DirectionBit(k: nat, index: nat, j: nat)
    requires j < k
    ensures Directions(k, index)[j] <==> NthBit(index, j) == 1
  {
    if j > 0 {
      DirectionBit(k - 1, index / 2, j - 1);
    }
  }

  ghost predicate PathReaches(h: Hash, k: nat, leaves: seq<Word>, index: nat)
    requires |leaves| == Pow2(k) && index < |leaves|
  {
    Fold(h, leaves[index], Sisters(h, k, leaves, index), Directions(k, index), k) == Root(h, k, leaves)
  }

  lemma PathOfOneLeaf(h: Hash, leaves: seq<Word>)
    requires |leaves| == 1
    ensures PathReaches(h, 0, leaves, 0)
  {
    hide Branch, PairUp;
  }

  lemma PathReachesStep(h: Hash, k: nat, leaves: seq<Word>, index: nat)
    requires k > 0 && |leaves| == Pow2(k) && index < |leaves|
    requires index / 2 < |PairUp(h, leaves)| == Pow2(k - 1)
    requires PathReaches(h, k - 1, PairUp(h, leaves), index / 2)
    ensures PathReaches(h, k, leaves, index)
  {
    hide Root, Fold, PairUp, Branch, StepPreimage, Sisters, Directions, SisterIndex;
    PathStarts(h, k, leaves, index);
    var up, sister := PairUp(h, leaves), leaves[SisterIndex(index)];
    var rest, more := Sisters(h, k - 1, up, index / 2), Directions(k - 1, index / 2);
    var sisters, isLeft := [sister] + rest, [index % 2 == 1] + more;
    assert sisters[1..] == rest && isLeft[1..] == more;
    FoldFromFront(h, leaves[index], sisters, isLeft, k - 1);
    ParentOf(h, leaves, index);
    RootOfPairUp(h, k - 1, leaves);
  }

  /** The path of every leaf, folded as the contract folds it, reaches the root. */
  lemma {:induction false} PathReachesRoot(h: Hash, k: nat, leaves: seq<Word>, index: nat)
    requires |leaves| == Pow2(k) && index < |leaves|
    ensures PathReaches(h, k, leaves, index)
  {
    hide PairUp, Branch, PathReaches;
    if k == 0 {
      PathOfOneLeaf(h, leaves);
    } else {
      PathStarts(h, k, leaves, index);
      PathReachesRoot(h, k - 1, PairUp(h, leaves), index / 2);
      PathReachesStep(h, k, leaves, index);
    }
  }

  // ---------- the tree ----------

  class MerkleTree {
    const keccak: Hash
    const leaves: seq<Word>
    var layers: seq<seq<Word>>

    /** Each layer pairs up the one below, and the last has at most one node. */
    ghost predicate Valid()
      reads this
    {
      && Chained()
      && |layers[|layers| - 1]| <= 1
    }

    ghost predicate Chained()
      reads this
    {
      && |layers| > 0 && layers[0] == leaves
      && forall j :: 0 <= j < |layers| - 1 ==>
           |layers[j]| > 1 && |layers[j]| % 2 == 0 && layers[j + 1] == PairUp(keccak, layers[j])
    }

    constructor (keccak: Hash, leaves: seq<Word>)
      ensures this.keccak == keccak && this.leaves == leaves && layers == [leaves]
    {
      this.keccak := keccak;
      this.leaves := leaves;
      this.layers := [leaves];
    }

    /** Packing the last node of a layer of odd length with a missing neighbour throws, so the build
        succeeds exactly for no leaves or a power of two of them. */
    method BuildTree() returns (ok: bool)
      requires layers == [leaves]
      modifies this
      ensures ok <==> leaves == [] || IsPow2(|leaves|)
      ensures ok ==> Valid()
    {
      hide Branch, PairUp, IsPow2;
      var currentLayer := leaves;
      while |currentLayer| > 1
        invariant Chained() && currentLayer == layers[|layers| - 1]
        invariant (leaves == [] || IsPow2(|leaves|)) <==> (currentLayer == [] || IsPow2(|currentLayer|))
        decreases |currentLayer|
      {
        IsPow2Halves(|currentLayer|);
        var nextLayer: seq<Word> := [];
        var i := 0;
        while i < |currentLayer|
          invariant i == 2 * |nextLayer| && i <= |currentLayer|
          invariant forall j :: 0 <= j < |nextLayer| ==>
            nextLayer[j] == Branch(keccak, currentLayer[2 * j], currentLayer[2 * j + 1])
        {
          if i + 1 == |currentLayer| {
            return false;
          }
          nextLayer := nextLayer + [Branch(keccak, currentLayer[i], currentLayer[i + 1])];
          i := i + 2;
        }
        assert nextLayer == PairUp(keccak, currentLayer);
        layers := layers + [nextLayer];
        currentLayer := nextLayer;
      }
      IsPow2Halves(|currentLayer|);
      return true;
    }

    /** Layer `j` holds 2^(k - j) nodes with the same root as the leaves, and there are k + 1 layers. */
    lemma {:induction false} LayerFacts(k: nat, j: nat)
      requires Valid() && |leaves| == Pow2(k) && j < |layers|
      ensures j <= k && |layers[j]| == Pow2(k - j)
      ensures Root(keccak, k - j, layers[j]) == Root(keccak, k, leaves)
      ensures j < |layers| - 1 <==> j < k
    {
      hide PairUp, Branch;
      if j > 0 {
        LayerFacts(k, j - 1);
        RootOfPairUp(keccak, k - j, layers[j - 1]);
      }
    }

    method GetRoot() returns (root: Option<Word>)
      requires Valid()
      ensures leaves == [] ==> root.None?
      ensures forall k :: |leaves| == Pow2(k) ==> root == Some(Root(keccak, k, leaves))
    {
      var top := layers[|layers| - 1];
      root := if top == [] then None else Some(top[0]);
      forall k | |leaves| == Pow2(k)
        ensures root == Some(Root(keccak, k, leaves))
      {
        LayerFacts(k, |layers| - 1);
      }
    }

    /** The sisters of leaf `index` from the bottom up. */
    method GetSisterNodesPath(index: nat) returns (sisterNodes: seq<Word>, isLeftBytes: seq<bool>)
      requires Valid()
      ensures forall k :: |leaves| == Pow2(k) && index < |leaves| ==>
        sisterNodes == Sisters(keccak, k, leaves, index) && isLeftBytes == Directions(k, index)
    {
      sisterNodes, isLeftBytes := [], [];
      var layerIndex, i := 0, index;
      forall k | |leaves| == Pow2(k) && index < |leaves|
        ensures PathSoFar(k, index, 0, index, [], [])
      {
        LayerFacts(k, 0);
      }
      while layerIndex < |layers| - 1
        invariant layerIndex < |layers|
        invariant forall k :: |leaves| == Pow2(k) && index < |leaves| ==>
          PathSoFar(k, index, layerIndex, i, sisterNodes, isLeftBytes)
      {
        ghost var sisters0, isLeft0, i0 := sisterNodes, isLeftBytes, i;
        var layer := layers[layerIndex];
        var isLeftNode := i % 2 != 1;
        var siblingIndex := if isLeftNode then i + 1 else i - 1;
        if siblingIndex < |layer| {
          sisterNodes := sisterNodes + [layer[siblingIndex]];
          isLeftBytes := isLeftBytes + [!isLeftNode];
        }
        i := i / 2;
        layerIndex := layerIndex + 1;
        forall k | |leaves| == Pow2(k) && index < |leaves|
          ensures PathSoFar(k, index, layerIndex, i, sisterNodes, isLeftBytes)
        {
          assert PathSoFar(k, index, layerIndex - 1, i0, sisters0, isLeft0);
          PathStep(k, index, layerIndex - 1, i0, sisters0, isLeft0);
        }
      }
      forall k | |leaves| == Pow2(k) && index < |leaves|
        ensures sisterNodes == Sisters(keccak, k, leaves, index) && isLeftBytes == Directions(k, index)
      {
        assert PathSoFar(k, index, layerIndex, i, sisterNodes, isLeftBytes);
        LayerFacts(k, layerIndex);
      }
    }

    /** What is left to collect at a layer completes what has been collected. */
    ghost predicate PathSoFar(k: nat, index: nat, j: nat, i: nat, sisters: seq<Word>, isLeft: seq<bool>)
      reads this
    {
      && |leaves| == Pow2(k) && index < |leaves|
      && j <= k && j < |layers|
      && |layers[j]| == Pow2(k - j) && i < |layers[j]|
      && sisters + Sisters(keccak, k - j, layers[j], i) == Sisters(keccak, k, leaves, index)
      && isLeft + Directions(k - j, i) == Directions(k, index)
    }

    lemma PathStep(k: nat, index: nat, j: nat, i: nat, sisters: seq<Word>, isLeft: seq<bool>)
      requires Valid() && PathSoFar(k, index, j, i, sisters, isLeft) && j < |layers| - 1
      ensures var sibling := if i % 2 == 1 then i - 1 else i + 1;
              && sibling < |layers[j]|
              && PathSoFar(k, index, j + 1, i / 2, sisters + [layers[j][sibling]], isLeft + [i % 2 == 1])
    {
      hide PairUp, Branch;
      LayerFacts(k, j);
      LayerFacts(k, j + 1);
      var x, rest := layers[j][if i % 2 == 1 then i - 1 else i + 1], Sisters(keccak, k - j - 1, layers[j + 1], i / 2);
      assert (sisters + [x]) + rest == sisters + ([x] + rest);
      var b, more := i % 2 == 1, Directions(k - j - 1, i / 2);
      assert (isLeft + [b]) + more == isLeft + ([b] + more);
    }
  }

  // ---------- encoding for the contract ----------

  /** The word whose byte i is 1 where the i-th direction is left, and 0 elsewhere. */
  function DirectionWord(isLeft: seq<bool>): Word
    requires |isLeft| <= 32
  {
    FromBytes(seq(32, i requires 0 <= i < 32 => if i < |isLeft| && isLeft[i] then 1 as Byte else 0))
  }

  /** The contract reads back the directions the encoder wrote. */
  lemma DirectionsSurvive(isLeft: seq<bool>)
    requires |isLeft| <= 32
    ensures DirectionBits(DirectionWord(isLeft), |isLeft|) == isLeft
  {
    hide BE, Val;
    var b: Bytes := seq(32, i requires 0 <= i < 32 => if i < |isLeft| && isLeft[i] then 1 as Byte else 0);
    ToFromBytes(b);
    assert DirectionWord(isLeft).ToBytes() == b;
  }

  /** `boolArrayToByte32`: more than 32 directions are refused. */
  method BoolArrayToBytes32(boolArray: seq<bool>) returns (word: Option<Word>)
    ensures word == if |boolArray| > 32 then None else Some(DirectionWord(boolArray))
    ensures word.Some? ==> forall j :: 0 <= j < 32 ==>
      word.value.ToBytes()[j] == if j < |boolArray| && boolArray[j] then 1 else 0
  {
    hide BE, Val;
    if |boolArray| > 32 {
      return None;
    }
    var byteArray := new Byte[32](i => 0);
    for i := 0 to |boolArray|
      invariant forall j :: 0 <= j < 32 ==> byteArray[j] == if j < i && boolArray[j] then 1 else 0
    {
      byteArray[i] := if boolArray[i] then 1 else 0;
    }
    ghost var b: Bytes :=
      seq(32, i requires 0 <= i < 32 => if i < |boolArray| && boolArray[i] then 1 as Byte else 0);
    assert byteArray[..] == b;
    ToFromBytes(b);
    word := Some(FromBytes(byteArray[..]));
  }

  /** The padding of `parseInput`: a hash per claim, then `maxProofs - numProofs` padding leaves. When
      `numProofs` is the number of claims, these are the circuit's leaves. */
  method ParseLeaves(h: Hash, claims: seq<Claim>, numProofs: nat, maxProofs: nat) returns (leaves: seq<Word>)
    ensures |leaves| == |claims| + if numProofs < maxProofs then maxProofs - numProofs else 0
    ensures forall j :: 0 <= j < |leaves| ==>
      leaves[j] == h(if j < |claims| then LeafPreimage(claims[j]) else ZERO_LEAF)
    ensures forall k :: numProofs == |claims| <= maxProofs == Pow2(k) ==> leaves == HashAll(h, Padded(claims, k))
  {
    hide LeafPreimage;
    leaves := [];
    for i := 0 to |claims|
      invariant |leaves| == i && forall j :: 0 <= j < i ==> leaves[j] == h(LeafPreimage(claims[j]))
    {
      leaves := leaves + [h(LeafPreimage(claims[i]))];
    }
    PackedZeros();
    var padLeave := h(Packed(0, 0, 0));
    var i := numProofs;
    while i < maxProofs
      invariant |leaves| == |claims| + i - numProofs && numProofs <= i
      invariant i <= maxProofs || i == numProofs
      invariant forall j :: 0 <= j < |claims| ==> leaves[j] == h(LeafPreimage(claims[j]))
      invariant forall j :: |claims| <= j < |leaves| ==> leaves[j] == h(ZERO_LEAF)
    {
      leaves := leaves + [padLeave];
      i := i + 1;
    }
    forall k | numProofs == |claims| <= maxProofs == Pow2(k)
      ensures leaves == HashAll(h, Padded(claims, k))
    {
    }
  }
}
