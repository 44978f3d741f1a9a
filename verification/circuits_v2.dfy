/** The V2 circuits: leaves expose the Merkle root of their claims, aggregation circuits hash their
    children's roots, and the root circuit's public outputs are raw words. */
module CircuitsV2 {
  import opened Words
  import opened Field
  import opened Merkle
  import opened Join
  import opened Claims

  /** start, end, vk hash (two halves), root, claim root (two halves). */
  const NUM_INSTANCE: nat := 7

  function Half(x: Uint128): F {
    x as F
  }

  function Instances(s: Shared, claimRoot: Word): (instances: seq<F>)
    ensures |instances| == NUM_INSTANCE
  {
    s.ToSeq() + [Half(claimRoot.hi), Half(claimRoot.lo)]
  }

  // ---------- leaf ----------

  /** The active claims' receivers must fit the 20 bytes they are packed into. */
  predicate ReceiversFit(input: LeafInput) {
    forall i :: 0 <= i < |input.claims| && i < Sub(input.end, input.start) as int ==>
      input.claims[i].claim.receiver as int < TWO_160
  }

  predicate LeafHoldsV2(c: Crypto, input: LeafInput, depth: nat) {
    LeafHolds(c, input, depth) && ReceiversFit(input)
  }

  function LeafShared(c: Crypto, input: LeafInput): Shared {
    var vkHash := VkHash(c.keccak, input.vk);
    Shared(input.start, input.end, Half(vkHash.hi), Half(vkHash.lo), input.root)
  }

  function LeafInstances(c: Crypto, input: LeafInput, depth: nat): (instances: seq<F>)
    ensures |instances| == NUM_INSTANCE
  {
    Instances(LeafShared(c, input), ClaimsRoot(c.keccak, Batch(Leaf(input), depth), depth))
  }

  /** Constraints and instances, spelled out. */
  lemma LeafMeans(c: Crypto, input: LeafInput, depth: nat)
    ensures LeafHoldsV2(c, input, depth) <==>
      && LeafHolds(c, input, depth)
      && forall i :: 0 <= i < |input.claims| && i < input.end as int - input.start as int ==>
           input.claims[i].claim.receiver as int < TWO_160
    ensures
      var vkHash := c.keccak(WordBytes(ToUints(input.vk)));
      var claimsRoot := ClaimsRoot(c.keccak, Batch(Leaf(input), depth), depth);
      LeafInstances(c, input, depth) == [input.start, input.end, Half(vkHash.hi), Half(vkHash.lo), input.root,
                                         Half(claimsRoot.hi), Half(claimsRoot.lo)]
  {
    hide WordBytes, ToUints, ClaimsRoot, Batch, Verifies, Pow2;
  }

  /** The leaf circuit's gates, claim by claim: each leaf is hashed from fields multiplied by the
      mask `i < num_proofs`, then the tree is built over them. */
  method LeafPhase0(ctx: Context, c: Crypto, input: LeafInput, maxDepth: nat) returns (assignedInstances: seq<F>)
    requires maxDepth <= MAX_DEPTH
    requires |input.claims| == Pow2(maxDepth) && |input.vk| == NUM_FE_VK
    modifies ctx
    ensures ctx.satisfied == (old(ctx.satisfied) && LeafHoldsV2(c, input, maxDepth))
    ensures ctx.satisfied == (old(ctx.satisfied)
      && input.start < input.end && input.end as int < TWO_64
      && input.end as int - input.start as int <= Pow2(maxDepth)
      && (forall i :: 0 <= i < |input.claims| ==>
            var claim := input.claims[i].claim;
            c.groth16(input.vk, input.claims[i].proof,
                      [input.root, claim.nullifierHash, claim.receiver, claim.grantId]))
      && (forall i :: 0 <= i < |input.claims| && i < input.end as int - input.start as int ==>
            input.claims[i].claim.receiver as int < TWO_160))
    ensures assignedInstances == LeafInstances(c, input, maxDepth)
    ensures
      var vkHash := c.keccak(WordBytes(ToUints(input.vk)));
      var claimsRoot := ClaimsRoot(c.keccak, Batch(Leaf(input), maxDepth), maxDepth);
      assignedInstances == [input.start, input.end, Half(vkHash.hi), Half(vkHash.lo), input.root,
                            Half(claimsRoot.hi), Half(claimsRoot.lo)]
  {
    hide HashAll, Padded, Verifies, VkHash, Pow2, CircuitTree, IsPow2, WordBytes, ToUints;
    LeafHoldsMeans(c, input, maxDepth);
    LeafMeans(c, input, maxDepth);
    var numProofs := ConstrainLeafRange(ctx, input.start, input.end, maxDepth);
    var vkHash := VkHash(c.keccak, input.vk);
    var leaves := HashLeaves(ctx, c, input, maxDepth, numProofs);
    CircuitTreeRoot(c.keccak, maxDepth, leaves);
    var merkleTree := CircuitTree(c.keccak, leaves);
    var claimRoot := merkleTree[0];
    assignedInstances := [input.start, input.end] + [Half(vkHash.hi), Half(vkHash.lo)] + [input.root]
      + [Half(claimRoot.hi), Half(claimRoot.lo)];
  }

  /** Groth16 check and masked leaf hash of every claim slot. */
  method HashLeaves(ctx: Context, c: Crypto, input: LeafInput, maxDepth: nat, numProofs: F)
    returns (leaves: seq<Word>)
    requires |input.claims| == Pow2(maxDepth) && numProofs == Sub(input.end, input.start)
    modifies ctx
    ensures ctx.satisfied == (old(ctx.satisfied) && ReceiversFit(input) && forall i :: 0 <= i < |input.claims| ==>
      c.groth16(input.vk, input.claims[i].proof, [input.root, input.claims[i].claim.nullifierHash,
                                                  input.claims[i].claim.receiver, input.claims[i].claim.grantId]))
    ensures leaves == HashAll(c.keccak, Padded(Batch(Leaf(input), maxDepth), maxDepth))
  {
    hide Packed, LeafPreimage, Pow2, Mul;
    leaves := [];
    ghost var preimages := Padded(Batch(Leaf(input), maxDepth), maxDepth);
    for i := 0 to |input.claims|
      invariant |leaves| == i
      invariant forall j :: 0 <= j < i ==> leaves[j] == c.keccak(preimages[j])
      invariant ctx.satisfied == (old(ctx.satisfied)
        && (forall j :: 0 <= j < i ==>
              c.groth16(input.vk, input.claims[j].proof, [input.root, input.claims[j].claim.nullifierHash,
                                                          input.claims[j].claim.receiver, input.claims[j].claim.grantId]))
        && (forall j :: 0 <= j < i && j < numProofs as int ==> input.claims[j].claim.receiver as int < TWO_160))
    {
      var claim := input.claims[i].claim;
      var mask := Bit(i < numProofs as int);
      var publicInputs := [input.root, claim.nullifierHash, claim.receiver, claim.grantId];
      ctx.Require(c.groth16(input.vk, input.claims[i].proof, publicInputs));
      var leaf := MaskedLeaf(ctx, c, claim, mask);
      MaskSelects(claim, mask);
      assert preimages[i] == if mask == 1 then LeafPreimage(claim) else ZERO_LEAF;
      leaves := leaves + [leaf];
    }
    assert leaves == HashAll(c.keccak, preimages);
  }

  /** The masked fields of one claim, packed and hashed. */
  method MaskedLeaf(ctx: Context, c: Crypto, claim: Claim, mask: F) returns (leaf: Word)
    requires IsBit(mask)
    modifies ctx
    ensures ctx.satisfied == (old(ctx.satisfied) && Mul(claim.receiver, mask) as int < TWO_160)
    ensures leaf == c.keccak(Packed(Mul(claim.grantId, mask) as int, Mul(claim.receiver, mask) as int,
                                    Mul(claim.nullifierHash, mask) as int))
  {
    hide BE;
    PowerValues();
    var maskedGrantId := Mul(claim.grantId, mask);
    var maskedReceiver := Mul(claim.receiver, mask);
    var maskedNullifierHash := Mul(claim.nullifierHash, mask);
    var bytes: Bytes := [];
    bytes := bytes + BE(maskedGrantId as int, 32);
    ctx.RangeCheck(maskedReceiver, 160);
    bytes := bytes + BE(maskedReceiver as int, 20);
    bytes := bytes + BE(maskedNullifierHash as int, 32);
    assert bytes == Packed(maskedGrantId as int, maskedReceiver as int, maskedNullifierHash as int);
    leaf := c.keccak(bytes);
  }

  lemma MaskSelects(claim: Claim, mask: F)
    requires IsBit(mask)
    ensures Packed(Mul(claim.grantId, mask) as int, Mul(claim.receiver, mask) as int,
                   Mul(claim.nullifierHash, mask) as int)
         == if mask == 1 then LeafPreimage(claim) else ZERO_LEAF
    ensures Mul(claim.receiver, mask) == if mask == 1 then claim.receiver else 0
  {
    hide BE;
    MulByBit(claim.grantId, mask);
    MulByBit(claim.receiver, mask);
    MulByBit(claim.nullifierHash, mask);
    PackedZeros();
  }

  // ---------- aggregation ----------

  /** Digest halves must fit 16 bytes each before they are hashed. */
  predicate HalvesFit(instances: seq<F>)
    requires |instances| == NUM_INSTANCE
  {
    instances[5] as int < TWO_128 && instances[6] as int < TWO_128
  }

  function ClaimRootOf(instances: seq<F>): Word
    requires |instances| == NUM_INSTANCE && HalvesFit(instances)
  {
    Word(instances[5] as Uint128, instances[6] as Uint128)
  }

  /** The right child counts only when it is not a dummy; the padding table covers depths 0 to 13. */
  predicate JoinHoldsV2(instances0: seq<F>, instances1: seq<F>, numProofs: F, depth: nat)
    requires |instances0| == |instances1| == NUM_INSTANCE && depth > 0
  {
    && depth - 1 <= DUMMY_TABLE_DEPTH
    && JoinHolds(SharedOf(instances0), SharedOf(instances1), numProofs, Pow2(depth - 1))
    && HalvesFit(instances0)
    && (SecondIsDummy(numProofs, Pow2(depth - 1)) || HalvesFit(instances1))
  }

  function JoinInstances(keccak: Hash, instances0: seq<F>, instances1: seq<F>, numProofs: F, depth: nat): (r: seq<F>)
    requires |instances0| == |instances1| == NUM_INSTANCE && depth > 0
    requires JoinHoldsV2(instances0, instances1, numProofs, depth)
    ensures |r| == NUM_INSTANCE
  {
    var prevMax := Pow2(depth - 1);
    var right := if SecondIsDummy(numProofs, prevMax) then DummyRoot(keccak, depth - 1) else ClaimRootOf(instances1);
    Instances(Joined(SharedOf(instances0), SharedOf(instances1), numProofs, prevMax),
              Branch(keccak, ClaimRootOf(instances0), right))
  }

  lemma BranchBytes(keccak: Hash, leftHi: Uint128, leftLo: Uint128, rightHi: Uint128, rightLo: Uint128)
    ensures Branch(keccak, Word(leftHi, leftLo), Word(rightHi, rightLo))
         == keccak(BE(leftHi as int, 16) + BE(leftLo as int, 16) + BE(rightHi as int, 16) + BE(rightLo as int, 16))
  {
    hide BE;
    var a, b, c, d := BE(leftHi as int, 16), BE(leftLo as int, 16), BE(rightHi as int, 16), BE(rightLo as int, 16);
    assert (a + b) + (c + d) == a + b + c + d;
  }

  /** `compute_keccak_for_branch_nodes`: four halves of 16 bytes each. */
  method BranchNode(ctx: Context, keccak: Hash, leftHi: F, leftLo: F, rightHi: F, rightLo: F) returns (digest: Word)
    modifies ctx
    ensures ctx.satisfied == (old(ctx.satisfied)
      && leftHi as int < TWO_128 && leftLo as int < TWO_128 && rightHi as int < TWO_128 && rightLo as int < TWO_128)
    ensures leftHi as int < TWO_128 && leftLo as int < TWO_128 && rightHi as int < TWO_128 && rightLo as int < TWO_128 ==>
      digest == Branch(keccak, Word(leftHi as Uint128, leftLo as Uint128), Word(rightHi as Uint128, rightLo as Uint128))
    ensures digest == keccak(BE(leftHi as int, 16) + BE(leftLo as int, 16) + BE(rightHi as int, 16) + BE(rightLo as int, 16))
  {
    hide BE, Branch, Pow2;
    PowerValues();
    var bytes: Bytes := [];
    ctx.RangeCheck(leftHi, 128);
    bytes := bytes + BE(leftHi as int, 16);
    assert bytes == BE(leftHi as int, 16);
    ctx.RangeCheck(leftLo, 128);
    bytes := bytes + BE(leftLo as int, 16);
    ctx.RangeCheck(rightHi, 128);
    bytes := bytes + BE(rightHi as int, 16);
    ctx.RangeCheck(rightLo, 128);
    bytes := bytes + BE(rightLo as int, 16);
    digest := keccak(bytes);
    if leftHi as int < TWO_128 && leftLo as int < TWO_128 && rightHi as int < TWO_128 && rightLo as int < TWO_128 {
      BranchBytes(keccak, leftHi as Uint128, leftLo as Uint128, rightHi as Uint128, rightLo as Uint128);
    }
  }

  /** The gates of `join_previous_instances`. A depth beyond the padding table is a panic, not a
      constraint, so the caller keeps to it. */
  method JoinPreviousInstances(ctx: Context, keccak: Hash, instances0: seq<F>, instances1: seq<F>,
                               numProofs: F, maxDepth: nat)
    returns (instances: seq<F>)
    requires |instances0| == |instances1| == NUM_INSTANCE
    requires 1 <= maxDepth <= DUMMY_TABLE_DEPTH + 1
    modifies ctx
    ensures ctx.satisfied == (old(ctx.satisfied) && JoinHoldsV2(instances0, instances1, numProofs, maxDepth))
    ensures |instances| == NUM_INSTANCE
    ensures ctx.satisfied ==> instances == JoinInstances(keccak, instances0, instances1, numProofs, maxDepth)
  {
    hide Branch, Pow2, DummyRoot, JoinHolds;
    var isSecondDummy;
    instances, isSecondDummy :=
      CheckAndJoinSharedInstances(ctx, instances0, instances1, numProofs, maxDepth, NUM_INSTANCE);

    var dummyClaimRoots := DummyClaimRoots(keccak);
    var dummyClaimRoot := dummyClaimRoots[maxDepth - 1];
    var rightHi := Select(Half(dummyClaimRoot.hi), instances1[5], isSecondDummy);
    var rightLo := Select(Half(dummyClaimRoot.lo), instances1[6], isSecondDummy);
    var claimRoot := BranchNode(ctx, keccak, instances0[5], instances0[6], rightHi, rightLo);
    instances := instances + [Half(claimRoot.hi), Half(claimRoot.lo)];
  }

  // ---------- accepted trees ----------

  /** Every circuit of the tree is satisfied; a child's proof is verified against its instances. */
  ghost predicate Accepted(c: Crypto, t: Tree, depth: nat, initialDepth: nat)
    decreases t, 0
  {
    && Shape(t, depth, initialDepth)
    && match t
       case Leaf(input) => LeafHoldsV2(c, input, depth)
       case Node(left, right, numProofs) =>
         && Accepted(c, left, depth - 1, initialDepth)
         && Accepted(c, right, depth - 1, initialDepth)
         && JoinHoldsV2(TreeInstances(c, left, depth - 1, initialDepth),
                        TreeInstances(c, right, depth - 1, initialDepth), numProofs, depth)
  }

  /** The instances an accepted tree exposes. */
  ghost function TreeInstances(c: Crypto, t: Tree, depth: nat, initialDepth: nat): (instances: seq<F>)
    requires Accepted(c, t, depth, initialDepth)
    ensures |instances| == NUM_INSTANCE
    decreases t, 1
  {
    match t
    case Leaf(input) => LeafInstances(c, input, depth)
    case Node(left, right, numProofs) =>
      JoinInstances(c.keccak, TreeInstances(c, left, depth - 1, initialDepth),
                    TreeInstances(c, right, depth - 1, initialDepth), numProofs, depth)
  }

  lemma JoinedInstances(keccak: Hash, instances0: seq<F>, instances1: seq<F>, numProofs: F, depth: nat)
    requires |instances0| == |instances1| == NUM_INSTANCE && depth > 0
    requires JoinHoldsV2(instances0, instances1, numProofs, depth)
    ensures SharedOf(JoinInstances(keccak, instances0, instances1, numProofs, depth))
         == Joined(SharedOf(instances0), SharedOf(instances1), numProofs, Pow2(depth - 1))
  {
    hide JoinHolds, Joined, Branch, DummyRoot;
  }

  // ---------- public outputs ----------

  /** The root's outputs after the accumulator: vk hash, root, number of claims, claim root. */
  function RootOutputs(instances: seq<F>, numProofs: F): (outputs: seq<F>)
    requires |instances| == NUM_INSTANCE
    ensures |outputs| == 6
  {
    instances[2..5] + [numProofs] + instances[5..7]
  }

  /** `virtual_assign_phase0_helper`: drop the children's accumulators, join, and lay the outputs out
      behind the new accumulator; the root shows the number of proofs instead of the range. */
  method AggregationPhase0(ctx: Context, keccak: Hash, previousInstances0: seq<F>, previousInstances1: seq<F>,
                           accIndices: seq<nat>, accumulator: seq<F>, numProofs: F, maxDepth: nat,
                           exposeNumProofs: bool)
    returns (assignedInstances: seq<F>)
    requires 1 <= maxDepth <= DUMMY_TABLE_DEPTH + 1
    requires |previousInstances0| == |previousInstances1|
    requires forall i, j :: 0 <= i < j < |accIndices| ==> accIndices[i] < accIndices[j]
    requires forall i :: 0 <= i < |accIndices| ==> accIndices[i] < |previousInstances0|
    requires |Without(previousInstances0, ToSet(accIndices), 0)| == NUM_INSTANCE
    requires |Without(previousInstances1, ToSet(accIndices), 0)| == NUM_INSTANCE
    modifies ctx
    ensures var instances0 := Without(previousInstances0, ToSet(accIndices), 0);
            var instances1 := Without(previousInstances1, ToSet(accIndices), 0);
            && ctx.satisfied == (old(ctx.satisfied) && JoinHoldsV2(instances0, instances1, numProofs, maxDepth))
            && (ctx.satisfied ==>
                  var joined := JoinInstances(keccak, instances0, instances1, numProofs, maxDepth);
                  assignedInstances == accumulator +
                    if exposeNumProofs then joined[2..5] + [numProofs] + joined[5..7] else joined)
  {
    hide JoinHoldsV2, JoinInstances, Without;
    var instances0 := RemoveAccumulators(previousInstances0, accIndices);
    var instances1 := RemoveAccumulators(previousInstances1, accIndices);
    var newInstances := JoinPreviousInstances(ctx, keccak, instances0, instances1, numProofs, maxDepth);
    assignedInstances := [];
    assignedInstances := assignedInstances + accumulator;
    if exposeNumProofs {
      assignedInstances := assignedInstances + newInstances[2..5];
      assignedInstances := assignedInstances + [numProofs];
      assignedInstances := assignedInstances + newInstances[5..7];
      assert assignedInstances == accumulator + (newInstances[2..5] + [numProofs] + newInstances[5..7]);
    } else {
      assignedInstances := assignedInstances + newInstances[0..7];
      assert newInstances[0..7] == newInstances;
    }
  }

  // ---------- soundness ----------

  /** What an accepted tree of this depth exposes, given its leaves' keys and the claims it proves. */
  ghost predicate Exposes(c: Crypto, instances: seq<F>, keys: set<seq<F>>, inputs: seq<ClaimInput>, depth: nat) {
    && |instances| == NUM_INSTANCE
    && HalvesFit(instances)
    && instances[2] as int < TWO_128 && instances[3] as int < TWO_128
    && var s := SharedOf(instances);
    && s.RangeOk()
    && s.Count() == |inputs|
    && 1 <= |inputs| <= Pow2(depth)
    && AllValid(c, keys, VkHashOf(instances), s.root, inputs)
    && (forall i :: 0 <= i < |inputs| ==> inputs[i].claim.receiver as int < TWO_160)
    && ClaimRootOf(instances) == ClaimsRoot(c.keccak, ClaimsOf(inputs), depth)
  }

  ghost function VkHashOf(instances: seq<F>): Word
    requires |instances| == NUM_INSTANCE
    requires instances[2] as int < TWO_128 && instances[3] as int < TWO_128
  {
    Word(instances[2] as Uint128, instances[3] as Uint128)
  }

  /** Tree soundness: the exposed claim root is the flat Merkle root of claims, as many as the exposed
      range, padded with zero leaves; each claim's own Groth16 proof verifies under a leaf's key, and all
      leaves' keys have the exposed hash. */
  lemma {:induction false} TreeSound(c: Crypto, t: Tree, depth: nat, initialDepth: nat)
    requires Accepted(c, t, depth, initialDepth)
    ensures Exposes(c, TreeInstances(c, t, depth, initialDepth), Keys(t), Inputs(t, depth), depth)
  {
    hide Exposes, LeafHoldsV2, JoinHoldsV2, JoinInstances, LeafInstances;
    match t
    case Leaf(input) =>
      LeafSound(c, input, depth);
    case Node(left, right, numProofs) =>
      TreeSound(c, left, depth - 1, initialDepth);
      TreeSound(c, right, depth - 1, initialDepth);
      JoinSound(c, TreeInstances(c, left, depth - 1, initialDepth), Keys(left), Inputs(left, depth - 1),
                TreeInstances(c, right, depth - 1, initialDepth), Keys(right), Inputs(right, depth - 1), numProofs, depth);
  }

  lemma LeafSound(c: Crypto, input: LeafInput, depth: nat)
    requires LeafHoldsV2(c, input, depth)
    requires |input.claims| == Pow2(depth) && |input.vk| == NUM_FE_VK
    ensures Exposes(c, LeafInstances(c, input, depth), {input.vk}, Inputs(Leaf(input), depth), depth)
  {
    hide BE, Branch, SubRoot, ClaimsRoot, VkHash, Verifies;
    var inputs := Inputs(Leaf(input), depth);
    forall i | 0 <= i < |inputs|
      ensures VerifiesUnder(c, {input.vk}, input.root, inputs[i])
    {
      assert input.vk in {input.vk} && Verifies(c, input.vk, inputs[i].proof, input.root, inputs[i].claim);
    }
  }

  lemma JoinSound(c: Crypto, instances0: seq<F>, keys0: set<seq<F>>, inputs0: seq<ClaimInput>,
                  instances1: seq<F>, keys1: set<seq<F>>, inputs1: seq<ClaimInput>, numProofs: F, depth: nat)
    requires depth > 0
    requires Exposes(c, instances0, keys0, inputs0, depth - 1) && Exposes(c, instances1, keys1, inputs1, depth - 1)
    requires JoinHoldsV2(instances0, instances1, numProofs, depth)
    ensures var inputs := if SecondIsDummy(numProofs, Pow2(depth - 1)) then inputs0 else inputs0 + inputs1;
            Exposes(c, JoinInstances(c.keccak, instances0, instances1, numProofs, depth), keys0 + keys1, inputs, depth)
  {
    hide BE, Branch, SubRoot, DummyRoot, ClaimsRoot, AllValid;
    var prevMax := Pow2(depth - 1);
    FieldJoinIsIntegerJoin(SharedOf(instances0), SharedOf(instances1), numProofs, prevMax);
    ValidTogether(c, keys0, inputs0, keys1, inputs1, VkHashOf(instances0), instances0[4]);
    if SecondIsDummy(numProofs, prevMax) {
      ClaimsRootOfShort(c.keccak, ClaimsOf(inputs0), depth - 1);
    } else {
      ClaimsRootOfConcat(c.keccak, ClaimsOf(inputs0), ClaimsOf(inputs1), depth - 1);
      ClaimsOfConcat(inputs0, inputs1);
    }
  }

  lemma JoinCounts(c: Crypto, instances0: seq<F>, keys0: set<seq<F>>, inputs0: seq<ClaimInput>,
                   instances1: seq<F>, keys1: set<seq<F>>, inputs1: seq<ClaimInput>, numProofs: F, depth: nat)
    requires depth > 0
    requires Exposes(c, instances0, keys0, inputs0, depth - 1) && Exposes(c, instances1, keys1, inputs1, depth - 1)
    requires JoinHoldsV2(instances0, instances1, numProofs, depth)
    ensures numProofs as int == |if SecondIsDummy(numProofs, Pow2(depth - 1)) then inputs0 else inputs0 + inputs1|
  {
    hide AllValid, ClaimsRoot;
    FieldJoinIsIntegerJoin(SharedOf(instances0), SharedOf(instances1), numProofs, Pow2(depth - 1));
  }

  /** The number of proofs a root circuit exposes is the number of claims its tree proves. */
  lemma RootCountsBatch(c: Crypto, t: Tree, depth: nat, initialDepth: nat)
    requires Accepted(c, t, depth, initialDepth) && t.Node?
    ensures t.numProofs as int == |Batch(t, depth)|
  {
    hide Exposes, TreeInstances, JoinHoldsV2;
    TreeSound(c, t.left, depth - 1, initialDepth);
    TreeSound(c, t.right, depth - 1, initialDepth);
    JoinCounts(c, TreeInstances(c, t.left, depth - 1, initialDepth), Keys(t.left), Inputs(t.left, depth - 1),
               TreeInstances(c, t.right, depth - 1, initialDepth), Keys(t.right), Inputs(t.right, depth - 1),
               t.numProofs, depth);
  }

  /** The six public values of a root proof. */
  function PublicValues(vkHash: Word, root: F, numProofs: F, claimsRoot: Word): (values: seq<F>)
    ensures |values| == 6
  {
    [Half(vkHash.hi), Half(vkHash.lo), root, numProofs, Half(claimsRoot.hi), Half(claimsRoot.lo)]
  }

  /** The root's outputs, value by value. */
  lemma RootOutputsAre(instances: seq<F>, numProofs: F, vkHash: Word, claimRoot: Word)
    requires |instances| == NUM_INSTANCE && HalvesFit(instances)
    requires instances[2] == Half(vkHash.hi) && instances[3] == Half(vkHash.lo) && ClaimRootOf(instances) == claimRoot
    ensures RootOutputs(instances, numProofs) == PublicValues(vkHash, instances[4], numProofs, claimRoot)
  {
    assert instances[2..5] == [Half(vkHash.hi), Half(vkHash.lo), instances[4]];
    assert instances[5..7] == [Half(claimRoot.hi), Half(claimRoot.lo)];
  }

  // ---------- building accepted trees ----------

  /** The tree is accepted and its shared instances are `s`. */
  ghost predicate HasShared(c: Crypto, t: Tree, depth: nat, initialDepth: nat, s: Shared) {
    && Accepted(c, t, depth, initialDepth)
    && SharedOf(TreeInstances(c, t, depth, initialDepth)) == s
  }

  /** The tree is accepted and exposes these instances. */
  ghost predicate HasInstances(c: Crypto, t: Tree, depth: nat, initialDepth: nat, instances: seq<F>) {
    Accepted(c, t, depth, initialDepth) && TreeInstances(c, t, depth, initialDepth) == instances
  }

  lemma NodeHasInstances(c: Crypto, t: Tree, depth: nat, initialDepth: nat, i0: seq<F>, i1: seq<F>)
    requires t.Node? && initialDepth < depth <= MAX_DEPTH
    requires HasInstances(c, t.left, depth - 1, initialDepth, i0) && HasInstances(c, t.right, depth - 1, initialDepth, i1)
    requires |i0| == |i1| == NUM_INSTANCE && JoinHoldsV2(i0, i1, t.numProofs, depth)
    ensures HasInstances(c, t, depth, initialDepth, JoinInstances(c.keccak, i0, i1, t.numProofs, depth))
  {
    hide JoinHoldsV2, JoinInstances;
  }

  lemma NodeHasShared(c: Crypto, t: Tree, depth: nat, initialDepth: nat, s0: Shared, s1: Shared)
    requires t.Node? && initialDepth < depth <= DUMMY_TABLE_DEPTH + 1
    requires HasShared(c, t.left, depth - 1, initialDepth, s0) && HasShared(c, t.right, depth - 1, initialDepth, s1)
    requires JoinHolds(s0, s1, t.numProofs, Pow2(depth - 1))
    ensures HasShared(c, t, depth, initialDepth, Joined(s0, s1, t.numProofs, Pow2(depth - 1)))
  {
    hide Accepted, TreeInstances, JoinHolds, Joined, JoinInstances;
    var i0 := TreeInstances(c, t.left, depth - 1, initialDepth);
    var i1 := TreeInstances(c, t.right, depth - 1, initialDepth);
    ChildHalvesFit(c, t.left, depth - 1, initialDepth);
    ChildHalvesFit(c, t.right, depth - 1, initialDepth);
    NodeHasInstances(c, t, depth, initialDepth, i0, i1);
    JoinedInstances(c.keccak, i0, i1, t.numProofs, depth);
  }

  lemma ChildHalvesFit(c: Crypto, t: Tree, depth: nat, initialDepth: nat)
    requires Accepted(c, t, depth, initialDepth)
    ensures HalvesFit(TreeInstances(c, t, depth, initialDepth))
  {
    hide TreeInstances, Accepted;
    TreeSound(c, t, depth, initialDepth);
  }
}
