/** The V1 circuits: leaves expose their claims column by column, aggregation circuits concatenate
    the columns, and the root circuit exposes one hash of everything. */
module CircuitsV1 {
  import opened Words
  import opened Field
  import opened Join
  import opened Claims

  function GrantIds(rows: seq<Claim>): (column: seq<F>)
    ensures |column| == |rows| && forall i :: 0 <= i < |rows| ==> column[i] == rows[i].grantId
  {
    seq(|rows|, i requires 0 <= i < |rows| => rows[i].grantId)
  }

  function Receivers(rows: seq<Claim>): (column: seq<F>)
    ensures |column| == |rows| && forall i :: 0 <= i < |rows| ==> column[i] == rows[i].receiver
  {
    seq(|rows|, i requires 0 <= i < |rows| => rows[i].receiver)
  }

  function NullifierHashes(rows: seq<Claim>): (column: seq<F>)
    ensures |column| == |rows| && forall i :: 0 <= i < |rows| ==> column[i] == rows[i].nullifierHash
  {
    seq(|rows|, i requires 0 <= i < |rows| => rows[i].nullifierHash)
  }

  function Columns(rows: seq<Claim>): (columns: seq<F>)
    ensures |columns| == 3 * |rows|
  {
    GrantIds(rows) + Receivers(rows) + NullifierHashes(rows)
  }

  function GetNumInstance(maxDepth: nat): nat {
    5 + 3 * Pow2(maxDepth)
  }

  function Instances(s: Shared, rows: seq<Claim>): (instances: seq<F>)
    ensures |instances| == 5 + 3 * |rows|
  {
    s.ToSeq() + Columns(rows)
  }

  // ---------- leaf ----------

  function LeafInstances(c: Crypto, input: LeafInput): (instances: seq<F>)
    ensures |instances| == 5 + 3 * |input.claims|
  {
    var vkHash := VkHash(c.keccak, input.vk);
    Instances(Shared(input.start, input.end, vkHash.hi as F, vkHash.lo as F, input.root), ClaimsOf(input.claims))
  }

  /** The instances, spelled out. */
  lemma LeafInstancesMean(c: Crypto, input: LeafInput)
    ensures var vkHash, rows := c.keccak(WordBytes(ToUints(input.vk))), ClaimsOf(input.claims);
            LeafInstances(c, input) == [input.start, input.end, vkHash.hi as F, vkHash.lo as F, input.root]
                                       + GrantIds(rows) + Receivers(rows) + NullifierHashes(rows)
  {
    hide WordBytes, ToUints, GrantIds, Receivers, NullifierHashes;
  }

  /** The leaf circuit's gates; the columns are unzipped claim by claim. */
  method LeafPhase0(ctx: Context, c: Crypto, input: LeafInput, maxDepth: nat) returns (assignedInstances: seq<F>)
    requires maxDepth <= MAX_DEPTH && |input.claims| == Pow2(maxDepth)
    modifies ctx
    ensures ctx.satisfied == (old(ctx.satisfied) && LeafHolds(c, input, maxDepth))
    ensures ctx.satisfied == (old(ctx.satisfied)
      && input.start < input.end && input.end as int < TWO_64
      && input.end as int - input.start as int <= Pow2(maxDepth)
      && forall i :: 0 <= i < |input.claims| ==>
           var claim := input.claims[i].claim;
           c.groth16(input.vk, input.claims[i].proof,
                     [input.root, claim.nullifierHash, claim.receiver, claim.grantId]))
    ensures assignedInstances == LeafInstances(c, input)
    ensures var vkHash, rows := c.keccak(WordBytes(ToUints(input.vk))), ClaimsOf(input.claims);
            assignedInstances == [input.start, input.end, vkHash.hi as F, vkHash.lo as F, input.root]
                                 + GrantIds(rows) + Receivers(rows) + NullifierHashes(rows)
    ensures |assignedInstances| == GetNumInstance(maxDepth)
  {
    hide Verifies, LeafHolds, VkHash, Pow2, WordBytes, ToUints, GrantIds, Receivers, NullifierHashes, LeafInstances;
    LeafHoldsMeans(c, input, maxDepth);
    LeafInstancesMean(c, input);
    var _ := ConstrainLeafRange(ctx, input.start, input.end, maxDepth);
    var vkHash := c.keccak(WordBytes(ToUints(input.vk)));
    VerifyClaims(ctx, c, input);
    var grantIds, receivers, nullifierHashes := Unzip(input.claims);
    var shared := [input.start, input.end] + [vkHash.hi as F, vkHash.lo as F] + [input.root];
    assignedInstances := shared + grantIds + receivers + nullifierHashes;
  }

  /** The Groth16 check of every claim. */
  method VerifyClaims(ctx: Context, c: Crypto, input: LeafInput)
    modifies ctx
    ensures ctx.satisfied == (old(ctx.satisfied) && forall i :: 0 <= i < |input.claims| ==>
      var claim := input.claims[i].claim;
      c.groth16(input.vk, input.claims[i].proof, [input.root, claim.nullifierHash, claim.receiver, claim.grantId]))
  {
    for i := 0 to |input.claims|
      invariant ctx.satisfied == (old(ctx.satisfied) && forall j :: 0 <= j < i ==>
        var claim := input.claims[j].claim;
        c.groth16(input.vk, input.claims[j].proof, [input.root, claim.nullifierHash, claim.receiver, claim.grantId]))
    {
      var claim := input.claims[i].claim;
      var publicInputs := [input.root, claim.nullifierHash, claim.receiver, claim.grantId];
      ctx.Require(c.groth16(input.vk, input.claims[i].proof, publicInputs));
    }
  }

  /** The claims, column by column. */
  method Unzip(claims: seq<ClaimInput>) returns (grantIds: seq<F>, receivers: seq<F>, nullifierHashes: seq<F>)
    ensures grantIds == GrantIds(ClaimsOf(claims))
    ensures receivers == Receivers(ClaimsOf(claims))
    ensures nullifierHashes == NullifierHashes(ClaimsOf(claims))
  {
    grantIds, receivers, nullifierHashes := [], [], [];
    for i := 0 to |claims|
      invariant |grantIds| == |receivers| == |nullifierHashes| == i
      invariant forall j :: 0 <= j < i ==> grantIds[j] == claims[j].claim.grantId
      invariant forall j :: 0 <= j < i ==> receivers[j] == claims[j].claim.receiver
      invariant forall j :: 0 <= j < i ==> nullifierHashes[j] == claims[j].claim.nullifierHash
    {
      grantIds := grantIds + [claims[i].claim.grantId];
      receivers := receivers + [claims[i].claim.receiver];
      nullifierHashes := nullifierHashes + [claims[i].claim.nullifierHash];
    }
  }

  // ---------- aggregation ----------

  /** Column `j` of the instances behind the shared part: grant ids, receivers, nullifier hashes. */
  function Column(instances: seq<F>, m: nat, j: nat): (column: seq<F>)
    requires |instances| == 5 + 3 * m && j < 3
    ensures |column| == m
  {
    if j == 0 then instances[5..5 + m]
    else if j == 1 then instances[5 + m..5 + 2 * m]
    else instances[5 + 2 * m..5 + 3 * m]
  }

  function BothColumns(instances0: seq<F>, instances1: seq<F>, m: nat, j: nat): (columns: seq<F>)
    requires |instances0| == |instances1| == 5 + 3 * m && j < 3
    ensures |columns| == 2 * m
  {
    Column(instances0, m, j) + Column(instances1, m, j)
  }

  function JoinInstances(instances0: seq<F>, instances1: seq<F>, numProofs: F, depth: nat): (instances: seq<F>)
    requires depth > 0 && |instances0| == |instances1| == GetNumInstance(depth - 1)
    ensures |instances| == GetNumInstance(depth)
  {
    var m := Pow2(depth - 1);
    Joined(SharedOf(instances0), SharedOf(instances1), numProofs, m).ToSeq()
    + (BothColumns(instances0, instances1, m, 0)
       + BothColumns(instances0, instances1, m, 1)
       + BothColumns(instances0, instances1, m, 2))
  }

  predicate JoinHoldsV1(instances0: seq<F>, instances1: seq<F>, numProofs: F, depth: nat)
    requires depth > 0 && |instances0| == |instances1| == GetNumInstance(depth - 1)
  {
    JoinHolds(SharedOf(instances0), SharedOf(instances1), numProofs, Pow2(depth - 1))
  }

  /** `join_previous_instances`: the shared part is joined, then each column is extended in turn. */
  method JoinPreviousInstances(ctx: Context, instances0: seq<F>, instances1: seq<F>, numProofs: F, maxDepth: nat)
    returns (instances: seq<F>)
    requires 1 <= maxDepth <= MAX_DEPTH + 1
    requires |instances0| == |instances1| == GetNumInstance(maxDepth - 1)
    modifies ctx
    ensures ctx.satisfied == (old(ctx.satisfied) && JoinHoldsV1(instances0, instances1, numProofs, maxDepth))
    ensures instances == JoinInstances(instances0, instances1, numProofs, maxDepth)
  {
    hide JoinHolds, Joined, Column, Shared.ToSeq;
    var isSecondDummy;
    instances, isSecondDummy := CheckAndJoinSharedInstances(ctx, instances0, instances1, numProofs, maxDepth,
                                                            GetNumInstance(maxDepth - 1));
    ghost var shared := instances;
    var m := Pow2(maxDepth - 1);
    instances := instances + Column(instances0, m, 0);
    instances := instances + Column(instances1, m, 0);
    instances := instances + Column(instances0, m, 1);
    instances := instances + Column(instances1, m, 1);
    instances := instances + Column(instances0, m, 2);
    instances := instances + Column(instances1, m, 2);
    assert instances == shared + (BothColumns(instances0, instances1, m, 0)
      + BothColumns(instances0, instances1, m, 1) + BothColumns(instances0, instances1, m, 2));
  }

  lemma ColumnsConcat(rows0: seq<Claim>, rows1: seq<Claim>)
    ensures GrantIds(rows0 + rows1) == GrantIds(rows0) + GrantIds(rows1)
    ensures Receivers(rows0 + rows1) == Receivers(rows0) + Receivers(rows1)
    ensures NullifierHashes(rows0 + rows1) == NullifierHashes(rows0) + NullifierHashes(rows1)
  {
  }

  lemma ColumnSlices(s: Shared, rows: seq<Claim>)
    ensures var i, m := Instances(s, rows), |rows|;
            && SharedOf(i) == s
            && Column(i, m, 0) == GrantIds(rows)
            && Column(i, m, 1) == Receivers(rows)
            && Column(i, m, 2) == NullifierHashes(rows)
  {
  }

  /** Joining column-major instances is concatenating their row lists. */
  lemma JoinIsRowConcat(s0: Shared, rows0: seq<Claim>, s1: Shared, rows1: seq<Claim>, numProofs: F, depth: nat)
    requires depth > 0 && |rows0| == |rows1| == Pow2(depth - 1)
    ensures JoinInstances(Instances(s0, rows0), Instances(s1, rows1), numProofs, depth)
         == Instances(Joined(s0, s1, numProofs, Pow2(depth - 1)), rows0 + rows1)
  {
    hide Joined, GrantIds, Receivers, NullifierHashes, SharedOf, Column, Shared.ToSeq;
    ColumnSlices(s0, rows0);
    ColumnSlices(s1, rows1);
    ColumnsConcat(rows0, rows1);
  }

  // ---------- accepted trees ----------

  /** Every row a tree exposes, with its proof, padding and dummy children included. */
  function RowInputs(t: Tree, depth: nat): seq<ClaimInput> {
    match t
    case Leaf(input) => input.claims
    case Node(left, right, _) =>
      if depth == 0 then [] else RowInputs(left, depth - 1) + RowInputs(right, depth - 1)
  }

  function Rows(t: Tree, depth: nat): (rows: seq<Claim>)
    ensures |rows| == |RowInputs(t, depth)|
  {
    ClaimsOf(RowInputs(t, depth))
  }

  /** The instances a tree of circuits of these sizes exposes. */
  function TreeInstances(c: Crypto, t: Tree, depth: nat, initialDepth: nat): (instances: seq<F>)
    requires Shape(t, depth, initialDepth)
    ensures |instances| == GetNumInstance(depth)
  {
    match t
    case Leaf(input) => LeafInstances(c, input)
    case Node(left, right, numProofs) =>
      JoinInstances(TreeInstances(c, left, depth - 1, initialDepth),
                    TreeInstances(c, right, depth - 1, initialDepth), numProofs, depth)
  }

  /** The aggregation circuit over two trees is satisfied. */
  predicate NodeHolds(c: Crypto, left: Tree, right: Tree, numProofs: F, depth: nat, initialDepth: nat)
    requires depth > 0 && Shape(left, depth - 1, initialDepth) && Shape(right, depth - 1, initialDepth)
  {
    JoinHoldsV1(TreeInstances(c, left, depth - 1, initialDepth),
                TreeInstances(c, right, depth - 1, initialDepth), numProofs, depth)
  }

  /** Every circuit of the tree is satisfied; a child's proof is verified against its instances. */
  predicate Accepted(c: Crypto, t: Tree, depth: nat, initialDepth: nat) {
    && Shape(t, depth, initialDepth)
    && match t
       case Leaf(input) => LeafHolds(c, input, depth)
       case Node(left, right, numProofs) =>
         && Accepted(c, left, depth - 1, initialDepth)
         && Accepted(c, right, depth - 1, initialDepth)
         && NodeHolds(c, left, right, numProofs, depth, initialDepth)
  }

  lemma JoinedInstances(instances0: seq<F>, instances1: seq<F>, numProofs: F, depth: nat)
    requires depth > 0 && |instances0| == |instances1| == GetNumInstance(depth - 1)
    ensures SharedOf(JoinInstances(instances0, instances1, numProofs, depth))
         == Joined(SharedOf(instances0), SharedOf(instances1), numProofs, Pow2(depth - 1))
  {
    hide Joined, BothColumns;
  }

  /** What an accepted tree of this depth exposes, given its leaves' keys, its rows and the claims it
      proves. */
  ghost predicate Exposes(c: Crypto, instances: seq<F>, keys: set<seq<F>>, rows: seq<ClaimInput>,
                          inputs: seq<ClaimInput>, depth: nat) {
    && |rows| == Pow2(depth)
    && |instances| == GetNumInstance(depth)
    && var s := SharedOf(instances);
    && instances == Instances(s, ClaimsOf(rows))
    && s.RangeOk() && s.Count() == |inputs|
    && s.vkHashHi as int < TWO_128 && s.vkHashLo as int < TWO_128
    && AllValid(c, keys, Word(s.vkHashHi as Uint128, s.vkHashLo as Uint128), s.root, rows)
    && 1 <= |inputs| <= Pow2(depth) && inputs <= rows
  }

  /** Tree soundness and layout: the instances are the columns of 2^depth rows, each row's own Groth16
      proof verifies under a leaf's key, all leaves' keys have the exposed hash, and the proven claims are
      a prefix of the rows. */
  lemma {:induction false} TreeSound(c: Crypto, t: Tree, depth: nat, initialDepth: nat)
    requires Accepted(c, t, depth, initialDepth)
    ensures Exposes(c, TreeInstances(c, t, depth, initialDepth), Keys(t), RowInputs(t, depth), Inputs(t, depth), depth)
  {
    hide Exposes, LeafHolds, JoinHoldsV1, JoinInstances, LeafInstances;
    match t
    case Leaf(input) =>
      LeafSound(c, input, depth);
    case Node(left, right, numProofs) =>
      TreeSound(c, left, depth - 1, initialDepth);
      TreeSound(c, right, depth - 1, initialDepth);
      JoinSound(c, TreeInstances(c, left, depth - 1, initialDepth), Keys(left), RowInputs(left, depth - 1),
                Inputs(left, depth - 1), TreeInstances(c, right, depth - 1, initialDepth), Keys(right),
                RowInputs(right, depth - 1), Inputs(right, depth - 1), numProofs, depth);
  }

  lemma LeafSound(c: Crypto, input: LeafInput, depth: nat)
    requires LeafHolds(c, input, depth)
    requires |input.claims| == Pow2(depth) && |input.vk| == NUM_FE_VK
    ensures Exposes(c, LeafInstances(c, input), {input.vk}, input.claims, Inputs(Leaf(input), depth), depth)
  {
    hide VkHash, Verifies, Columns;
    forall i | 0 <= i < |input.claims|
      ensures VerifiesUnder(c, {input.vk}, input.root, input.claims[i])
    {
      assert input.vk in {input.vk} && Verifies(c, input.vk, input.claims[i].proof, input.root, input.claims[i].claim);
    }
  }

  lemma JoinSound(c: Crypto, instances0: seq<F>, keys0: set<seq<F>>, rows0: seq<ClaimInput>, inputs0: seq<ClaimInput>,
                  instances1: seq<F>, keys1: set<seq<F>>, rows1: seq<ClaimInput>, inputs1: seq<ClaimInput>,
                  numProofs: F, depth: nat)
    requires depth > 0
    requires Exposes(c, instances0, keys0, rows0, inputs0, depth - 1)
    requires Exposes(c, instances1, keys1, rows1, inputs1, depth - 1)
    requires JoinHoldsV1(instances0, instances1, numProofs, depth)
    ensures var inputs := if SecondIsDummy(numProofs, Pow2(depth - 1)) then inputs0 else inputs0 + inputs1;
            Exposes(c, JoinInstances(instances0, instances1, numProofs, depth), keys0 + keys1, rows0 + rows1, inputs, depth)
  {
    hide AllValid, Columns, JoinInstances;
    var s0, s1 := SharedOf(instances0), SharedOf(instances1);
    var j := Joined(s0, s1, numProofs, Pow2(depth - 1));
    FieldJoinIsIntegerJoin(s0, s1, numProofs, Pow2(depth - 1));
    ValidTogether(c, keys0, rows0, keys1, rows1, Word(s0.vkHashHi as Uint128, s0.vkHashLo as Uint128), s0.root);
    ClaimsOfConcat(rows0, rows1);
    JoinIsRowConcat(s0, ClaimsOf(rows0), s1, ClaimsOf(rows1), numProofs, depth);
    assert SharedOf(Instances(j, ClaimsOf(rows0 + rows1))) == j;
  }

  lemma JoinCounts(c: Crypto, instances0: seq<F>, keys0: set<seq<F>>, rows0: seq<ClaimInput>, inputs0: seq<ClaimInput>,
                   instances1: seq<F>, keys1: set<seq<F>>, rows1: seq<ClaimInput>, inputs1: seq<ClaimInput>,
                   numProofs: F, depth: nat)
    requires depth > 0
    requires Exposes(c, instances0, keys0, rows0, inputs0, depth - 1)
    requires Exposes(c, instances1, keys1, rows1, inputs1, depth - 1)
    requires JoinHoldsV1(instances0, instances1, numProofs, depth)
    ensures numProofs as int == |if SecondIsDummy(numProofs, Pow2(depth - 1)) then inputs0 else inputs0 + inputs1|
  {
    hide AllValid, Instances;
    FieldJoinIsIntegerJoin(SharedOf(instances0), SharedOf(instances1), numProofs, Pow2(depth - 1));
  }

  /** The number of proofs a root circuit exposes is the number of claims its tree proves. */
  lemma RootCountsBatch(c: Crypto, t: Tree, depth: nat, initialDepth: nat)
    requires Accepted(c, t, depth, initialDepth) && t.Node?
    ensures t.numProofs as int == |Batch(t, depth)|
  {
    hide Exposes, TreeInstances, JoinHoldsV1;
    TreeSound(c, t.left, depth - 1, initialDepth);
    TreeSound(c, t.right, depth - 1, initialDepth);
    JoinCounts(c, TreeInstances(c, t.left, depth - 1, initialDepth), Keys(t.left), RowInputs(t.left, depth - 1),
               Inputs(t.left, depth - 1), TreeInstances(c, t.right, depth - 1, initialDepth), Keys(t.right),
               RowInputs(t.right, depth - 1), Inputs(t.right, depth - 1), t.numProofs, depth);
  }

  // ---------- building accepted trees ----------

  /** The tree is accepted and its shared instances are `s`. */
  predicate HasShared(c: Crypto, t: Tree, depth: nat, initialDepth: nat, s: Shared) {
    && Accepted(c, t, depth, initialDepth)
    && SharedOf(TreeInstances(c, t, depth, initialDepth)) == s
  }

  lemma NodeHasShared(c: Crypto, t: Tree, depth: nat, initialDepth: nat, s0: Shared, s1: Shared)
    requires t.Node? && initialDepth < depth <= MAX_DEPTH
    requires HasShared(c, t.left, depth - 1, initialDepth, s0) && HasShared(c, t.right, depth - 1, initialDepth, s1)
    requires JoinHolds(s0, s1, t.numProofs, Pow2(depth - 1))
    ensures HasShared(c, t, depth, initialDepth, Joined(s0, s1, t.numProofs, Pow2(depth - 1)))
  {
    hide JoinHolds, Joined, JoinInstances;
    JoinedInstances(TreeInstances(c, t.left, depth - 1, initialDepth),
                    TreeInstances(c, t.right, depth - 1, initialDepth), t.numProofs, depth);
  }

  // ---------- root ----------

  /** vk hash, root, number of proofs, then the columns. */
  function RootOutput(instances: seq<F>, numProofs: F): (output: seq<F>)
    requires |instances| >= 5
    ensures |output| == |instances| - 1
  {
    instances[2..5] + [numProofs] + instances[5..]
  }

  /** Behind its four head words the output is the columns. */
  lemma RootOutputIsColumns(s: Shared, rows: seq<Claim>, numProofs: F)
    ensures RootOutput(Instances(s, rows), numProofs) == [s.vkHashHi, s.vkHashLo, s.root, numProofs] + Columns(rows)
  {
    hide Columns;
    var instances := Instances(s, rows);
    assert instances[2..5] == [s.vkHashHi, s.vkHashLo, s.root];
    assert instances[5..] == Columns(rows);
  }

  /** Each output value as 32 big-endian bytes. */
  method EncodeWords(output: seq<F>) returns (bytes: Bytes)
    ensures bytes == WordBytes(ToUints(output))
  {
    hide BE;
    bytes := [];
    for i := 0 to |output|
      invariant bytes == WordBytes(ToUints(output[..i]))
    {
      assert ToUints(output[..i + 1]) == ToUints(output[..i]) + [ToUint(output[i])];
      WordBytesConcat(ToUints(output[..i]), [ToUint(output[i])]);
      bytes := bytes + BE(output[i] as int, 32);
    }
    assert output[..|output|] == output;
  }

  /** The root circuit: drop the children's accumulators, join, and expose the output's hash behind
      the new accumulator. */
  method RootPhase0(ctx: Context, keccak: Hash, previousInstances0: seq<F>, previousInstances1: seq<F>,
                    accIndices: seq<nat>, accumulator: seq<F>, numProofs: F, maxDepth: nat)
    returns (assignedInstances: seq<F>)
    requires 1 <= maxDepth <= MAX_DEPTH + 1
    requires |previousInstances0| == |previousInstances1|
    requires forall i, j :: 0 <= i < j < |accIndices| ==> accIndices[i] < accIndices[j]
    requires forall i :: 0 <= i < |accIndices| ==> accIndices[i] < |previousInstances0|
    requires |Without(previousInstances0, ToSet(accIndices), 0)| == GetNumInstance(maxDepth - 1)
    requires |Without(previousInstances1, ToSet(accIndices), 0)| == GetNumInstance(maxDepth - 1)
    modifies ctx
    ensures var instances0 := Without(previousInstances0, ToSet(accIndices), 0);
            var instances1 := Without(previousInstances1, ToSet(accIndices), 0);
            var joined := JoinInstances(instances0, instances1, numProofs, maxDepth);
            var hash := keccak(WordBytes(ToUints(joined[2..5] + [numProofs] + joined[5..])));
            && ctx.satisfied == (old(ctx.satisfied) && JoinHoldsV1(instances0, instances1, numProofs, maxDepth))
            && assignedInstances == accumulator + [hash.hi as F, hash.lo as F]
  {
    hide JoinHoldsV1, JoinInstances, Without, WordBytes, ToUints;
    var instances0 := RemoveAccumulators(previousInstances0, accIndices);
    var instances1 := RemoveAccumulators(previousInstances1, accIndices);
    var newInstances := JoinPreviousInstances(ctx, instances0, instances1, numProofs, maxDepth);
    var output: seq<F> := [];
    output := output + newInstances[2..5];
    output := output + [numProofs];
    output := output + newInstances[5..5 + 3 * Pow2(maxDepth)];
    assert output == RootOutput(newInstances, numProofs);
    var outputBytes := EncodeWords(output);
    var outputHash := keccak(outputBytes);
    assignedInstances := accumulator + [outputHash.hi as F, outputHash.lo as F];
  }
}
