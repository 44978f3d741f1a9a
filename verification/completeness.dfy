/** Every batch the scheduler accepts becomes an accepted tree that exposes exactly the batch. */
module Completeness {
  import opened Words
  import opened Field
  import opened Merkle
  import opened Join
  import opened Claims
  import opened NodeParameters
  import opened Wrappers
  import opened Scheduler
  import CircuitsV1
  import CircuitsV2

  /** Every claim has a valid proof under the verifying key and root, and a 20-byte receiver. */
  ghost predicate ValidBatch(c: Crypto, vk: seq<F>, root: F, claims: seq<ClaimInput>) {
    forall i :: 0 <= i < |claims| ==>
      && Verifies(c, vk, claims[i].proof, root, claims[i].claim)
      && claims[i].claim.receiver as int < TWO_160
  }

  /** The shared instances a request's tree should expose. */
  ghost function ExpectedShared(c: Crypto, vk: seq<F>, req: Request): Shared {
    var vkHash := VkHash(c.keccak, vk);
    Shared(req.start as F, req.end as F, vkHash.hi as F, vkHash.lo as F, req.root)
  }

  /** The tree is accepted in both versions (in V2 as far as the padding table reaches), exposes the
      request's range, key and root, and proves the request's claims in order, each by its own proof. */
  ghost predicate Realises(c: Crypto, vk: seq<F>, req: Request, t: Tree) {
    var d, d0 := req.params.depth, req.params.initialDepth;
    && CircuitsV1.HasShared(c, t, d, d0, ExpectedShared(c, vk, req))
    && (d <= DUMMY_TABLE_DEPTH + 1 ==> CircuitsV2.HasShared(c, t, d, d0, ExpectedShared(c, vk, req)))
    && Inputs(t, d) == req.claims
  }

  lemma LeafRealises(c: Crypto, vk: seq<F>, req: Request)
    requires req.WellFormed() && req.params.nodeType.Leaf?
    requires |vk| == NUM_FE_VK && ValidBatch(c, vk, req.root, req.claims)
    ensures Realises(c, vk, req, Build(vk, req).tree)
  {
    hide VkHash, Verifies, BE, ClaimsRoot;
    var input := Build(vk, req).tree.input;
    assert input == LeafInput(req.start as F, req.end as F, req.root, vk,
                              PadClaims(req.claims, Pow2(req.params.depth)));
    assert Sub(input.end, input.start) as int == |req.claims|;
    assert Inputs(Tree.Leaf(input), req.params.depth) == req.claims;
  }

  /** `left` and `right` are the halves of the request, or `left` is all of it and `right` a clone. */
  predicate Splits(req: Request, left: Request, right: Request) {
    && req.WellFormed() && left.WellFormed() && right.WellFormed()
    && left.params.depth == right.params.depth == req.params.depth - 1
    && left.params.initialDepth == right.params.initialDepth == req.params.initialDepth
    && left.root == right.root == req.root
    && left.start == req.start
    && if req.NumProofs() <= Pow2(req.params.depth - 1)
       then left.end == req.end && left.claims == req.claims
       else left.NumProofs() == Pow2(req.params.depth - 1) && left.end == right.start && right.end == req.end
            && left.claims + right.claims == req.claims
  }

  lemma DependenciesSplit(req: Request)
    requires req.WellFormed() && (req.params.nodeType.Intermediate? || req.params.nodeType.Root?)
    ensures var deps := Dependencies(req);
            && 1 <= |deps| <= 2 && Splits(req, deps[0], deps[|deps| - 1])
            && deps[0].params.Rank() < req.params.Rank() && deps[|deps| - 1].params.Rank() < req.params.Rank()
            && deps[0].root == deps[|deps| - 1].root == req.root
            && (deps[0].claims == deps[|deps| - 1].claims == req.claims
                || deps[0].claims + deps[|deps| - 1].claims == req.claims)
  {
    hide Dependencies;
    ChildIsWellFormed(req.params);
    DependenciesPartition(req);
  }

  lemma SplitsJoin(c: Crypto, vk: seq<F>, req: Request, left: Request, right: Request)
    requires Splits(req, left, right)
    ensures var s0, s1 := ExpectedShared(c, vk, left), ExpectedShared(c, vk, right);
            var numProofs, m := req.NumProofs() as F, Pow2(req.params.depth - 1);
            && JoinHolds(s0, s1, numProofs, m)
            && Joined(s0, s1, numProofs, m) == ExpectedShared(c, vk, req)
            && (SecondIsDummy(numProofs, m) <==> req.NumProofs() <= m)
  {
    hide VkHash;
    FieldJoinIsIntegerJoin(ExpectedShared(c, vk, left), ExpectedShared(c, vk, right), req.NumProofs() as F,
                           Pow2(req.params.depth - 1));
  }

  /** Two children that realise the halves of a request, or one child and its clone, are joined. */
  lemma NodeRealises(c: Crypto, vk: seq<F>, req: Request, left: Request, right: Request, t0: Tree, t1: Tree)
    requires req.params.depth > 0 && Splits(req, left, right)
    requires req.params.depth > req.params.initialDepth
    requires Realises(c, vk, left, t0) && Realises(c, vk, right, t1)
    ensures Realises(c, vk, req, Node(t0, t1, req.NumProofs() as F))
  {
    hide ExpectedShared, JoinHolds, Joined, SecondIsDummy, CircuitsV1.HasShared, CircuitsV2.HasShared;
    SplitsJoin(c, vk, req, left, right);
    var d, d0, numProofs := req.params.depth, req.params.initialDepth, req.NumProofs() as F;
    var s0, s1 := ExpectedShared(c, vk, left), ExpectedShared(c, vk, right);
    var t := Node(t0, t1, numProofs);
    CircuitsV1.NodeHasShared(c, t, d, d0, s0, s1);
    if d <= DUMMY_TABLE_DEPTH + 1 {
      CircuitsV2.NodeHasShared(c, t, d, d0, s0, s1);
    }
  }

  /** Scheduler completeness below the root: the tree built for a valid batch is accepted. */
  lemma {:induction false} TreeComplete(c: Crypto, vk: seq<F>, req: Request)
    requires req.WellFormed() && (req.params.nodeType.Leaf? || req.params.nodeType.Intermediate?)
    requires |vk| == NUM_FE_VK && ValidBatch(c, vk, req.root, req.claims)
    ensures Realises(c, vk, req, Build(vk, req).tree)
    decreases req.params.Rank(), 2
  {
    if req.params.nodeType.Leaf? {
      LeafRealises(c, vk, req);
    } else {
      NodeComplete(c, vk, req);
    }
  }

  /** The same for intermediate and root requests, which only differ in what they expose. */
  lemma {:induction false} NodeComplete(c: Crypto, vk: seq<F>, req: Request)
    requires req.WellFormed() && (req.params.nodeType.Intermediate? || req.params.nodeType.Root?)
    requires |vk| == NUM_FE_VK && ValidBatch(c, vk, req.root, req.claims)
    ensures Realises(c, vk, req, Build(vk, req).tree)
    decreases req.params.Rank(), 1
  {
    hide Realises, Build, Dependencies, ValidBatch, NodeParams.Child, NodeParams.Rank;
    hide Splits;
    NodeBuild(vk, req);
    DependenciesSplit(req);
    var deps := Dependencies(req);
    var left, right := deps[0], deps[|deps| - 1];
    PartsAreValid(c, vk, req, left, right);
    TreeComplete(c, vk, left);
    TreeComplete(c, vk, right);
    NodeRealises(c, vk, req, left, right, Build(vk, left).tree, Build(vk, right).tree);
  }

  lemma PartsAreValid(c: Crypto, vk: seq<F>, req: Request, left: Request, right: Request)
    requires ValidBatch(c, vk, req.root, req.claims) && left.root == right.root == req.root
    requires (left.claims == right.claims == req.claims) || left.claims + right.claims == req.claims
    ensures ValidBatch(c, vk, left.root, left.claims) && ValidBatch(c, vk, right.root, right.claims)
  {
    hide Verifies;
    forall i | 0 <= i < |left.claims|
      ensures left.claims[i] == req.claims[i]
    {
    }
    forall i | 0 <= i < |right.claims|
      ensures right.claims[i] in req.claims
    {
      if left.claims + right.claims == req.claims {
        assert req.claims[|left.claims| + i] == right.claims[i];
      }
    }
  }

  /** Proving an aggregation task puts its first and last snark under one node. */
  lemma NodeTask(vk: seq<F>, req: Request, snarks: seq<Snark>)
    requires req.WellFormed() && (req.params.nodeType.Intermediate? || req.params.nodeType.Root?)
    requires 1 <= |snarks| <= 2
    requires forall i :: 0 <= i < |snarks| ==> KindFits(req.params.Child().value, snarks[i])
    ensures MakeTask(req, snarks).Ok? && Prove(vk, MakeTask(req, snarks).value).Ok?
    ensures Prove(vk, MakeTask(req, snarks).value).value.Tree()
         == Some(Node(snarks[0].tree, snarks[|snarks| - 1].tree, req.NumProofs() as F))
  {
    assert KindFits(req.params.Child().value, snarks[0]);
    assert KindFits(req.params.Child().value, snarks[|snarks| - 1]);
  }

  /** What an aggregation request builds: its first and last dependency's trees under one node. */
  lemma NodeBuild(vk: seq<F>, req: Request)
    requires req.WellFormed() && (req.params.nodeType.Intermediate? || req.params.nodeType.Root?)
    ensures 1 <= |Dependencies(req)| <= 2
    ensures var deps := Dependencies(req);
            var left, right := deps[0], deps[|deps| - 1];
            && left.WellFormed() && right.WellFormed()
            && left.params == right.params == req.params.Child().value
            && Build(vk, left).TreeSnark? && Build(vk, right).TreeSnark?
            && Build(vk, req).Tree() == Some(Node(Build(vk, left).tree, Build(vk, right).tree, req.NumProofs() as F))
  {
    DependenciesPartition(req);
    hide Build, Prove, MakeTask, Dependencies, BuildAll, Request.WellFormed;
    var snarks := BuildAll(vk, Dependencies(req), req.params.Child().value);
    BuildIsProve(vk, req, snarks);
    NodeTask(vk, req, snarks);
  }

  // ---------- the final proof ----------

  /** The root tree inside any number of EVM rounds. */
  function RootTree(snark: Snark): (t: Option<Tree>) {
    match snark
    case TreeSnark(_) => None
    case RootSnark(tree) => Some(tree)
    case EvmSnark(inner, _) => RootTree(inner)
  }

  /** The rounds of EVM verification around the root tree, outermost first. */
  function EvmRounds(snark: Snark): seq<nat> {
    if snark.EvmSnark? then [snark.round] + EvmRounds(snark.inner) else []
  }

  /** A request for `Evm(r)` ends with rounds r down to 0, a request for the root with none. */
  lemma {:induction false} RoundsAsRequested(vk: seq<F>, req: Request)
    requires req.WellFormed() && (req.params.nodeType.Root? || req.params.nodeType.Evm?)
    ensures var rounds := EvmRounds(Build(vk, req));
            if req.params.nodeType.Evm?
            then |rounds| == req.params.nodeType.round + 1
                 && forall i :: 0 <= i < |rounds| ==> rounds[i] == req.params.nodeType.round - i
            else rounds == []
    decreases req.params.Rank()
  {
    hide Build, Dependencies, NodeParams.Rank;
    if req.params.nodeType.Evm? {
      EvmBuild(vk, req);
      RoundsAsRequested(vk, req.(params := req.params.Child().value));
    } else {
      assert KindFits(req.params, Build(vk, req));
    }
  }

  /** Scheduler completeness: the final proof of any valid batch wraps a root tree that is accepted and
      proves exactly that batch. */
  lemma {:induction false} SchedulerComplete(c: Crypto, vk: seq<F>, req: Request)
    requires req.WellFormed() && (req.params.nodeType.Root? || req.params.nodeType.Evm?)
    requires |vk| == NUM_FE_VK && ValidBatch(c, vk, req.root, req.claims)
    ensures var t := RootTree(Build(vk, req));
            t.Some? && t.value.Node? && t.value.numProofs as int == |req.claims| && Realises(c, vk, req, t.value)
    decreases req.params.Rank()
  {
    hide Realises, Build, Dependencies, ValidBatch, NodeParams.Child, NodeParams.Rank;
    if req.params.nodeType.Root? {
      NodeComplete(c, vk, req);
      NodeBuild(vk, req);
    } else {
      EvmBuild(vk, req);
      var dep := req.(params := req.params.Child().value);
      SchedulerComplete(c, vk, dep);
      RealisesRewrapped(c, vk, req, dep, RootTree(Build(vk, dep)).value);
    }
  }

  /** Only the depths of the parameters matter to what a tree realises. */
  lemma RealisesRewrapped(c: Crypto, vk: seq<F>, req: Request, dep: Request, t: Tree)
    requires dep == req.(params := dep.params)
    requires dep.params.depth == req.params.depth && dep.params.initialDepth == req.params.initialDepth
    requires Realises(c, vk, dep, t)
    ensures Realises(c, vk, req, t)
  {
    hide CircuitsV1.HasShared, CircuitsV2.HasShared, Batch;
  }

  /** An EVM request wraps the snark of the same request one round further in. */
  lemma EvmBuild(vk: seq<F>, req: Request)
    requires req.WellFormed() && req.params.nodeType.Evm?
    ensures req.params.Sound()
    ensures var child := req.params.Child().value;
            var dep := req.(params := child);
            && dep.WellFormed() && child.depth == req.params.depth && child.Rank() < req.params.Rank()
            && (child.nodeType.Root? || child.nodeType.Evm?)
            && Build(vk, req) == EvmSnark(Build(vk, dep), req.params.nodeType.round)
  {
    DependenciesPartition(req);
    var dep := req.(params := req.params.Child().value);
    assert Dependencies(req) == [dep];
    var snarks := BuildAll(vk, Dependencies(req), req.params.Child().value);
    assert snarks == [Build(vk, dep)];
    hide Build, BuildAll, Dependencies, DependenciesFrom;
    BuildIsProve(vk, req, snarks);
  }

  /** What the V2 root exposes for a batch, by specification alone. */
  ghost function ExpectedOutputsV2(c: Crypto, vk: seq<F>, root: F, claims: seq<Claim>, depth: nat): seq<F>
    requires |claims| <= TWO_64
  {
    CircuitsV2.PublicValues(VkHash(c.keccak, vk), root, |claims| as F, ClaimsRoot(c.keccak, claims, depth))
  }

  /** The V2 root's outputs are the verifying key's hash, the World ID root, the number of claims and
      the flat Merkle root of the padded batch. */
  lemma OutputsV2(c: Crypto, vk: seq<F>, req: Request)
    requires req.WellFormed() && (req.params.nodeType.Root? || req.params.nodeType.Evm?)
    requires |vk| == NUM_FE_VK && ValidBatch(c, vk, req.root, req.claims)
    requires req.params.depth <= DUMMY_TABLE_DEPTH + 1
    ensures var d, d0, t := req.params.depth, req.params.initialDepth, RootTree(Build(vk, req));
            && t.Some? && t.value.Node? && CircuitsV2.Accepted(c, t.value, d, d0)
            && CircuitsV2.RootOutputs(CircuitsV2.TreeInstances(c, t.value, d, d0), t.value.numProofs)
               == ExpectedOutputsV2(c, vk, req.root, ClaimsOf(req.claims), d)
  {
    SchedulerComplete(c, vk, req);
    var d, d0, t := req.params.depth, req.params.initialDepth, RootTree(Build(vk, req)).value;
    CircuitsV2.TreeSound(c, t, d, d0);
    hide CircuitsV1.HasShared, CircuitsV2.Accepted, CircuitsV2.TreeInstances,
      CircuitsV2.RootOutputs, ClaimsRoot, AllValid, VkHash, Build;
    CircuitsV2.RootOutputsAre(CircuitsV2.TreeInstances(c, t, d, d0), t.numProofs, VkHash(c.keccak, vk),
                              ClaimsRoot(c.keccak, ClaimsOf(req.claims), d));
  }

  /** The V2 output of a batch does not depend on where the leaf circuits end and aggregation begins,
      nor on the number of EVM rounds. */
  lemma OutputIndependentOfInitialDepth(c: Crypto, vk: seq<F>, req: Request, req': Request)
    requires req.WellFormed() && (req.params.nodeType.Root? || req.params.nodeType.Evm?)
    requires req'.WellFormed() && (req'.params.nodeType.Root? || req'.params.nodeType.Evm?)
    requires req.root == req'.root && req.claims == req'.claims && req.params.depth == req'.params.depth
    requires |vk| == NUM_FE_VK && ValidBatch(c, vk, req.root, req.claims)
    requires req.params.depth <= DUMMY_TABLE_DEPTH + 1
    ensures var d, t, t' := req.params.depth, RootTree(Build(vk, req)), RootTree(Build(vk, req'));
            && t.Some? && t.value.Node? && CircuitsV2.Accepted(c, t.value, d, req.params.initialDepth)
            && t'.Some? && t'.value.Node? && CircuitsV2.Accepted(c, t'.value, d, req'.params.initialDepth)
            && CircuitsV2.RootOutputs(CircuitsV2.TreeInstances(c, t.value, d, req.params.initialDepth), t.value.numProofs)
            == CircuitsV2.RootOutputs(CircuitsV2.TreeInstances(c, t'.value, d, req'.params.initialDepth), t'.value.numProofs)
  {
    OutputsV2(c, vk, req);
    OutputsV2(c, vk, req');
  }
}
