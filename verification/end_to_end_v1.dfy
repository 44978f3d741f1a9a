/** The honest V1 flow: the call the scheduler server makes of a scheduled batch is paid exactly when the
    batch is full, although partial batches are admitted and proved. */
module EndToEndV1 {
  import opened Words
  import opened Field
  import opened Claims
  import opened Token
  import opened PublicWords
  import opened ContractV1
  import opened Completeness
  import opened SafetyV1
  import Scheduler
  import CircuitsV1

  /** The request is well formed, of the circuits' depths, and all of its claims are valid under the
      contract's verifying key. */
  ghost predicate Schedulable(s: System, req: Scheduler.Request) {
    && req.WellFormed() && (req.params.nodeType.Root? || req.params.nodeType.Evm?)
    && |s.vk| == NUM_FE_VK && s.KeyDeployed()
    && ValidBatch(s.Crypto(), s.vk, req.root, req.claims)
    && req.params.depth == s.depth && req.params.initialDepth == s.initialDepth
  }

  /** The proof attests the tree the scheduler built, its output hash encoded below the field's order. */
  ghost predicate ProofOf(s: System, req: Scheduler.Request, proof: Bytes)
    requires req.WellFormed()
  {
    var t := RootTree(Scheduler.Build(s.vk, req));
    && t.Some? && Attests(s, t.value, proof)
    && Canonical(PublicWord(proof, 12)) && Canonical(PublicWord(proof, 13))
  }

  /** `V1ClaimParams::new`: the batch's own claims, and as many of them as there are. */
  function ClaimParams(vkeyHash: Word, root: F, claims: seq<Claim>, proof: Bytes): (a: Args)
    requires |claims| < TWO_64 && forall i :: 0 <= i < |claims| ==> claims[i].receiver as int < TWO_160
    ensures a.SameLengths() && a.numClaims as int == |claims|
  {
    var n := |claims|;
    Args(vkeyHash, n as Uint256, ToUint(root),
         seq(n, i requires 0 <= i < n => ToUint(claims[i].grantId)),
         seq(n, i requires 0 <= i < n => claims[i].receiver as int as Address),
         seq(n, i requires 0 <= i < n => ToUint(claims[i].nullifierHash)), proof)
  }

  ghost function CallOf(s: System, req: Scheduler.Request, proof: Bytes): (a: Args)
    requires Schedulable(s, req)
    ensures a.SameLengths() && a.numClaims as int == |req.claims| && a.proof == proof && a.root == ToUint(req.root)
    ensures a.vkeyHash == s.cfg.vkeyHash
  {
    SchedulableFits(s, req);
    ClaimParams(s.cfg.vkeyHash, req.root, ClaimsOf(req.claims), proof)
  }

  lemma SchedulableFits(s: System, req: Scheduler.Request)
    requires Schedulable(s, req)
    ensures 1 <= |req.claims| <= Pow2(s.depth) && |req.claims| < TWO_64
    ensures forall i :: 0 <= i < |req.claims| ==> ClaimsOf(req.claims)[i].receiver as int < TWO_160
  {
  }

  /** The two strings hashed for the call. */
  ghost predicate HashesApart(s: System, req: Scheduler.Request, proof: Bytes)
    requires Schedulable(s, req) && ProofOf(s, req, proof)
  {
    var t := RootTree(Scheduler.Build(s.vk, req)).value;
    AttestedShape(s, t, proof);
    NoAliasing(s.cfg.keccak, {OutputPreimage(CallOf(s, req, proof)), WordBytes(OutputWords(s, t))})
  }

  /** What the honest call has in common with the tree behind its proof. */
  lemma HonestCallMatches(s: System, req: Scheduler.Request, proof: Bytes)
    requires Schedulable(s, req) && ProofOf(s, req, proof)
    ensures var a, t := CallOf(s, req, proof), RootTree(Scheduler.Build(s.vk, req)).value;
            && Batch(t, s.depth) == ClaimsOf(req.claims) && RowsMatch(a, Batch(t, s.depth))
            && CircuitsV1.Accepted(s.Crypto(), t, s.depth, s.initialDepth)
            && var i := CircuitsV1.TreeInstances(s.Crypto(), t, s.depth, s.initialDepth);
            && a.root == ToUint(i[4])
            && a.vkeyHash.hi as int == i[2] as int && a.vkeyHash.lo as int == i[3] as int
  {
    hide CircuitsV1.Accepted, CircuitsV1.TreeInstances, CircuitsV2.HasShared, Scheduler.Build, RootTree, PublicWord,
      StandFor, OutputWords, WordBytes, ValidBatch, VkHash;
    SchedulableFits(s, req);
    SchedulerComplete(s.Crypto(), s.vk, req);
  }

  /** The output-hash check passes for every full batch. */
  lemma FullHashPasses(s: System, req: Scheduler.Request, proof: Bytes)
    requires Schedulable(s, req) && ProofOf(s, req, proof) && |req.claims| == Pow2(s.depth)
    ensures |proof| >= MINIMUM_SNARK_LENGTH
    ensures ProvenOutputHash(proof) == s.cfg.keccak(OutputPreimage(CallOf(s, req, proof)))
  {
    HonestCallMatches(s, req, proof);
    hide CircuitsV1.Accepted, CircuitsV1.TreeInstances, Scheduler.Build, RootTree, PublicWord, StandFor, OutputWords,
      WordBytes, Schedulable, CallOf, Canonical, OutputPreimage, ProvenOutputHash, RowsMatch;
    FullBatchPasses(s, RootTree(Scheduler.Build(s.vk, req)).value, CallOf(s, req, proof));
  }

  /** It passes for no other batch. */
  lemma HonestHashPassesIffFull(s: System, req: Scheduler.Request, proof: Bytes)
    requires Schedulable(s, req) && ProofOf(s, req, proof) && HashesApart(s, req, proof)
    ensures |proof| >= MINIMUM_SNARK_LENGTH
    ensures ProvenOutputHash(proof) == s.cfg.keccak(OutputPreimage(CallOf(s, req, proof)))
       <==> |req.claims| == Pow2(s.depth)
  {
    HonestCallMatches(s, req, proof);
    hide CircuitsV1.Accepted, CircuitsV1.TreeInstances, Scheduler.Build, RootTree, PublicWord, StandFor, OutputWords,
      WordBytes, Schedulable, CallOf, Canonical, NoAliasing, OutputPreimage, ProvenOutputHash, RowsMatch;
    HonestCallPassesIffFull(s, RootTree(Scheduler.Build(s.vk, req)).value, CallOf(s, req, proof));
  }

  /** The call made of a scheduled batch is paid if and only if the batch is full, the sender, the root,
      the maximum and the verifier allow it, and every claim is payable. */
  lemma HonestCallIsPaidIffFull(s: System, req: Scheduler.Request, proof: Bytes, st: State,
                                sender: Address, rootIsValid: Uint256 -> bool, grants: GrantView)
    requires Schedulable(s, req) && ProofOf(s, req, proof) && HashesApart(s, req, proof)
    ensures var a := CallOf(s, req, proof);
            (Distribute(s.cfg, st, sender, a, rootIsValid, grants).Ok?
             <==> && |req.claims| == Pow2(s.depth)
                  && SenderAllowed(s.cfg.prover, sender) && rootIsValid(ToUint(req.root))
                  && |req.claims| <= s.cfg.maxNumClaims as int && s.cfg.verifier(proof)
                  && AllPayable(s.cfg, st, a, grants, 0))
  {
    hide Schedulable, ProofOf, HashesApart, CallOf, OutputPreimage, ProvenOutputHash, AllPayable, PayFrom;
    HonestHashPassesIffFull(s, req, proof);
    PaidIffAllPayable(s.cfg, st, CallOf(s, req, proof), grants, 0);
  }

  /** A batch the scheduler proves in full faith but that is not full is never paid. */
  lemma PartialBatchIsRefused(s: System, req: Scheduler.Request, proof: Bytes, st: State, call: Call)
    requires Schedulable(s, req) && ProofOf(s, req, proof) && HashesApart(s, req, proof)
    requires |req.claims| < Pow2(s.depth)
    requires call.DistributeGrants? && call.args == CallOf(s, req, proof)
    ensures Step(s.cfg, st, call) == st
  {
    hide Schedulable, ProofOf, HashesApart, CallOf, Distribute, AllPayable;
    HonestCallIsPaidIffFull(s, req, proof, st, call.sender, call.rootIsValid, call.grants);
  }

  // ---------- full batches ----------

  /** One payment for each claim, in order and in full. */
  predicate PaysBatch(payments: seq<Payment>, root: F, claims: seq<Claim>, grants: GrantView) {
    && |payments| == |claims|
    && forall i :: 0 <= i < |payments| ==>
         && payments[i].grantId == ToUint(claims[i].grantId) && payments[i].root == ToUint(root)
         && payments[i].receiver as int == claims[i].receiver as int
         && payments[i].nullifierHash == ToUint(claims[i].nullifierHash)
         && payments[i].amount == grants.amount(ToUint(claims[i].grantId))
  }

  lemma DueIsBatch(s: System, req: Scheduler.Request, proof: Bytes, grants: GrantView)
    requires Schedulable(s, req)
    ensures PaysBatch(DueFrom(CallOf(s, req, proof), grants, 0), req.root, ClaimsOf(req.claims), grants)
  {
    hide Schedulable;
    SchedulableFits(s, req);
  }

  /** Nullifiers are never forgotten. */
  lemma {:induction false} NullifiersGrow(cfg: Config, balances: Balances, before: seq<Call>, after: seq<Call>)
    ensures Run(cfg, balances, before).nullifierHashes <= Run(cfg, balances, before + after).nullifierHashes
  {
    hide Distribute, PayFrom;
    if after == [] {
      assert before + after == before;
    } else {
      var calls := before + after;
      assert calls[..|calls| - 1] == before + after[..|after| - 1];
      NullifiersGrow(cfg, balances, before, after[..|after| - 1]);
      StepKeepsNullifiers(cfg, Run(cfg, balances, calls[..|calls| - 1]), calls[|calls| - 1]);
    }
  }

  lemma StepKeepsNullifiers(cfg: Config, st: State, call: Call)
    ensures st.nullifierHashes <= Step(cfg, st, call).nullifierHashes
  {
    hide BatchCheck, PayFrom;
    if call.DistributeGrants? && BatchCheck(cfg, call.sender, call.args, call.rootIsValid).Ok?
       && PayFrom(cfg, st, call.args, call.grants, 0).Ok? {
      PaidBatch(cfg, st, call.args, call.grants, 0);
    }
  }

  /** Over a whole run: wherever the call for a full batch is made, and allowed, it pays every claim of
      the batch, in order and in full; and however the run goes on, it never pays again. */
  lemma FullBatchIsPaidOnce(s: System, req: Scheduler.Request, proof: Bytes, balances: Balances,
                            before: seq<Call>, call: Call, after: seq<Call>, again: Call)
    requires Schedulable(s, req) && ProofOf(s, req, proof)
    requires |req.claims| == Pow2(s.depth) <= s.cfg.maxNumClaims as int
    requires call.DistributeGrants? && call.args == CallOf(s, req, proof)
    requires SenderAllowed(s.cfg.prover, call.sender) && call.rootIsValid(ToUint(req.root)) && s.cfg.verifier(proof)
    requires AllPayable(s.cfg, Run(s.cfg, balances, before), call.args, call.grants, 0)
    requires again.DistributeGrants? && again.args == call.args
    ensures var paid := Run(s.cfg, balances, before + [call]);
            && |paid.payments| == |Run(s.cfg, balances, before).payments| + |req.claims|
            && Run(s.cfg, balances, before).payments <= paid.payments
            && var made := paid.payments[|Run(s.cfg, balances, before).payments|..];
            && PaysBatch(made, req.root, ClaimsOf(req.claims), call.grants)
            && forall x: Address :: x != s.cfg.self ==>
                 BalanceOf(paid.balances, x) == BalanceOf(Run(s.cfg, balances, before).balances, x) + PaidTo(x, made)
    ensures var later := Run(s.cfg, balances, before + [call] + after);
            Step(s.cfg, later, again) == later
  {
    hide Schedulable, ProofOf, CallOf, PayFrom, AllPayable, PaysBatch, OutputPreimage, ProvenOutputHash;
    var st, a := Run(s.cfg, balances, before), call.args;
    FullHashPasses(s, req, proof);
    PaidIffAllPayable(s.cfg, st, a, call.grants, 0);
    assert (before + [call])[..|before|] == before;
    PaidBatch(s.cfg, st, a, call.grants, 0);
    DueIsBatch(s, req, proof, call.grants);
    assert Run(s.cfg, balances, before + [call]).payments[|st.payments|..] == DueFrom(a, call.grants, 0);
    forall x: Address | x != s.cfg.self
      ensures BalanceOf(Run(s.cfg, balances, before + [call]).balances, x)
           == BalanceOf(st.balances, x) + PaidTo(x, DueFrom(a, call.grants, 0))
    {
      PaidBatchBalance(s.cfg, st, a, call.grants, 0, x);
    }
    SchedulableFits(s, req);
    var later := Run(s.cfg, balances, before + [call] + after);
    NullifiersGrow(s.cfg, balances, before + [call], after);
    assert a.nullifierHashes[0] in a.nullifierHashes[0..];
    UsedNullifierBlocks(s.cfg, later, a, again.grants);
  }

  lemma UsedNullifierBlocks(cfg: Config, st: State, a: Args, grants: GrantView)
    requires a.SameLengths() && a.numClaims > 0 && a.nullifierHashes[0] in st.nullifierHashes
    ensures PayFrom(cfg, st, a, grants, 0).Err?
  {
  }

  // ---------- the assumptions of safety, met by verifiers that reduce their words ----------

  /** The system whose verifier accepts every proof whose words stand for this output hash. */
  ghost function HonestSystem(s: System, outputHash: Word, t: Tree): System {
    s.(cfg := s.cfg.(verifier := proof => |proof| >= MINIMUM_SNARK_LENGTH
                                          && StandFor(PublicWord(proof, 12), PublicWord(proof, 13), outputHash)),
       extract := _ => t)
  }

  /** Twelve accumulator words, then the output hash. */
  function HonestProof(outputHash: Word, accumulator: Bytes): Bytes {
    accumulator + WordBytes([outputHash.hi as Uint256, outputHash.lo as Uint256])
  }

  lemma HonestProofStandsFor(outputHash: Word, accumulator: Bytes)
    requires |accumulator| == OUTPUT_HASH_HI_OFFSET
    ensures var proof := HonestProof(outputHash, accumulator);
            && |proof| >= MINIMUM_SNARK_LENGTH
            && StandFor(PublicWord(proof, 12), PublicWord(proof, 13), outputHash)
            && Canonical(PublicWord(proof, 12)) && Canonical(PublicWord(proof, 13))
  {
    hide WordBytes, PublicWord;
    var proof, words := HonestProof(outputHash, accumulator), [outputHash.hi as Uint256, outputHash.lo as Uint256];
    assert proof[32 * 12..32 * 12 + 32 * |words|] == WordBytes(words);
    EncodedWordIsRead(proof, 12, words, 0);
    EncodedWordIsRead(proof, 12, words, 1);
  }

  /** For every schedulable request, full or partial, a verifier that takes its words modulo the field's
      order meets what safety assumes and accepts the request's proof. */
  lemma HonestVerifierIsSound(s: System, req: Scheduler.Request, accumulator: Bytes)
    requires Schedulable(s, req) && |accumulator| == OUTPUT_HASH_HI_OFFSET
    ensures var t := RootTree(Scheduler.Build(s.vk, req));
            && t.Some? && t.value.Node? && Shape(t.value, s.depth, s.initialDepth)
            && var outputHash := s.cfg.keccak(WordBytes(OutputWords(s, t.value)));
            && var h, proof := HonestSystem(s, outputHash, t.value), HonestProof(outputHash, accumulator);
            && VerifierSound(h) && Reduces(h.cfg.verifier, 14) && Schedulable(h, req)
            && h.cfg.verifier(proof) && ProofOf(h, req, proof)
  {
    hide CircuitsV1.TreeInstances, CircuitsV2.HasShared, ValidBatch, Scheduler.Build, RootTree, Canonical, PublicWord,
      VkHash, HonestProof, WordBytes, StandFor;
    SchedulerComplete(s.Crypto(), s.vk, req);
    var t := RootTree(Scheduler.Build(s.vk, req)).value;
    var outputHash := s.cfg.keccak(WordBytes(OutputWords(s, t)));
    HonestProofStandsFor(outputHash, accumulator);
    StandingForReduces(outputHash);
    assert OutputWords(HonestSystem(s, outputHash, t), t) == OutputWords(s, t);
  }

  lemma StandingForReduces(outputHash: Word)
    ensures Reduces(proof => |proof| >= MINIMUM_SNARK_LENGTH
                             && StandFor(PublicWord(proof, 12), PublicWord(proof, 13), outputHash), 14)
  {
    hide PublicWord;
    forall proof, proof' | Congruent(proof, proof', 14)
      ensures StandFor(PublicWord(proof, 12), PublicWord(proof, 13), outputHash)
           == StandFor(PublicWord(proof', 12), PublicWord(proof', 13), outputHash)
    {
      assert Residue(PublicWord(proof, 12)) == Residue(PublicWord(proof', 12));
      assert Residue(PublicWord(proof, 13)) == Residue(PublicWord(proof', 13));
    }
  }
}
