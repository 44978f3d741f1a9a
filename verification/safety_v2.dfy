/** End-to-end safety of V2: over every run of the contract, only Groth16-verified claims of
    aggregated batches are paid, each nullifier once. */
module SafetyV2 {
  import opened Words
  import opened Field
  import opened Merkle
  import opened Claims
  import opened Token
  import opened PublicWords
  import opened ContractV2
  import CircuitsV2

  /** The deployed system: the contract and the verifying key it was deployed for, the Groth16 check,
      the depths of the aggregation tree and the knowledge extractor, which yields the tree behind a
      proof the verifier accepts. */
  datatype System = System(cfg: Config, vk: seq<F>, groth16: (seq<F>, seq<F>, seq<F>) -> bool,
                           depth: nat, initialDepth: nat, extract: Bytes -> Tree) {
    function Crypto(): Crypto {
      Claims.Crypto(cfg.keccak, groth16)
    }

    /** The claims behind a proof, with their own Groth16 proofs. */
    function InputsOf(proof: Bytes): seq<ClaimInput> {
      Inputs(extract(proof), depth)
    }

    function BatchOf(proof: Bytes): seq<Claim> {
      ClaimsOf(InputsOf(proof))
    }

    /** The contract's key hash is the hash of the verifying key. */
    predicate KeyDeployed() {
      VkHash(cfg.keccak, vk) == cfg.vkeyHash
    }
  }

  /** Words 12 to 17, taken modulo the field's order as the verifiers do, are these six values. */
  predicate Shows(proof: Bytes, outputs: seq<F>)
    requires |outputs| == 6
  {
    && |proof| >= MINIMUM_PROOF_LENGTH
    && forall j :: 12 <= j < 18 ==> Residue(PublicWord(proof, j)) == outputs[j - 12]
  }

  /** The tree's root circuit is satisfied and its outputs are the proof's words, modulo the order; the
      EVM rounds pass them through. */
  ghost predicate Attests(s: System, t: Tree, proof: Bytes) {
    && t.Node?
    && CircuitsV2.Accepted(s.Crypto(), t, s.depth, s.initialDepth)
    && Shows(proof, CircuitsV2.RootOutputs(CircuitsV2.TreeInstances(s.Crypto(), t, s.depth, s.initialDepth), t.numProofs))
  }

  /** The verifier contract accepts only outputs of accepted aggregation trees. */
  ghost predicate VerifierSound(s: System) {
    forall proof: Bytes :: |proof| >= MINIMUM_PROOF_LENGTH && s.cfg.verifier(proof) ==>
      Attests(s, s.extract(proof), proof)
  }

  function HashedByClaim(h: Hash, a: ClaimArgs): set<Bytes> {
    var n := |a.sisterNodes|;
    if n <= 32 then PathPreimages(h, ClaimPreimage(a), a.sisterNodes, DirectionBits(a.isLeftBytes, n), n) else {}
  }

  /** The byte strings hashed on behalf of one transaction: a claim's path, or the tree and the
      verifying keys of the batch behind an accepted proof. */
  function Hashed(s: System, call: Call): set<Bytes> {
    match call
    case ValidateClaimsRoot(_, proof, _) =>
      if s.cfg.verifier(proof)
      then TreePreimages(s.cfg.keccak, s.depth, Padded(s.BatchOf(proof), s.depth), 0)
           + KeyStrings(Keys(s.extract(proof)))
      else {}
    case Claim(a, _) => HashedByClaim(s.cfg.keccak, a)
    case OthersTransfer(_, _, _) => {}
  }

  function AllHashed(s: System, calls: seq<Call>): set<Bytes> {
    if calls == [] then {KeyString(s.vk)} else AllHashed(s, calls[..|calls| - 1]) + Hashed(s, calls[|calls| - 1])
  }

  // ---------- what the contract reads ----------

  function ProvenNumClaims(proof: Bytes): nat
    requires |proof| >= MINIMUM_PROOF_LENGTH
  {
    Load(proof, NUM_CLAIMS_OFFSET).ToUint() as int
  }

  lemma ContractReads(proof: Bytes)
    requires |proof| >= MINIMUM_PROOF_LENGTH
    ensures ProvenVkeyHash(proof) == Reading(PublicWord(proof, 12), PublicWord(proof, 13))
    ensures ProvenRoot(proof) == PublicWord(proof, 14)
    ensures ProvenNumClaims(proof) == PublicWord(proof, 15) as int
    ensures ProvenClaimsRoot(proof) == Reading(PublicWord(proof, 16), PublicWord(proof, 17))
  {
    hide Load, FromUint, Word.Or;
    LoadIsPublicWord(proof, 12);
    LoadIsPublicWord(proof, 13);
    LoadIsPublicWord(proof, 16);
    LoadIsPublicWord(proof, 17);
  }

  /** Exactly when a commit takes effect, and what it changes, word by word: an allowed sender, eighteen
      words, the contract's key hash in words 12 and 13, a known root in word 14, at most 2^logMaxNumClaims
      claims in word 15, and the verifier's consent; it then makes valid the root read from words 16
      and 17. */
  lemma CommitTakesEffectIff(cfg: Config, st: State, sender: Address, proof: Bytes, rootIsValid: Uint256 -> bool)
    requires cfg.logMaxNumClaims <= 32
    ensures Step(cfg, st, ValidateClaimsRoot(sender, proof, rootIsValid)) ==
      if && (cfg.prover == 0 || sender == cfg.prover)
         && |proof| >= 18 * 32
         && Reading(PublicWord(proof, 12), PublicWord(proof, 13)) == cfg.vkeyHash
         && rootIsValid(PublicWord(proof, 14))
         && PublicWord(proof, 15) as int <= Pow2(cfg.logMaxNumClaims)
         && cfg.verifier(proof)
      then st.(validClaimsRoots := st.validClaimsRoots
                 + {(PublicWord(proof, 14), Reading(PublicWord(proof, 16), PublicWord(proof, 17)))})
      else st
  {
    hide Reading, PublicWord, ProvenVkeyHash, ProvenRoot, ProvenClaimsRoot, Pow2;
    if |proof| >= MINIMUM_PROOF_LENGTH {
      ContractReads(proof);
      assert Load(proof, NUM_CLAIMS_OFFSET).ToUint() as int == ProvenNumClaims(proof);
    }
  }

  /** From `st` to `st'` exactly this payment was made: its nullifier is used, it is logged, and its amount
      went from the contract to its receiver and nowhere else. */
  ghost predicate MakesPayment(self: Address, st: State, st': State, p: Payment) {
    && st'.validClaimsRoots == st.validClaimsRoots
    && st'.nullifierHashes == st.nullifierHashes + {p.nullifierHash}
    && st'.payments == st.payments + [p]
    && forall x: Address :: BalanceOf(st'.balances, x)
         == BalanceOf(st.balances, x) + (if x == p.receiver then p.amount else 0) - (if x == self then p.amount else 0)
  }

  /** Exactly when a claim takes effect, and what it changes. */
  lemma ClaimTakesEffectIff(cfg: Config, st: State, a: ClaimArgs, grants: GrantView)
    requires cfg.logMaxNumClaims <= 32
    ensures var st' := Step(cfg, st, Call.Claim(a, grants));
      if && a.nullifierHash !in st.nullifierHashes && a.receiver != 0 && grants.isValid(a.grantId)
         && |a.sisterNodes| == cfg.logMaxNumClaims
         && (a.root, ClaimedRoot(cfg.keccak, a)) in st.validClaimsRoots
         && grants.amount(a.grantId) <= BalanceOf(st.balances, cfg.self)
      then MakesPayment(cfg.self, st, st',
                        Payment(a.grantId, a.root, a.receiver, a.nullifierHash, grants.amount(a.grantId)))
      else st' == st
  {
    hide ClaimedRoot, Transferred, BalanceOf;
    if ClaimCheck(cfg, st, a, grants).Ok? {
      forall x: Address
        ensures BalanceOf(Paid(cfg, st, a, grants).balances, x) == BalanceOf(st.balances, x)
          + (if x == a.receiver then grants.amount(a.grantId) else 0) - (if x == cfg.self then grants.amount(a.grantId) else 0)
      {
        BalanceAfterTransfer(st.balances, cfg.self, a.receiver, grants.amount(a.grantId), x);
      }
    }
  }

  /** The public words of an attested proof stand for the tree's key hash, root, number of claims and
      claims root. */
  lemma WordsStandFor(s: System, t: Tree, proof: Bytes)
    requires Attests(s, t, proof)
    ensures var i := CircuitsV2.TreeInstances(s.Crypto(), t, s.depth, s.initialDepth);
            && CircuitsV2.HalvesFit(i)
            && StandFor(PublicWord(proof, 12), PublicWord(proof, 13), VkHash(s.cfg.keccak, KeyOf(t)))
            && Residue(PublicWord(proof, 14)) == i[4]
            && Residue(PublicWord(proof, 15)) as int == |Batch(t, s.depth)| >= 1
            && StandFor(PublicWord(proof, 16), PublicWord(proof, 17), CircuitsV2.ClaimRootOf(i))
  {
    hide CircuitsV2.Accepted, CircuitsV2.TreeInstances, ClaimsRoot, PublicWord, VkHash, KeyOf, Keys, VerifiesUnder,
      Residue;
    var i := CircuitsV2.TreeInstances(s.Crypto(), t, s.depth, s.initialDepth);
    CircuitsV2.TreeSound(s.Crypto(), t, s.depth, s.initialDepth);
    CircuitsV2.RootCountsBatch(s.Crypto(), t, s.depth, s.initialDepth);
    var outputs := CircuitsV2.RootOutputs(i, t.numProofs);
    assert Residue(PublicWord(proof, 12)) == outputs[0] == i[2];
    assert Residue(PublicWord(proof, 13)) == outputs[1] == i[3];
    assert Residue(PublicWord(proof, 14)) == outputs[2] == i[4];
    assert Residue(PublicWord(proof, 15)) == outputs[3] == t.numProofs;
    assert Residue(PublicWord(proof, 16)) == outputs[4] == i[5];
    assert Residue(PublicWord(proof, 17)) == outputs[5] == i[6];
  }

  /** Each value the contract reads off an attested proof is the tree's exactly when its words are below
      the field's order. */
  lemma ReadingsAreExactIffCanonical(s: System, t: Tree, proof: Bytes)
    requires Attests(s, t, proof)
    ensures ProvenVkeyHash(proof) == VkHash(s.cfg.keccak, KeyOf(t))
       <==> Canonical(PublicWord(proof, 12)) && Canonical(PublicWord(proof, 13))
    ensures ProvenRoot(proof) == ToUint(CircuitsV2.TreeInstances(s.Crypto(), t, s.depth, s.initialDepth)[4])
       <==> Canonical(PublicWord(proof, 14))
    ensures ProvenNumClaims(proof) == |Batch(t, s.depth)| <==> Canonical(PublicWord(proof, 15))
    ensures ProvenClaimsRoot(proof) == ClaimsRoot(s.cfg.keccak, Batch(t, s.depth), s.depth)
       <==> Canonical(PublicWord(proof, 16)) && Canonical(PublicWord(proof, 17))
  {
    hide CircuitsV2.Accepted, CircuitsV2.TreeInstances, AllValid, ClaimsRoot, PublicWord, VkHash, KeyOf, Keys, StandFor,
      ProvenVkeyHash, ProvenRoot, ProvenNumClaims, ProvenClaimsRoot, Reading, Residue, Canonical;
    ContractReads(proof);
    WordsStandFor(s, t, proof);
    CircuitsV2.TreeSound(s.Crypto(), t, s.depth, s.initialDepth);
    var i := CircuitsV2.TreeInstances(s.Crypto(), t, s.depth, s.initialDepth);
    ReadingIsExactIffCanonical(PublicWord(proof, 12), PublicWord(proof, 13), VkHash(s.cfg.keccak, KeyOf(t)));
    CanonicalIsResidue(PublicWord(proof, 14));
    CanonicalIsResidue(PublicWord(proof, 15));
    ReadingIsExactIffCanonical(PublicWord(proof, 16), PublicWord(proof, 17), CircuitsV2.ClaimRootOf(i));
  }

  /** A number of claims that is not canonical exceeds every possible maximum. */
  lemma ShiftedCountIsRefused(cfg: Config, sender: Address, proof: Bytes, rootIsValid: Uint256 -> bool)
    requires cfg.logMaxNumClaims <= 32 && |proof| >= MINIMUM_PROOF_LENGTH
    requires !Canonical(PublicWord(proof, 15))
    ensures ValidateCheck(cfg, sender, proof, rootIsValid).Err?
  {
    hide Load, ProvenVkeyHash, ProvenRoot, ProvenClaimsRoot;
    Pow2Monotone(cfg.logMaxNumClaims, 64);
    PowerValues();
  }

  // ---------- what a committed root stands for ----------

  /** `claimsRoot` is the Merkle root of a batch of claims, each valid under the contract's verifying
      key and the World ID root. */
  ghost predicate BatchProven(s: System, root: Uint256, claimsRoot: Word, inputs: seq<ClaimInput>) {
    && root as int < P && ValidClaims(s, root, inputs)
    && claimsRoot == ClaimsRoot(s.cfg.keccak, ClaimsOf(inputs), s.depth)
  }

  /** At most 2^depth claims, each with its own proof under the contract's verifying key and this root. */
  ghost predicate ValidClaims(s: System, root: Uint256, inputs: seq<ClaimInput>) {
    && AllVerify(s.Crypto(), s.vk, Residue(root), inputs)
    && (forall i :: 0 <= i < |inputs| ==> inputs[i].claim.receiver as int < TWO_160)
    && 1 <= |inputs| <= Pow2(s.depth)
  }

  /** What every committed proof shows: its words stand for a batch of valid claims, and it is a proof of
      exactly that if the root's and the claims root's words are canonical. */
  ghost predicate BatchRead(s: System, proof: Bytes, inputs: seq<ClaimInput>)
    requires |proof| >= MINIMUM_PROOF_LENGTH
  {
    && ValidClaims(s, ProvenRoot(proof), inputs)
    && ProvenNumClaims(proof) == |inputs|
    && StandFor(PublicWord(proof, 16), PublicWord(proof, 17), ClaimsRoot(s.cfg.keccak, ClaimsOf(inputs), s.depth))
  }

  /** The words a committed root is read from. */
  predicate RootWordsCanonical(proof: Bytes)
    requires |proof| >= MINIMUM_PROOF_LENGTH
  {
    Canonical(PublicWord(proof, 14)) && Canonical(PublicWord(proof, 16)) && Canonical(PublicWord(proof, 17))
  }

  lemma ReadIsProvenIffCanonical(s: System, proof: Bytes, inputs: seq<ClaimInput>)
    requires |proof| >= MINIMUM_PROOF_LENGTH && BatchRead(s, proof, inputs)
    ensures BatchProven(s, ProvenRoot(proof), ProvenClaimsRoot(proof), inputs) <==> RootWordsCanonical(proof)
  {
    hide PublicWord, ProvenRoot, ProvenClaimsRoot, StandFor, Reading, ClaimsRoot, ValidClaims;
    ContractReads(proof);
    ReadingIsExactIffCanonical(PublicWord(proof, 16), PublicWord(proof, 17),
                               ClaimsRoot(s.cfg.keccak, ClaimsOf(inputs), s.depth));
  }

  /** Under the contract's key hash, an attested proof with a possible number of claims shows a batch, and
      every leaf of its tree used the contract's key. */
  lemma AttestedBatchIsRead(s: System, t: Tree, proof: Bytes, hashed: set<Bytes>)
    requires Attests(s, t, proof) && s.KeyDeployed() && ProvenVkeyHash(proof) == s.cfg.vkeyHash
    requires Canonical(PublicWord(proof, 15))
    requires NoAliasing(s.cfg.keccak, hashed) && KeyStrings(Keys(t)) + {KeyString(s.vk)} <= hashed
    ensures Canonical(PublicWord(proof, 12)) && Canonical(PublicWord(proof, 13))
    ensures forall vk :: vk in Keys(t) ==> vk == s.vk
    ensures BatchRead(s, proof, Inputs(t, s.depth))
  {
    hide CircuitsV2.Accepted, CircuitsV2.TreeInstances, ClaimsRoot, PublicWord, KeyString, KeyOf, Keys, NoAliasing,
      NoCollision, StandFor, ProvenVkeyHash, ProvenRoot, ProvenNumClaims, ProvenClaimsRoot, Reading, Residue, Canonical,
      VerifiesUnder, AllVerify, Inputs;
    ContractReads(proof);
    WordsStandFor(s, t, proof);
    ReadingsAreExactIffCanonical(s, t, proof);
    ReadingOfHashed(s.cfg.keccak, hashed, KeyString(s.vk), KeyString(KeyOf(t)), PublicWord(proof, 12), PublicWord(proof, 13));
    CircuitsV2.TreeSound(s.Crypto(), t, s.depth, s.initialDepth);
    NoAliasingIsStronger(s.cfg.keccak, hashed);
    var i := CircuitsV2.TreeInstances(s.Crypto(), t, s.depth, s.initialDepth);
    assert CircuitsV2.VkHashOf(i) == VkHash(s.cfg.keccak, s.vk);
    ValidUnderDeployedKey(s.Crypto(), Keys(t), s.vk, i[4], Inputs(t, s.depth), hashed);
  }

  // ---------- a shifted claims root ----------

  /** A claims root read from a word that is not canonical is the root of no batch that was hashed. */
  lemma MisreadRootIsNoBatchs(s: System, t: Tree, proof: Bytes, batch: seq<Claim>, hashed: set<Bytes>)
    requires Attests(s, t, proof)
    requires !Canonical(PublicWord(proof, 16)) || !Canonical(PublicWord(proof, 17))
    requires NoAliasing(s.cfg.keccak, hashed)
    requires TreePreimages(s.cfg.keccak, s.depth, Padded(Batch(t, s.depth), s.depth), 0) <= hashed
    requires TreePreimages(s.cfg.keccak, s.depth, Padded(batch, s.depth), 0) <= hashed
    ensures ProvenClaimsRoot(proof) != ClaimsRoot(s.cfg.keccak, batch, s.depth)
  {
    hide CircuitsV2.Accepted, CircuitsV2.TreeInstances, PublicWord, NoAliasing, StandFor, Padded, TreePreimages,
      TopPreimage, SubRoot, HashAll, ProvenClaimsRoot, Reading, Canonical;
    var h, mine, other := s.cfg.keccak, Padded(Batch(t, s.depth), s.depth), Padded(batch, s.depth);
    ContractReads(proof);
    WordsStandFor(s, t, proof);
    CircuitsV2.TreeSound(s.Crypto(), t, s.depth, s.initialDepth);
    TopPreimageHashed(h, s.depth, mine, 0);
    TopPreimageHashed(h, s.depth, other, 0);
    if ProvenClaimsRoot(proof) == ClaimsRoot(h, batch, s.depth) {
      ReadingOfHashed(h, hashed, TopPreimage(h, s.depth, other, 0), TopPreimage(h, s.depth, mine, 0),
                      PublicWord(proof, 16), PublicWord(proof, 17));
      assert false;
    }
  }

  /** The commit whose word 16 is larger by the field's order. */
  function Shifted(commit: Call): Call
    requires commit.ValidateClaimsRoot? && |commit.proof| >= MINIMUM_PROOF_LENGTH
    requires Canonical(PublicWord(commit.proof, 16))
  {
    commit.(proof := WithWord(commit.proof, 16, (PublicWord(commit.proof, 16) as int + P) as Uint256))
  }

  /** With verifiers that reduce their words, not every committed root is proven: a commit that passes
      still passes when the order is added to word 16, and then the root it commits is not the root of
      the batch behind it. */
  lemma ShiftedCommitIsAccepted(s: System, commit: Call)
    requires VerifierSound(s) && Reduces(s.cfg.verifier, 18) && commit.ValidateClaimsRoot?
    requires ValidateCheck(s.cfg, commit.sender, commit.proof, commit.rootIsValid).Ok?
    requires Canonical(PublicWord(commit.proof, 16))
    ensures var c := Shifted(commit);
            && ValidateCheck(s.cfg, c.sender, c.proof, c.rootIsValid).Ok?
            && Attests(s, s.extract(c.proof), c.proof)
            && !Canonical(PublicWord(c.proof, 16))
            && !BatchProven(s, ProvenRoot(c.proof), ProvenClaimsRoot(c.proof), s.InputsOf(c.proof))
  {
    hide Attests, PublicWord, ProvenVkeyHash, ProvenRoot, ProvenClaimsRoot, ClaimsRoot, WithWord, Reading, ValidClaims;
    var c, w := Shifted(commit), (PublicWord(commit.proof, 16) as int + P) as Uint256;
    ShiftedIsCongruent(commit.proof, 18, 16);
    WithWordReads(commit.proof, 16, w, 12);
    WithWordReads(commit.proof, 16, w, 13);
    WithWordReads(commit.proof, 16, w, 14);
    WithWordReads(commit.proof, 16, w, 15);
    WithWordReads(commit.proof, 16, w, 16);
    ContractReads(commit.proof);
    ContractReads(c.proof);
    assert ProvenNumClaims(c.proof) == Load(c.proof, NUM_CLAIMS_OFFSET).ToUint() as int;
    assert ProvenNumClaims(commit.proof) == Load(commit.proof, NUM_CLAIMS_OFFSET).ToUint() as int;
    ReadingsAreExactIffCanonical(s, s.extract(c.proof), c.proof);
  }

  // ---------- one claim ----------

  lemma ClaimBits(isLeftBytes: Word, n: nat)
    requires n <= 32
    ensures var i := Index(DirectionBits(isLeftBytes, n), n);
            forall j :: 0 <= j < n ==> (NthBit(i, j) == 1 <==> isLeftBytes.ToBytes()[j] != 0)
  {
    hide Index, Word.ToBytes;
    var bits := DirectionBits(isLeftBytes, n);
    forall j | 0 <= j < n
      ensures NthBit(Index(bits, n), j) == 1 <==> isLeftBytes.ToBytes()[j] != 0
    {
      IndexBit(bits, n, j);
    }
  }

  /** A claim whose path leads to a proven claims root is one of the batch's claims; in particular it
      is none of the padding leaves, whose receiver is zero. */
  lemma ClaimIsInBatch(s: System, a: ClaimArgs, batch: seq<Claim>, hashed: set<Bytes>) returns (i: nat)
    requires |a.sisterNodes| <= 32 && a.receiver != 0
    requires |batch| <= Pow2(s.depth)
    requires forall i :: 0 <= i < |batch| ==> batch[i].receiver as int < TWO_160
    requires NoCollision(s.cfg.keccak, hashed)
    requires TreePreimages(s.cfg.keccak, s.depth, Padded(batch, s.depth), 0) <= hashed
    requires HashedByClaim(s.cfg.keccak, a) <= hashed
    requires ClaimedRoot(s.cfg.keccak, a) == ClaimsRoot(s.cfg.keccak, batch, s.depth)
    ensures |a.sisterNodes| == s.depth
    ensures i == Index(DirectionBits(a.isLeftBytes, |a.sisterNodes|), |a.sisterNodes|)
    ensures forall j :: 0 <= j < |a.sisterNodes| ==> (NthBit(i, j) == 1 <==> a.isLeftBytes.ToBytes()[j] != 0)
    ensures i < |batch|
    ensures batch[i].grantId as int == a.grantId as int
    ensures batch[i].receiver as int == a.receiver as int
    ensures batch[i].nullifierHash as int == a.nullifierHash as int
  {
    hide TreePreimages, PathPreimages, Fold, SubRoot, HashAll, Packed, DirectionBits, NoCollision, BE;
    var n, leaves := |a.sisterNodes|, Padded(batch, s.depth);
    var bits := DirectionBits(a.isLeftBytes, n);
    PathSound(s.cfg.keccak, s.depth, leaves, 0, ClaimPreimage(a), a.sisterNodes, bits, n, hashed);
    i := Index(bits, n);
    ClaimBits(a.isLeftBytes, n);
    assert leaves[i] == ClaimPreimage(a);
    if i < |batch| {
      PackedInjective(batch[i].grantId as int, batch[i].receiver as int, batch[i].nullifierHash as int,
                      a.grantId as int, a.receiver as int, a.nullifierHash as int);
    } else {
      PackedZeros();
      PackedInjective(0, 0, 0, a.grantId as int, a.receiver as int, a.nullifierHash as int);
      assert false;
    }
  }

  // ---------- runs ----------

  /** Call `j`, from an allowed sender, committed this root with a proof the verifier accepted, of at most
      as many claims as the contract allows. */
  ghost predicate CommittedBy(s: System, calls: seq<Call>, j: nat, root: Uint256, claimsRoot: Word) {
    && j < |calls| && calls[j].ValidateClaimsRoot?
    && s.cfg.verifier(calls[j].proof) && |calls[j].proof| >= MINIMUM_PROOF_LENGTH
    && (s.cfg.prover == 0 || calls[j].sender == s.cfg.prover)
    && calls[j].rootIsValid(root)
    && PublicWord(calls[j].proof, 15) as int <= Pow2(s.cfg.logMaxNumClaims)
    && root == ProvenRoot(calls[j].proof) && claimsRoot == ProvenClaimsRoot(calls[j].proof)
    && BatchRead(s, calls[j].proof, s.InputsOf(calls[j].proof))
  }

  /** The payment is what the claim asks for, with a receiver, for a valid grant, of the grant's amount. */
  predicate Requested(a: ClaimArgs, grants: GrantView, p: Payment) {
    && p.grantId == a.grantId && p.root == a.root && p.receiver == a.receiver && p.nullifierHash == a.nullifierHash
    && p.receiver != 0 && grants.isValid(p.grantId) && p.amount == grants.amount(p.grantId)
  }

  /** Payment `p` was made by claim call `c` against the root committed by an earlier call `j`. It is
      for claim `i` of that commit's first `numClaims` claims, whose own Groth16 proof verifies under the
      contract's verifying key for the public inputs root, nullifier hash, receiver and grant id, and the claims root was read from canonical words. */
  ghost predicate PaidFrom(s: System, calls: seq<Call>, j: nat, c: nat, i: nat, p: Payment) {
    && j < c < |calls| && calls[j].ValidateClaimsRoot?
    && calls[c].Claim? && Requested(calls[c].args, calls[c].grants, p)
    && s.cfg.verifier(calls[j].proof) && |calls[j].proof| >= MINIMUM_PROOF_LENGTH
    && calls[j].rootIsValid(p.root) && p.root == PublicWord(calls[j].proof, 14)
    && Canonical(PublicWord(calls[j].proof, 16)) && Canonical(PublicWord(calls[j].proof, 17))
    && var inputs := s.InputsOf(calls[j].proof);
    && i < |inputs| == PublicWord(calls[j].proof, 15) as int <= Pow2(s.cfg.logMaxNumClaims)
    && p.grantId as int < P && p.receiver as int < P && p.nullifierHash as int < P
    && inputs[i].claim == Claims.Claim(p.grantId as int as F, p.receiver as int as F, p.nullifierHash as int as F)
    && s.groth16(s.vk, inputs[i].proof,
                 [Residue(p.root), p.nullifierHash as int as F, p.receiver as int as F, p.grantId as int as F])
  }

  ghost predicate Justified(s: System, calls: seq<Call>, p: Payment) {
    exists j: nat, c: nat, i: nat :: PaidFrom(s, calls, j, c, i, p)
  }

  ghost predicate Committed(s: System, calls: seq<Call>, root: Uint256, claimsRoot: Word) {
    exists j: nat :: CommittedBy(s, calls, j, root, claimsRoot)
  }

  /** The root was committed for a batch it is the root of. */
  ghost predicate Proven(s: System, calls: seq<Call>, root: Uint256, claimsRoot: Word) {
    exists j: nat :: CommittedBy(s, calls, j, root, claimsRoot)
                  && BatchProven(s, root, claimsRoot, s.InputsOf(calls[j].proof))
  }

  /** The root was read from a proof in which one of the root's words is not canonical. */
  ghost predicate Misread(s: System, calls: seq<Call>, root: Uint256, claimsRoot: Word) {
    exists j: nat :: CommittedBy(s, calls, j, root, claimsRoot) && !RootWordsCanonical(calls[j].proof)
  }

  ghost predicate Safe(s: System, calls: seq<Call>, st: State) {
    && (forall root, claimsRoot :: (root, claimsRoot) in st.validClaimsRoots ==> Committed(s, calls, root, claimsRoot))
    && (forall i :: 0 <= i < |st.payments| ==> Justified(s, calls, st.payments[i]))
    && OncePerNullifier(st.nullifierHashes, st.payments)
  }

  lemma SafeExtends(s: System, calls: seq<Call>, call: Call, st: State)
    requires Safe(s, calls, st)
    ensures Safe(s, calls + [call], st)
  {
    hide BatchRead, Verifies, OncePerNullifier, ProvenNumClaims, ProvenRoot, ProvenClaimsRoot;
    forall root, claimsRoot | (root, claimsRoot) in st.validClaimsRoots
      ensures Committed(s, calls + [call], root, claimsRoot)
    {
      var j: nat :| CommittedBy(s, calls, j, root, claimsRoot);
      assert CommittedBy(s, calls + [call], j, root, claimsRoot);
    }
    forall i | 0 <= i < |st.payments|
      ensures Justified(s, calls + [call], st.payments[i])
    {
      var j: nat, c: nat, k: nat :| PaidFrom(s, calls, j, c, k, st.payments[i]);
      assert PaidFrom(s, calls + [call], j, c, k, st.payments[i]);
    }
  }

  lemma {:induction false} HashedByRun(s: System, calls: seq<Call>, j: nat)
    requires j < |calls|
    ensures Hashed(s, calls[j]) <= AllHashed(s, calls)
  {
    hide Hashed;
    if j < |calls| - 1 {
      HashedByRun(s, calls[..|calls| - 1], j);
    }
  }

  lemma {:induction false} KeyIsHashed(s: System, calls: seq<Call>)
    ensures KeyString(s.vk) in AllHashed(s, calls)
  {
    hide Hashed, KeyString;
    if calls != [] {
      KeyIsHashed(s, calls[..|calls| - 1]);
    }
  }

  lemma CommitIsSafe(s: System, calls: seq<Call>, st: State, call: Call)
    requires s.cfg.logMaxNumClaims <= 32 && VerifierSound(s) && s.KeyDeployed()
    requires NoAliasing(s.cfg.keccak, AllHashed(s, calls + [call]))
    requires Safe(s, calls, st) && call.ValidateClaimsRoot?
    ensures Safe(s, calls + [call], Step(s.cfg, st, call))
  {
    hide VerifierSound, OncePerNullifier, ProvenVkeyHash, ProvenRoot, ProvenClaimsRoot, Justified, Committed, NoAliasing,
      AllHashed, ValidateCheck;
    SafeExtends(s, calls, call, st);
    if ValidateCheck(s.cfg, call.sender, call.proof, call.rootIsValid).Ok? {
      CommitIsRead(s, calls, call);
    }
  }

  lemma PassingCountFits(cfg: Config, call: Call)
    requires call.ValidateClaimsRoot? && ValidateCheck(cfg, call.sender, call.proof, call.rootIsValid).Ok?
    ensures |call.proof| >= MINIMUM_PROOF_LENGTH
    ensures PublicWord(call.proof, 15) as int <= Pow2(cfg.logMaxNumClaims)
  {
    hide Load, ProvenVkeyHash, ProvenRoot, ProvenClaimsRoot, Pow2;
  }

  lemma CommitIsRead(s: System, calls: seq<Call>, call: Call)
    requires s.cfg.logMaxNumClaims <= 32 && VerifierSound(s) && s.KeyDeployed() && call.ValidateClaimsRoot?
    requires NoAliasing(s.cfg.keccak, AllHashed(s, calls + [call]))
    requires ValidateCheck(s.cfg, call.sender, call.proof, call.rootIsValid).Ok?
    ensures Committed(s, calls + [call], ProvenRoot(call.proof), ProvenClaimsRoot(call.proof))
  {
    hide BatchRead, Attests, ProvenVkeyHash, ProvenRoot, ProvenClaimsRoot, ProvenNumClaims, NoAliasing, AllHashed,
      TreePreimages, KeyString, Canonical, PublicWord;
    var all := calls + [call];
    KeyIsHashed(s, all);
    HashedByRun(s, all, |calls|);
    if !Canonical(PublicWord(call.proof, 15)) {
      ShiftedCountIsRefused(s.cfg, call.sender, call.proof, call.rootIsValid);
      assert false;
    }
    AttestedBatchIsRead(s, s.extract(call.proof), call.proof, AllHashed(s, all));
    PassingCountFits(s.cfg, call);
    assert CommittedBy(s, all, |calls|, ProvenRoot(call.proof), ProvenClaimsRoot(call.proof));
  }

  /** A path that leads to a committed root was read from canonical words, and leads to the batch's
      root. */
  lemma ClaimedRootIsProven(s: System, proof: Bytes, a: ClaimArgs, hashed: set<Bytes>)
    requires |a.sisterNodes| <= 32 && |proof| >= MINIMUM_PROOF_LENGTH && BatchRead(s, proof, s.InputsOf(proof))
    requires ClaimedRoot(s.cfg.keccak, a) == ProvenClaimsRoot(proof)
    requires NoAliasing(s.cfg.keccak, hashed)
    requires TreePreimages(s.cfg.keccak, s.depth, Padded(s.BatchOf(proof), s.depth), 0) <= hashed
    requires HashedByClaim(s.cfg.keccak, a) <= hashed
    ensures Canonical(PublicWord(proof, 16)) && Canonical(PublicWord(proof, 17))
    ensures ClaimedRoot(s.cfg.keccak, a) == ClaimsRoot(s.cfg.keccak, s.BatchOf(proof), s.depth)
  {
    hide PublicWord, NoAliasing, StandFor, Padded, TreePreimages, TopPreimage, PathPreimages, LastPreimage, SubRoot,
      Fold, HashAll, ProvenRoot, ProvenNumClaims, ProvenClaimsRoot, Reading, Canonical, ValidClaims, ClaimPreimage,
      DirectionBits;
    var h, n, preimages := s.cfg.keccak, |a.sisterNodes|, Padded(s.BatchOf(proof), s.depth);
    var bits := DirectionBits(a.isLeftBytes, n);
    ContractReads(proof);
    TopPreimageHashed(h, s.depth, preimages, 0);
    LastPreimageHashed(h, ClaimPreimage(a), a.sisterNodes, bits, n);
    ReadingOfHashed(h, hashed, LastPreimage(h, ClaimPreimage(a), a.sisterNodes, bits, n),
                    TopPreimage(h, s.depth, preimages, 0), PublicWord(proof, 16), PublicWord(proof, 17));
  }

  /** A claim against a committed root is paid from the batch committed with it. */
  lemma ClaimIsPaidFrom(s: System, calls: seq<Call>, j: nat, c: nat, hashed: set<Bytes>)
    requires j < c < |calls| && calls[c].Claim?
    requires |calls[c].args.sisterNodes| <= 32 && calls[c].args.receiver != 0
    requires calls[c].grants.isValid(calls[c].args.grantId)
    requires CommittedBy(s, calls, j, calls[c].args.root, ClaimedRoot(s.cfg.keccak, calls[c].args))
    requires NoAliasing(s.cfg.keccak, hashed)
    requires Hashed(s, calls[j]) <= hashed && Hashed(s, calls[c]) <= hashed
    ensures Justified(s, calls, PaymentOf(calls[c].args, calls[c].grants))
  {
    hide Verifies, ClaimedRoot, ClaimsRoot, TreePreimages, PathPreimages, NoAliasing, NoCollision, Padded, Inputs,
      ProvenNumClaims, ProvenRoot, ProvenClaimsRoot, StandFor, Canonical, PublicWord, KeyString, HashedByClaim;
    var a, proof := calls[c].args, calls[j].proof;
    NoAliasingIsStronger(s.cfg.keccak, hashed);
    ClaimedRootIsProven(s, proof, a, hashed);
    var i := ClaimIsInBatch(s, a, s.BatchOf(proof), hashed);
    var input := s.InputsOf(proof)[i];
    assert Verifies(s.Crypto(), s.vk, input.proof, Residue(a.root), input.claim);
    VerifiesMeans(s.Crypto(), s.vk, input.proof, Residue(a.root),
                  input.claim.grantId, input.claim.receiver, input.claim.nullifierHash);
    ContractReads(proof);
    assert PaidFrom(s, calls, j, c, i, PaymentOf(a, calls[c].grants));
  }

  lemma ClaimIsSafe(s: System, calls: seq<Call>, st: State, call: Call)
    requires s.cfg.logMaxNumClaims <= 32
    requires NoAliasing(s.cfg.keccak, AllHashed(s, calls + [call]))
    requires Safe(s, calls, st) && call.Claim?
    ensures Safe(s, calls + [call], Step(s.cfg, st, call))
  {
    hide CommittedBy, PaidFrom, ClaimedRoot, OncePerNullifier, NoAliasing, AllHashed, HashedByClaim;
    SafeExtends(s, calls, call, st);
    var a, all := call.args, calls + [call];
    if ClaimCheck(s.cfg, st, a, call.grants).Ok? {
      OnceAfterPayment(st.nullifierHashes, st.payments, PaymentOf(a, call.grants));
      var root := ClaimedRoot(s.cfg.keccak, a);
      var j: nat :| CommittedBy(s, calls, j, a.root, root);
      CommittedExtends(s, calls, call, j, a.root, root);
      HashedByRun(s, all, j);
      HashedByRun(s, all, |calls|);
      ClaimIsPaidFrom(s, all, j, |calls|, AllHashed(s, all));
    }
  }

  lemma CommittedExtends(s: System, calls: seq<Call>, call: Call, j: nat, root: Uint256, claimsRoot: Word)
    requires CommittedBy(s, calls, j, root, claimsRoot)
    ensures j < |calls| && CommittedBy(s, calls + [call], j, root, claimsRoot)
  {
    hide BatchRead, ProvenRoot, ProvenClaimsRoot;
  }

  lemma {:induction false} RunKeepsSafe(s: System, balances: Balances, calls: seq<Call>)
    requires s.cfg.logMaxNumClaims <= 32
    requires VerifierSound(s) && s.KeyDeployed()
    requires NoAliasing(s.cfg.keccak, AllHashed(s, calls))
    ensures Safe(s, calls, Run(s.cfg, balances, calls))
  {
    hide VerifierSound, NoAliasing, Hashed, Safe, Step, System.KeyDeployed;
    if calls == [] {
      NothingIsSafe(s, balances);
    } else {
      var before, call := calls[..|calls| - 1], calls[|calls| - 1];
      assert calls == before + [call];
      NoAliasingShrinks(s.cfg.keccak, AllHashed(s, calls), AllHashed(s, before));
      RunKeepsSafe(s, balances, before);
      StepIsSafe(s, before, Run(s.cfg, balances, before), call);
    }
  }

  lemma NothingIsSafe(s: System, balances: Balances)
    ensures Safe(s, [], State({}, {}, balances, []))
  {
  }

  /** One transaction keeps safety. */
  lemma StepIsSafe(s: System, calls: seq<Call>, st: State, call: Call)
    requires s.cfg.logMaxNumClaims <= 32 && VerifierSound(s) && s.KeyDeployed()
    requires NoAliasing(s.cfg.keccak, AllHashed(s, calls + [call]))
    requires Safe(s, calls, st)
    ensures Safe(s, calls + [call], Step(s.cfg, st, call))
  {
    hide VerifierSound, NoAliasing, AllHashed, System.KeyDeployed, Committed, Justified, OncePerNullifier;
    match call
    case ValidateClaimsRoot(_, _, _) =>
      CommitIsSafe(s, calls, st, call);
    case Claim(_, _) =>
      ClaimIsSafe(s, calls, st, call);
    case OthersTransfer(_, _, _) =>
      SafeExtends(s, calls, call, st);
  }

  /** Safety over every run, in any order of calls, reverts included: every payment goes to a
      Groth16-valid claim of a batch committed for its World ID root, and no nullifier is paid twice.
      Committed roots stand for batches, and are proven or were read from words that are not canonical. */
  lemma RunIsSafe(s: System, balances: Balances, calls: seq<Call>)
    requires s.cfg.logMaxNumClaims <= 32
    requires VerifierSound(s) && s.KeyDeployed()
    requires NoAliasing(s.cfg.keccak, AllHashed(s, calls))
    ensures Safe(s, calls, Run(s.cfg, balances, calls))
    ensures forall root, claimsRoot :: (root, claimsRoot) in Run(s.cfg, balances, calls).validClaimsRoots ==>
      Proven(s, calls, root, claimsRoot) || Misread(s, calls, root, claimsRoot)
  {
    hide VerifierSound, NoAliasing, AllHashed, Run, Committed, Justified, System.KeyDeployed, Proven, Misread,
      OncePerNullifier;
    RunKeepsSafe(s, balances, calls);
    forall root, claimsRoot | (root, claimsRoot) in Run(s.cfg, balances, calls).validClaimsRoots
      ensures Proven(s, calls, root, claimsRoot) || Misread(s, calls, root, claimsRoot)
    {
      CommittedIsProvenOrMisread(s, calls, root, claimsRoot);
    }
  }

  /** So a run of one shifted commit ends with a valid claims root that is not proven. */
  lemma ShiftedRunIsNotProven(s: System, balances: Balances, commit: Call)
    requires s.cfg.logMaxNumClaims <= 32
    requires VerifierSound(s) && Reduces(s.cfg.verifier, 18) && commit.ValidateClaimsRoot?
    requires ValidateCheck(s.cfg, commit.sender, commit.proof, commit.rootIsValid).Ok?
    requires Canonical(PublicWord(commit.proof, 16))
    ensures var c := Shifted(commit);
            && |c.proof| >= MINIMUM_PROOF_LENGTH
            && var root, claimsRoot := ProvenRoot(c.proof), ProvenClaimsRoot(c.proof);
            && (root, claimsRoot) in Run(s.cfg, balances, [c]).validClaimsRoots
            && !Proven(s, [c], root, claimsRoot)
  {
    hide VerifierSound, Attests, Reduces, PublicWord, ProvenRoot, ProvenClaimsRoot, BatchProven, BatchRead;
    var c := Shifted(commit);
    ShiftedCommitIsAccepted(s, commit);
    assert [c][..|[c]| - 1] == [];
    assert Run(s.cfg, balances, [c]) == Step(s.cfg, Run(s.cfg, balances, []), c);
  }

  lemma CommittedIsProvenOrMisread(s: System, calls: seq<Call>, root: Uint256, claimsRoot: Word)
    requires Committed(s, calls, root, claimsRoot)
    ensures Proven(s, calls, root, claimsRoot) || Misread(s, calls, root, claimsRoot)
  {
    hide BatchRead, BatchProven, RootWordsCanonical, ProvenRoot, ProvenClaimsRoot;
    var j: nat :| CommittedBy(s, calls, j, root, claimsRoot);
    ReadIsProvenIffCanonical(s, calls[j].proof, s.InputsOf(calls[j].proof));
  }

  /** No run creates or destroys tokens, and a call adds at most one payment. Every account holds what it
      began with, the payments made to it and what others moved to it, less what it moved itself and, for
      the contract, all payments. */
  lemma {:induction false} RunConserves(cfg: Config, balances: Balances, calls: seq<Call>, x: Address)
    requires cfg.logMaxNumClaims <= 32
    ensures var st, moved := Run(cfg, balances, calls), OthersMoved(cfg, balances, calls);
            && Total(st.balances) == Total(balances)
            && |st.payments| <= |calls|
            && BalanceOf(st.balances, x) + MovedFrom(x, moved) + (if x == cfg.self then PaidOut(st.payments) else 0)
               == BalanceOf(balances, x) + MovedTo(x, moved) + PaidTo(x, st.payments)
  {
    hide ValidateCheck, ClaimCheck, Transferred, Paid, Total, BalanceOf, MovedTo, MovedFrom, PaidTo, PaidOut;
    NothingMoved(x);
    if calls != [] {
      var before, call := calls[..|calls| - 1], calls[|calls| - 1];
      RunConserves(cfg, balances, before, x);
      var st, moved := Run(cfg, balances, before), OthersMoved(cfg, balances, before);
      match call
      case ValidateClaimsRoot(_, _, _) =>
      case Claim(a, grants) =>
        if ClaimCheck(cfg, st, a, grants).Ok? {
          ClaimConserves(cfg, st, a, grants, x);
        }
      case OthersTransfer(from, to, amount) =>
        if from != cfg.self && amount <= BalanceOf(st.balances, from) {
          TransferConserves(st.balances, from, to, amount);
          BalanceAfterTransfer(st.balances, from, to, amount, x);
          MovedOneMore(x, moved, Transfer(from, to, amount));
        }
    }
  }

  lemma ClaimConserves(cfg: Config, st: State, a: ClaimArgs, grants: GrantView, x: Address)
    requires cfg.logMaxNumClaims <= 32 && ClaimCheck(cfg, st, a, grants).Ok?
    ensures CanTransfer(st.balances, cfg.self, grants.amount(a.grantId))
    ensures var st' := Paid(cfg, st, a, grants);
            && st'.validClaimsRoots == st.validClaimsRoots
            && Total(st'.balances) == Total(st.balances) && |st'.payments| == |st.payments| + 1
            && BalanceOf(st'.balances, x) + (if x == cfg.self then PaidOut(st'.payments) else 0) + PaidTo(x, st.payments)
               == BalanceOf(st.balances, x) + (if x == cfg.self then PaidOut(st.payments) else 0) + PaidTo(x, st'.payments)
  {
    hide ClaimedRoot, Transferred, Total, PaidTo, PaidOut, BalanceOf;
    var amount := grants.amount(a.grantId);
    TransferConserves(st.balances, cfg.self, a.receiver, amount);
    BalanceAfterTransfer(st.balances, cfg.self, a.receiver, amount, x);
    PaymentOneMore(x, st.payments, PaymentOf(a, grants));
  }
}
