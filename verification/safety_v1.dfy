/** End-to-end safety of V1: the output hash ties the call's arrays to the circuit's columns, so only
    full batches pass and every payment goes to a Groth16-verified row. */
module SafetyV1 {
  import opened Words
  import opened Field
  import opened Merkle
  import opened Join
  import opened Claims
  import opened Token
  import opened PublicWords
  import opened ContractV1
  import CircuitsV1

  /** The deployed system: the contract and the verifying key it was deployed for, and the knowledge
      extractor behind the verifier contract. */
  datatype System = System(cfg: Config, vk: seq<F>, groth16: (seq<F>, seq<F>, seq<F>) -> bool,
                           depth: nat, initialDepth: nat, extract: Bytes -> Tree) {
    function Crypto(): Crypto {
      Claims.Crypto(cfg.keccak, groth16)
    }

    /** The rows behind a proof, with their own Groth16 proofs. */
    function RowsOf(proof: Bytes): seq<ClaimInput> {
      CircuitsV1.RowInputs(extract(proof), depth)
    }

    /** The contract's key hash is the hash of the verifying key. */
    predicate KeyDeployed() {
      VkHash(cfg.keccak, vk) == cfg.vkeyHash
    }
  }

  /** The words the root circuit hashes. */
  function OutputWords(s: System, t: Tree): seq<Uint256>
    requires Shape(t, s.depth, s.initialDepth) && t.Node?
  {
    ToUints(CircuitsV1.RootOutput(CircuitsV1.TreeInstances(s.Crypto(), t, s.depth, s.initialDepth), t.numProofs))
  }

  /** The tree's root circuit is satisfied, and words 12 and 13 of the proof stand for its output hash,
      modulo the field's order as the verifiers take them. */
  ghost predicate Attests(s: System, t: Tree, proof: Bytes) {
    && |proof| >= MINIMUM_SNARK_LENGTH
    && t.Node?
    && CircuitsV1.Accepted(s.Crypto(), t, s.depth, s.initialDepth)
    && var hash := s.cfg.keccak(WordBytes(OutputWords(s, t)));
    && StandFor(PublicWord(proof, 12), PublicWord(proof, 13), hash)
  }

  ghost predicate VerifierSound(s: System) {
    forall proof: Bytes :: |proof| >= MINIMUM_SNARK_LENGTH && s.cfg.verifier(proof) ==>
      Attests(s, s.extract(proof), proof)
  }

  /** The strings hashed for one call: the contract's, the root circuit's and the leaves' keys. */
  function Hashed(s: System, a: Args): set<Bytes> {
    {OutputPreimage(a)} + KeyStrings(Keys(s.extract(a.proof))) +
    if s.extract(a.proof).Node? && Shape(s.extract(a.proof), s.depth, s.initialDepth)
    then {WordBytes(OutputWords(s, s.extract(a.proof)))}
    else {}
  }

  // ---------- the output hash ----------

  /** The words the contract hashes. */
  function ArgWords(a: Args): seq<Uint256> {
    [a.vkeyHash.hi as Uint256, a.vkeyHash.lo as Uint256] + [a.root, a.numClaims]
    + a.grantIds + AddressWords(a.receivers) + a.nullifierHashes
  }

  lemma OutputPreimageIsWords(a: Args)
    ensures OutputPreimage(a) == WordBytes(ArgWords(a))
    ensures ArgWords(a) == [a.vkeyHash.hi as Uint256, a.vkeyHash.lo as Uint256, a.root, a.numClaims]
                           + a.grantIds + AddressWords(a.receivers) + a.nullifierHashes
  {
    hide BE, WordBytes;
    var head := [a.vkeyHash.hi as Uint256, a.vkeyHash.lo as Uint256];
    HalvesAsWords(a.vkeyHash);
    WordBytesConcat(head, [a.root, a.numClaims]);
    WordBytesConcat(head + [a.root, a.numClaims], a.grantIds);
    WordBytesConcat(head + [a.root, a.numClaims] + a.grantIds, AddressWords(a.receivers));
    WordBytesConcat(head + [a.root, a.numClaims] + a.grantIds + AddressWords(a.receivers), a.nullifierHashes);
  }

  lemma HalvesAsWords(w: Word)
    ensures w.Shr128().ToBytes() + w.Low128().ToBytes() == WordBytes([w.hi as Uint256, w.lo as Uint256])
  {
    hide BE;
    UintBytes(w.hi as Uint256);
    UintBytes(w.lo as Uint256);
    assert FromUint(w.hi as Uint256) == w.Shr128() && FromUint(w.lo as Uint256) == w.Low128();
    assert [w.hi as Uint256, w.lo as Uint256][1..] == [w.lo as Uint256];
    assert [w.lo as Uint256][1..] == [];
  }

  /** The output hash the contract reads off an attested proof is the tree's exactly when both words are
      below the field's order. */
  lemma OutputHashIsExactIffCanonical(s: System, t: Tree, proof: Bytes)
    requires Attests(s, t, proof)
    ensures ProvenOutputHash(proof) == Reading(PublicWord(proof, 12), PublicWord(proof, 13))
    ensures ProvenOutputHash(proof) == s.cfg.keccak(WordBytes(OutputWords(s, t)))
       <==> Canonical(PublicWord(proof, 12)) && Canonical(PublicWord(proof, 13))
  {
    AttestedShape(s, t, proof);
    hide CircuitsV1.Accepted, OutputWords, WordBytes, Load, Shape, Word.Or, PublicWord, StandFor;
    LoadIsPublicWord(proof, 12);
    LoadIsPublicWord(proof, 13);
    ReadingIsExactIffCanonical(PublicWord(proof, 12), PublicWord(proof, 13), s.cfg.keccak(WordBytes(OutputWords(s, t))));
  }

  /** Only canonical words can pass the output-hash check, and only for the words the circuit hashed. */
  lemma HashCheckForcesWords(s: System, t: Tree, a: Args, hashed: set<Bytes>)
    requires Attests(s, t, a.proof) && NoAliasing(s.cfg.keccak, hashed)
    requires OutputPreimage(a) in hashed && WordBytes(OutputWords(s, t)) in hashed
    requires ProvenOutputHash(a.proof) == s.cfg.keccak(OutputPreimage(a))
    ensures OutputPreimage(a) == WordBytes(OutputWords(s, t))
    ensures Canonical(PublicWord(a.proof, 12)) && Canonical(PublicWord(a.proof, 13))
  {
    OutputHashIsExactIffCanonical(s, t, a.proof);
    hide CircuitsV1.Accepted, OutputWords, OutputPreimage, ProvenOutputHash, WordBytes, Shape, PublicWord, StandFor,
      Reading, NoAliasing, Canonical;
    ReadingOfHashed(s.cfg.keccak, hashed, OutputPreimage(a), WordBytes(OutputWords(s, t)),
                    PublicWord(a.proof, 12), PublicWord(a.proof, 13));
  }

  /** A comment in the contract expects the SNARK check to fail unless the words' upper bits are clean.
      Verifiers that reduce their words still accept after the order is added to either of them; it is the
      output-hash check that then refuses every call. */
  lemma ShiftedHashIsRefusedByHashOnly(s: System, a: Args, i: nat, sender: Address, rootIsValid: Uint256 -> bool,
                                       hashed: set<Bytes>)
    requires VerifierSound(s) && Reduces(s.cfg.verifier, 14) && (i == 12 || i == 13)
    requires |a.proof| >= MINIMUM_SNARK_LENGTH && s.cfg.verifier(a.proof) && Canonical(PublicWord(a.proof, i))
    requires var shifted := a.(proof := WithWord(a.proof, i, (PublicWord(a.proof, i) as int + P) as Uint256));
             NoAliasing(s.cfg.keccak, hashed) && Hashed(s, shifted) <= hashed
    ensures var shifted := a.(proof := WithWord(a.proof, i, (PublicWord(a.proof, i) as int + P) as Uint256));
            && s.cfg.verifier(shifted.proof)
            && ProvenOutputHash(shifted.proof) != s.cfg.keccak(OutputPreimage(shifted))
            && BatchCheck(s.cfg, sender, shifted, rootIsValid).Err?
  {
    hide OutputPreimage, ProvenOutputHash, OutputWords, WordBytes, PublicWord, NoAliasing, WithWord, StandFor,
      CircuitsV1.Accepted;
    var w := (PublicWord(a.proof, i) as int + P) as Uint256;
    var shifted := a.(proof := WithWord(a.proof, i, w));
    ShiftedIsCongruent(a.proof, 14, i);
    WithWordReads(a.proof, i, w, i);
    var t := s.extract(shifted.proof);
    assert Attests(s, t, shifted.proof);
    AttestedShape(s, t, shifted.proof);
    if ProvenOutputHash(shifted.proof) == s.cfg.keccak(OutputPreimage(shifted)) {
      HashCheckForcesWords(s, t, shifted, hashed);
      assert false;
    }
  }

  /** The call's arrays are the circuit's rows. */
  ghost predicate RowsMatch(a: Args, rows: seq<Claim>) {
    && a.SameLengths() && |rows| == a.numClaims as int
    && forall i :: 0 <= i < |rows| ==>
         && a.grantIds[i] == ToUint(rows[i].grantId)
         && a.receivers[i] as int == rows[i].receiver as int
         && a.nullifierHashes[i] == ToUint(rows[i].nullifierHash)
  }

  /** Same hashed words: the batch is full, and arrays, root and key agree with the circuit. */
  lemma WordsAgree(a: Args, shared: Shared, rows: seq<Claim>, numProofs: F)
    requires a.SameLengths()
    requires ArgWords(a) == ToUints(CircuitsV1.RootOutput(CircuitsV1.Instances(shared, rows), numProofs))
    ensures a.numClaims == ToUint(numProofs) && a.root == ToUint(shared.root)
    ensures a.vkeyHash.hi as int == shared.vkHashHi as int && a.vkeyHash.lo as int == shared.vkHashLo as int
    ensures RowsMatch(a, rows)
  {
    var instances := CircuitsV1.Instances(shared, rows);
    var output := CircuitsV1.RootOutput(instances, numProofs);
    var left, right := ArgWords(a), ToUints(output);
    var n := |rows|;
    assert |left| == 4 + 3 * |a.grantIds| && |right| == 4 + 3 * n;
    assert output[..4] == [shared.vkHashHi, shared.vkHashLo, shared.root, numProofs];
    assert left[0] == right[0] && left[1] == right[1] && left[2] == right[2] && left[3] == right[3];
    forall i | 0 <= i < n
      ensures a.grantIds[i] == ToUint(rows[i].grantId) && a.receivers[i] as int == rows[i].receiver as int
      ensures a.nullifierHashes[i] == ToUint(rows[i].nullifierHash)
    {
      RowAgrees(a, shared, rows, numProofs, i);
    }
  }

  lemma RowAgrees(a: Args, shared: Shared, rows: seq<Claim>, numProofs: F, i: nat)
    requires a.SameLengths() && i < |rows| == |a.grantIds|
    requires ArgWords(a) == ToUints(CircuitsV1.RootOutput(CircuitsV1.Instances(shared, rows), numProofs))
    ensures a.grantIds[i] == ToUint(rows[i].grantId) && a.receivers[i] as int == rows[i].receiver as int
    ensures a.nullifierHashes[i] == ToUint(rows[i].nullifierHash)
  {
    hide ArgWords, CircuitsV1.RootOutput, CircuitsV1.Instances, ToUints;
    OutputCells(shared, rows, numProofs, i);
    ArgCells(a, i);
  }

  lemma OutputCells(shared: Shared, rows: seq<Claim>, numProofs: F, i: nat)
    requires i < |rows|
    ensures var output := CircuitsV1.RootOutput(CircuitsV1.Instances(shared, rows), numProofs);
            var n := |rows|;
            && output[4 + i] == rows[i].grantId
            && output[4 + n + i] == rows[i].receiver
            && output[4 + 2 * n + i] == rows[i].nullifierHash
  {
    var n, columns := |rows|, CircuitsV1.Columns(rows);
    assert columns[i] == rows[i].grantId && columns[n + i] == rows[i].receiver
        && columns[2 * n + i] == rows[i].nullifierHash;
    CircuitsV1.RootOutputIsColumns(shared, rows, numProofs);
  }

  lemma ArgCells(a: Args, i: nat)
    requires a.SameLengths() && i < |a.grantIds|
    ensures var w, n := ArgWords(a), |a.grantIds|;
            && w[4 + i] == a.grantIds[i]
            && w[4 + n + i] as int == a.receivers[i] as int
            && w[4 + 2 * n + i] == a.nullifierHashes[i]
  {
  }

  /** Passing the output-hash check forces a full batch whose arrays are the circuit's columns, and every
      leaf of the tree used the contract's verifying key: each row's own proof verifies under it and the
      call's World ID root. */
  lemma HashCheckForcesFullBatch(s: System, t: Tree, a: Args, hashed: set<Bytes>)
    requires Attests(s, t, a.proof) && a.SameLengths() && s.KeyDeployed() && a.vkeyHash == s.cfg.vkeyHash
    requires NoAliasing(s.cfg.keccak, hashed) && KeyStrings(Keys(t)) + {KeyString(s.vk)} <= hashed
    requires OutputPreimage(a) in hashed && WordBytes(OutputWords(s, t)) in hashed
    requires ProvenOutputHash(a.proof) == s.cfg.keccak(OutputPreimage(a))
    ensures a.numClaims as int == t.numProofs as int == |Batch(t, s.depth)| == Pow2(s.depth)
    ensures Batch(t, s.depth) == CircuitsV1.Rows(t, s.depth)
    ensures RowsMatch(a, CircuitsV1.Rows(t, s.depth))
    ensures forall vk :: vk in Keys(t) ==> vk == s.vk
    ensures a.root as int < P && AllVerify(s.Crypto(), s.vk, Residue(a.root), CircuitsV1.RowInputs(t, s.depth))
  {
    hide CircuitsV1.Accepted, CircuitsV1.TreeInstances, OutputPreimage, ProvenOutputHash, WordBytes, KeyString, Keys,
      KeyStrings, VkHash, NoAliasing, NoCollision, AllVerify, Attests, RowsMatch, Shape, CircuitsV1.Rows,
      CircuitsV1.RowInputs, Batch, OutputWords;
    AttestedShape(s, t, a.proof);
    FullBatchForced(s, t, a, hashed);
    NoAliasingIsStronger(s.cfg.keccak, hashed);
    TreeUsesDeployedKey(s, t, hashed);
  }

  /** An accepted tree that exposes the deployed key's hash uses that key in every leaf. */
  lemma TreeUsesDeployedKey(s: System, t: Tree, hashed: set<Bytes>)
    requires CircuitsV1.Accepted(s.Crypto(), t, s.depth, s.initialDepth)
    requires var i, vkHash := CircuitsV1.TreeInstances(s.Crypto(), t, s.depth, s.initialDepth), VkHash(s.cfg.keccak, s.vk);
             i[2] as int == vkHash.hi as int && i[3] as int == vkHash.lo as int
    requires NoCollision(s.cfg.keccak, hashed) && KeyStrings(Keys(t)) + {KeyString(s.vk)} <= hashed
    ensures forall vk :: vk in Keys(t) ==> vk == s.vk
    ensures AllVerify(s.Crypto(), s.vk, CircuitsV1.TreeInstances(s.Crypto(), t, s.depth, s.initialDepth)[4],
                      CircuitsV1.RowInputs(t, s.depth))
  {
    assert Shape(t, s.depth, s.initialDepth);
    hide CircuitsV1.Accepted, CircuitsV1.TreeInstances, KeyString, Keys, KeyStrings, VkHash, VerifiesUnder, NoCollision,
      AllVerify, CircuitsV1.RowInputs, Inputs, CircuitsV1.Instances;
    CircuitsV1.TreeSound(s.Crypto(), t, s.depth, s.initialDepth);
    var i := CircuitsV1.TreeInstances(s.Crypto(), t, s.depth, s.initialDepth);
    assert Word(i[2] as Uint128, i[3] as Uint128) == VkHash(s.cfg.keccak, s.vk);
    ValidUnderDeployedKey(s.Crypto(), Keys(t), s.vk, i[4], CircuitsV1.RowInputs(t, s.depth), hashed);
  }

  /** The part that does not depend on the verifying keys. */
  lemma FullBatchForced(s: System, t: Tree, a: Args, hashed: set<Bytes>)
    requires Attests(s, t, a.proof) && a.SameLengths()
    requires NoAliasing(s.cfg.keccak, hashed)
    requires OutputPreimage(a) in hashed && WordBytes(OutputWords(s, t)) in hashed
    requires ProvenOutputHash(a.proof) == s.cfg.keccak(OutputPreimage(a))
    ensures a.numClaims as int == t.numProofs as int == |Batch(t, s.depth)| == Pow2(s.depth)
    ensures Batch(t, s.depth) == CircuitsV1.Rows(t, s.depth)
    ensures RowsMatch(a, CircuitsV1.Rows(t, s.depth))
    ensures var i := CircuitsV1.TreeInstances(s.Crypto(), t, s.depth, s.initialDepth);
            && a.root == ToUint(i[4])
            && a.vkeyHash.hi as int == i[2] as int && a.vkeyHash.lo as int == i[3] as int
  {
    AttestedShape(s, t, a.proof);
    hide CircuitsV1.Accepted, CircuitsV1.TreeInstances, CircuitsV1.Columns, OutputPreimage, ProvenOutputHash,
      WordBytes, ToUints, ArgWords, AllValid, Inputs, CircuitsV1.RowInputs, RowsMatch, CircuitsV1.RootOutput, Shape,
      PublicWord, StandFor, NoAliasing;
    var instances := CircuitsV1.TreeInstances(s.Crypto(), t, s.depth, s.initialDepth);
    CircuitsV1.TreeSound(s.Crypto(), t, s.depth, s.initialDepth);
    CircuitsV1.RootCountsBatch(s.Crypto(), t, s.depth, s.initialDepth);
    HashCheckForcesWords(s, t, a, hashed);
    OutputPreimageIsWords(a);
    WordBytesInjective(ArgWords(a), OutputWords(s, t));
    var shared, rows := SharedOf(instances), CircuitsV1.Rows(t, s.depth);
    WordsAgree(a, shared, rows, t.numProofs);
    RowsLength(a, rows);
    assert Inputs(t, s.depth) == CircuitsV1.RowInputs(t, s.depth);
  }

  lemma RowsLength(a: Args, rows: seq<Claim>)
    requires RowsMatch(a, rows)
    ensures |rows| == a.numClaims as int && a.SameLengths()
  {
  }

  /** The repository's documentation allows fewer claims than the maximum, but the contract hashes
      arrays of the claimed length and the circuit full columns. For the call that lists the batch's own
      claims, the output-hash check passes exactly when the batch is full and the hash's words are
      canonical. */
  lemma HonestCallPassesIffFull(s: System, t: Tree, a: Args)
    requires Attests(s, t, a.proof) && a.vkeyHash == s.cfg.vkeyHash
    requires NoAliasing(s.cfg.keccak, {OutputPreimage(a), WordBytes(OutputWords(s, t))})
    requires RowsMatch(a, Batch(t, s.depth))
    requires var i := CircuitsV1.TreeInstances(s.Crypto(), t, s.depth, s.initialDepth);
             && a.root == ToUint(i[4])
             && a.vkeyHash.hi as int == i[2] as int && a.vkeyHash.lo as int == i[3] as int
    ensures ProvenOutputHash(a.proof) == s.cfg.keccak(OutputPreimage(a))
       <==> && |Batch(t, s.depth)| == Pow2(s.depth)
            && Canonical(PublicWord(a.proof, 12)) && Canonical(PublicWord(a.proof, 13))
  {
    AttestedShape(s, t, a.proof);
    hide CircuitsV1.Accepted, CircuitsV1.TreeInstances, OutputPreimage, OutputWords, ProvenOutputHash, RowsMatch,
      WordBytes, Batch, Shape, PublicWord, StandFor, NoAliasing, Canonical;
    ghost var hashed := {OutputPreimage(a), WordBytes(OutputWords(s, t))};
    if ProvenOutputHash(a.proof) == s.cfg.keccak(OutputPreimage(a)) {
      assert a.SameLengths() by { RowsLength(a, Batch(t, s.depth)); }
      HashCheckForcesWords(s, t, a, hashed);
      FullBatchForced(s, t, a, hashed);
    } else if && |Batch(t, s.depth)| == Pow2(s.depth)
              && Canonical(PublicWord(a.proof, 12)) && Canonical(PublicWord(a.proof, 13)) {
      FullBatchPasses(s, t, a);
    }
  }

  lemma FullBatchPasses(s: System, t: Tree, a: Args)
    requires Attests(s, t, a.proof)
    requires RowsMatch(a, Batch(t, s.depth)) && |Batch(t, s.depth)| == Pow2(s.depth)
    requires Canonical(PublicWord(a.proof, 12)) && Canonical(PublicWord(a.proof, 13))
    requires var i := CircuitsV1.TreeInstances(s.Crypto(), t, s.depth, s.initialDepth);
             && a.root == ToUint(i[4])
             && a.vkeyHash.hi as int == i[2] as int && a.vkeyHash.lo as int == i[3] as int
    ensures ProvenOutputHash(a.proof) == s.cfg.keccak(OutputPreimage(a))
  {
    AttestedShape(s, t, a.proof);
    CircuitsV1.TreeSound(s.Crypto(), t, s.depth, s.initialDepth);
    CircuitsV1.RootCountsBatch(s.Crypto(), t, s.depth, s.initialDepth);
    hide CircuitsV1.Accepted, CircuitsV1.TreeInstances, CircuitsV1.Instances, CircuitsV1.RootOutput, OutputPreimage,
      ProvenOutputHash, ToUints, ArgWords, AllValid, WordBytes, Inputs, CircuitsV1.RowInputs, Shape, PublicWord, StandFor, Canonical;
    var shared := SharedOf(CircuitsV1.TreeInstances(s.Crypto(), t, s.depth, s.initialDepth));
    assert Inputs(t, s.depth) == CircuitsV1.RowInputs(t, s.depth);
    FullWords(a, shared, Batch(t, s.depth), t.numProofs);
    OutputPreimageIsWords(a);
    OutputHashIsExactIffCanonical(s, t, a.proof);
  }

  lemma FullWords(a: Args, shared: Shared, rows: seq<Claim>, numProofs: F)
    requires RowsMatch(a, rows)
    requires a.numClaims == ToUint(numProofs) && a.root == ToUint(shared.root)
    requires a.vkeyHash.hi as int == shared.vkHashHi as int && a.vkeyHash.lo as int == shared.vkHashLo as int
    ensures ArgWords(a) == ToUints(CircuitsV1.RootOutput(CircuitsV1.Instances(shared, rows), numProofs))
  {
    hide CircuitsV1.RootOutput, CircuitsV1.Instances, CircuitsV1.GrantIds, CircuitsV1.Receivers,
      CircuitsV1.NullifierHashes, ToUints, AddressWords;
    var head := [shared.vkHashHi, shared.vkHashLo, shared.root, numProofs];
    var g, r, n := CircuitsV1.GrantIds(rows), CircuitsV1.Receivers(rows), CircuitsV1.NullifierHashes(rows);
    CircuitsV1.RootOutputIsColumns(shared, rows, numProofs);
    ToUintsConcat(head, g + r + n);
    ToUintsConcat(g + r, n);
    ToUintsConcat(g, r);
    assert ToUints(head) == [a.vkeyHash.hi as Uint256, a.vkeyHash.lo as Uint256] + [a.root, a.numClaims];
    assert ToUints(g) == a.grantIds && ToUints(r) == AddressWords(a.receivers) && ToUints(n) == a.nullifierHashes;
  }

  // ---------- one call ----------

  /** Exactly when a call takes effect, and what it changes: an allowed sender, arrays of the claimed length,
      fourteen words, the contract's key hash, a known root, at most maxNumClaims claims, the packed
      arguments' hash in words 12 and 13, the verifier's consent, and claim by claim a valid grant, a
      receiver, a nullifier used neither before nor earlier in the batch, and enough left in the contract. */
  lemma CallTakesEffectIff(cfg: Config, st: State, sender: Address, a: Args, rootIsValid: Uint256 -> bool, grants: GrantView)
    ensures var st' := Step(cfg, st, DistributeGrants(sender, a, rootIsValid, grants));
      if && (cfg.prover == 0 || sender == cfg.prover)
         && a.SameLengths() && |a.proof| >= 14 * 32
         && a.vkeyHash == cfg.vkeyHash && rootIsValid(a.root) && a.numClaims <= cfg.maxNumClaims
         && Reading(PublicWord(a.proof, 12), PublicWord(a.proof, 13)) == cfg.keccak(OutputPreimage(a))
         && cfg.verifier(a.proof)
         && forall j :: 0 <= j < a.numClaims as int ==>
              && grants.isValid(a.grantIds[j]) && a.receivers[j] != 0
              && a.nullifierHashes[j] !in st.nullifierHashes
              && (forall k :: 0 <= k < j ==> a.nullifierHashes[k] != a.nullifierHashes[j])
              && Spent(cfg, a, grants, 0, j) + grants.amount(a.grantIds[j]) <= BalanceOf(st.balances, cfg.self)
      then
        && st'.payments == st.payments + DueFrom(a, grants, 0)
        && st'.nullifierHashes == st.nullifierHashes + (set x | x in a.nullifierHashes)
        && forall x: Address ::
             BalanceOf(st'.balances, x) + (if x == cfg.self then PaidOut(DueFrom(a, grants, 0)) else 0)
             == BalanceOf(st.balances, x) + PaidTo(x, DueFrom(a, grants, 0))
      else st' == st
  {
    hide OutputPreimage, Reading, PublicWord, PayFrom, ProvenOutputHash, PaidTo, PaidOut, BalanceOf, Spent, AllPayable;
    if |a.proof| >= MINIMUM_SNARK_LENGTH {
      HashIsRead(a.proof);
    }
    if BatchCheck(cfg, sender, a, rootIsValid).Ok? {
      PaidIffAllPayable(cfg, st, a, grants, 0);
      AllPayableMeans(cfg, st, a, grants);
      if PayFrom(cfg, st, a, grants, 0).Ok? {
        PaidBatch(cfg, st, a, grants, 0);
        assert a.nullifierHashes[0..] == a.nullifierHashes;
        assert (set x | x in a.nullifierHashes[0..]) == (set x | x in a.nullifierHashes);
        forall x: Address
          ensures BalanceOf(PayFrom(cfg, st, a, grants, 0).value.balances, x)
                  + (if x == cfg.self then PaidOut(DueFrom(a, grants, 0)) else 0)
               == BalanceOf(st.balances, x) + PaidTo(x, DueFrom(a, grants, 0))
        {
          PaidBatchBalance(cfg, st, a, grants, 0, x);
        }
      }
    }
  }

  lemma HashIsRead(proof: Bytes)
    requires |proof| >= MINIMUM_SNARK_LENGTH
    ensures ProvenOutputHash(proof) == Reading(PublicWord(proof, 12), PublicWord(proof, 13))
  {
    hide Load, Word.Or;
    LoadIsPublicWord(proof, 12);
    LoadIsPublicWord(proof, 13);
  }

  // ---------- runs ----------

  /** The payment is row `i` of the batch behind call `j`'s proof, whose own Groth16 proof verifies under
      the contract's verifying key for the public inputs root, nullifier hash, receiver and grant id; call and
      grant were allowed. */
  ghost predicate PaidFrom(s: System, calls: seq<Call>, j: nat, i: nat, p: Payment) {
    && j < |calls| && calls[j].DistributeGrants?
    && var a := calls[j].args;
    && s.cfg.verifier(a.proof) && calls[j].rootIsValid(p.root) && p.root == a.root
    && (s.cfg.prover == 0 || calls[j].sender == s.cfg.prover) && a.numClaims <= s.cfg.maxNumClaims
    && var rows := s.RowsOf(a.proof);
    && i < |rows| == Pow2(s.depth) == a.numClaims as int
    && p.root as int < P && p.grantId as int < P && p.receiver as int < P && p.nullifierHash as int < P
    && rows[i].claim == Claims.Claim(p.grantId as int as F, p.receiver as int as F, p.nullifierHash as int as F)
    && p.receiver != 0 && calls[j].grants.isValid(p.grantId) && p.amount == calls[j].grants.amount(p.grantId)
    && s.groth16(s.vk, rows[i].proof,
                 [p.root as int as F, p.nullifierHash as int as F, p.receiver as int as F, p.grantId as int as F])
  }

  ghost predicate Justified(s: System, calls: seq<Call>, p: Payment) {
    exists j: nat, i: nat :: PaidFrom(s, calls, j, i, p)
  }

  ghost predicate AllJustified(s: System, calls: seq<Call>, payments: seq<Payment>) {
    forall i :: 0 <= i < |payments| ==> Justified(s, calls, payments[i])
  }

  lemma JustifiedExtends(s: System, calls: seq<Call>, call: Call, payments: seq<Payment>)
    requires AllJustified(s, calls, payments)
    ensures AllJustified(s, calls + [call], payments)
  {
    hide Verifies;
    forall i | 0 <= i < |payments|
      ensures Justified(s, calls + [call], payments[i])
    {
      var j: nat, k: nat :| PaidFrom(s, calls, j, k, payments[i]);
      assert PaidFrom(s, calls + [call], j, k, payments[i]);
    }
  }

  /** Paying one claim keeps one payment per nullifier; so does paying a batch. */
  lemma {:induction false} BatchPaysOnce(cfg: Config, st: State, a: Args, grants: GrantView, i: nat)
    requires a.SameLengths() && i <= a.numClaims as int
    requires OncePerNullifier(st.nullifierHashes, st.payments) && PayFrom(cfg, st, a, grants, i).Ok?
    ensures var st' := PayFrom(cfg, st, a, grants, i).value;
            OncePerNullifier(st'.nullifierHashes, st'.payments)
    decreases a.numClaims as int - i
  {
    hide OncePerNullifier;
    if i < a.numClaims as int {
      var p := a.Due(i, grants);
      OnceAfterPayment(st.nullifierHashes, st.payments, p);
      BatchPaysOnce(cfg, PayOne(cfg, st, p), a, grants, i + 1);
    }
  }

  lemma BatchIsJustified(s: System, calls: seq<Call>, call: Call, st: State, hashed: set<Bytes>)
    requires VerifierSound(s) && s.KeyDeployed() && call.DistributeGrants?
    requires Distribute(s.cfg, st, call.sender, call.args, call.rootIsValid, call.grants).Ok?
    requires NoAliasing(s.cfg.keccak, hashed) && Hashed(s, call.args) <= hashed && KeyString(s.vk) in hashed
    ensures call.args.SameLengths()
    ensures AllJustified(s, calls + [call], DueFrom(call.args, call.grants, 0))
  {
    hide CircuitsV1.Accepted, OutputPreimage, ProvenOutputHash, OutputWords, Verifies, NoAliasing, WordBytes, Keys,
      KeyString, VkHash, PayFrom, CircuitsV1.RowInputs;
    var a, t, all := call.args, s.extract(call.args.proof), calls + [call];
    assert Attests(s, t, a.proof);
    AttestedShape(s, t, a.proof);
    HashCheckForcesFullBatch(s, t, a, hashed);
    PaidIffAllPayable(s.cfg, st, a, call.grants, 0);
    var due := DueFrom(a, call.grants, 0);
    forall i | 0 <= i < |due|
      ensures Justified(s, all, due[i])
    {
      assert due[i] == a.Due(i, call.grants);
      assert Payable(s.cfg, st, a, call.grants, 0, i);
      assert all[|calls|] == call;
      RowIsPaidFrom(s, all, |calls|, i, t);
    }
  }

  lemma RowIsPaidFrom(s: System, calls: seq<Call>, j: nat, i: nat, t: Tree)
    requires j < |calls| && calls[j].DistributeGrants? && t == s.extract(calls[j].args.proof)
    requires var a := calls[j].args;
             && BatchCheck(s.cfg, calls[j].sender, a, calls[j].rootIsValid).Ok?
             && i < a.numClaims as int == Pow2(s.depth) && RowsMatch(a, CircuitsV1.Rows(t, s.depth))
             && a.root as int < P && AllVerify(s.Crypto(), s.vk, Residue(a.root), CircuitsV1.RowInputs(t, s.depth))
             && a.receivers[i] != 0 && calls[j].grants.isValid(a.grantIds[i])
    ensures PaidFrom(s, calls, j, i, calls[j].args.Due(i, calls[j].grants))
  {
    hide OutputPreimage, ProvenOutputHash, Verifies, CircuitsV1.RowInputs;
    var a, input := calls[j].args, CircuitsV1.RowInputs(t, s.depth)[i];
    assert CircuitsV1.Rows(t, s.depth)[i] == input.claim;
    VerifiesMeans(s.Crypto(), s.vk, input.proof, Residue(a.root),
                  input.claim.grantId, input.claim.receiver, input.claim.nullifierHash);
  }

  lemma AttestedShape(s: System, t: Tree, proof: Bytes)
    requires Attests(s, t, proof)
    ensures t.Node? && Shape(t, s.depth, s.initialDepth)
    ensures CircuitsV1.Accepted(s.Crypto(), t, s.depth, s.initialDepth)
  {
  }

  /** The byte strings hashed in a run. */
  function AllHashed(s: System, calls: seq<Call>): set<Bytes> {
    if calls == [] then {KeyString(s.vk)}
    else
      var call := calls[|calls| - 1];
      AllHashed(s, calls[..|calls| - 1]) + if call.DistributeGrants? then Hashed(s, call.args) else {}
  }

  lemma {:induction false} KeyIsHashed(s: System, calls: seq<Call>)
    ensures KeyString(s.vk) in AllHashed(s, calls)
  {
    hide Hashed, KeyString;
    if calls != [] {
      KeyIsHashed(s, calls[..|calls| - 1]);
    }
  }

  lemma StepIsSafe(s: System, calls: seq<Call>, st: State, call: Call, hashed: set<Bytes>)
    requires VerifierSound(s) && s.KeyDeployed() && NoAliasing(s.cfg.keccak, hashed) && KeyString(s.vk) in hashed
    requires call.DistributeGrants? ==> Hashed(s, call.args) <= hashed
    requires AllJustified(s, calls, st.payments) && OncePerNullifier(st.nullifierHashes, st.payments)
    ensures var st' := Step(s.cfg, st, call);
            && AllJustified(s, calls + [call], st'.payments)
            && OncePerNullifier(st'.nullifierHashes, st'.payments)
            && st.nullifierHashes <= st'.nullifierHashes
            && Total(st'.balances) == Total(st.balances)
  {
    hide VerifierSound, NoAliasing, Hashed, BatchCheck, PayFrom, Justified, PayOne, OncePerNullifier, KeyString, VkHash;
    JustifiedExtends(s, calls, call, st.payments);
    match call
    case DistributeGrants(sender, a, rootIsValid, grants) =>
      if Distribute(s.cfg, st, sender, a, rootIsValid, grants).Ok? {
        BatchIsJustified(s, calls, call, st, hashed);
        PaidBatch(s.cfg, st, a, grants, 0);
        BatchPaysOnce(s.cfg, st, a, grants, 0);
      }
    case OthersTransfer(from, to, amount) =>
      if CanTransfer(st.balances, from, amount) {
        TransferConserves(st.balances, from, to, amount);
      }
  }

  /** Safety over every run: each payment went to a Groth16-verified row of a full batch, no nullifier
      was paid twice, and the sum of all balances never changed. */
  lemma {:induction false} RunIsSafe(s: System, balances: Balances, calls: seq<Call>)
    requires VerifierSound(s) && s.KeyDeployed()
    requires NoAliasing(s.cfg.keccak, AllHashed(s, calls))
    ensures var st := Run(s.cfg, balances, calls);
            && AllJustified(s, calls, st.payments)
            && OncePerNullifier(st.nullifierHashes, st.payments)
            && Total(st.balances) == Total(balances)
  {
    hide VerifierSound, NoAliasing, Hashed, Step, Justified, KeyString, System.KeyDeployed;
    if calls != [] {
      KeyIsHashed(s, calls);
      var before, call := calls[..|calls| - 1], calls[|calls| - 1];
      assert calls == before + [call];
      NoAliasingShrinks(s.cfg.keccak, AllHashed(s, calls), AllHashed(s, before));
      RunIsSafe(s, balances, before);
      StepIsSafe(s, before, Run(s.cfg, balances, before), call, AllHashed(s, calls));
    }
  }

  /** Every account holds what it began with, the payments made to it and what others moved to it, less
      what it moved itself and, for the contract, all payments. */
  lemma {:induction false} RunBalance(cfg: Config, balances: Balances, calls: seq<Call>, x: Address)
    ensures var st, moved := Run(cfg, balances, calls), OthersMoved(cfg, balances, calls);
            BalanceOf(st.balances, x) + MovedFrom(x, moved) + (if x == cfg.self then PaidOut(st.payments) else 0)
            == BalanceOf(balances, x) + MovedTo(x, moved) + PaidTo(x, st.payments)
  {
    hide BatchCheck, PayFrom, Transferred, BalanceOf, MovedTo, MovedFrom;
    NothingMoved(x);
    if calls != [] {
      var before, call := calls[..|calls| - 1], calls[|calls| - 1];
      RunBalance(cfg, balances, before, x);
      var st, moved := Run(cfg, balances, before), OthersMoved(cfg, balances, before);
      match call
      case DistributeGrants(sender, a, rootIsValid, grants) =>
        if Distribute(cfg, st, sender, a, rootIsValid, grants).Ok? {
          PaidBatchBalance(cfg, st, a, grants, 0, x);
          PaidBatch(cfg, st, a, grants, 0);
          PaidConcat(x, st.payments, DueFrom(a, grants, 0));
        }
      case OthersTransfer(from, to, amount) =>
        if from != cfg.self && amount <= BalanceOf(st.balances, from) {
          BalanceAfterTransfer(st.balances, from, to, amount, x);
          MovedOneMore(x, moved, Transfer(from, to, amount));
        }
    }
  }

  /** A paid batch moves each claim's amount from the contract to the claim's receiver. */
  lemma {:induction false} PaidBatchBalance(cfg: Config, st: State, a: Args, grants: GrantView, i: nat, x: Address)
    requires a.SameLengths() && i <= a.numClaims as int
    requires PayFrom(cfg, st, a, grants, i).Ok?
    ensures var st', due := PayFrom(cfg, st, a, grants, i).value, DueFrom(a, grants, i);
            BalanceOf(st'.balances, x) + (if x == cfg.self then PaidOut(due) else 0)
            == BalanceOf(st.balances, x) + PaidTo(x, due)
    decreases a.numClaims as int - i
  {
    hide Transferred, BalanceOf;
    if i < a.numClaims as int {
      var p := a.Due(i, grants);
      BalanceAfterTransfer(st.balances, cfg.self, p.receiver, p.amount, x);
      PaidBatchBalance(cfg, PayOne(cfg, st, p), a, grants, i + 1, x);
      PaidConcat(x, [p], DueFrom(a, grants, i + 1));
      PaymentOneMore(x, [], p);
      assert [] + [p] == [p];
    }
  }
}
