/** Claims, leaf inputs and aggregation trees: the data both circuit versions share. */
module Claims {
  import opened Words
  import opened Field
  import opened Merkle
  import opened Join

  datatype Claim = Claim(grantId: F, receiver: F, nullifierHash: F)

  /** A claim with the flattened Groth16 proof that backs it. */
  datatype ClaimInput = ClaimInput(claim: Claim, proof: seq<F>)

  datatype LeafInput = LeafInput(start: F, end: F, root: F, vk: seq<F>, claims: seq<ClaimInput>)

  /** Keccak and the Groth16 check (verifying key, proof, public inputs) are parameters. */
  datatype Crypto = Crypto(keccak: Hash, groth16: (seq<F>, seq<F>, seq<F>) -> bool)

  /** Field elements of a flattened verifying key: (NUM_BYTES_VK - 1) * 2 bytes in words of 32. */
  const NUM_FE_VK: nat := 48

  /** Public inputs of a claim's Groth16 proof, in order. */
  function PublicInputs(root: F, claim: Claim): seq<F> {
    [root, claim.nullifierHash, claim.receiver, claim.grantId]
  }

  predicate Verifies(c: Crypto, vk: seq<F>, proof: seq<F>, root: F, claim: Claim) {
    c.groth16(vk, proof, PublicInputs(root, claim))
  }

  /** The check runs on the key, the claim's proof and, in this order, root, nullifier hash, receiver and
      grant id. */
  lemma VerifiesMeans(c: Crypto, vk: seq<F>, proof: seq<F>, root: F, grantId: F, receiver: F, nullifierHash: F)
    ensures Verifies(c, vk, proof, root, Claim(grantId, receiver, nullifierHash))
       <==> c.groth16(vk, proof, [root, nullifierHash, receiver, grantId])
  {
  }

  /** The byte string whose digest identifies a verifying key. */
  function KeyString(vk: seq<F>): Bytes {
    WordBytes(ToUints(vk))
  }

  function KeyStrings(keys: set<seq<F>>): (strings: set<Bytes>)
    ensures forall vk :: vk in keys ==> KeyString(vk) in strings
  {
    set vk | vk in keys :: KeyString(vk)
  }

  function VkHash(keccak: Hash, vk: seq<F>): Word {
    keccak(KeyString(vk))
  }

  /** Each claim's own proof verifies under the key. */
  ghost predicate AllVerify(c: Crypto, vk: seq<F>, root: F, inputs: seq<ClaimInput>) {
    forall i :: 0 <= i < |inputs| ==> Verifies(c, vk, inputs[i].proof, root, inputs[i].claim)
  }

  /** The claim's own proof verifies under one of the keys. */
  ghost predicate VerifiesUnder(c: Crypto, keys: set<seq<F>>, root: F, input: ClaimInput) {
    exists vk :: vk in keys && Verifies(c, vk, input.proof, root, input.claim)
  }

  /** The keys, which are those of a tree's leaves, all have this hash, and each claim's own proof
      verifies under one of them. */
  ghost predicate AllValid(c: Crypto, keys: set<seq<F>>, vkHash: Word, root: F, inputs: seq<ClaimInput>) {
    && (forall vk :: vk in keys ==> VkHash(c.keccak, vk) == vkHash)
    && (forall i :: 0 <= i < |inputs| ==> VerifiesUnder(c, keys, root, inputs[i]))
  }

  /** Two trees' claims are valid together when keys and root agree. */
  lemma ValidTogether(c: Crypto, keys0: set<seq<F>>, inputs0: seq<ClaimInput>, keys1: set<seq<F>>, inputs1: seq<ClaimInput>,
                      vkHash: Word, root: F)
    requires AllValid(c, keys0, vkHash, root, inputs0) && AllValid(c, keys1, vkHash, root, inputs1)
    ensures AllValid(c, keys0 + keys1, vkHash, root, inputs0)
    ensures AllValid(c, keys0 + keys1, vkHash, root, inputs0 + inputs1)
  {
    hide VkHash, Verifies;
    var keys := keys0 + keys1;
    forall i | 0 <= i < |inputs0|
      ensures VerifiesUnder(c, keys, root, inputs0[i])
    {
      var vk :| vk in keys0 && Verifies(c, vk, inputs0[i].proof, root, inputs0[i].claim);
      assert vk in keys;
    }
    forall i | 0 <= i < |inputs1|
      ensures VerifiesUnder(c, keys, root, inputs1[i])
    {
      var vk :| vk in keys1 && Verifies(c, vk, inputs1[i].proof, root, inputs1[i].claim);
      assert vk in keys;
    }
    var inputs := inputs0 + inputs1;
    forall i | 0 <= i < |inputs|
      ensures VerifiesUnder(c, keys, root, inputs[i])
    {
      if i < |inputs0| {
        assert inputs[i] == inputs0[i];
      } else {
        assert inputs[i] == inputs1[i - |inputs0|];
      }
    }
  }

  /** Element i of a key is written into bytes 32 i to 32 i + 31. */
  lemma KeyStringBytes(vk: seq<F>, i: nat)
    requires i < |vk|
    ensures |KeyString(vk)| == 32 * |vk| && KeyString(vk)[32 * i..32 * i + 32] == BE(vk[i] as int, 32)
  {
    hide BE, WordBytes;
    WordAt(ToUints(vk), i);
  }

  lemma KeyStringInjective(vk: seq<F>, vk': seq<F>)
    requires KeyString(vk) == KeyString(vk')
    ensures vk == vk'
  {
    hide WordBytes, ToUints;
    WordBytesInjective(ToUints(vk), ToUints(vk'));
    ToUintsInjective(vk, vk');
  }

  /** Keys with the hash of the deployed key are the deployed key, unless two hashed strings collide. */
  lemma ValidUnderDeployedKey(c: Crypto, keys: set<seq<F>>, vk: seq<F>, root: F, inputs: seq<ClaimInput>,
                              hashed: set<Bytes>)
    requires AllValid(c, keys, VkHash(c.keccak, vk), root, inputs)
    requires NoCollision(c.keccak, hashed) && KeyStrings(keys) + {KeyString(vk)} <= hashed
    ensures forall key :: key in keys ==> key == vk
    ensures AllVerify(c, vk, root, inputs)
  {
    hide KeyString, Verifies;
    forall key | key in keys
      ensures key == vk
    {
      assert KeyString(key) in KeyStrings(keys);
      KeyStringInjective(key, vk);
    }
    forall i | 0 <= i < |inputs|
      ensures Verifies(c, vk, inputs[i].proof, root, inputs[i].claim)
    {
      assert VerifiesUnder(c, keys, root, inputs[i]);
    }
  }

  /** abi.encodePacked(uint256 grantId, address receiver, uint256 nullifierHash). */
  function Packed(grantId: nat, receiver: nat, nullifierHash: nat): (b: Bytes)
    ensures |b| == 84
  {
    BE(grantId, 32) + BE(receiver, 20) + BE(nullifierHash, 32)
  }

  /** Which bytes carry which field. */
  lemma PackedBytes(grantId: nat, receiver: nat, nullifierHash: nat)
    ensures var b := Packed(grantId, receiver, nullifierHash);
            b[..32] == BE(grantId, 32) && b[32..52] == BE(receiver, 20) && b[52..] == BE(nullifierHash, 32)
  {
    hide BE;
  }

  function LeafPreimage(claim: Claim): (b: Bytes)
    ensures |b| == 84
  {
    Packed(claim.grantId as int, claim.receiver as int, claim.nullifierHash as int)
  }

  lemma PackedInjective(g: nat, r: nat, n: nat, g': nat, r': nat, n': nat)
    requires g < TWO_256 && g' < TWO_256 && n < TWO_256 && n' < TWO_256
    requires r < TWO_160 && r' < TWO_160
    requires Packed(g, r, n) == Packed(g', r', n')
    ensures g == g' && r == r' && n == n'
  {
    hide BE;
    PowerValues();
    var a, b := Packed(g, r, n), Packed(g', r', n');
    assert a[..32] == BE(g, 32) && b[..32] == BE(g', 32);
    assert a[32..52] == BE(r, 20) && b[32..52] == BE(r', 20);
    assert a[52..] == BE(n, 32) && b[52..] == BE(n', 32);
    BEInjective(g, g', 32);
    BEInjective(r, r', 20);
    BEInjective(n, n', 32);
  }

  lemma PackedZeros()
    ensures Packed(0, 0, 0) == ZERO_LEAF
  {
    BEOfZero(32);
    BEOfZero(20);
  }

  /** The preimages of a batch's 2^k leaves: its claims, then zero leaves. */
  function Padded(claims: seq<Claim>, k: nat): (preimages: seq<Bytes>)
    ensures |preimages| == Pow2(k)
    ensures forall i :: 0 <= i < |preimages| ==>
      preimages[i] == if i < |claims| then LeafPreimage(claims[i]) else ZERO_LEAF
  {
    seq(Pow2(k), i requires 0 <= i < Pow2(k) => if i < |claims| then LeafPreimage(claims[i]) else ZERO_LEAF)
  }

  /** The specification of a claims root: the flat Merkle root of the padded batch. */
  function ClaimsRoot(keccak: Hash, claims: seq<Claim>, k: nat): Word {
    Root(keccak, k, HashAll(keccak, Padded(claims, k)))
  }

  /** A batch that fits the left half is completed by a subtree of padding. */
  lemma ClaimsRootOfShort(keccak: Hash, claims: seq<Claim>, k: nat)
    requires |claims| <= Pow2(k)
    ensures ClaimsRoot(keccak, claims, k + 1)
         == Branch(keccak, ClaimsRoot(keccak, claims, k), DummyRoot(keccak, k))
  {
    hide Branch, LeafPreimage, SubRoot;
    var left, right := HashAll(keccak, Padded(claims, k)), ZeroLeaves(keccak, Pow2(k));
    RootOfConcat(keccak, k, left, right);
    assert HashAll(keccak, Padded(claims, k + 1)) == left + right;
  }

  /** A full left half and a continuation. */
  lemma ClaimsRootOfConcat(keccak: Hash, claims0: seq<Claim>, claims1: seq<Claim>, k: nat)
    requires |claims0| == Pow2(k)
    ensures ClaimsRoot(keccak, claims0 + claims1, k + 1)
         == Branch(keccak, ClaimsRoot(keccak, claims0, k), ClaimsRoot(keccak, claims1, k))
  {
    hide Branch, LeafPreimage, SubRoot;
    var left, right := HashAll(keccak, Padded(claims0, k)), HashAll(keccak, Padded(claims1, k));
    RootOfConcat(keccak, k, left, right);
    assert HashAll(keccak, Padded(claims0 + claims1, k + 1)) == left + right;
  }

  // ---------- leaf circuits ----------

  /** What the constraints common to both leaf circuits say. */
  predicate LeafHolds(c: Crypto, input: LeafInput, depth: nat) {
    && input.start < input.end
    && input.end as int < TWO_64
    && input.end as int - input.start as int <= Pow2(depth)
    && forall i :: 0 <= i < |input.claims| ==>
         Verifies(c, input.vk, input.claims[i].proof, input.root, input.claims[i].claim)
  }

  /** The constraints, spelled out. */
  lemma LeafHoldsMeans(c: Crypto, input: LeafInput, depth: nat)
    ensures LeafHolds(c, input, depth) <==>
      && input.start < input.end && input.end as int < TWO_64
      && input.end as int - input.start as int <= Pow2(depth)
      && forall i :: 0 <= i < |input.claims| ==>
           var claim := input.claims[i].claim;
           c.groth16(input.vk, input.claims[i].proof,
                     [input.root, claim.nullifierHash, claim.receiver, claim.grantId])
  {
    hide Pow2;
    forall i | 0 <= i < |input.claims|
      ensures var claim := input.claims[i].claim;
              Verifies(c, input.vk, input.claims[i].proof, input.root, claim)
              == c.groth16(input.vk, input.claims[i].proof,
                           [input.root, claim.nullifierHash, claim.receiver, claim.grantId])
    {
      var claim := input.claims[i].claim;
      VerifiesMeans(c, input.vk, input.claims[i].proof, input.root, claim.grantId, claim.receiver, claim.nullifierHash);
    }
  }

  /** The range constraints of a leaf circuit. */
  method ConstrainLeafRange(ctx: Context, start: F, end: F, maxDepth: nat) returns (numProofs: F)
    requires maxDepth <= MAX_DEPTH
    modifies ctx
    ensures numProofs == Sub(end, start)
    ensures ctx.satisfied == (old(ctx.satisfied)
      && start < end && end as int < TWO_64 && end as int - start as int <= Pow2(maxDepth))
  {
    PowerValues();
    PowersFit(maxDepth);
    ctx.RangeCheck(start, 64);
    ctx.RangeCheck(end, 64);
    ctx.CheckLessThan(start, end);
    numProofs := Sub(end, start);
    var maxProofsPlusOne := (Pow2(maxDepth) + 1) as F;
    ctx.RangeCheck(numProofs, 64);
    ctx.CheckLessThan(numProofs, maxProofsPlusOne);
  }

  // ---------- aggregation trees ----------

  /** The witness of a tree of circuits: a leaf's inputs, or two children and the witness
      `num_proofs` of the aggregation circuit over them. */
  datatype Tree =
    | Leaf(input: LeafInput)
    | Node(left: Tree, right: Tree, numProofs: F)

  /** The verifying keys of all leaves. */
  function Keys(t: Tree): set<seq<F>> {
    match t
    case Leaf(input) => {input.vk}
    case Node(left, right, _) => Keys(left) + Keys(right)
  }

  /** The verifying key of the leftmost leaf. */
  function KeyOf(t: Tree): (vk: seq<F>)
    ensures vk in Keys(t)
  {
    match t
    case Leaf(input) => input.vk
    case Node(left, _, _) => KeyOf(left)
  }

  /** The circuits' fixed sizes: leaves at `initialDepth` with 2^initialDepth claims. */
  predicate Shape(t: Tree, depth: nat, initialDepth: nat) {
    match t
    case Leaf(input) =>
      depth == initialDepth <= MAX_DEPTH && |input.claims| == Pow2(depth) && |input.vk| == NUM_FE_VK
    case Node(left, right, _) =>
      && initialDepth < depth <= MAX_DEPTH
      && Shape(left, depth - 1, initialDepth) && Shape(right, depth - 1, initialDepth)
  }

  function ClaimsOf(inputs: seq<ClaimInput>): (claims: seq<Claim>)
    ensures |claims| == |inputs| && forall i :: 0 <= i < |inputs| ==> claims[i] == inputs[i].claim
  {
    seq(|inputs|, i requires 0 <= i < |inputs| => inputs[i].claim)
  }

  lemma ClaimsOfConcat(inputs0: seq<ClaimInput>, inputs1: seq<ClaimInput>)
    ensures ClaimsOf(inputs0 + inputs1) == ClaimsOf(inputs0) + ClaimsOf(inputs1)
  {
  }

  /** The claims a tree really proves, with their proofs: padding and dummy children left out. */
  function Inputs(t: Tree, depth: nat): seq<ClaimInput> {
    match t
    case Leaf(input) =>
      var n := Sub(input.end, input.start) as int;
      if n <= |input.claims| then input.claims[..n] else input.claims
    case Node(left, right, numProofs) =>
      if depth == 0 then []
      else if SecondIsDummy(numProofs, Pow2(depth - 1)) then Inputs(left, depth - 1)
      else Inputs(left, depth - 1) + Inputs(right, depth - 1)
  }

  function Batch(t: Tree, depth: nat): (batch: seq<Claim>)
    ensures |batch| == |Inputs(t, depth)|
  {
    ClaimsOf(Inputs(t, depth))
  }
}
