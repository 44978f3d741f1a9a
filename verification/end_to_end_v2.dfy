/** The honest V2 flow: a scheduled batch, its proof, the path builder's paths and the contract agree
    on one claims root, so every claim of the batch can be cashed. */
module EndToEndV2 {
  import opened Words
  import opened Field
  import opened Merkle
  import opened Claims
  import opened PathBuilder
  import opened Token
  import opened PublicWords
  import opened ContractV2
  import opened Completeness
  import opened SafetyV2
  import Scheduler
  import CircuitsV1
  import CircuitsV2

  /** The request is well formed, of a depth the V2 circuits and the contract support, and all of its
      claims are valid under the contract's verifying key. */
  ghost predicate Schedulable(s: System, req: Scheduler.Request) {
    && req.WellFormed() && (req.params.nodeType.Root? || req.params.nodeType.Evm?)
    && |s.vk| == NUM_FE_VK && s.KeyDeployed()
    && ValidBatch(s.Crypto(), s.vk, req.root, req.claims)
    && req.params.depth == s.depth == s.cfg.logMaxNumClaims <= DUMMY_TABLE_DEPTH + 1
    && req.params.initialDepth == s.initialDepth
  }

  /** The proof's words are the outputs of the tree the scheduler built, below the field's order as the
      prover encodes them. */
  ghost predicate ProofOf(s: System, req: Scheduler.Request, proof: Bytes)
    requires req.WellFormed()
  {
    var t := RootTree(Scheduler.Build(s.vk, req));
    && t.Some? && Attests(s, t.value, proof)
    && forall j :: 12 <= j < 18 ==> Canonical(PublicWord(proof, j))
  }

  /** The contract reads the batch's key hash, World ID root, size and claims root off the proof. */
  lemma ProofReads(s: System, req: Scheduler.Request, proof: Bytes)
    requires Schedulable(s, req) && ProofOf(s, req, proof)
    ensures |proof| >= MINIMUM_PROOF_LENGTH
    ensures ProvenVkeyHash(proof) == s.cfg.vkeyHash
    ensures ProvenRoot(proof) == ToUint(req.root)
    ensures ProvenNumClaims(proof) == |req.claims| <= Pow2(s.depth)
    ensures ProvenClaimsRoot(proof) == ClaimsRoot(s.cfg.keccak, ClaimsOf(req.claims), s.depth)
  {
    hide CircuitsV2.Accepted, CircuitsV2.TreeInstances, CircuitsV2.HasShared, CircuitsV1.HasShared, ValidBatch, RootTree,
      Scheduler.Build, VkHash, ClaimsRoot, ProvenVkeyHash, ProvenRoot, ProvenNumClaims, ProvenClaimsRoot, PublicWord,
      KeyOf, Keys, AllValid, Canonical, Shows;
    SchedulerComplete(s.Crypto(), s.vk, req);
    var t := RootTree(Scheduler.Build(s.vk, req)).value;
    assert Shows(proof, CircuitsV2.RootOutputs(CircuitsV2.TreeInstances(s.Crypto(), t, s.depth, s.initialDepth), t.numProofs));
    ShowsLongProof(proof, CircuitsV2.RootOutputs(CircuitsV2.TreeInstances(s.Crypto(), t, s.depth, s.initialDepth), t.numProofs));
    ReadingsAreExactIffCanonical(s, t, proof);
    RealisedShares(s, req, t);
  }

  lemma ShowsLongProof(proof: Bytes, outputs: seq<F>)
    requires |outputs| == 6 && Shows(proof, outputs)
    ensures |proof| >= MINIMUM_PROOF_LENGTH
  {
  }

  /** Key hash and root of a realised request. */
  lemma RealisedShares(s: System, req: Scheduler.Request, t: Tree)
    requires Schedulable(s, req) && Realises(s.Crypto(), s.vk, req, t)
    ensures CircuitsV2.Accepted(s.Crypto(), t, s.depth, s.initialDepth)
    ensures CircuitsV2.TreeInstances(s.Crypto(), t, s.depth, s.initialDepth)[4] == req.root
    ensures VkHash(s.cfg.keccak, KeyOf(t)) == s.cfg.vkeyHash
    ensures Batch(t, s.depth) == ClaimsOf(req.claims)
  {
    hide CircuitsV2.Accepted, CircuitsV2.TreeInstances, CircuitsV1.HasShared, ValidBatch, VkHash, KeyOf, Keys,
      VerifiesUnder;
    CircuitsV2.TreeSound(s.Crypto(), t, s.depth, s.initialDepth);
  }

  /** The arguments the path builder prepares for claim `i`. */
  function HonestArgs(h: Hash, root: F, claims: seq<Claim>, depth: nat, i: nat): ClaimArgs
    requires i < |claims| <= Pow2(depth) && depth <= 32 && claims[i].receiver as int < TWO_160
  {
    var leaves := HashAll(h, Padded(claims, depth));
    ClaimArgs(ToUint(claims[i].grantId), ToUint(root), claims[i].receiver as int as Address,
              ToUint(claims[i].nullifierHash), Sisters(h, depth, leaves, i), DirectionWord(Directions(depth, i)))
  }

  /** The contract's path loop, from the builder's path, reaches the flat Merkle root. */
  lemma HonestPathReachesClaimsRoot(h: Hash, root: F, claims: seq<Claim>, depth: nat, i: nat)
    requires i < |claims| <= Pow2(depth) && depth <= 32 && claims[i].receiver as int < TWO_160
    ensures ClaimedRoot(h, HonestArgs(h, root, claims, depth, i)) == ClaimsRoot(h, claims, depth)
  {
    hide Packed, Sisters, Directions, DirectionWord, DirectionBits, Fold, SubRoot;
    PathReachesRoot(h, depth, HashAll(h, Padded(claims, depth)), i);
    DirectionsSurvive(Directions(depth, i));
  }

  /** A proof of a scheduled batch is committed whenever the sender may commit, the World ID root is
      known and the verifier accepts; from then on the claims of the batch, with the path builder's
      arguments, pass exactly when nullifier, receiver, grant and balance allow. */
  lemma HonestBatchIsPayable(s: System, req: Scheduler.Request, proof: Bytes, sender: Address,
                             rootIsValid: Uint256 -> bool, st: State, i: nat, grants: GrantView)
    requires Schedulable(s, req) && ProofOf(s, req, proof)
    requires i < |req.claims|
    requires (ProvenRoot(proof), ProvenClaimsRoot(proof)) in st.validClaimsRoots
    ensures ValidateCheck(s.cfg, sender, proof, rootIsValid).Ok?
       <==> SenderAllowed(s.cfg.prover, sender) && rootIsValid(ToUint(req.root)) && s.cfg.verifier(proof)
    ensures req.claims[i].claim.receiver as int < TWO_160
    ensures var a := HonestArgs(s.cfg.keccak, req.root, ClaimsOf(req.claims), s.depth, i);
            (ClaimCheck(s.cfg, st, a, grants).Ok?
             <==> && a.nullifierHash !in st.nullifierHashes && a.receiver != 0 && grants.isValid(a.grantId)
                  && CanTransfer(st.balances, s.cfg.self, grants.amount(a.grantId)))
  {
    hide ProvenVkeyHash, ProvenRoot, ProvenClaimsRoot, ClaimedRoot, ClaimsRoot, ProofOf, Verifies, VkHash, DirectionWord;
    ProofReads(s, req, proof);
    assert Load(proof, NUM_CLAIMS_OFFSET).ToUint() as int == ProvenNumClaims(proof);
    HonestPathReachesClaimsRoot(s.cfg.keccak, req.root, ClaimsOf(req.claims), s.depth, i);
  }

  // ---------- one claim, at any point of any run ----------

  /** The payment a claim is owed. */
  function PaymentFor(root: F, claim: Claim, grants: GrantView): Payment
    requires claim.receiver as int < TWO_160
  {
    Payment(ToUint(claim.grantId), ToUint(root), claim.receiver as int as Address, ToUint(claim.nullifierHash),
            grants.amount(ToUint(claim.grantId)))
  }

  lemma PaysHonestArgs(h: Hash, root: F, claims: seq<Claim>, depth: nat, i: nat, grants: GrantView)
    requires i < |claims| <= Pow2(depth) && depth <= 32 && claims[i].receiver as int < TWO_160
    ensures var a := HonestArgs(h, root, claims, depth, i);
            && Payment(a.grantId, a.root, a.receiver, a.nullifierHash, grants.amount(a.grantId))
               == PaymentFor(root, claims[i], grants)
            && a.nullifierHash == ToUint(claims[i].nullifierHash) && a.grantId == ToUint(claims[i].grantId)
            && a.receiver as int == claims[i].receiver as int
  {
  }

  /** A scheduled batch's proof is accepted from this sender and for this root. */
  predicate CommitAllowed(s: System, req: Scheduler.Request, commit: Call)
    requires commit.ValidateClaimsRoot?
  {
    && SenderAllowed(s.cfg.prover, commit.sender) && commit.rootIsValid(ToUint(req.root)) && s.cfg.verifier(commit.proof)
  }

  /** The commit takes effect in any state. */
  lemma CommitIsAccepted(s: System, req: Scheduler.Request, commit: Call, st: State)
    requires commit.ValidateClaimsRoot?
    requires Schedulable(s, req) && CommitAllowed(s, req, commit) && ProofOf(s, req, commit.proof)
    ensures s.cfg.logMaxNumClaims <= 32 && |commit.proof| >= MINIMUM_PROOF_LENGTH
    ensures var pair := (ProvenRoot(commit.proof), ProvenClaimsRoot(commit.proof));
            Step(s.cfg, st, commit) == st.(validClaimsRoots := st.validClaimsRoots + {pair})
  {
    hide ProvenVkeyHash, ProvenRoot, ProvenClaimsRoot, ProofOf;
    ProofReads(s, req, commit.proof);
    assert Load(commit.proof, NUM_CLAIMS_OFFSET).ToUint() as int == ProvenNumClaims(commit.proof);
  }

  /** Liveness at any point of any run: wherever the batch was committed, and whatever was called before
      and since, each claim of the batch is paid exactly when its nullifier, receiver, grant and the balance
      allow, and once paid it is never paid again. */
  lemma CommittedClaimIsPaidOnce(s: System, req: Scheduler.Request, balances: Balances, before: seq<Call>, commit: Call,
                                 between: seq<Call>, i: nat, grants: GrantView, after: seq<Call>, again: Call)
    requires commit.ValidateClaimsRoot?
    requires Schedulable(s, req) && CommitAllowed(s, req, commit) && ProofOf(s, req, commit.proof)
    requires i < |req.claims|
    ensures s.cfg.logMaxNumClaims <= 32 && |req.claims| <= Pow2(s.depth) && req.claims[i].claim.receiver as int < TWO_160
    ensures var calls, a := before + [commit] + between, HonestArgs(s.cfg.keccak, req.root, ClaimsOf(req.claims), s.depth, i);
            var st := Run(s.cfg, balances, calls);
            var payable := && a.nullifierHash !in st.nullifierHashes && a.receiver != 0 && grants.isValid(a.grantId)
                           && CanTransfer(st.balances, s.cfg.self, grants.amount(a.grantId));
            && (if payable
                then MakesPayment(s.cfg.self, st, Step(s.cfg, st, Call.Claim(a, grants)),
                                  PaymentFor(req.root, req.claims[i].claim, grants))
                else Step(s.cfg, st, Call.Claim(a, grants)) == st)
            && (payable && again.Claim? && again.args.nullifierHash == a.nullifierHash ==>
                  var later := Run(s.cfg, balances, calls + [Call.Claim(a, grants)] + after);
                  Step(s.cfg, later, again) == later)
  {
    hide ClaimedRoot, ProvenRoot, ProvenClaimsRoot, ProofOf, ValidateCheck, HonestArgs, Run, Paid, CommitAllowed, MakesPayment;
    SchedulableFits(s, req);
    var calls := before + [commit] + between;
    CommitIsAccepted(s, req, commit, Run(s.cfg, balances, before));
    RunOneMore(s.cfg, balances, before, commit);
    RunGrows(s.cfg, balances, before + [commit], between);
    var st := Run(s.cfg, balances, calls);
    HonestBatchIsPayable(s, req, commit.proof, 0, _ => true, st, i, grants);
    var a := HonestArgs(s.cfg.keccak, req.root, ClaimsOf(req.claims), s.depth, i);
    PaysHonestArgs(s.cfg.keccak, req.root, ClaimsOf(req.claims), s.depth, i, grants);
    ClaimTakesEffectIff(s.cfg, st, a, grants);
    if ClaimCheck(s.cfg, st, a, grants).Ok? && again.Claim? && again.args.nullifierHash == a.nullifierHash {
      PaidNullifierIsSpent(s.cfg, balances, calls, Call.Claim(a, grants), after, again);
    }
  }

  // ---------- all claims in a row ----------

  /** What the first `n` claims cost. */
  function Owed(claims: seq<Claim>, grants: GrantView, n: nat): nat
    requires n <= |claims|
  {
    if n == 0 then 0 else Owed(claims, grants, n - 1) + grants.amount(ToUint(claims[n - 1].grantId))
  }

  /** What the first `n` claims owe to one account. */
  function OwedTo(claims: seq<Claim>, grants: GrantView, n: nat, x: Address): nat
    requires n <= |claims|
  {
    if n == 0 then 0
    else
      var claim := claims[n - 1];
      OwedTo(claims, grants, n - 1, x)
      + if claim.receiver as int == x as int then grants.amount(ToUint(claim.grantId)) else 0
  }

  /** Every account but the contract's has grown by what the first `n` claims owe it. */
  ghost predicate Credited(self: Address, claims: seq<Claim>, grants: GrantView, before: Balances, after: Balances, n: nat)
    requires n <= |claims|
  {
    forall x: Address :: x != self ==> BalanceOf(after, x) == BalanceOf(before, x) + OwedTo(claims, grants, n, x)
  }

  /** Every claim has a receiver, an unused nullifier of its own and a valid grant. */
  ghost predicate Cashable(claims: seq<Claim>, grants: GrantView, used: set<Uint256>) {
    && (forall i :: 0 <= i < |claims| ==> ToUint(claims[i].nullifierHash) !in used)
    && (forall i :: 0 <= i < |claims| ==> 0 < claims[i].receiver as int < TWO_160)
    && (forall i :: 0 <= i < |claims| ==> grants.isValid(ToUint(claims[i].grantId)))
    && (forall i, j :: 0 <= i < j < |claims| ==> claims[i].nullifierHash != claims[j].nullifierHash)
  }

  /** The commit, then the first `n` claims in order, each with the path builder's arguments. */
  function HonestCalls(h: Hash, root: F, claims: seq<Claim>, depth: nat, commit: Call, grants: GrantView, n: nat):
    (calls: seq<Call>)
    requires n <= |claims| <= Pow2(depth) && depth <= 32
    requires forall i :: 0 <= i < |claims| ==> claims[i].receiver as int < TWO_160
    ensures |calls| == n + 1
  {
    if n == 0 then [commit]
    else HonestCalls(h, root, claims, depth, commit, grants, n - 1)
         + [Call.Claim(HonestArgs(h, root, claims, depth, n - 1), grants)]
  }

  predicate PaidInOrder(earlier: seq<Payment>, payments: seq<Payment>, root: F, claims: seq<Claim>, grants: GrantView, n: nat)
    requires n <= |claims| && forall i :: 0 <= i < |claims| ==> claims[i].receiver as int < TWO_160
  {
    && |payments| == |earlier| + n && earlier <= payments
    && forall i :: 0 <= i < n ==> payments[|earlier| + i] == PaymentFor(root, claims[i], grants)
  }

  ghost predicate UsedBy(earlier: set<Uint256>, nullifierHashes: set<Uint256>, claims: seq<Claim>, n: nat)
    requires n <= |claims|
  {
    forall x :: x in nullifierHashes && x !in earlier ==> exists i :: 0 <= i < n && x == ToUint(claims[i].nullifierHash)
  }

  /** From `base`, the state after the commit and `n` paid claims. */
  ghost predicate PaidSoFar(s: System, root: F, claims: seq<Claim>, proof: Bytes, grants: GrantView, base: State,
                            st: State, n: nat)
    requires n <= |claims| && (forall i :: 0 <= i < |claims| ==> claims[i].receiver as int < TWO_160) && |proof| >= MINIMUM_PROOF_LENGTH
  {
    && (ProvenRoot(proof), ProvenClaimsRoot(proof)) in st.validClaimsRoots
    && UsedBy(base.nullifierHashes, st.nullifierHashes, claims, n)
    && PaidInOrder(base.payments, st.payments, root, claims, grants, n)
    && Owed(claims, grants, |claims|) <= BalanceOf(st.balances, s.cfg.self) + Owed(claims, grants, n)
    && Credited(s.cfg.self, claims, grants, base.balances, st.balances, n)
  }

  lemma CreditedOneMore(self: Address, claims: seq<Claim>, grants: GrantView, before: Balances, after: Balances, n: nat,
                        receiver: Address)
    requires n < |claims| && claims[n].receiver as int == receiver as int
    requires Credited(self, claims, grants, before, after, n)
    requires CanTransfer(after, self, grants.amount(ToUint(claims[n].grantId)))
    ensures Credited(self, claims, grants, before,
                     Transferred(after, self, receiver, grants.amount(ToUint(claims[n].grantId))), n + 1)
  {
    hide Transferred, BalanceOf;
    forall x: Address | x != self
      ensures BalanceOf(Transferred(after, self, receiver, grants.amount(ToUint(claims[n].grantId))), x)
           == BalanceOf(before, x) + OwedTo(claims, grants, n + 1, x)
    {
      BalanceAfterTransfer(after, self, receiver, grants.amount(ToUint(claims[n].grantId)), x);
    }
  }

  lemma UsedByOneMore(earlier: set<Uint256>, nullifierHashes: set<Uint256>, claims: seq<Claim>, n: nat)
    requires n < |claims| && UsedBy(earlier, nullifierHashes, claims, n)
    requires ToUint(claims[n].nullifierHash) !in earlier
    requires forall i :: 0 <= i < n ==> claims[i].nullifierHash != claims[n].nullifierHash
    ensures ToUint(claims[n].nullifierHash) !in nullifierHashes
    ensures UsedBy(earlier, nullifierHashes + {ToUint(claims[n].nullifierHash)}, claims, n + 1)
  {
    forall x | x in nullifierHashes && x !in earlier
      ensures exists i :: 0 <= i < n + 1 && x == ToUint(claims[i].nullifierHash)
    {
      var i :| 0 <= i < n && x == ToUint(claims[i].nullifierHash);
    }
  }

  lemma OwedGrows(claims: seq<Claim>, grants: GrantView, m: nat, n: nat)
    requires m <= n <= |claims|
    ensures Owed(claims, grants, m) <= Owed(claims, grants, n)
  {
  }

  /** Paying claim `n` continues the payments. */
  lemma PaidOneMore(s: System, root: F, claims: seq<Claim>, proof: Bytes, grants: GrantView, base: State, st: State, n: nat)
    requires n < |claims| <= Pow2(s.depth) && s.depth <= 32 && |proof| >= MINIMUM_PROOF_LENGTH
    requires forall i :: 0 <= i < |claims| ==> claims[i].receiver as int < TWO_160
    requires PaidSoFar(s, root, claims, proof, grants, base, st, n) && Cashable(claims, grants, base.nullifierHashes)
    ensures var a := HonestArgs(s.cfg.keccak, root, claims, s.depth, n);
            && a.nullifierHash !in st.nullifierHashes
            && CanTransfer(st.balances, s.cfg.self, grants.amount(a.grantId))
            && PaidSoFar(s, root, claims, proof, grants, base, Paid(s.cfg, st, a, grants), n + 1)
  {
    hide ProvenRoot, ProvenClaimsRoot, HonestArgs, PaymentFor, UsedBy, Credited, Transferred;
    PaysHonestArgs(s.cfg.keccak, root, claims, s.depth, n, grants);
    OwedGrows(claims, grants, n + 1, |claims|);
    UsedByOneMore(base.nullifierHashes, st.nullifierHashes, claims, n);
    var a := HonestArgs(s.cfg.keccak, root, claims, s.depth, n);
    BalanceAfterTransfer(st.balances, s.cfg.self, a.receiver, grants.amount(a.grantId), s.cfg.self);
    CreditedOneMore(s.cfg.self, claims, grants, base.balances, st.balances, n, a.receiver);
  }

  /** One more honest claim is paid. */
  lemma NextClaimIsPaid(s: System, req: Scheduler.Request, proof: Bytes, grants: GrantView, base: State, st: State, n: nat)
    requires Schedulable(s, req) && ProofOf(s, req, proof)
    requires Cashable(ClaimsOf(req.claims), grants, base.nullifierHashes)
    requires n < |req.claims| && |proof| >= MINIMUM_PROOF_LENGTH
    requires PaidSoFar(s, req.root, ClaimsOf(req.claims), proof, grants, base, st, n)
    ensures |req.claims| <= Pow2(s.depth)
    ensures var call := Call.Claim(HonestArgs(s.cfg.keccak, req.root, ClaimsOf(req.claims), s.depth, n), grants);
            PaidSoFar(s, req.root, ClaimsOf(req.claims), proof, grants, base, Step(s.cfg, st, call), n + 1)
  {
    hide ClaimCheck, ProvenRoot, ProvenClaimsRoot, ProofOf, Schedulable, ValidateCheck, Sisters, DirectionWord, Paid;
    SchedulableFits(s, req);
    PaidOneMore(s, req.root, ClaimsOf(req.claims), proof, grants, base, st, n);
    HonestBatchIsPayable(s, req, proof, 0, _ => true, st, n, grants);
  }

  lemma SchedulableFits(s: System, req: Scheduler.Request)
    requires Schedulable(s, req)
    ensures |req.claims| <= Pow2(s.depth) && s.depth <= 32 && s.cfg.logMaxNumClaims <= 32
  {
  }

  lemma CommitStarts(s: System, req: Scheduler.Request, commit: Call, grants: GrantView, base: State)
    requires commit.ValidateClaimsRoot?
    requires Schedulable(s, req) && CommitAllowed(s, req, commit) && ProofOf(s, req, commit.proof)
    requires Owed(ClaimsOf(req.claims), grants, |req.claims|) <= BalanceOf(base.balances, s.cfg.self)
    ensures s.cfg.logMaxNumClaims <= 32 && |commit.proof| >= MINIMUM_PROOF_LENGTH
    ensures PaidSoFar(s, req.root, ClaimsOf(req.claims), commit.proof, grants, base, Step(s.cfg, base, commit), 0)
  {
    hide ProvenRoot, ProvenClaimsRoot, ProofOf, Schedulable, CommitAllowed, Step;
    CommitIsAccepted(s, req, commit, base);
  }

  /** After any run, an honest commit and then the claims of the batch, made in a row with the path
      builder's arguments, are all paid, if their nullifiers are unused and the contract holds what they
      cost together: every receiver's balance has grown by what its claims are owed. */
  lemma {:induction false} HonestRunPaysEveryClaim(s: System, req: Scheduler.Request, balances: Balances, before: seq<Call>,
                                                   commit: Call, grants: GrantView, n: nat)
    requires commit.ValidateClaimsRoot?
    requires Schedulable(s, req) && CommitAllowed(s, req, commit) && ProofOf(s, req, commit.proof)
    requires s.cfg.logMaxNumClaims <= 32 && |commit.proof| >= MINIMUM_PROOF_LENGTH
    requires Cashable(ClaimsOf(req.claims), grants, Run(s.cfg, balances, before).nullifierHashes)
    requires Owed(ClaimsOf(req.claims), grants, |req.claims|)
          <= BalanceOf(Run(s.cfg, balances, before).balances, s.cfg.self)
    requires n <= |req.claims| <= Pow2(s.depth)
    ensures var claims, base := ClaimsOf(req.claims), Run(s.cfg, balances, before);
            var calls := HonestCalls(s.cfg.keccak, req.root, claims, s.depth, commit, grants, n);
            PaidSoFar(s, req.root, claims, commit.proof, grants, base, Run(s.cfg, balances, before + calls), n)
  {
    hide ProofOf, Schedulable, CommitAllowed, PaidSoFar, Step, Run, HonestArgs, Owed, Pow2, BalanceOf;
    SchedulableFits(s, req);
    var claims, base := ClaimsOf(req.claims), Run(s.cfg, balances, before);
    var calls := HonestCalls(s.cfg.keccak, req.root, claims, s.depth, commit, grants, n);
    if n == 0 {
      RunOneMore(s.cfg, balances, before, commit);
      CommitStarts(s, req, commit, grants, base);
    } else {
      HonestRunPaysEveryClaim(s, req, balances, before, commit, grants, n - 1);
      var front := HonestCalls(s.cfg.keccak, req.root, claims, s.depth, commit, grants, n - 1);
      var last := Call.Claim(HonestArgs(s.cfg.keccak, req.root, claims, s.depth, n - 1), grants);
      assert before + calls == (before + front) + [last];
      RunOneMore(s.cfg, balances, before + front, last);
      NextClaimIsPaid(s, req, commit.proof, grants, base, Run(s.cfg, balances, before + front), n - 1);
    }
  }

  // ---------- the assumptions of safety, met by verifiers that reduce their words ----------

  /** What the root circuit exposes for the request. */
  ghost function Outputs(s: System, req: Scheduler.Request): (outputs: seq<F>)
    requires |req.claims| <= TWO_64
    ensures |outputs| == 6
  {
    ExpectedOutputsV2(s.Crypto(), s.vk, req.root, ClaimsOf(req.claims), s.depth)
  }

  /** Twelve accumulator words, then the expected outputs. */
  ghost function HonestProof(s: System, req: Scheduler.Request, accumulator: Bytes): Bytes
    requires |req.claims| <= TWO_64
  {
    accumulator + WordBytes(ToUints(Outputs(s, req)))
  }

  /** The system whose verifier accepts every proof that shows the request's outputs, however its words
      are shifted, and whose extractor answers with the tree the scheduler builds. */
  ghost function HonestSystem(s: System, outputs: seq<F>, t: Tree): System
    requires |outputs| == 6
  {
    s.(cfg := s.cfg.(verifier := proof => Shows(proof, outputs)), extract := _ => t)
  }

  lemma HonestProofShows(s: System, req: Scheduler.Request, accumulator: Bytes)
    requires |req.claims| <= TWO_64 && |accumulator| == VKEY_HASH_HI_OFFSET
    ensures var proof := HonestProof(s, req, accumulator);
            && Shows(proof, Outputs(s, req))
            && forall j :: 12 <= j < 18 ==> Canonical(PublicWord(proof, j))
  {
    hide Outputs, WordBytes, PublicWord;
    var proof, words := HonestProof(s, req, accumulator), ToUints(Outputs(s, req));
    assert proof[32 * 12..32 * 12 + 32 * |words|] == WordBytes(words);
    forall j | 12 <= j < 18
      ensures PublicWord(proof, j) == words[j - 12]
    {
      EncodedWordIsRead(proof, 12, words, j - 12);
    }
  }

  lemma ShowsReduces(outputs: seq<F>)
    requires |outputs| == 6
    ensures Reduces(proof => Shows(proof, outputs), 18)
  {
    hide PublicWord, Residue;
    forall proof, proof' | Congruent(proof, proof', 18)
      ensures Shows(proof, outputs) == Shows(proof', outputs)
    {
    }
  }

  /** What safety assumes is met for every schedulable request, by a verifier that takes its words modulo
      the field's order and accepts the request's proofs. */
  lemma HonestVerifierIsSound(s: System, req: Scheduler.Request, accumulator: Bytes)
    requires Schedulable(s, req) && |accumulator| == VKEY_HASH_HI_OFFSET
    ensures |req.claims| <= TWO_64
    ensures var t := RootTree(Scheduler.Build(s.vk, req));
            && t.Some?
            && var h, proof := HonestSystem(s, Outputs(s, req), t.value), HonestProof(s, req, accumulator);
            && VerifierSound(h) && Reduces(h.cfg.verifier, 18) && Schedulable(h, req)
            && h.cfg.verifier(proof) && ProofOf(h, req, proof)
  {
    hide CircuitsV2.Accepted, CircuitsV2.TreeInstances, CircuitsV2.RootOutputs, ValidBatch, ExpectedOutputsV2, Reduces,
      Scheduler.Build, RootTree, Shows, Canonical, PublicWord, VkHash, HonestProof;
    SchedulableFits(s, req);
    OutputsV2(s.Crypto(), s.vk, req);
    ShowsReduces(Outputs(s, req));
    HonestProofShows(s, req, accumulator);
  }

  /** And for every schedulable request such a system has a run after which a root is valid that is not
      proven: the commit of the request's proof with the order added to word 16. */
  lemma ShiftedHonestCommit(s: System, req: Scheduler.Request, accumulator: Bytes, commit: Call, balances: Balances)
    requires Schedulable(s, req) && |accumulator| == VKEY_HASH_HI_OFFSET && |req.claims| <= TWO_64
    requires RootTree(Scheduler.Build(s.vk, req)).Some?
    requires commit.ValidateClaimsRoot? && commit.proof == HonestProof(s, req, accumulator)
    requires SenderAllowed(s.cfg.prover, commit.sender) && commit.rootIsValid(ToUint(req.root))
    ensures |commit.proof| >= MINIMUM_PROOF_LENGTH && Canonical(PublicWord(commit.proof, 16))
    ensures var h, c := HonestSystem(s, Outputs(s, req), RootTree(Scheduler.Build(s.vk, req)).value), Shifted(commit);
            && VerifierSound(h) && h.cfg.logMaxNumClaims <= 32 && |c.proof| >= MINIMUM_PROOF_LENGTH
            && var root, claimsRoot := ProvenRoot(c.proof), ProvenClaimsRoot(c.proof);
            && (root, claimsRoot) in Run(h.cfg, balances, [c]).validClaimsRoots
            && !Proven(h, [c], root, claimsRoot)
  {
    hide Outputs, Scheduler.Build, RootTree, Attests, ProvenVkeyHash, ProvenRoot, ProvenClaimsRoot, PublicWord, Reduces,
      Proven, HonestProof, Shows, Shifted, Canonical;
    HonestVerifierIsSound(s, req, accumulator);
    var h := HonestSystem(s, Outputs(s, req), RootTree(Scheduler.Build(s.vk, req)).value);
    ProofReads(h, req, commit.proof);
    SchedulableFits(h, req);
    assert Load(commit.proof, NUM_CLAIMS_OFFSET).ToUint() as int == ProvenNumClaims(commit.proof);
    ShiftedRunIsNotProven(h, balances, commit);
  }
}
