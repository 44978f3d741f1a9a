/** The V2 contract: claims roots are committed by proof, then claims are paid against them. */
module ContractV2 {
  import opened Words
  import opened Merkle
  import opened Claims
  import opened Token
  import opened Wrappers

  const VKEY_HASH_HI_OFFSET: nat := 12 * 32
  const VKEY_HASH_LO_OFFSET: nat := 13 * 32
  const ROOT_OFFSET: nat := 14 * 32
  const NUM_CLAIMS_OFFSET: nat := 15 * 32
  const CLAIMS_ROOT_HI_OFFSET: nat := 16 * 32
  const CLAIMS_ROOT_LO_OFFSET: nat := 17 * 32
  const MINIMUM_PROOF_LENGTH: nat := 18 * 32

  /** The immutables; `verifier` is the verifier contract's answer to a proof. */
  datatype Config = Config(keccak: Hash, vkeyHash: Word, logMaxNumClaims: nat, self: Address, prover: Address,
                           verifier: Bytes -> bool)

  datatype State = State(nullifierHashes: set<Uint256>, validClaimsRoots: set<(Uint256, Word)>,
                         balances: Balances, payments: seq<Payment>)

  datatype ClaimArgs = ClaimArgs(grantId: Uint256, root: Uint256, receiver: Address, nullifierHash: Uint256,
                                 sisterNodes: seq<Word>, isLeftBytes: Word)

  function ClaimPreimage(a: ClaimArgs): (b: Bytes)
    ensures |b| == 84
  {
    Packed(a.grantId as int, a.receiver as int, a.nullifierHash as int)
  }

  /** The root the claim's path leads to. */
  function ClaimedRoot(keccak: Hash, a: ClaimArgs): Word
    requires |a.sisterNodes| <= 32
  {
    var n := |a.sisterNodes|;
    Fold(keccak, keccak(ClaimPreimage(a)), a.sisterNodes, DirectionBits(a.isLeftBytes, n), n)
  }

  /** The checks of `claim`, in order, up to the transfer. */
  function ClaimCheck(cfg: Config, st: State, a: ClaimArgs, grants: GrantView): Result<(), Error>
    requires cfg.logMaxNumClaims <= 32
  {
    if a.nullifierHash in st.nullifierHashes then Err(NullifierHashAlreadyUsed)
    else if a.receiver == 0 then Err(InvalidReceiver)
    else if !grants.isValid(a.grantId) then Err(InvalidGrant)
    else if |a.sisterNodes| != cfg.logMaxNumClaims then Err(InvalidMerkleProofLength)
    else if (a.root, ClaimedRoot(cfg.keccak, a)) !in st.validClaimsRoots then Err(InvalidMerkleProof)
    else if !CanTransfer(st.balances, cfg.self, grants.amount(a.grantId)) then Err(TransferFailed)
    else Ok(())
  }

  function PaymentOf(a: ClaimArgs, grants: GrantView): Payment {
    Payment(a.grantId, a.root, a.receiver, a.nullifierHash, grants.amount(a.grantId))
  }

  /** The state after a claim that passes its checks. */
  function Paid(cfg: Config, st: State, a: ClaimArgs, grants: GrantView): State
    requires CanTransfer(st.balances, cfg.self, grants.amount(a.grantId))
  {
    var amount := grants.amount(a.grantId);
    State(st.nullifierHashes + {a.nullifierHash}, st.validClaimsRoots,
          Transferred(st.balances, cfg.self, a.receiver, amount),
          st.payments + [PaymentOf(a, grants)])
  }

  function ProvenVkeyHash(proof: Bytes): Word
    requires |proof| >= MINIMUM_PROOF_LENGTH
  {
    Load(proof, VKEY_HASH_HI_OFFSET).Shl128().Or(Load(proof, VKEY_HASH_LO_OFFSET))
  }

  function ProvenRoot(proof: Bytes): Uint256
    requires |proof| >= MINIMUM_PROOF_LENGTH
  {
    Load(proof, ROOT_OFFSET).ToUint()
  }

  function ProvenClaimsRoot(proof: Bytes): Word
    requires |proof| >= MINIMUM_PROOF_LENGTH
  {
    Load(proof, CLAIMS_ROOT_HI_OFFSET).Shl128().Or(Load(proof, CLAIMS_ROOT_LO_OFFSET))
  }

  /** The checks of `validateClaimsRoot`, in order. */
  function ValidateCheck(cfg: Config, sender: Address, proof: Bytes, rootIsValid: Uint256 -> bool): Result<(), Error> {
    if !SenderAllowed(cfg.prover, sender) then Err(OnlyProver)
    else if |proof| < MINIMUM_PROOF_LENGTH then Err(InvalidProof)
    else if ProvenVkeyHash(proof) != cfg.vkeyHash then Err(InvalidVkeyHash)
    else if !rootIsValid(ProvenRoot(proof)) then Err(InvalidRoot)
    else if Load(proof, NUM_CLAIMS_OFFSET).ToUint() as int > Pow2(cfg.logMaxNumClaims) then Err(InvalidNumberOfClaims)
    else if !cfg.verifier(proof) then Err(InvalidProof)
    else Ok(())
  }

  class WorldcoinAggregationV2 {
    const cfg: Config
    const wld: Wld
    var nullifierHashes: set<Uint256>
    var validClaimsRoots: set<(Uint256, Word)>
    /** The GrantClaimed events with the arguments of their calls. */
    var payments: seq<Payment>

    constructor (cfg: Config, wld: Wld)
      requires cfg.logMaxNumClaims <= 32
      ensures this.cfg == cfg && this.wld == wld
      ensures Current() == State({}, {}, wld.balances, [])
    {
      this.cfg, this.wld := cfg, wld;
      nullifierHashes, validClaimsRoots, payments := {}, {}, [];
    }

    function Current(): State
      reads this, wld
    {
      State(nullifierHashes, validClaimsRoots, wld.balances, payments)
    }

    /** Walks the Merkle path, then marks the nullifier and pays; a revert restores everything. */
    method Claim(a: ClaimArgs, grants: GrantView) returns (r: Result<(), Error>)
      requires cfg.logMaxNumClaims <= 32
      modifies this, wld
      ensures r == old(ClaimCheck(cfg, Current(), a, grants))
      ensures Current() == if r.Ok? then Paid(cfg, old(Current()), a, grants) else old(Current())
    {
      hide Packed, StepPreimage;
      if a.nullifierHash in nullifierHashes {
        return Err(NullifierHashAlreadyUsed);
      }
      if a.receiver == 0 {
        return Err(InvalidReceiver);
      }
      if !grants.isValid(a.grantId) {
        return Err(InvalidGrant);
      }
      var length := |a.sisterNodes|;
      if length != cfg.logMaxNumClaims {
        return Err(InvalidMerkleProofLength);
      }
      ghost var bits := DirectionBits(a.isLeftBytes, length);
      var runningHash := cfg.keccak(ClaimPreimage(a));
      var i := 0;
      while i != length
        invariant i <= length
        invariant runningHash == Fold(cfg.keccak, cfg.keccak(ClaimPreimage(a)), a.sisterNodes, bits, i)
        decreases length - i
      {
        var node := a.sisterNodes[i];
        var isLeft := a.isLeftBytes.ToBytes()[i] != 0;
        assert isLeft == bits[i];
        runningHash := cfg.keccak(StepPreimage(runningHash, node, isLeft));
        i := i + 1;
      }
      if (a.root, runningHash) !in validClaimsRoots {
        return Err(InvalidMerkleProof);
      }
      var before := nullifierHashes;
      nullifierHashes := nullifierHashes + {a.nullifierHash};
      var grantAmount := grants.amount(a.grantId);
      var ok := wld.Transfer(cfg.self, a.receiver, grantAmount);
      if !ok {
        nullifierHashes := before;
        return Err(TransferFailed);
      }
      payments := payments + [Payment(a.grantId, a.root, a.receiver, a.nullifierHash, grantAmount)];
      return Ok(());
    }

    method ValidateClaimsRoot(sender: Address, proof: Bytes, rootIsValid: Uint256 -> bool) returns (r: Result<(), Error>)
      modifies this
      ensures r == ValidateCheck(cfg, sender, proof, rootIsValid)
      ensures Current() == if r.Ok?
        then old(Current()).(validClaimsRoots := old(validClaimsRoots) + {(ProvenRoot(proof), ProvenClaimsRoot(proof))})
        else old(Current())
    {
      if !SenderAllowed(cfg.prover, sender) {
        return Err(OnlyProver);
      }
      if |proof| < MINIMUM_PROOF_LENGTH {
        return Err(InvalidProof);
      }
      var vkeyHash := Load(proof, VKEY_HASH_HI_OFFSET).Shl128().Or(Load(proof, VKEY_HASH_LO_OFFSET));
      if vkeyHash != cfg.vkeyHash {
        return Err(InvalidVkeyHash);
      }
      var root := Load(proof, ROOT_OFFSET).ToUint();
      if !rootIsValid(root) {
        return Err(InvalidRoot);
      }
      var numClaims := Load(proof, NUM_CLAIMS_OFFSET).ToUint();
      if numClaims as int > Pow2(cfg.logMaxNumClaims) {
        return Err(InvalidNumberOfClaims);
      }
      var claimsRoot := Load(proof, CLAIMS_ROOT_HI_OFFSET).Shl128().Or(Load(proof, CLAIMS_ROOT_LO_OFFSET));
      if !cfg.verifier(proof) {
        return Err(InvalidProof);
      }
      validClaimsRoots := validClaimsRoots + {(root, claimsRoot)};
      return Ok(());
    }
  }

  /** The constructor's check: deployment reverts above 32. */
  method Deploy(cfg: Config, wld: Wld) returns (r: Result<WorldcoinAggregationV2, Error>)
    ensures r.Ok? <==> cfg.logMaxNumClaims <= 32
    ensures r.Ok? ==> fresh(r.value) && r.value.cfg == cfg && r.value.Current() == State({}, {}, wld.balances, [])
    ensures r.Err? ==> r.error == InvalidLogMaxNumClaims
  {
    if cfg.logMaxNumClaims > 32 {
      return Err(InvalidLogMaxNumClaims);
    }
    var contract := new WorldcoinAggregationV2(cfg, wld);
    return Ok(contract);
  }

  // ---------- runs ----------

  datatype Call =
    | ValidateClaimsRoot(sender: Address, proof: Bytes, rootIsValid: Uint256 -> bool)
    | Claim(args: ClaimArgs, grants: GrantView)
    | OthersTransfer(from: Address, to: Address, amount: nat)

  /** The effect of one transaction; a revert leaves the state as it was. */
  function Step(cfg: Config, st: State, call: Call): State
    requires cfg.logMaxNumClaims <= 32
  {
    match call
    case ValidateClaimsRoot(sender, proof, rootIsValid) =>
      if ValidateCheck(cfg, sender, proof, rootIsValid).Ok?
      then st.(validClaimsRoots := st.validClaimsRoots + {(ProvenRoot(proof), ProvenClaimsRoot(proof))})
      else st
    case Claim(args, grants) =>
      if ClaimCheck(cfg, st, args, grants).Ok? then Paid(cfg, st, args, grants) else st
    case OthersTransfer(from, to, amount) =>
      if from != cfg.self && CanTransfer(st.balances, from, amount)
      then st.(balances := Transferred(st.balances, from, to, amount))
      else st
  }

  /** The state after a sequence of transactions. */
  function Run(cfg: Config, balances: Balances, calls: seq<Call>): State
    requires cfg.logMaxNumClaims <= 32
  {
    if calls == [] then State({}, {}, balances, [])
    else Step(cfg, Run(cfg, balances, calls[..|calls| - 1]), calls[|calls| - 1])
  }

  lemma StepGrows(cfg: Config, st: State, call: Call)
    requires cfg.logMaxNumClaims <= 32
    ensures st.validClaimsRoots <= Step(cfg, st, call).validClaimsRoots
    ensures st.nullifierHashes <= Step(cfg, st, call).nullifierHashes
  {
    hide ValidateCheck, ProvenRoot, ProvenClaimsRoot, ClaimedRoot, Transferred;
  }

  /** Valid roots and used nullifiers are never forgotten. */
  lemma {:induction false} RunGrows(cfg: Config, balances: Balances, before: seq<Call>, after: seq<Call>)
    requires cfg.logMaxNumClaims <= 32
    ensures Run(cfg, balances, before).validClaimsRoots <= Run(cfg, balances, before + after).validClaimsRoots
    ensures Run(cfg, balances, before).nullifierHashes <= Run(cfg, balances, before + after).nullifierHashes
  {
    hide Step;
    if after == [] {
      assert before + after == before;
    } else {
      var calls := before + after;
      assert calls[..|calls| - 1] == before + after[..|after| - 1];
      RunGrows(cfg, balances, before, after[..|after| - 1]);
      StepGrows(cfg, Run(cfg, balances, calls[..|calls| - 1]), calls[|calls| - 1]);
    }
  }

  /** A call at the end of a run takes its last state one step further. */
  lemma RunOneMore(cfg: Config, balances: Balances, before: seq<Call>, call: Call)
    requires cfg.logMaxNumClaims <= 32
    ensures Run(cfg, balances, before + [call]) == Step(cfg, Run(cfg, balances, before), call)
  {
    hide Step;
    assert (before + [call])[..|before|] == before;
  }

  /** Once a claim is paid its nullifier pays nothing again, however the run goes on. */
  lemma PaidNullifierIsSpent(cfg: Config, balances: Balances, before: seq<Call>, claim: Call, after: seq<Call>, again: Call)
    requires cfg.logMaxNumClaims <= 32 && claim.Claim? && again.Claim?
    requires claim.args.nullifierHash == again.args.nullifierHash
    requires ClaimCheck(cfg, Run(cfg, balances, before), claim.args, claim.grants).Ok?
    ensures var later := Run(cfg, balances, before + [claim] + after);
            Step(cfg, later, again) == later
  {
    hide ClaimedRoot, Transferred, Run;
    RunOneMore(cfg, balances, before, claim);
    RunGrows(cfg, balances, before + [claim], after);
  }

  /** The transfers others made in a run: those not from the contract that the sender could afford. */
  function OthersMoved(cfg: Config, balances: Balances, calls: seq<Call>): seq<Transfer>
    requires cfg.logMaxNumClaims <= 32
  {
    if calls == [] then []
    else
      var before, call := calls[..|calls| - 1], calls[|calls| - 1];
      var moved := OthersMoved(cfg, balances, before);
      if call.OthersTransfer? && call.from != cfg.self
         && call.amount <= BalanceOf(Run(cfg, balances, before).balances, call.from)
      then moved + [Transfer(call.from, call.to, call.amount)] else moved
  }
}
