/** The V1 contract: one call verifies a batch and pays all of it, or nothing. */
module ContractV1 {
  import opened Words
  import opened Token
  import opened Wrappers

  const OUTPUT_HASH_HI_OFFSET: nat := 12 * 32
  const OUTPUT_HASH_LO_OFFSET: nat := 13 * 32
  const MINIMUM_SNARK_LENGTH: nat := 14 * 32

  datatype Config = Config(keccak: Hash, vkeyHash: Word, maxNumClaims: Uint256, self: Address, prover: Address,
                           verifier: Bytes -> bool)

  datatype State = State(nullifierHashes: set<Uint256>, balances: Balances, payments: seq<Payment>)

  datatype Args = Args(vkeyHash: Word, numClaims: Uint256, root: Uint256, grantIds: seq<Uint256>,
                       receivers: seq<Address>, nullifierHashes: seq<Uint256>, proof: Bytes) {
    predicate SameLengths() {
      |grantIds| == |receivers| == |nullifierHashes| == numClaims as int
    }

    /** The payment due for claim `i`. */
    function Due(i: nat, grants: GrantView): Payment
      requires SameLengths() && i < |grantIds|
    {
      Payment(grantIds[i], root, receivers[i], nullifierHashes[i], grants.amount(grantIds[i]))
    }
  }

  function AddressWords(addresses: seq<Address>): (words: seq<Uint256>)
    ensures |words| == |addresses| && forall i :: 0 <= i < |words| ==> words[i] as int == addresses[i] as int
  {
    seq(|addresses|, i requires 0 <= i < |addresses| => addresses[i] as Uint256)
  }

  /** abi.encodePacked of the claimed output: array elements are padded to 32 bytes. */
  function OutputPreimage(a: Args): Bytes {
    a.vkeyHash.Shr128().ToBytes() + a.vkeyHash.Low128().ToBytes()
    + WordBytes([a.root, a.numClaims]) + WordBytes(a.grantIds) + WordBytes(AddressWords(a.receivers))
    + WordBytes(a.nullifierHashes)
  }

  function ProvenOutputHash(proof: Bytes): Word
    requires |proof| >= MINIMUM_SNARK_LENGTH
  {
    Load(proof, OUTPUT_HASH_HI_OFFSET).Shl128().Or(Load(proof, OUTPUT_HASH_LO_OFFSET))
  }

  /** The checks of `distributeGrants` before the payments, in order. */
  function BatchCheck(cfg: Config, sender: Address, a: Args, rootIsValid: Uint256 -> bool): (r: Result<(), Error>)
    ensures r.Ok? ==> a.SameLengths()
  {
    if !SenderAllowed(cfg.prover, sender) then Err(OnlyProver)
    else if !a.SameLengths() || |a.proof| < MINIMUM_SNARK_LENGTH then Err(InvalidProof)
    else if a.vkeyHash != cfg.vkeyHash then Err(InvalidVkeyHash)
    else if !rootIsValid(a.root) then Err(InvalidRoot)
    else if a.numClaims > cfg.maxNumClaims then Err(TooManyClaims)
    else if ProvenOutputHash(a.proof) != cfg.keccak(OutputPreimage(a)) then Err(InvalidProof)
    else if !cfg.verifier(a.proof) then Err(InvalidProof)
    else Ok(())
  }

  /** Marks the nullifier and pays. */
  function PayOne(cfg: Config, st: State, p: Payment): State
    requires CanTransfer(st.balances, cfg.self, p.amount)
  {
    State(st.nullifierHashes + {p.nullifierHash}, Transferred(st.balances, cfg.self, p.receiver, p.amount),
          st.payments + [p])
  }

  /** The payments from claim `i` on, each checked against the state its predecessors left. */
  function PayFrom(cfg: Config, st: State, a: Args, grants: GrantView, i: nat): Result<State, Error>
    requires a.SameLengths() && i <= a.numClaims as int
    decreases a.numClaims as int - i
  {
    if i == a.numClaims as int then Ok(st)
    else
      var p := a.Due(i, grants);
      if !grants.isValid(p.grantId) then Err(InvalidGrant)
      else if p.receiver == 0 then Err(InvalidReceiver)
      else if p.nullifierHash in st.nullifierHashes then Err(NullifierHashAlreadyUsed)
      else if !CanTransfer(st.balances, cfg.self, p.amount) then Err(TransferFailed)
      else PayFrom(cfg, PayOne(cfg, st, p), a, grants, i + 1)
  }

  function Distribute(cfg: Config, st: State, sender: Address, a: Args, rootIsValid: Uint256 -> bool, grants: GrantView):
    Result<State, Error>
  {
    var check := BatchCheck(cfg, sender, a, rootIsValid);
    if check.Err? then Err(check.error) else PayFrom(cfg, st, a, grants, 0)
  }

  class WorldcoinAggregationV1 {
    const cfg: Config
    const wld: Wld
    var nullifierHashes: set<Uint256>
    /** The GrantClaimed events with what was paid. */
    var payments: seq<Payment>

    constructor (cfg: Config, wld: Wld)
      ensures this.cfg == cfg && this.wld == wld
      ensures Current() == State({}, wld.balances, [])
    {
      this.cfg, this.wld := cfg, wld;
      nullifierHashes, payments := {}, [];
    }

    function Current(): State
      reads this, wld
    {
      State(nullifierHashes, wld.balances, payments)
    }

    /** The payment loop works on the storage step by step; a revert anywhere restores all of it. */
    method DistributeGrants(sender: Address, a: Args, rootIsValid: Uint256 -> bool, grants: GrantView)
      returns (r: Result<(), Error>)
      modifies this, wld
      ensures var spec := old(Distribute(cfg, Current(), sender, a, rootIsValid, grants));
              && r == (if spec.Ok? then Ok(()) else Err(spec.error))
              && Current() == if spec.Ok? then spec.value else old(Current())
    {
      hide OutputPreimage, ProvenOutputHash;
      if !SenderAllowed(cfg.prover, sender) {
        return Err(OnlyProver);
      }
      if |a.receivers| != |a.nullifierHashes| {
        return Err(InvalidProof);
      }
      if a.numClaims as int != |a.receivers| {
        return Err(InvalidProof);
      }
      if a.numClaims as int != |a.grantIds| {
        return Err(InvalidProof);
      }
      if |a.proof| < MINIMUM_SNARK_LENGTH {
        return Err(InvalidProof);
      }
      if a.vkeyHash != cfg.vkeyHash {
        return Err(InvalidVkeyHash);
      }
      if !rootIsValid(a.root) {
        return Err(InvalidRoot);
      }
      if a.numClaims > cfg.maxNumClaims {
        return Err(TooManyClaims);
      }
      var derivedOutputHash := cfg.keccak(OutputPreimage(a));
      var outputHash := ProvenOutputHash(a.proof);
      if outputHash != derivedOutputHash {
        return Err(InvalidProof);
      }
      if !cfg.verifier(a.proof) {
        return Err(InvalidProof);
      }
      var nullifiersBefore, balancesBefore, paymentsBefore := nullifierHashes, wld.balances, payments;
      var failure: Result<(), Error> := Ok(());
      var i := 0;
      while i != a.numClaims as int && failure.Ok?
        invariant i <= a.numClaims as int
        invariant if failure.Ok?
          then old(PayFrom(cfg, Current(), a, grants, 0)) == PayFrom(cfg, Current(), a, grants, i)
          else old(PayFrom(cfg, Current(), a, grants, 0)) == Err(failure.error)
        decreases a.numClaims as int - i, failure.Ok?
      {
        var grantId := a.grantIds[i];
        var receiver := a.receivers[i];
        var claimedNullifierHash := a.nullifierHashes[i];
        if !grants.isValid(grantId) {
          failure := Err(InvalidGrant);
        } else if receiver == 0 {
          failure := Err(InvalidReceiver);
        } else if claimedNullifierHash in nullifierHashes {
          failure := Err(NullifierHashAlreadyUsed);
        } else {
          nullifierHashes := nullifierHashes + {claimedNullifierHash};
          var grantAmount := grants.amount(grantId);
          var ok := wld.Transfer(cfg.self, receiver, grantAmount);
          if ok {
            payments := payments + [Payment(grantId, a.root, receiver, claimedNullifierHash, grantAmount)];
            i := i + 1;
          } else {
            failure := Err(TransferFailed);
          }
        }
      }
      if failure.Err? {
        nullifierHashes, wld.balances, payments := nullifiersBefore, balancesBefore, paymentsBefore;
        return failure;
      }
      return Ok(());
    }
  }

  /** The constructor's check, by the bit trick: deployment succeeds exactly for powers of two. */
  method Deploy(cfg: Config, wld: Wld) returns (r: Result<WorldcoinAggregationV1, Error>)
    ensures r.Ok? <==> IsPow2(cfg.maxNumClaims as int)
    ensures r.Ok? ==> fresh(r.value) && r.value.cfg == cfg && r.value.Current() == State({}, wld.balances, [])
    ensures r.Err? ==> r.error == InvalidMaxNumClaims
  {
    var n := cfg.maxNumClaims as int;
    if n > 0 {
      BitTrick(n);
    }
    if n == 0 || BitAnd(n, n - 1) != 0 {
      return Err(InvalidMaxNumClaims);
    }
    var contract := new WorldcoinAggregationV1(cfg, wld);
    return Ok(contract);
  }

  // ---------- when a batch is paid, and what it pays ----------

  /** What the payments of claims `[i, j)` take from the contract's own balance. */
  function Spent(cfg: Config, a: Args, grants: GrantView, i: nat, j: nat): nat
    requires a.SameLengths() && i <= j <= a.numClaims as int
    decreases j - i
  {
    if i == j then 0
    else
      (if a.receivers[i] == cfg.self then 0 else grants.amount(a.grantIds[i])) + Spent(cfg, a, grants, i + 1, j)
  }

  /** Claim `j` of the claims from `i` on can be paid: a valid grant, a receiver, a nullifier used
      neither before nor earlier in the batch, and enough left in the contract. */
  ghost predicate Payable(cfg: Config, st: State, a: Args, grants: GrantView, i: nat, j: nat)
    requires a.SameLengths() && i <= j < a.numClaims as int
  {
    && grants.isValid(a.grantIds[j])
    && a.receivers[j] != 0
    && a.nullifierHashes[j] !in st.nullifierHashes
    && (forall k :: i <= k < j ==> a.nullifierHashes[k] != a.nullifierHashes[j])
    && Spent(cfg, a, grants, i, j) + grants.amount(a.grantIds[j]) <= BalanceOf(st.balances, cfg.self)
  }

  ghost predicate AllPayable(cfg: Config, st: State, a: Args, grants: GrantView, i: nat)
    requires a.SameLengths() && i <= a.numClaims as int
  {
    forall j :: i <= j < a.numClaims as int ==> Payable(cfg, st, a, grants, i, j)
  }

  /** What payable means for a whole batch, spelled out. */
  lemma AllPayableMeans(cfg: Config, st: State, a: Args, grants: GrantView)
    requires a.SameLengths()
    ensures AllPayable(cfg, st, a, grants, 0) <==>
      forall j :: 0 <= j < a.numClaims as int ==>
        && grants.isValid(a.grantIds[j]) && a.receivers[j] != 0
        && a.nullifierHashes[j] !in st.nullifierHashes
        && (forall k :: 0 <= k < j ==> a.nullifierHashes[k] != a.nullifierHashes[j])
        && Spent(cfg, a, grants, 0, j) + grants.amount(a.grantIds[j]) <= BalanceOf(st.balances, cfg.self)
  {
    hide Spent, BalanceOf;
    if AllPayable(cfg, st, a, grants, 0) {
      forall j | 0 <= j < a.numClaims as int
        ensures
          && grants.isValid(a.grantIds[j]) && a.receivers[j] != 0
          && a.nullifierHashes[j] !in st.nullifierHashes
          && (forall k :: 0 <= k < j ==> a.nullifierHashes[k] != a.nullifierHashes[j])
          && Spent(cfg, a, grants, 0, j) + grants.amount(a.grantIds[j]) <= BalanceOf(st.balances, cfg.self)
      {
        assert Payable(cfg, st, a, grants, 0, j);
      }
    }
  }

  lemma PayableAfterOne(cfg: Config, st: State, a: Args, grants: GrantView, i: nat, j: nat)
    requires a.SameLengths() && i < j < a.numClaims as int
    requires a.nullifierHashes[i] !in st.nullifierHashes
    requires CanTransfer(st.balances, cfg.self, grants.amount(a.grantIds[i]))
    ensures Payable(cfg, PayOne(cfg, st, a.Due(i, grants)), a, grants, i + 1, j) <==> Payable(cfg, st, a, grants, i, j)
  {
    var st' := PayOne(cfg, st, a.Due(i, grants));
    var kept := if a.receivers[i] == cfg.self then 0 else grants.amount(a.grantIds[i]);
    assert BalanceOf(st'.balances, cfg.self) == BalanceOf(st.balances, cfg.self) - kept;
  }

  lemma AllPayableAfterOne(cfg: Config, st: State, a: Args, grants: GrantView, i: nat)
    requires a.SameLengths() && i < a.numClaims as int
    requires Payable(cfg, st, a, grants, i, i)
    ensures AllPayable(cfg, PayOne(cfg, st, a.Due(i, grants)), a, grants, i + 1) <==> AllPayable(cfg, st, a, grants, i)
  {
    hide PayOne;
    var st', next := PayOne(cfg, st, a.Due(i, grants)), i + 1;
    forall j | next <= j < a.numClaims as int
      ensures Payable(cfg, st', a, grants, next, j) <==> Payable(cfg, st, a, grants, i, j)
    {
      PayableAfterOne(cfg, st, a, grants, i, j);
    }
  }

  /** The whole batch is paid exactly when every claim of it is payable from the start. */
  lemma {:induction false} PaidIffAllPayable(cfg: Config, st: State, a: Args, grants: GrantView, i: nat)
    requires a.SameLengths() && i <= a.numClaims as int
    ensures PayFrom(cfg, st, a, grants, i).Ok? <==> AllPayable(cfg, st, a, grants, i)
    decreases a.numClaims as int - i
  {
    hide PayOne;
    if i < a.numClaims as int {
      assert Payable(cfg, st, a, grants, i, i) <==>
        (&& grants.isValid(a.grantIds[i]) && a.receivers[i] != 0 && a.nullifierHashes[i] !in st.nullifierHashes
         && CanTransfer(st.balances, cfg.self, grants.amount(a.grantIds[i])));
      if Payable(cfg, st, a, grants, i, i) {
        PaidIffAllPayable(cfg, PayOne(cfg, st, a.Due(i, grants)), a, grants, i + 1);
        AllPayableAfterOne(cfg, st, a, grants, i);
      }
    }
  }

  /** The payments due for the claims from `i` on. */
  function DueFrom(a: Args, grants: GrantView, i: nat): (ps: seq<Payment>)
    requires a.SameLengths() && i <= a.numClaims as int
    ensures |ps| == a.numClaims as int - i
    ensures forall j :: 0 <= j < |ps| ==> ps[j] == a.Due(i + j, grants)
    decreases a.numClaims as int - i
  {
    if i == a.numClaims as int then [] else [a.Due(i, grants)] + DueFrom(a, grants, i + 1)
  }

  lemma ElementsOfCons(x: Uint256, xs: seq<Uint256>)
    ensures (set y | y in [x] + xs) == {x} + (set y | y in xs)
  {
  }

  /** A paid batch pays each claim once and in order, uses exactly its nullifiers, and moves tokens
      without creating or losing any. */
  lemma {:induction false} PaidBatch(cfg: Config, st: State, a: Args, grants: GrantView, i: nat)
    requires a.SameLengths() && i <= a.numClaims as int
    requires PayFrom(cfg, st, a, grants, i).Ok?
    ensures var st' := PayFrom(cfg, st, a, grants, i).value;
            && st'.payments == st.payments + DueFrom(a, grants, i)
            && st'.nullifierHashes == st.nullifierHashes + (set x | x in a.nullifierHashes[i..])
            && Total(st'.balances) == Total(st.balances)
    decreases a.numClaims as int - i
  {
    hide Transferred, Total, BalanceOf;
    if i < a.numClaims as int {
      var p := a.Due(i, grants);
      TransferConserves(st.balances, cfg.self, p.receiver, p.amount);
      PaidBatch(cfg, PayOne(cfg, st, p), a, grants, i + 1);
      assert a.nullifierHashes[i..] == [p.nullifierHash] + a.nullifierHashes[i + 1..];
      ElementsOfCons(p.nullifierHash, a.nullifierHashes[i + 1..]);
      assert st.payments + [p] + DueFrom(a, grants, i + 1) == st.payments + ([p] + DueFrom(a, grants, i + 1));
    }
  }

  // ---------- runs ----------

  datatype Call =
    | DistributeGrants(sender: Address, args: Args, rootIsValid: Uint256 -> bool, grants: GrantView)
    | OthersTransfer(from: Address, to: Address, amount: nat)

  /** The effect of one transaction; a revert leaves the state as it was. */
  function Step(cfg: Config, st: State, call: Call): State {
    match call
    case DistributeGrants(sender, a, rootIsValid, grants) =>
      var r := Distribute(cfg, st, sender, a, rootIsValid, grants);
      if r.Ok? then r.value else st
    case OthersTransfer(from, to, amount) =>
      if from != cfg.self && CanTransfer(st.balances, from, amount)
      then st.(balances := Transferred(st.balances, from, to, amount))
      else st
  }

  function Run(cfg: Config, balances: Balances, calls: seq<Call>): State {
    if calls == [] then State({}, balances, [])
    else Step(cfg, Run(cfg, balances, calls[..|calls| - 1]), calls[|calls| - 1])
  }

  /** The transfers others made in a run: those not from the contract that the sender could afford. */
  function OthersMoved(cfg: Config, balances: Balances, calls: seq<Call>): seq<Transfer>
  {
    if calls == [] then []
    else
      var before, call := calls[..|calls| - 1], calls[|calls| - 1];
      var moved := OthersMoved(cfg, balances, before);
      if call.OthersTransfer? && call.from != cfg.self
         && call.amount <= BalanceOf(Run(cfg, balances, before).balances, call.from)
      then moved + [Transfer(call.from, call.to, call.amount)] else moved
  }
}
