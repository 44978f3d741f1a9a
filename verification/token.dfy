/** The WLD token as the contracts use it, and the views of the other contracts they call. */
module Token {
  import opened Words

  newtype Address = x: int | 0 <= x < TWO_160

  type Balances = map<Address, nat>

  function BalanceOf(balances: Balances, a: Address): nat {
    if a in balances then balances[a] else 0
  }

  /** An EIP-20 transfer that reverts on insufficient balance. */
  predicate CanTransfer(balances: Balances, from: Address, amount: nat) {
    amount <= BalanceOf(balances, from)
  }

  function Transferred(balances: Balances, from: Address, to: Address, amount: nat): Balances
    requires CanTransfer(balances, from, amount)
  {
    var debited := balances[from := BalanceOf(balances, from) - amount];
    debited[to := BalanceOf(debited, to) + amount]
  }

  /** The sum of all balances. */
  ghost function Total(balances: Balances): nat
    decreases |balances|
  {
    if balances == map[] then 0
    else
      var a :| a in balances;
      balances[a] + Total(balances - {a})
  }

  lemma {:induction false} TotalSplits(balances: Balances, a: Address)
    requires a in balances
    ensures Total(balances) == balances[a] + Total(balances - {a})
    decreases |balances|
  {
    var b :| b in balances && Total(balances) == balances[b] + Total(balances - {b});
    if a != b {
      TotalSplits(balances - {b}, a);
      TotalSplits(balances - {a}, b);
      assert balances - {b} - {a} == balances - {a} - {b};
    }
  }

  lemma TotalOfUpdate(balances: Balances, a: Address, value: nat)
    ensures Total(balances[a := value]) == Total(balances) - BalanceOf(balances, a) + value
  {
    TotalSplits(balances[a := value], a);
    assert balances[a := value] - {a} == balances - {a};
    if a in balances {
      TotalSplits(balances, a);
    } else {
      assert balances - {a} == balances;
    }
  }

  lemma TransferConserves(balances: Balances, from: Address, to: Address, amount: nat)
    requires CanTransfer(balances, from, amount)
    ensures Total(Transferred(balances, from, to, amount)) == Total(balances)
  {
    var debited := balances[from := BalanceOf(balances, from) - amount];
    TotalOfUpdate(balances, from, BalanceOf(balances, from) - amount);
    TotalOfUpdate(debited, to, BalanceOf(debited, to) + amount);
  }

  /** A transfer leaves the payer its rest, and nobody else less. */
  lemma BalanceAfterTransfer(balances: Balances, from: Address, to: Address, amount: nat, a: Address)
    requires CanTransfer(balances, from, amount)
    ensures BalanceOf(Transferred(balances, from, to, amount), a)
         == BalanceOf(balances, a) + (if a == to then amount else 0) - (if a == from then amount else 0)
  {
  }

  class Wld {
    var balances: Balances

    constructor (balances: Balances)
      ensures this.balances == balances
    {
      this.balances := balances;
    }

    method Transfer(from: Address, to: Address, amount: nat) returns (ok: bool)
      modifies this
      ensures ok == CanTransfer(old(balances), from, amount)
      ensures balances == if ok then Transferred(old(balances), from, to, amount) else old(balances)
    {
      ok := amount <= BalanceOf(balances, from);
      if ok {
        balances := balances[from := BalanceOf(balances, from) - amount];
        balances := balances[to := BalanceOf(balances, to) + amount];
      }
    }
  }

  /** What the grant contract answers during one call. */
  datatype GrantView = GrantView(isValid: Uint256 -> bool, amount: Uint256 -> nat)

  /** One transfer made for a claim. */
  datatype Payment = Payment(grantId: Uint256, root: Uint256, receiver: Address, nullifierHash: Uint256, amount: nat)

  /** What the payments amount to. */
  function PaidOut(payments: seq<Payment>): nat {
    if payments == [] then 0 else PaidOut(payments[..|payments| - 1]) + payments[|payments| - 1].amount
  }

  /** What the payments that name this receiver amount to. */
  function PaidTo(receiver: Address, payments: seq<Payment>): nat {
    if payments == [] then 0
    else
      var p := payments[|payments| - 1];
      PaidTo(receiver, payments[..|payments| - 1]) + if p.receiver == receiver then p.amount else 0
  }

  lemma {:induction false} PaidConcat(receiver: Address, payments: seq<Payment>, more: seq<Payment>)
    ensures PaidTo(receiver, payments + more) == PaidTo(receiver, payments) + PaidTo(receiver, more)
    ensures PaidOut(payments + more) == PaidOut(payments) + PaidOut(more)
  {
    if more == [] {
      assert payments + more == payments;
    } else {
      PaidConcat(receiver, payments, more[..|more| - 1]);
      assert (payments + more)[..|payments + more| - 1] == payments + more[..|more| - 1];
    }
  }

  /** A transfer that is no payment. */
  datatype Transfer = Transfer(from: Address, to: Address, amount: nat)

  function MovedTo(a: Address, transfers: seq<Transfer>): nat {
    if transfers == [] then 0
    else
      var t := transfers[|transfers| - 1];
      MovedTo(a, transfers[..|transfers| - 1]) + if t.to == a then t.amount else 0
  }

  function MovedFrom(a: Address, transfers: seq<Transfer>): nat {
    if transfers == [] then 0
    else
      var t := transfers[|transfers| - 1];
      MovedFrom(a, transfers[..|transfers| - 1]) + if t.from == a then t.amount else 0
  }

  lemma NothingMoved(a: Address)
    ensures MovedTo(a, []) == MovedFrom(a, []) == PaidTo(a, []) == PaidOut([]) == 0
  {
  }

  lemma MovedOneMore(a: Address, transfers: seq<Transfer>, t: Transfer)
    ensures MovedTo(a, transfers + [t]) == MovedTo(a, transfers) + if t.to == a then t.amount else 0
    ensures MovedFrom(a, transfers + [t]) == MovedFrom(a, transfers) + if t.from == a then t.amount else 0
  {
    assert (transfers + [t])[..|transfers|] == transfers;
  }

  lemma PaymentOneMore(a: Address, payments: seq<Payment>, p: Payment)
    ensures PaidTo(a, payments + [p]) == PaidTo(a, payments) + if p.receiver == a then p.amount else 0
    ensures PaidOut(payments + [p]) == PaidOut(payments) + p.amount
  {
    assert (payments + [p])[..|payments|] == payments;
  }

  /** The used nullifiers are exactly those paid, and none was paid twice. */
  ghost predicate OncePerNullifier(used: set<Uint256>, payments: seq<Payment>) {
    && (forall i, j :: 0 <= i < j < |payments| ==> payments[i].nullifierHash != payments[j].nullifierHash)
    && (forall x :: x in used <==> exists i :: 0 <= i < |payments| && payments[i].nullifierHash == x)
  }

  lemma OnceAfterPayment(used: set<Uint256>, payments: seq<Payment>, p: Payment)
    requires OncePerNullifier(used, payments) && p.nullifierHash !in used
    ensures OncePerNullifier(used + {p.nullifierHash}, payments + [p])
  {
    var more := payments + [p];
    forall x
      ensures x in used + {p.nullifierHash} <==> exists i :: 0 <= i < |more| && more[i].nullifierHash == x
    {
      if x == p.nullifierHash {
        assert more[|payments|].nullifierHash == x;
      } else if x in used {
        var i :| 0 <= i < |payments| && payments[i].nullifierHash == x;
        assert more[i].nullifierHash == x;
      }
    }
  }

  datatype Error =
    | OnlyProver
    | InvalidLogMaxNumClaims
    | InvalidMaxNumClaims
    | InvalidProof
    | InvalidVkeyHash
    | InvalidRoot
    | InvalidNumberOfClaims
    | TooManyClaims
    | NullifierHashAlreadyUsed
    | InvalidReceiver
    | InvalidGrant
    | InvalidMerkleProofLength
    | InvalidMerkleProof
    | TransferFailed

  /** Sender restriction of both contracts: the zero address lifts it. */
  predicate SenderAllowed(prover: Address, sender: Address) {
    prover == 0 || sender == prover
  }

  /** The word at a byte offset of calldata. */
  function Load(proof: Bytes, offset: nat): Word
    requires offset + 32 <= |proof|
  {
    FromBytes(proof[offset..offset + 32])
  }

  lemma SliceOfSlice(b: Bytes, lo: nat, hi: nat, i: nat, j: nat)
    requires i <= j && lo + j <= hi <= |b|
    ensures b[lo..hi][i..j] == b[lo + i..lo + j]
  {
    var s, t := b[lo..hi][i..j], b[lo + i..lo + j];
    forall k | 0 <= k < |s|
      ensures s[k] == t[k]
    {
      assert s[k] == b[lo..hi][i + k] == b[lo + (i + k)];
    }
  }

  /** Word `i` of a list encoded from byte `base` on reads back as number `i`. */
  lemma LoadWord(proof: Bytes, base: nat, xs: seq<Uint256>, i: nat)
    requires base + 32 * |xs| <= |proof| && proof[base..base + 32 * |xs|] == WordBytes(xs)
    requires i < |xs|
    ensures Load(proof, base + 32 * i) == FromUint(xs[i])
  {
    hide BE, WordBytes, FromBytes, FromUint;
    WordAt(xs, i);
    ReadBack(xs[i]);
    SliceOfSlice(proof, base, base + 32 * |xs|, 32 * i, 32 * i + 32);
  }
}
