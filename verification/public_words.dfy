/** The public words of a proof. The verifier contracts use every word modulo the field's order, the
    aggregation contracts read all 256 bits of it: a word is canonical when the two are the same. */
module PublicWords {
  import opened Words
  import opened Field
  import opened Merkle
  import opened Token

  predicate Canonical(w: Uint256) {
    w as int < P
  }

  /** What a verifier sees of a word. */
  function Residue(w: Uint256): F {
    (w as int % P) as F
  }

  /** Word `i` of a proof. */
  function PublicWord(proof: Bytes, i: nat): Uint256
    requires 32 * i + 32 <= |proof|
  {
    Load(proof, 32 * i).ToUint()
  }

  lemma LoadIsPublicWord(proof: Bytes, i: nat)
    requires 32 * i + 32 <= |proof|
    ensures Load(proof, 32 * i) == FromUint(PublicWord(proof, i))
  {
    hide Load;
    UintOfWord(Load(proof, 32 * i));
  }

  /** Words encoded from word `n` on are read back. */
  lemma EncodedWordIsRead(proof: Bytes, n: nat, xs: seq<Uint256>, j: nat)
    requires 32 * n + 32 * |xs| <= |proof| && proof[32 * n..32 * n + 32 * |xs|] == WordBytes(xs) && j < |xs|
    ensures PublicWord(proof, n + j) == xs[j]
  {
    hide Load, FromUint, WordBytes;
    LoadWord(proof, 32 * n, xs, j);
    assert 32 * n + 32 * j == 32 * (n + j);
    UintRoundTrip(xs[j]);
  }

  lemma CanonicalIsResidue(w: Uint256)
    ensures Canonical(w) <==> w == ToUint(Residue(w))
  {
  }

  // ---------- digests in two words ----------

  /** `hi << 128 | lo`, as both aggregation contracts recombine a digest. */
  function Reading(hi: Uint256, lo: Uint256): Word {
    FromUint(hi).Shl128().Or(FromUint(lo))
  }

  /** The words stand for the digest's halves, up to multiples of the order. */
  predicate StandFor(hi: Uint256, lo: Uint256, digest: Word) {
    Residue(hi) as int == digest.hi as int && Residue(lo) as int == digest.lo as int
  }

  /** Multiples of the order move the low half: a word that is not canonical never has the low half of
      its residue. */
  lemma ShiftMovesLowHalf(w: Uint256, half: Uint128)
    requires Residue(w) as int == half as int
    ensures Canonical(w) ==> FromUint(w) == Word(0, half)
    ensures !Canonical(w) ==> FromUint(w).lo != half
  {
    var k := w as int / P;
    assert w as int == half as int + k * P;
    assert k == 0 || k == 1 || k == 2 || k == 3 || k == 4 || k == 5;
    if k == 0 {
      assert w as int == half as int;
    } else if k == 1 {
      assert w as int == half as int + P;
    } else if k == 2 {
      assert w as int == half as int + 2 * P;
    } else if k == 3 {
      assert w as int == half as int + 3 * P;
    } else if k == 4 {
      assert w as int == half as int + 4 * P;
    } else {
      assert w as int == half as int + 5 * P;
    }
  }

  /** The recombined digest is right exactly when both words are canonical. */
  lemma ReadingIsExactIffCanonical(hi: Uint256, lo: Uint256, digest: Word)
    requires StandFor(hi, lo, digest)
    ensures Reading(hi, lo) == digest <==> Canonical(hi) && Canonical(lo)
  {
    hide BitOr, Residue;
    ShiftMovesLowHalf(hi, digest.hi);
    ShiftMovesLowHalf(lo, digest.lo);
    OrWithZero(FromUint(lo).lo);
    OrWithZero(FromUint(hi).lo);
    assert Reading(hi, lo).lo == FromUint(lo).lo;
  }

  lemma OrWithZero(a: Uint128)
    ensures OrHalf(a, 0) == a && OrHalf(0, a) == a
  {
  }

  // ---------- collisions ----------

  /** `v` is how a contract may read words that stand for `digest`. */
  ghost predicate ReadsAs(digest: Word, v: Word) {
    exists hi, lo :: StandFor(hi, lo, digest) && v == Reading(hi, lo)
  }

  /** No collisions, also not through words that are not canonical: the digest of one hashed string is
      not a reading of the digest of another. */
  ghost predicate NoAliasing(h: Hash, hashed: set<Bytes>) {
    forall x, y :: x in hashed && y in hashed && ReadsAs(h(y), h(x)) ==> x == y
  }

  lemma ReadsAsItself(digest: Word)
    ensures ReadsAs(digest, digest)
  {
    var hi, lo := digest.hi as Uint256, digest.lo as Uint256;
    ReadingIsExactIffCanonical(hi, lo, digest);
    assert StandFor(hi, lo, digest) && digest == Reading(hi, lo);
  }

  lemma NoAliasingIsStronger(h: Hash, hashed: set<Bytes>)
    requires NoAliasing(h, hashed)
    ensures NoCollision(h, hashed)
  {
    hide ReadsAs;
    forall x, y | x in hashed && y in hashed && h(x) == h(y)
      ensures x == y
    {
      ReadsAsItself(h(y));
    }
  }

  lemma NoAliasingShrinks(h: Hash, hashed: set<Bytes>, fewer: set<Bytes>)
    requires NoAliasing(h, hashed) && fewer <= hashed
    ensures NoAliasing(h, fewer)
  {
    hide ReadsAs;
  }

  /** A hashed string whose digest is read off words standing for another's digest is that string, and
      the words are canonical. */
  lemma ReadingOfHashed(h: Hash, hashed: set<Bytes>, x: Bytes, y: Bytes, hi: Uint256, lo: Uint256)
    requires NoAliasing(h, hashed) && x in hashed && y in hashed
    requires StandFor(hi, lo, h(y)) && h(x) == Reading(hi, lo)
    ensures x == y && Canonical(hi) && Canonical(lo)
  {
    hide Reading, StandFor;
    assert ReadsAs(h(y), h(x));
    ReadingIsExactIffCanonical(hi, lo, h(y));
  }

  // ---------- changing one word ----------

  /** The proof with word `i` replaced. */
  function WithWord(proof: Bytes, i: nat, w: Uint256): (changed: Bytes)
    requires 32 * i + 32 <= |proof|
    ensures |changed| == |proof|
  {
    proof[..32 * i] + BE(w as int, 32) + proof[32 * i + 32..]
  }

  lemma WithWordReads(proof: Bytes, i: nat, w: Uint256, j: nat)
    requires 32 * i + 32 <= |proof| && 32 * j + 32 <= |proof|
    ensures PublicWord(WithWord(proof, i, w), j) == if j == i then w else PublicWord(proof, j)
  {
    hide BE, FromBytes;
    var changed := WithWord(proof, i, w);
    if j == i {
      assert changed[32 * i..32 * i + 32] == BE(w as int, 32);
      ReadBack(w);
    } else {
      assert changed[32 * j..32 * j + 32] == proof[32 * j..32 * j + 32];
    }
  }

  /** The proofs agree modulo the order in their first `n` words, and exactly behind them. */
  ghost predicate Congruent(proof: Bytes, proof': Bytes, n: nat) {
    && |proof| == |proof'| >= 32 * n
    && proof[32 * n..] == proof'[32 * n..]
    && forall j :: 0 <= j < n ==> Residue(PublicWord(proof, j)) == Residue(PublicWord(proof', j))
  }

  /** A verifier that loads its first `n` words modulo the order cannot tell congruent proofs apart. */
  ghost predicate Reduces(verifier: Bytes -> bool, n: nat) {
    forall proof, proof' :: Congruent(proof, proof', n) ==> verifier(proof) == verifier(proof')
  }

  /** Adding the order to one of those words gives a congruent proof. */
  lemma ShiftedIsCongruent(proof: Bytes, n: nat, i: nat)
    requires |proof| >= 32 * n && i < n && Canonical(PublicWord(proof, i))
    ensures var w := (PublicWord(proof, i) as int + P) as Uint256;
            !Canonical(w) && Residue(w) == Residue(PublicWord(proof, i))
            && Congruent(proof, WithWord(proof, i, w), n)
  {
    hide BE, PublicWord;
    var w := (PublicWord(proof, i) as int + P) as Uint256;
    var changed := WithWord(proof, i, w);
    forall j | 0 <= j < n
      ensures Residue(PublicWord(proof, j)) == Residue(PublicWord(changed, j))
    {
      WithWordReads(proof, i, w, j);
    }
    assert changed[32 * n..] == proof[32 * n..];
  }
}
