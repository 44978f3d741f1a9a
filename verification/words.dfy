/** Byte strings, big-endian words and the few bitwise operations the contracts use. */
module Words {

  newtype Byte = x: int | 0 <= x < 256

  type Bytes = seq<Byte>

  const TWO_64: nat := 0x1_0000_0000_0000_0000
  const TWO_128: nat := 0x1_0000_0000_0000_0000_0000_0000_0000_0000
  const TWO_160: nat := 0x1_0000_0000_0000_0000_0000_0000_0000_0000_0000_0000
  const TWO_256: nat := 0x1_0000_0000_0000_0000_0000_0000_0000_0000_0000_0000_0000_0000_0000_0000_0000_0000

  newtype Uint128 = x: int | 0 <= x < TWO_128

  newtype Uint256 = x: int | 0 <= x < TWO_256

  /** A 32-byte word (Solidity's `bytes32`, and a Keccak digest), by its two 128-bit halves. This
      is the `HiLo` pair in which the circuits carry a digest. */
  datatype Word = Word(hi: Uint128, lo: Uint128) {
    /** The 32 bytes, most significant first. */
    function ToBytes(): (b: Bytes)
      ensures |b| == 32
    {
      BE(hi as int, 16) + BE(lo as int, 16)
    }

    /** `uint256(w)`. */
    function ToUint(): Uint256 {
      ((hi as int) * TWO_128 + lo as int) as Uint256
    }

    /** `w << 128`: the upper half is lost. */
    function Shl128(): Word {
      Word(lo, 0)
    }

    /** `w >> 128`: the lower half is lost. */
    function Shr128(): Word {
      Word(0, hi)
    }

    /** `w & 2^128 - 1`. */
    function Low128(): Word {
      Word(0, lo)
    }

    /** `w | v`. */
    function Or(v: Word): Word {
      Word(OrHalf(hi, v.hi), OrHalf(lo, v.lo))
    }
  }

  /** The hash function is a parameter of everything that hashes. */
  type Hash = Bytes -> Word

  function Pow2(n: nat): (r: nat)
    ensures r >= 1
  {
    if n == 0 then 1 else 2 * Pow2(n - 1)
  }

  lemma Pow2Doubles(n: nat)
    ensures Pow2(n + 1) == 2 * Pow2(n)
  {
  }

  lemma {:induction false} Pow2Monotone(m: nat, n: nat)
    requires m <= n
    ensures Pow2(m) <= Pow2(n)
  {
    if m < n {
      Pow2Monotone(m, n - 1);
    }
  }

  /** Powers of two determine their exponent. */
  lemma {:induction false} Pow2Injective(m: nat, n: nat)
    requires Pow2(m) == Pow2(n)
    ensures m == n
  {
    if m > 0 && n > 0 {
      Pow2Injective(m - 1, n - 1);
    }
  }

  function Pow256(n: nat): (r: nat)
    ensures r >= 1
  {
    if n == 0 then 1 else 256 * Pow256(n - 1)
  }

  lemma {:induction false} Pow2OfBytes(n: nat)
    ensures Pow2(8 * n) == Pow256(n)
  {
    if n > 0 {
      Pow2OfBytes(n - 1);
      var m := 8 * (n - 1);
      assert Pow2(m + 2) == 2 * Pow2(m + 1) == 4 * Pow2(m);
      assert Pow2(m + 4) == 2 * Pow2(m + 3) == 4 * Pow2(m + 2);
      assert Pow2(m + 6) == 2 * Pow2(m + 5) == 4 * Pow2(m + 4);
      assert Pow2(m + 8) == 2 * Pow2(m + 7) == 4 * Pow2(m + 6);
    }
  }

  lemma PowerValues()
    ensures Pow256(16) == TWO_128 && Pow256(20) == TWO_160 && Pow256(32) == TWO_256
    ensures Pow2(64) == TWO_64 && Pow2(128) == TWO_128 && Pow2(160) == TWO_160
  {
    assert Pow256(8) == TWO_64;
    assert Pow256(16) == TWO_128;
    assert Pow256(20) == TWO_160;
    assert Pow256(26) == 0x1_0000_0000_0000_0000_0000_0000_0000_0000_0000_0000_0000_0000_0000;
    assert Pow256(32) == TWO_256;
    Pow2OfBytes(8);
    Pow2OfBytes(16);
    Pow2OfBytes(20);
  }

  function Zeros(n: nat): (b: Bytes)
    ensures |b| == n && forall i :: 0 <= i < n ==> b[i] == 0
  {
    seq(n, i => 0)
  }

  /** `uint_to_bytes_be`: the low `n` bytes of `x`, most significant first. */
  function BE(x: nat, n: nat): (b: Bytes)
    ensures |b| == n
  {
    if n == 0 then [] else BE(x / 256, n - 1) + [(x % 256) as Byte]
  }

  lemma Distributes(a: int, b: int, q: int)
    ensures (a - b) * q == a * q - b * q
  {
  }

  lemma AtLeastOnce(a: int, q: int)
    requires a >= 1 && q >= 0
    ensures a * q >= q
  {
    assert (a - 1) * q >= 0;
  }

  lemma DivUnique(x: int, q: int, d: int, r: int)
    requires 0 <= r < q && x == d * q + r
    ensures x / q == d
  {
    var e, t := x / q, x % q;
    assert x == e * q + t && 0 <= t < q;
    Distributes(e, d, q);
    Distributes(d, e, q);
    if e > d {
      AtLeastOnce(e - d, q);
    } else if d > e {
      AtLeastOnce(d - e, q);
    }
  }

  lemma DivPow256(x: nat, k: nat)
    ensures x / 256 / Pow256(k) == x / Pow256(k + 1)
  {
    var q, y := Pow256(k), x / 256;
    var d, r := y / q, y % q;
    assert y == d * q + r && 0 <= r < q;
    assert d * (256 * q) == 256 * (d * q);
    DivUnique(x, 256 * q, d, 256 * r + x % 256);
  }

  /** Byte i of the encoding, counted from the most significant, is the number's digit to base 256. */
  lemma {:induction false} BEDigit(x: nat, n: nat, i: nat)
    requires i < n
    ensures BE(x, n)[i] as int == x / Pow256(n - 1 - i) % 256
  {
    if i < n - 1 {
      BEDigit(x / 256, n - 1, i);
      DivPow256(x, n - 2 - i);
    }
  }

  function Val(b: Bytes): nat {
    if b == [] then 0 else Val(b[..|b| - 1]) * 256 + b[|b| - 1] as int
  }

  lemma {:induction false} ValBE(x: nat, n: nat)
    requires x < Pow256(n)
    ensures Val(BE(x, n)) == x
  {
    if n > 0 {
      ValBE(x / 256, n - 1);
      assert BE(x, n)[..n - 1] == BE(x / 256, n - 1);
    }
  }

  lemma {:induction false} BEVal(b: Bytes)
    ensures Val(b) < Pow256(|b|)
    ensures BE(Val(b), |b|) == b
  {
    if b != [] {
      var front := b[..|b| - 1];
      BEVal(front);
      assert Val(b) / 256 == Val(front) && Val(b) % 256 == b[|b| - 1] as int;
      assert b == front + [b[|b| - 1]];
    }
  }

  lemma BEInjective(x: nat, y: nat, n: nat)
    requires x < Pow256(n) && y < Pow256(n)
    requires BE(x, n) == BE(y, n)
    ensures x == y
  {
    ValBE(x, n);
    ValBE(y, n);
  }

  lemma {:induction false} BEOfZero(n: nat)
    ensures BE(0, n) == Zeros(n)
  {
    if n > 0 {
      BEOfZero(n - 1);
    }
  }

  /** Encodings of the high and low part of a number concatenate to the encoding of the number. */
  lemma {:induction false} BEAppend(high: nat, low: nat, n: nat, m: nat)
    requires low < Pow256(m)
    ensures BE(high * Pow256(m) + low, n + m) == BE(high, n) + BE(low, m)
  {
    if m > 0 {
      var q := Pow256(m - 1);
      assert high * Pow256(m) == 256 * (high * q);
      assert (high * Pow256(m) + low) / 256 == high * q + low / 256;
      BEAppend(high, low / 256, n, m - 1);
    }
  }

  // ---------- bitwise operations ----------

  function BitAnd(a: nat, b: nat): nat {
    if a == 0 || b == 0 then 0
    else 2 * BitAnd(a / 2, b / 2) + (if a % 2 == 1 && b % 2 == 1 then 1 else 0)
  }

  function BitOr(a: nat, b: nat): nat
    decreases a + b
  {
    if a == 0 then b else if b == 0 then a
    else 2 * BitOr(a / 2, b / 2) + (if a % 2 == 1 || b % 2 == 1 then 1 else 0)
  }

  lemma {:induction false} BitOrBound(a: nat, b: nat, k: nat)
    requires a < Pow2(k) && b < Pow2(k)
    ensures BitOr(a, b) < Pow2(k)
    decreases k
  {
    if a != 0 && b != 0 && k > 0 {
      BitOrBound(a / 2, b / 2, k - 1);
    }
  }

  function OrHalf(a: Uint128, b: Uint128): Uint128 {
    PowerValues();
    BitOrBound(a as int, b as int, 128);
    BitOr(a as int, b as int) as Uint128
  }

  /** Bit j of a number. */
  function NthBit(x: nat, j: nat): nat {
    if j == 0 then x % 2 else NthBit(x / 2, j - 1)
  }

  predicate IsPow2(n: nat) {
    n == 1 || (n > 0 && n % 2 == 0 && IsPow2(n / 2))
  }

  lemma IsPow2Halves(n: nat)
    ensures n <= 1 ==> (IsPow2(n) <==> n == 1)
    ensures n > 1 ==> (IsPow2(n) <==> n % 2 == 0 && IsPow2(n / 2))
  {
  }

  lemma {:induction false} IsPow2OfPow2(k: nat)
    ensures IsPow2(Pow2(k))
  {
    if k > 0 {
      IsPow2OfPow2(k - 1);
    }
  }

  lemma {:induction false} Log2(n: nat) returns (k: nat)
    requires IsPow2(n)
    ensures n == Pow2(k)
  {
    if n == 1 {
      k := 0;
    } else {
      k := Log2(n / 2);
      k := k + 1;
    }
  }

  lemma {:induction false} BitAndSelf(n: nat)
    ensures BitAnd(n, n) == n
  {
    if n > 0 {
      BitAndSelf(n / 2);
    }
  }

  /** The bit trick of the V1 constructor recognises exactly the powers of two. */
  lemma {:induction false} BitTrick(n: nat)
    requires n > 0
    ensures BitAnd(n, n - 1) == 0 <==> IsPow2(n)
  {
    if n % 2 == 1 {
      BitAndSelf(n / 2);
      assert (n - 1) / 2 == n / 2;
    } else if n > 1 {
      BitTrick(n / 2);
      assert (n - 1) / 2 == n / 2 - 1;
    }
  }

  // ---------- words ----------

  /** The word whose bytes are given. */
  function FromBytes(b: Bytes): Word
    requires |b| == 32
  {
    BEVal(b[..16]);
    BEVal(b[16..]);
    PowerValues();
    Word(Val(b[..16]) as Uint128, Val(b[16..]) as Uint128)
  }

  lemma FromToBytes(w: Word)
    ensures FromBytes(w.ToBytes()) == w
  {
    hide BE, Val, Pow256;
    PowerValues();
    ValBE(w.hi as int, 16);
    ValBE(w.lo as int, 16);
    assert w.ToBytes()[..16] == BE(w.hi as int, 16) && w.ToBytes()[16..] == BE(w.lo as int, 16);
  }

  lemma ToFromBytes(b: Bytes)
    requires |b| == 32
    ensures FromBytes(b).ToBytes() == b
  {
    hide BE, Val, Pow256;
    BEVal(b[..16]);
    BEVal(b[16..]);
    assert b == b[..16] + b[16..];
  }

  lemma ToBytesInjective(v: Word, w: Word)
    requires v.ToBytes() == w.ToBytes()
    ensures v == w
  {
    FromToBytes(v);
    FromToBytes(w);
  }

  function FromUint(x: Uint256): Word {
    Word((x as int / TWO_128) as Uint128, (x as int % TWO_128) as Uint128)
  }

  lemma UintRoundTrip(x: Uint256)
    ensures FromUint(x).ToUint() == x
  {
  }

  lemma UintOfWord(w: Word)
    ensures FromUint(w.ToUint()) == w
  {
  }

  /** The bytes of `bytes32(x)` are the big-endian encoding of `x`. */
  lemma UintBytes(x: Uint256)
    ensures FromUint(x).ToBytes() == BE(x as int, 32)
  {
    hide BE, Pow256;
    PowerValues();
    var high, low := x as int / TWO_128, x as int % TWO_128;
    assert high * Pow256(16) + low == x as int;
    BEAppend(high, low, 16, 16);
  }

  /** Reading 32 bytes back as a word, or as a number, undoes the encoding. */
  lemma ReadBack(x: Uint256)
    ensures FromBytes(BE(x as int, 32)) == FromUint(x)
    ensures FromBytes(BE(x as int, 32)).ToUint() == x
  {
    hide BE, FromBytes;
    UintBytes(x);
    FromToBytes(FromUint(x));
  }

  /** Every number as a 32-byte word, concatenated. */
  function WordBytes(xs: seq<Uint256>): (b: Bytes)
    ensures |b| == 32 * |xs|
  {
    if xs == [] then [] else BE(xs[0] as int, 32) + WordBytes(xs[1..])
  }

  lemma {:induction false} WordBytesConcat(xs: seq<Uint256>, ys: seq<Uint256>)
    ensures WordBytes(xs + ys) == WordBytes(xs) + WordBytes(ys)
  {
    if xs == [] {
      assert xs + ys == ys;
    } else {
      WordBytesConcat(xs[1..], ys);
      assert (xs + ys)[1..] == xs[1..] + ys;
    }
  }

  /** Word `i` of the encoding is the encoding of number `i`. */
  lemma {:induction false} WordAt(xs: seq<Uint256>, i: nat)
    requires i < |xs|
    ensures WordBytes(xs)[32 * i..32 * i + 32] == BE(xs[i] as int, 32)
  {
    if i > 0 {
      WordAt(xs[1..], i - 1);
      assert WordBytes(xs)[32 * i..32 * i + 32] == WordBytes(xs[1..])[32 * (i - 1)..32 * (i - 1) + 32];
    }
  }

  /** Equal encodings come from equal lists of words. */
  lemma WordBytesInjective(xs: seq<Uint256>, ys: seq<Uint256>)
    requires WordBytes(xs) == WordBytes(ys)
    ensures xs == ys
  {
    PowerValues();
    forall i | 0 <= i < |xs|
      ensures xs[i] == ys[i]
    {
      WordAt(xs, i);
      WordAt(ys, i);
      BEInjective(xs[i] as int, ys[i] as int, 32);
    }
  }

  /** `byte(index, value)` coerced to a bool: any non-zero byte is true. */
  function DirectionBits(isLeftBytes: Word, n: nat): (isLeft: seq<bool>)
    requires n <= 32
    ensures |isLeft| == n
  {
    seq(n, i requires 0 <= i < n => isLeftBytes.ToBytes()[i] != 0)
  }
}
