/** Keccak Merkle trees without sorting of children: the flat root all parts must agree on,
    the circuits' recursive tree, the padding roots and the contract's path fold. */
module Merkle {
  import opened Words

  /** keccak256(left | right). */
  function Branch(h: Hash, left: Word, right: Word): Word {
    h(left.ToBytes() + right.ToBytes())
  }

  /** The root of the perfect subtree over the 2^k leaves from `from` on. */
  function SubRoot(h: Hash, k: nat, leaves: seq<Word>, from: nat): Word
    requires from + Pow2(k) <= |leaves|
  {
    if k == 0 then leaves[from]
    else Branch(h, SubRoot(h, k - 1, leaves, from), SubRoot(h, k - 1, leaves, from + Pow2(k - 1)))
  }

  /** The reference root of a perfect tree with 2^k leaves. */
  function Root(h: Hash, k: nat, leaves: seq<Word>): Word
    requires |leaves| == Pow2(k)
  {
    SubRoot(h, k, leaves, 0)
  }

  /** A subtree's root depends on its own leaves only. */
  lemma {:induction false} SubRootLocal(h: Hash, k: nat, a: seq<Word>, i: nat, b: seq<Word>, j: nat)
    requires i + Pow2(k) <= |a| && j + Pow2(k) <= |b|
    requires forall m :: i <= m < i + Pow2(k) ==> a[m] == b[m - i + j]
    ensures SubRoot(h, k, a, i) == SubRoot(h, k, b, j)
  {
    hide Branch;
    if k > 0 {
      var half := Pow2(k - 1);
      SubRootLocal(h, k - 1, a, i, b, j);
      SubRootLocal(h, k - 1, a, i + half, b, j + half);
    }
  }

  lemma RootOfConcat(h: Hash, k: nat, left: seq<Word>, right: seq<Word>)
    requires |left| == |right| == Pow2(k)
    ensures Root(h, k + 1, left + right) == Branch(h, Root(h, k, left), Root(h, k, right))
    ensures Root(h, k + 1, left + right) == h(Root(h, k, left).ToBytes() + Root(h, k, right).ToBytes())
  {
    SubRootLocal(h, k, left + right, 0, left, 0);
    SubRootLocal(h, k, left + right, Pow2(k), right, 0);
  }

  /** One level up: neighbours are hashed in pairs. */
  function PairUp(h: Hash, layer: seq<Word>): (next: seq<Word>)
    requires |layer| % 2 == 0
    ensures 2 * |next| == |layer|
    ensures forall i :: 0 <= i < |next| ==> next[i] == Branch(h, layer[2 * i], layer[2 * i + 1])
  {
    seq(|layer| / 2, i requires 0 <= i < |layer| / 2 => Branch(h, layer[2 * i], layer[2 * i + 1]))
  }

  lemma {:induction false} SubRootOfPairUp(h: Hash, k: nat, layer: seq<Word>, from: nat, next: seq<Word>)
    requires |layer| % 2 == 0 && next == PairUp(h, layer)
    requires from + Pow2(k) <= |next|
    ensures 2 * from + Pow2(k + 1) <= |layer|
    ensures SubRoot(h, k + 1, layer, 2 * from) == SubRoot(h, k, next, from)
  {
    hide PairUp, Branch;
    if k > 0 {
      var half := Pow2(k - 1);
      SubRootOfPairUp(h, k - 1, layer, from + half, next);
      SubRootOfPairUp(h, k - 1, layer, from, next);
      assert Pow2(k) == half + half;
    }
  }

  /** Working layer by layer from the leaves gives the same root as splitting at the top. */
  lemma RootOfPairUp(h: Hash, k: nat, leaves: seq<Word>)
    requires |leaves| == Pow2(k + 1)
    ensures Root(h, k + 1, leaves) == Root(h, k, PairUp(h, leaves))
  {
    SubRootOfPairUp(h, k, leaves, 0, PairUp(h, leaves));
  }

  // ---------- the tree built inside the leaf circuit ----------

  /** Recursion on the next level first, then this level's nodes appended. */
  function CircuitTree(h: Hash, leaves: seq<Word>): (tree: seq<Word>)
    requires IsPow2(|leaves|)
    ensures |tree| == 2 * |leaves| - 1
    decreases |leaves|
  {
    if |leaves| == 1 then leaves else CircuitTree(h, PairUp(h, leaves)) + leaves
  }

  /** `tree` is a heap whose last `n` nodes are the leaves. */
  ghost predicate IsHeap(h: Hash, tree: seq<Word>, n: nat)
    requires n > 0 && |tree| == 2 * n - 1
  {
    forall i :: 0 <= i < n - 1 ==> tree[i] == Branch(h, tree[2 * i + 1], tree[2 * i + 2])
  }

  lemma HeapMeans(h: Hash, tree: seq<Word>, n: nat)
    requires n > 0 && |tree| == 2 * n - 1 && IsHeap(h, tree, n)
    ensures forall i :: 0 <= i < n - 1 ==> tree[i] == h(tree[2 * i + 1].ToBytes() + tree[2 * i + 2].ToBytes())
  {
    hide Word.ToBytes;
  }

  lemma HeapGrows(h: Hash, tree: seq<Word>, leaves: seq<Word>, m: nat)
    requires m > 0 && |tree| == 2 * m - 1 && |leaves| == 2 * m
    requires IsHeap(h, tree, m) && tree[m - 1..] == PairUp(h, leaves)
    ensures IsHeap(h, tree + leaves, 2 * m)
  {
    hide Branch;
    var t := tree + leaves;
    forall i | 0 <= i < 2 * m - 1
      ensures t[i] == Branch(h, t[2 * i + 1], t[2 * i + 2])
    {
      if i >= m - 1 {
        var j := i - (m - 1);
        assert t[i] == tree[m - 1..][j];
        assert t[2 * i + 1] == leaves[2 * j] && t[2 * i + 2] == leaves[2 * j + 1];
      }
    }
  }

  /** The result is a heap over the leaves: node i is the hash of nodes 2i + 1 and 2i + 2. */
  lemma {:induction false} CircuitTreeIsHeap(h: Hash, leaves: seq<Word>)
    requires IsPow2(|leaves|)
    ensures IsHeap(h, CircuitTree(h, leaves), |leaves|)
    ensures var t := CircuitTree(h, leaves);
            forall i :: 0 <= i < |leaves| - 1 ==> t[i] == h(t[2 * i + 1].ToBytes() + t[2 * i + 2].ToBytes())
    ensures CircuitTree(h, leaves)[|leaves| - 1..] == leaves
    decreases |leaves|
  {
    hide PairUp, Branch;
    if |leaves| > 1 {
      var up := PairUp(h, leaves);
      CircuitTreeIsHeap(h, up);
      HeapGrows(h, CircuitTree(h, up), leaves, |up|);
    }
    HeapMeans(h, CircuitTree(h, leaves), |leaves|);
  }

  /** Node 0 is the flat root. */
  lemma {:induction false} CircuitTreeRoot(h: Hash, k: nat, leaves: seq<Word>)
    requires |leaves| == Pow2(k)
    ensures IsPow2(|leaves|)
    ensures CircuitTree(h, leaves)[0] == Root(h, k, leaves)
  {
    hide PairUp, Branch, IsPow2;
    IsPow2OfPow2(k);
    if k > 0 {
      RootOfPairUp(h, k - 1, leaves);
      CircuitTreeRoot(h, k - 1, PairUp(h, leaves));
    }
  }

  // ---------- roots of all-padding subtrees ----------

  /** The packed zero leaf: 32 + 20 + 32 zero bytes. */
  const ZERO_LEAF: Bytes := Zeros(84)

  function ZeroLeaves(h: Hash, n: nat): (leaves: seq<Word>)
    ensures |leaves| == n && forall i :: 0 <= i < n ==> leaves[i] == h(ZERO_LEAF)
  {
    seq(n, i => h(ZERO_LEAF))
  }

  /** The root of a subtree holding nothing but padding. */
  function DummyRoot(h: Hash, k: nat): Word {
    Root(h, k, ZeroLeaves(h, Pow2(k)))
  }

  lemma DummyRootDoubles(h: Hash, k: nat)
    ensures DummyRoot(h, k + 1) == Branch(h, DummyRoot(h, k), DummyRoot(h, k))
  {
    var zeros := ZeroLeaves(h, Pow2(k));
    RootOfConcat(h, k, zeros, zeros);
    assert zeros + zeros == ZeroLeaves(h, Pow2(k + 1));
  }

  /** `max_depth` of the precomputed table: 8192 claims. */
  const DUMMY_TABLE_DEPTH: nat := 13

  /** The table `DUMMY_CLAIM_ROOTS`, built one level at a time. */
  method DummyClaimRoots(h: Hash) returns (roots: seq<Word>)
    ensures |roots| == DUMMY_TABLE_DEPTH + 1 == 14
    ensures forall d :: 0 <= d < |roots| ==> roots[d] == DummyRoot(h, d)
  {
    var currentLevel := [h(ZERO_LEAF)];
    roots := [currentLevel[0]];
    for depth := 1 to DUMMY_TABLE_DEPTH + 1
      invariant |roots| == depth
      invariant |currentLevel| == 1 && currentLevel[0] == DummyRoot(h, depth - 1)
      invariant forall d :: 0 <= d < depth ==> roots[d] == DummyRoot(h, d)
    {
      DummyRootDoubles(h, depth - 1);
      currentLevel := seq(|currentLevel|, i requires 0 <= i < |currentLevel| =>
        Branch(h, currentLevel[i], currentLevel[i]));
      roots := roots + [currentLevel[0]];
    }
  }

  // ---------- Merkle paths ----------

  /** The 64 bytes hashed at one step of a path; `isLeft` says the sister node is on the left. */
  function StepPreimage(node: Word, sister: Word, isLeft: bool): (b: Bytes)
    ensures |b| == 64
  {
    if isLeft then sister.ToBytes() + node.ToBytes() else node.ToBytes() + sister.ToBytes()
  }

  /** The running hash after the first `n` steps of a path. */
  function Fold(h: Hash, leaf: Word, sisters: seq<Word>, isLeft: seq<bool>, n: nat): Word
    requires n <= |sisters| && n <= |isLeft|
  {
    if n == 0 then leaf
    else h(StepPreimage(Fold(h, leaf, sisters, isLeft, n - 1), sisters[n - 1], isLeft[n - 1]))
  }

  /** The leaf position the first `n` direction bits spell out, least significant bit first. */
  function Index(isLeft: seq<bool>, n: nat): (i: nat)
    requires n <= |isLeft|
    ensures i < Pow2(n)
  {
    if n == 0 then 0 else Index(isLeft, n - 1) + (if isLeft[n - 1] then Pow2(n - 1) else 0)
  }

  lemma {:induction false} IndexFromFront(isLeft: seq<bool>, n: nat)
    requires n < |isLeft|
    ensures Index(isLeft, n + 1) == (if isLeft[0] then 1 else 0) + 2 * Index(isLeft[1..], n)
  {
    if n > 0 {
      IndexFromFront(isLeft, n - 1);
    }
  }

  /** Direction j is bit j of the leaf position. */
  lemma {:induction false} IndexBit(isLeft: seq<bool>, n: nat, j: nat)
    requires j < n <= |isLeft|
    ensures NthBit(Index(isLeft, n), j) == if isLeft[j] then 1 else 0
    decreases j
  {
    IndexFromFront(isLeft, n - 1);
    if j > 0 {
      IndexBit(isLeft[1..], n - 1, j - 1);
    }
  }

  function HashAll(h: Hash, preimages: seq<Bytes>): (digests: seq<Word>)
    ensures |digests| == |preimages|
    ensures forall i :: 0 <= i < |digests| ==> digests[i] == h(preimages[i])
  {
    seq(|preimages|, i requires 0 <= i < |preimages| => h(preimages[i]))
  }

  /** The last byte string hashed to get the root of a subtree. */
  function TopPreimage(h: Hash, k: nat, preimages: seq<Bytes>, from: nat): Bytes
    requires from + Pow2(k) <= |preimages|
  {
    if k == 0 then preimages[from]
    else
      var leaves := HashAll(h, preimages);
      SubRoot(h, k - 1, leaves, from).ToBytes() + SubRoot(h, k - 1, leaves, from + Pow2(k - 1)).ToBytes()
  }

  /** Every byte string hashed when a subtree over these leaf preimages is built. */
  function TreePreimages(h: Hash, k: nat, preimages: seq<Bytes>, from: nat): set<Bytes>
    requires from + Pow2(k) <= |preimages|
  {
    {TopPreimage(h, k, preimages, from)}
    + if k == 0 then {}
      else TreePreimages(h, k - 1, preimages, from) + TreePreimages(h, k - 1, preimages, from + Pow2(k - 1))
  }

  /** The last byte string hashed by the first `n` steps of a path. */
  function LastPreimage(h: Hash, preimage: Bytes, sisters: seq<Word>, isLeft: seq<bool>, n: nat): Bytes
    requires n <= |sisters| && n <= |isLeft|
  {
    if n == 0 then preimage
    else StepPreimage(Fold(h, h(preimage), sisters, isLeft, n - 1), sisters[n - 1], isLeft[n - 1])
  }

  /** Every byte string hashed when a path is folded from a leaf preimage. */
  function PathPreimages(h: Hash, preimage: Bytes, sisters: seq<Word>, isLeft: seq<bool>, n: nat): set<Bytes>
    requires n <= |sisters| && n <= |isLeft|
  {
    {LastPreimage(h, preimage, sisters, isLeft, n)}
    + if n == 0 then {} else PathPreimages(h, preimage, sisters, isLeft, n - 1)
  }

  lemma TopPreimageHashed(h: Hash, k: nat, preimages: seq<Bytes>, from: nat)
    requires from + Pow2(k) <= |preimages|
    ensures TopPreimage(h, k, preimages, from) in TreePreimages(h, k, preimages, from)
    ensures h(TopPreimage(h, k, preimages, from)) == SubRoot(h, k, HashAll(h, preimages), from)
    ensures k > 0 ==>
      && TreePreimages(h, k - 1, preimages, from) <= TreePreimages(h, k, preimages, from)
      && TreePreimages(h, k - 1, preimages, from + Pow2(k - 1)) <= TreePreimages(h, k, preimages, from)
  {
  }

  lemma LastPreimageHashed(h: Hash, preimage: Bytes, sisters: seq<Word>, isLeft: seq<bool>, n: nat)
    requires n <= |sisters| && n <= |isLeft|
    ensures LastPreimage(h, preimage, sisters, isLeft, n) in PathPreimages(h, preimage, sisters, isLeft, n)
    ensures h(LastPreimage(h, preimage, sisters, isLeft, n)) == Fold(h, h(preimage), sisters, isLeft, n)
    ensures n > 0 ==>
      PathPreimages(h, preimage, sisters, isLeft, n - 1) <= PathPreimages(h, preimage, sisters, isLeft, n)
  {
  }

  /** No two different members of `hashed` share a digest. A hash with 32-byte outputs cannot be
      injective on all byte strings, so collision-freeness is only ever asked of the strings
      that were actually hashed. */
  ghost predicate NoCollision(h: Hash, hashed: set<Bytes>) {
    forall x, y :: x in hashed && y in hashed && h(x) == h(y) ==> x == y
  }

  /** When a path's last step hashes the same 64 bytes as a branch of a tree, the path so far has
      reached the child its last direction bit selects. */
  lemma PathDescends(left: Word, right: Word, node: Word, sister: Word, isLeft: bool)
    requires StepPreimage(node, sister, isLeft) == left.ToBytes() + right.ToBytes()
    ensures node == if isLeft then right else left
  {
    var pre := StepPreimage(node, sister, isLeft);
    assert pre[..32] == left.ToBytes() && pre[32..] == right.ToBytes();
    if isLeft {
      assert pre[32..] == node.ToBytes();
      ToBytesInjective(node, right);
    } else {
      assert pre[..32] == node.ToBytes();
      ToBytesInjective(node, left);
    }
  }

  /** A path of ANY length that folds an 84-byte leaf to the root of a tree over 84-byte leaves has
      exactly the tree's height, and the leaf stands at the index its direction bits spell. The
      different sizes of leaf (84) and branch (64) preimages rule out shorter and longer paths. */
  lemma {:induction false} PathSound(h: Hash, k: nat, preimages: seq<Bytes>, from: nat, preimage: Bytes,
                                     sisters: seq<Word>, isLeft: seq<bool>, n: nat, hashed: set<Bytes>)
    requires from + Pow2(k) <= |preimages| && n <= |sisters| && n <= |isLeft|
    requires |preimage| == 84 && forall p :: p in preimages ==> |p| == 84
    requires TreePreimages(h, k, preimages, from) <= hashed
    requires PathPreimages(h, preimage, sisters, isLeft, n) <= hashed
    requires NoCollision(h, hashed)
    requires Fold(h, h(preimage), sisters, isLeft, n) == SubRoot(h, k, HashAll(h, preimages), from)
    ensures n == k
    ensures preimages[from + Index(isLeft, n)] == preimage
    decreases k
  {
    hide SubRoot, Fold, StepPreimage, HashAll, TreePreimages, PathPreimages, Zeros;
    TopPreimageHashed(h, k, preimages, from);
    LastPreimageHashed(h, preimage, sisters, isLeft, n);
    assert TopPreimage(h, k, preimages, from) == LastPreimage(h, preimage, sisters, isLeft, n);
    if k == 0 || n == 0 {
      assert preimages[from] in preimages;
    } else {
      var half, leaves := Pow2(k - 1), HashAll(h, preimages);
      PathDescends(SubRoot(h, k - 1, leaves, from), SubRoot(h, k - 1, leaves, from + half),
                   Fold(h, h(preimage), sisters, isLeft, n - 1), sisters[n - 1], isLeft[n - 1]);
      var from' := if isLeft[n - 1] then from + half else from;
      PathSound(h, k - 1, preimages, from', preimage, sisters, isLeft, n - 1, hashed);
      assert from' + Index(isLeft, n - 1) == from + Index(isLeft, n);
    }
  }
}
