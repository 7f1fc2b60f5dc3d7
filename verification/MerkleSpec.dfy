/** The reference definition of the L1 info tree: the complete binary tree over
    2^height leaf positions in which every position past the last leaf holds the
    zero digest. Nothing here follows the code; the code is proved against it. */
module MerkleSpec {

  /** A 32-byte hash value, read as a number; the Go zero value is 0. */
  newtype Digest = n: int | 0 <= n < 0x1_0000000000000000_0000000000000000_0000000000000000_0000000000000000

  /** The two-argument keccak is a parameter everywhere: nothing is assumed of it. */
  type Hash = (Digest, Digest) -> Digest

  const TWO_32: nat := 0x1_0000_0000

  function Pow2(h: nat): (p: nat)
    ensures p >= 1
  {
    if h == 0 then 1 else 2 * Pow2(h - 1)
  }

  /** i >> h */
  function Shr(i: nat, h: nat): nat {
    if h == 0 then i else Shr(i, h - 1) / 2
  }

  /** i & (1 << h) > 0 */
  predicate Bit(i: nat, h: nat) {
    Shr(i, h) % 2 == 1
  }

  /** How many nodes of level h cover the first n leaf positions. */
  function Width(n: nat, h: nat): nat {
    if h == 0 then n else (Width(n, h - 1) + 1) / 2
  }

  /** The other child of the same parent. */
  function Sibling(i: nat): nat {
    if i % 2 == 1 then i - 1 else i + 1
  }

  function LeafAt(leaves: seq<Digest>, i: nat): Digest {
    if i < |leaves| then leaves[i] else 0
  }

  /** The i-th node of level h of the complete tree. */
  function Node(hash: Hash, leaves: seq<Digest>, h: nat, i: nat): Digest {
    if h == 0 then LeafAt(leaves, i)
    else hash(Node(hash, leaves, h - 1, 2 * i), Node(hash, leaves, h - 1, 2 * i + 1))
  }

  /** The root of an empty tree of height h. */
  function Zero(hash: Hash, h: nat): Digest {
    if h == 0 then 0 else hash(Zero(hash, h - 1), Zero(hash, h - 1))
  }

  function Root(hash: Hash, leaves: seq<Digest>, height: nat): Digest {
    Node(hash, leaves, height, 0)
  }

  /** A small tree in full: left before right, and zero past the last leaf. */
  lemma ThreeLeaves(hash: Hash, a: Digest, b: Digest, c: Digest)
    ensures Root(hash, [a, b, c], 2) == hash(hash(a, b), hash(c, 0))
    ensures Zero(hash, 2) == hash(hash(0, 0), hash(0, 0))
  {
    assert Node(hash, [a, b, c], 1, 0) == hash(a, b) && Node(hash, [a, b, c], 1, 1) == hash(c, 0);
  }

  /** What a verifier does with a proof: hash upwards from a leaf, the bits of
      the index saying on which side the sibling goes. */
  function Fold(hash: Hash, leaf: Digest, index: nat, siblings: seq<Digest>): Digest
    decreases |siblings|
  {
    if siblings == [] then leaf
    else
      var h := |siblings| - 1;
      var below := Fold(hash, leaf, index, siblings[..h]);
      if Bit(index, h) then hash(siblings[h], below) else hash(below, siblings[h])
  }

  /** `siblings` are the tree's own nodes beside the path from position `index`. */
  ghost predicate TrueSiblings(hash: Hash, leaves: seq<Digest>, index: nat, siblings: seq<Digest>) {
    forall h | 0 <= h < |siblings| :: siblings[h] == Node(hash, leaves, h, Sibling(Shr(index, h)))
  }

  lemma {:induction false} NodeZero(hash: Hash, leaves: seq<Digest>, h: nat, i: nat)
    requires i >= Width(|leaves|, h)
    ensures Node(hash, leaves, h, i) == Zero(hash, h)
  {
    if h > 0 {
      NodeZero(hash, leaves, h - 1, 2 * i);
      NodeZero(hash, leaves, h - 1, 2 * i + 1);
    }
  }

  /** Appending a leaf changes only the nodes on its own path. */
  lemma {:induction false} NodeUnchanged(hash: Hash, leaves: seq<Digest>, leaf: Digest, h: nat, i: nat)
    requires i != Shr(|leaves|, h)
    ensures Node(hash, leaves + [leaf], h, i) == Node(hash, leaves, h, i)
  {
    if h > 0 {
      NodeUnchanged(hash, leaves, leaf, h - 1, 2 * i);
      NodeUnchanged(hash, leaves, leaf, h - 1, 2 * i + 1);
    }
  }

  lemma {:induction false} WidthOfSuccessor(n: nat, h: nat)
    ensures Width(n + 1, h) == Shr(n, h) + 1
  {
    if h > 0 { WidthOfSuccessor(n, h - 1); }
  }

  lemma {:induction false} WidthBound(n: nat, h: nat, m: nat)
    ensures Width(n, h) <= m <==> n <= m * Pow2(h)
  {
    if h > 0 {
      WidthBound(n, h - 1, 2 * m);
      assert m * Pow2(h) == 2 * m * Pow2(h - 1);
    }
  }

  lemma {:induction false} ShrBound(n: nat, h: nat, m: nat)
    ensures Shr(n, h) < m <==> n < m * Pow2(h)
  {
    if h > 0 {
      ShrBound(n, h - 1, 2 * m);
      assert m * Pow2(h) == 2 * m * Pow2(h - 1);
    }
  }

  lemma {:induction false} WidthShrinks(n: nat, h: nat)
    ensures Width(n, h) <= n && (n >= 1 ==> Width(n, h) >= 1)
  {
    if h > 0 { WidthShrinks(n, h - 1); }
  }

  /** The empty list and the list holding one zero leaf are the same tree. */
  lemma {:induction false} NodeOfZeroLeaf(hash: Hash, h: nat, i: nat)
    ensures Node(hash, [0], h, i) == Node(hash, [], h, i)
  {
    if h > 0 {
      NodeOfZeroLeaf(hash, h - 1, 2 * i);
      NodeOfZeroLeaf(hash, h - 1, 2 * i + 1);
    }
  }

  lemma NodeAboveSiblings(hash: Hash, leaves: seq<Digest>, h: nat, i: nat)
    ensures Node(hash, leaves, h + 1, i / 2) ==
            if i % 2 == 1 then hash(Node(hash, leaves, h, Sibling(i)), Node(hash, leaves, h, i))
            else hash(Node(hash, leaves, h, i), Node(hash, leaves, h, Sibling(i)))
  {
    assert i == 2 * (i / 2) + i % 2;
  }

  /** Hashing up from position `index` with the true siblings gives the tree's own nodes. */
  lemma {:induction false} FoldIsNode(hash: Hash, leaves: seq<Digest>, index: nat, siblings: seq<Digest>)
    requires TrueSiblings(hash, leaves, index, siblings)
    ensures Fold(hash, LeafAt(leaves, index), index, siblings)
            == Node(hash, leaves, |siblings|, Shr(index, |siblings|))
    decreases |siblings|
  {
    if siblings != [] {
      var h := |siblings| - 1;
      FoldIsNode(hash, leaves, index, siblings[..h]);
      NodeAboveSiblings(hash, leaves, h, Shr(index, h));
    }
  }
}
