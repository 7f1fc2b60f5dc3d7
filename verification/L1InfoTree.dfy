/** l1infotree/tree.go and l1infotree/hash.go: the batch root builder, the proof
    generator and the incremental AddLeaf, each proved against MerkleSpec. */
module L1InfoTrees {
  import opened Wrappers
  import opened MerkleSpec

  /** uint32(len(x)) */
  function U32(n: nat): nat { n % TWO_32 }

  /** The width of level h before pairing: rounded up to even, as the builders pad it.
      An empty list is first given one zero leaf. */
  function PaddedWidth(n: nat, h: nat): nat {
    var w := Width(if n == 0 then 1 else n, h);
    w + w % 2
  }

  /** The sibling the proof generator picks at level h. The comparison is made
      against the length truncated to 32 bits. */
  function ProofSibling(hash: Hash, leaves: seq<Digest>, index: nat, h: nat): Digest {
    if Shr(index, h) >= U32(PaddedWidth(|leaves|, h)) then Zero(hash, h)
    else Node(hash, leaves, h, Sibling(Shr(index, h)))
  }

  lemma {:induction false} PadNode(hash: Hash, leaves: seq<Digest>, h: nat, i: nat)
    requires i >= Width(if |leaves| == 0 then 1 else |leaves|, h)
    ensures Node(hash, leaves, h, i) == Zero(hash, h)
  {
    if |leaves| == 0 {
      NodeZero(hash, [0], h, i);
      NodeOfZeroLeaf(hash, h, i);
    } else {
      NodeZero(hash, leaves, h, i);
    }
  }

  /** Above the bottom level the length fits in 32 bits. */
  lemma WidthAbove(n: nat, h: nat)
    requires n <= TWO_32 && h > 0
    ensures Width(n, h) <= TWO_32 / 2
  {
    WidthBound(n, h, TWO_32 / 2);
    assert Pow2(h) >= 2;
  }

  /** The generator picks the true sibling at every level, for every index, also past the
      last leaf, with one exception. With 2^32 - 1 or 2^32 leaves the padded length of the
      bottom level is 0 in 32 bits, and the bottom sibling is taken to be zero: right
      exactly when the neighbouring leaf is itself zero. */
  lemma ProofSiblingIsTrue(hash: Hash, leaves: seq<Digest>, index: nat, h: nat)
    requires |leaves| <= TWO_32
    ensures ProofSibling(hash, leaves, index, h) == Node(hash, leaves, h, Sibling(Shr(index, h)))
       <==> h > 0 || TrueBottom(leaves, index)
  {
    var n := if |leaves| == 0 then 1 else |leaves|;
    WidthShrinks(n, h);
    if h > 0 { WidthAbove(n, h); }
    if h > 0 || |leaves| <= TWO_32 - 2 {
      if Shr(index, h) >= PaddedWidth(|leaves|, h) {
        PadNode(hash, leaves, h, Sibling(Shr(index, h)));
      }
    } else {
      assert PaddedWidth(|leaves|, 0) == TWO_32;
      assert Zero(hash, 0) == 0 && Shr(index, 0) == index;
    }
  }

  predicate TrueBottom(leaves: seq<Digest>, index: nat) {
    |leaves| <= TWO_32 - 2 || LeafAt(leaves, Sibling(index)) == 0
  }

  /** A failing input: 2^32 equal non-zero leaves, index 0. */
  lemma WrappedProofExample(hash: Hash)
    ensures var leaves := seq(TWO_32, i => 1 as Digest);
            ProofSibling(hash, leaves, 0, 0) != Node(hash, leaves, 0, Sibling(Shr(0, 0)))
  {
    var leaves := seq(TWO_32, i => 1 as Digest);
    ProofSiblingIsTrue(hash, leaves, 0, 0);
    assert LeafAt(leaves, Sibling(0)) == 1;
  }

  /** The proof for any position below 2^height, occupied or not, leads from that
      position's leaf (zero when unoccupied) to the root. */
  lemma ProofVerifies(hash: Hash, leaves: seq<Digest>, index: nat, siblings: seq<Digest>)
    requires |leaves| <= TWO_32 && TrueBottom(leaves, index)
    requires index < Pow2(|siblings|)
    requires forall h | 0 <= h < |siblings| :: siblings[h] == ProofSibling(hash, leaves, index, h)
    ensures Fold(hash, LeafAt(leaves, index), index, siblings) == Root(hash, leaves, |siblings|)
  {
    hide Node, Fold, Pow2, ProofSibling, Shr;
    assert TrueSiblings(hash, leaves, index, siblings) by {
      forall h | 0 <= h < |siblings| {
        ProofSiblingIsTrue(hash, leaves, index, h);
      }
    }
    FoldIsNode(hash, leaves, index, siblings);
    ShrBound(index, |siblings|, 1);
  }

  method GenerateZeroHashes(hash: Hash, height: nat) returns (zeroHashes: seq<Digest>)
    ensures |zeroHashes| == height + 1
    ensures forall h | 0 <= h <= height :: zeroHashes[h] == Zero(hash, h)
  {
    zeroHashes := [0];
    for i := 1 to height + 1
      invariant |zeroHashes| == i
      invariant forall h | 0 <= h < i :: zeroHashes[h] == Zero(hash, h)
    {
      zeroHashes := zeroHashes + [hash(zeroHashes[i - 1], zeroHashes[i - 1])];
    }
  }

  method BuildIntermediate(hash: Hash, level: seq<Digest>) returns (hashes: seq<Digest>)
    requires |level| % 2 == 0
    ensures |hashes| == |level| / 2
    ensures forall i | 0 <= i < |hashes| :: hashes[i] == hash(level[2 * i], level[2 * i + 1])
  {
    hashes := [];
    var i := 0;
    while i < |level|
      invariant 0 <= i <= |level| && i % 2 == 0 && |hashes| == i / 2
      invariant forall k | 0 <= k < |hashes| :: hashes[k] == hash(level[2 * k], level[2 * k + 1])
    {
      hashes := hashes + [hash(level[i], level[i + 1])];
      i := i + 2;
    }
  }

  /** `level` holds the nodes of level h that cover the leaves. */
  ghost predicate IsLevel(hash: Hash, leaves: seq<Digest>, h: nat, level: seq<Digest>) {
    && |level| == Width(if |leaves| == 0 then 1 else |leaves|, h)
    && forall i | 0 <= i < |level| :: level[i] == Node(hash, leaves, h, i)
  }

  /** Pads the level to even length with the level's zero hash and pairs it up. */
  method NextLevel(hash: Hash, zeroHash: Digest, ghost leaves: seq<Digest>, ghost h: nat, level: seq<Digest>)
    returns (padded: seq<Digest>, next: seq<Digest>)
    requires zeroHash == Zero(hash, h)
    requires IsLevel(hash, leaves, h, level)
    ensures |padded| == PaddedWidth(|leaves|, h)
    ensures forall i | 0 <= i < |padded| :: padded[i] == Node(hash, leaves, h, i)
    ensures IsLevel(hash, leaves, h + 1, next)
  {
    padded := level;
    if |padded| % 2 == 1 {
      padded := padded + [zeroHash];
      PadNode(hash, leaves, h, |level|);
    }
    next := BuildIntermediate(hash, padded);
  }

  /** A set bit h of n means a full subtree of height h stands to the left of
      position n; its root is what is remembered at level h. */
  ghost predicate RootsAtSetBits(hash: Hash, leaves: seq<Digest>, n: nat, siblings: seq<Digest>) {
    forall h | 0 <= h < |siblings| && Bit(n, h) :: siblings[h] == Node(hash, leaves, h, Shr(n, h) - 1)
  }

  lemma ExtendRoots(hash: Hash, leaves: seq<Digest>, n: nat, done: seq<Digest>, siblings: seq<Digest>)
    requires |done| < |siblings| && done == siblings[..|done|]
    requires RootsAtSetBits(hash, leaves, n, done)
    requires Bit(n, |done|) ==> siblings[|done|] == Node(hash, leaves, |done|, Shr(n, |done|) - 1)
    ensures RootsAtSetBits(hash, leaves, n, siblings[..|done| + 1])
  {
  }

  /** One level up the path of a new leaf, from a right child ... */
  lemma ClimbFromRight(hash: Hash, before: seq<Digest>, leaf: Digest, h: nat)
    requires Bit(|before|, h)
    ensures var i := Shr(|before|, h);
            && Node(hash, before, h, i - 1) == Node(hash, before + [leaf], h, i - 1)
            && hash(Node(hash, before, h, i - 1), Node(hash, before + [leaf], h, i))
               == Node(hash, before + [leaf], h + 1, Shr(|before|, h + 1))
  {
    var i := Shr(|before|, h);
    NodeUnchanged(hash, before, leaf, h, i - 1);
    NodeAboveSiblings(hash, before + [leaf], h, i);
  }

  /** ... and from a left child, whose right neighbour is still empty. */
  lemma ClimbFromLeft(hash: Hash, before: seq<Digest>, leaf: Digest, h: nat)
    requires !Bit(|before|, h)
    ensures hash(Node(hash, before + [leaf], h, Shr(|before|, h)), Zero(hash, h))
            == Node(hash, before + [leaf], h + 1, Shr(|before|, h + 1))
  {
    var i := Shr(|before|, h);
    WidthOfSuccessor(|before|, h);
    NodeZero(hash, before + [leaf], h, i + 1);
    NodeAboveSiblings(hash, before + [leaf], h, i);
  }

  /** Where the climb stands at level h: `filled` says that the carry of count + 1
      has run through every bit below. */
  ghost predicate At(hash: Hash, before: seq<Digest>, leaf: Digest, h: nat, cur: Digest, filled: bool) {
    && cur == Node(hash, before + [leaf], h, Shr(|before|, h))
    && Shr(|before| + 1, h) == Shr(|before|, h) + (if filled then 1 else 0)
  }

  lemma Climb(hash: Hash, before: seq<Digest>, leaf: Digest, h: nat, cur: Digest, filled: bool, stored: Digest)
    requires At(hash, before, leaf, h, cur, filled)
    requires Bit(|before|, h) ==> stored == Node(hash, before, h, Shr(|before|, h) - 1)
    ensures At(hash, before, leaf, h + 1,
               if Bit(|before|, h) then hash(stored, cur) else hash(cur, Zero(hash, h)),
               filled && Bit(|before|, h))
    ensures Bit(|before| + 1, h) ==>
              (if filled && !Bit(|before|, h) then cur else stored)
              == Node(hash, before + [leaf], h, Shr(|before| + 1, h) - 1)
    ensures filled && !Bit(|before|, h) ==> Bit(|before| + 1, h)
  {
    if Bit(|before|, h) {
      ClimbFromRight(hash, before, leaf, h);
    } else {
      ClimbFromLeft(hash, before, leaf, h);
    }
  }

  /** The root over the newest leaf: the tree's root as long as the leaves fit, and
      past that the root of the next tree of the same height to the right. */
  function LastRoot(hash: Hash, leaves: seq<Digest>, height: nat): Digest {
    Node(hash, leaves, height, Shr(if leaves == [] then 0 else |leaves| - 1, height))
  }

  lemma LastRootIsRoot(hash: Hash, leaves: seq<Digest>, height: nat)
    requires |leaves| <= Pow2(height)
    ensures LastRoot(hash, leaves, height) == Root(hash, leaves, height)
  {
    ShrBound(if leaves == [] then 0 else |leaves| - 1, height, 1);
  }

  lemma ClimbStarts(hash: Hash, before: seq<Digest>, leaf: Digest)
    ensures At(hash, before, leaf, 0, leaf, true)
  {
  }

  lemma ClimbEnds(hash: Hash, before: seq<Digest>, leaf: Digest, height: nat, cur: Digest, filled: bool)
    requires At(hash, before, leaf, height, cur, filled)
    ensures cur == LastRoot(hash, before + [leaf], height)
  {
    hide Node, Shr;
  }

  class L1InfoTree {
    const hash: Hash
    const height: nat
    const zeroHashes: seq<Digest>
    var count: nat
    var siblings: array<Digest>
    var currentRoot: Digest
    ghost var leaves: seq<Digest>  // every leaf added so far

    ghost predicate ZeroHashesOk() {
      && |zeroHashes| == height + 1
      && forall h | 0 <= h <= height :: zeroHashes[h] == Zero(hash, h)
    }

    ghost predicate SiblingsOk()
      reads this, siblings
    {
      siblings.Length == height && RootsAtSetBits(hash, leaves, count, siblings[..])
    }

    ghost predicate Valid()
      reads this, siblings
    {
      && ZeroHashesOk()
      && SiblingsOk()
      && count == |leaves| < TWO_32
      && currentRoot == LastRoot(hash, leaves, height)
    }

    constructor Empty(hash: Hash, height: nat)
      ensures ZeroHashesOk() && this.hash == hash && this.height == height && fresh(siblings)
    {
      var zeroes := GenerateZeroHashes(hash, height);
      this.hash := hash;
      this.height := height;
      this.zeroHashes := zeroes;
      this.siblings := new Digest[0];
      this.count := 0;
      this.currentRoot := 0;
      this.leaves := [];
    }

    method BuildL1InfoRoot(leaves: seq<Digest>) returns (r: Result<Digest>)
      requires ZeroHashesOk()
      ensures r.Ok? <==> height >= 1 && |leaves| <= Pow2(height)
      ensures r.Ok? ==> r.value == Root(hash, leaves, height)
    {
      var level := if |leaves| == 0 then [zeroHashes[0]] else leaves;
      for h := 0 to height
        invariant IsLevel(hash, leaves, h, level)
      {
        var padded, next := NextLevel(hash, zeroHashes[h], leaves, h, level);
        level := next;
      }
      OneRoot(|leaves|, height);
      if height == 0 || |level| != 1 {
        return Err;
      }
      return Ok(level[0]);
    }

    /** The loop of ComputeMerkleProof. */
    method ProofLoop(gerIndex: nat, leaves: seq<Digest>) returns (sibs: seq<Digest>, level: seq<Digest>)
      requires ZeroHashesOk()
      ensures IsLevel(hash, leaves, height, level)
      ensures |sibs| == height
      ensures forall h | 0 <= h < height :: sibs[h] == ProofSibling(hash, leaves, gerIndex, h)
    {
      level := if |leaves| == 0 then [zeroHashes[0]] else leaves;
      assert IsLevel(hash, leaves, 0, level);
      hide Node, Zero, Width;
      sibs := [];
      var index := gerIndex;
      for h := 0 to height
        invariant IsLevel(hash, leaves, h, level)
        invariant index == Shr(gerIndex, h)
        invariant |sibs| == h
        invariant forall k | 0 <= k < h :: sibs[k] == ProofSibling(hash, leaves, gerIndex, k)
      {
        var padded, next := NextLevel(hash, zeroHashes[h], leaves, h, level);
        if index >= U32(|padded|) {
          sibs := sibs + [zeroHashes[h]];
        } else if index % 2 == 1 {
          sibs := sibs + [padded[index - 1]];
        } else {
          assert index + 1 < |padded| by { EvenBelow(index, |padded|); }
          sibs := sibs + [padded[index + 1]];
        }
        index := index / 2;
        level := next;
      }
    }

    method ComputeMerkleProof(gerIndex: nat, leaves: seq<Digest>)
      returns (r: Result<(seq<Digest>, Digest)>)
      requires ZeroHashesOk() && gerIndex < TWO_32
      ensures r.Ok? <==> height >= 1 && |leaves| <= Pow2(height)
      ensures r.Ok? ==> |r.value.0| == height && r.value.1 == Root(hash, leaves, height)
      ensures r.Ok? ==> forall h | 0 <= h < height ::
                          r.value.0[h] == ProofSibling(hash, leaves, gerIndex, h)
      ensures r.Ok? && |leaves| <= TWO_32 && TrueBottom(leaves, gerIndex) && gerIndex < Pow2(height) ==>
                Fold(hash, LeafAt(leaves, gerIndex), gerIndex, r.value.0) == r.value.1
    {
      var sibs, level := ProofLoop(gerIndex, leaves);
      OneRoot(|leaves|, height);
      if height == 0 || |level| != 1 {
        return Err;
      }
      if |leaves| <= TWO_32 && TrueBottom(leaves, gerIndex) && gerIndex < Pow2(height) {
        ProofVerifies(hash, leaves, gerIndex, sibs);
      }
      return Ok((sibs, level[0]));
    }

    /** One turn of the loop of AddLeaf: hashes one level up, and remembers the
        subtree that the new leaf has just filled. */
    method ClimbLevel(index: nat, leaf: Digest, h: nat, cur: Digest, isFilledSubTree: bool)
      returns (cur': Digest, isFilledSubTree': bool)
      requires ZeroHashesOk() && siblings.Length == height && h < height
      requires index == |leaves| && At(hash, leaves, leaf, h, cur, isFilledSubTree)
      requires Bit(index, h) ==> siblings[h] == Node(hash, leaves, h, Shr(index, h) - 1)
      requires RootsAtSetBits(hash, leaves + [leaf], index + 1, siblings[..h])
      modifies siblings
      ensures At(hash, leaves, leaf, h + 1, cur', isFilledSubTree')
      ensures RootsAtSetBits(hash, leaves + [leaf], index + 1, siblings[..h + 1])
      ensures siblings[h + 1..] == old(siblings[h + 1..]) && siblings[..h] == old(siblings[..h])
      ensures Bit(index, h) || !Bit(index + 1, h) ==> siblings[h] == old(siblings[h])
    {
      hide At, RootsAtSetBits, Node, Shr, Zero;
      ghost var done := siblings[..h];
      Climb(hash, leaves, leaf, h, cur, isFilledSubTree, siblings[h]);
      isFilledSubTree' := isFilledSubTree;
      if Bit(index, h) {
        cur' := hash(siblings[h], cur);
      } else {
        if isFilledSubTree {
          siblings[h] := cur;
          isFilledSubTree' := false;
        }
        cur' := hash(cur, zeroHashes[h]);
      }
      ExtendRoots(hash, leaves + [leaf], index + 1, done, siblings[..]);
    }

    /** The loop of AddLeaf. */
    method ClimbFrom(index: nat, leaf: Digest) returns (cur: Digest)
      requires Valid() && index == count
      modifies siblings
      ensures cur == LastRoot(hash, leaves + [leaf], height)
      ensures RootsAtSetBits(hash, leaves + [leaf], index + 1, siblings[..])
      ensures forall h | 0 <= h < height && (Bit(index, h) || !Bit(index + 1, h)) :: siblings[h] == old(siblings[h])
    {
      hide At, Node, Shr, Bit, Zero, LastRoot;
      cur := leaf;
      var isFilledSubTree := true;
      ClimbStarts(hash, leaves, leaf);
      for h := 0 to height
        invariant At(hash, leaves, leaf, h, cur, isFilledSubTree)
        invariant siblings[h..] == old(siblings[h..])
        invariant forall k | 0 <= k < h && (Bit(index, k) || !Bit(index + 1, k)) :: siblings[k] == old(siblings[k])
        invariant RootsAtSetBits(hash, leaves + [leaf], index + 1, siblings[..h])
        modifies siblings
      {
        assert siblings[h] == siblings[h..][0] == old(siblings[..])[h];
        ghost var below := siblings[..h];
        cur, isFilledSubTree := ClimbLevel(index, leaf, h, cur, isFilledSubTree);
        assert siblings[..h] == below;
        assert forall k | 0 <= k < h :: siblings[k] == below[k];
      }
      assert siblings[..] == siblings[..height];
      ClimbEnds(hash, leaves, leaf, height, cur, isFilledSubTree);
    }

    /** Adds a leaf in O(height). Any other index than the count is refused and
        changes nothing. The new root is the one BuildL1InfoRoot gives for all the
        leaves while they fit; on a full tree the code goes on without complaint and
        answers the root of the next tree of the same height to the right. */
    method AddLeaf(index: nat, leaf: Digest) returns (r: Result<Digest>)
      requires Valid()
      modifies this`count, this`currentRoot, this`leaves, siblings
      ensures r.Ok? <==> index == old(count)
      ensures r.Err? ==> Valid() && leaves == old(leaves) && siblings[..] == old(siblings[..])
      ensures forall h | 0 <= h < height && (Bit(index, h) || !Bit(index + 1, h)) :: siblings[h] == old(siblings[h])
      ensures r.Ok? ==> leaves == old(leaves) + [leaf]
      ensures r.Ok? ==> r.value == currentRoot == LastRoot(hash, leaves, height)
      ensures r.Ok? ==> count == U32(old(count) + 1)
      ensures r.Ok? && |leaves| <= Pow2(height) ==> r.value == Root(hash, leaves, height)
      ensures r.Ok? && |leaves| < TWO_32 ==> Valid()
    {
      if index != count {
        return Err;
      }
      hide RootsAtSetBits, Node, Shr, Bit, Zero, Pow2, LastRoot;
      ghost var after := leaves + [leaf];
      var cur := ClimbFrom(index, leaf);
      if |after| <= Pow2(height) { LastRootIsRoot(hash, after, height); }
      currentRoot := cur;
      count := U32(count + 1);
      leaves := after;
      return Ok(cur);
    }

    /** The siblings and root a tree starts from; they are the proof for the first
        free position. */
    method InitSiblings(initialLeaves: seq<Digest>) returns (r: Result<(seq<Digest>, Digest)>)
      requires ZeroHashesOk() && count < TWO_32
      ensures r.Ok? <==> count == U32(|initialLeaves|) && height >= 1 && |initialLeaves| <= Pow2(height)
      ensures r.Ok? ==> |r.value.0| == height && r.value.1 == Root(hash, initialLeaves, height)
      ensures r.Ok? && (count == 0 || (|initialLeaves| <= TWO_32 && TrueBottom(initialLeaves, count))) ==>
                RootsAtSetBits(hash, initialLeaves, count, r.value.0)
      ensures r.Ok? ==> forall h | 0 <= h < height ::
        r.value.0[h] == if count == 0 then Zero(hash, h) else ProofSibling(hash, initialLeaves, count, h)
    {
      if count != U32(|initialLeaves|) {
        return Err;
      }
      if count == 0 {
        var root := BuildL1InfoRoot(initialLeaves);
        if root.Err? {
          return Err;
        }
        forall h | 0 <= h < height ensures !Bit(0, h) { ShrOfZero(h); }
        return Ok((zeroHashes[..height], root.value));
      }
      r := ComputeMerkleProof(count, initialLeaves);
      if r.Ok? && |initialLeaves| <= TWO_32 && TrueBottom(initialLeaves, count) {
        forall h | 0 <= h < height && Bit(count, h)
          ensures r.value.0[h] == Node(hash, initialLeaves, h, Shr(count, h) - 1)
        {
          ProofSiblingIsTrue(hash, initialLeaves, count, h);
        }
      }
    }

    /** NewL1InfoTree: succeeds exactly when the leaves fit, and the tree it returns is
        ready for AddLeaf unless it is full in 32 bits or its bottom sibling is wrong. */
    static method New(hash: Hash, height: nat, initialLeaves: seq<Digest>) returns (t: L1InfoTree, ok: bool)
      ensures fresh(t) && fresh(t.siblings)
      ensures ok <==> height >= 1 && |initialLeaves| <= Pow2(height)
      ensures ok ==> t.hash == hash && t.height == height && t.leaves == initialLeaves
      ensures ok ==> t.currentRoot == Root(hash, initialLeaves, height) && t.ZeroHashesOk()
      ensures ok && |initialLeaves| < TWO_32 && TrueBottom(initialLeaves, |initialLeaves|) ==> t.Valid()
      ensures ok ==> t.count == U32(|initialLeaves|) && t.siblings.Length == height
      ensures ok ==> forall h | 0 <= h < height ::
        t.siblings[h] == if t.count == 0 then Zero(hash, h) else ProofSibling(hash, initialLeaves, t.count, h)
    {
      hide Node, Shr, Bit, Zero, Pow2, ProofSibling, LastRoot, RootsAtSetBits;
      t := new L1InfoTree.Empty(hash, height);
      t.count := U32(|initialLeaves|);
      var init := t.InitSiblings(initialLeaves);
      if init.Err? {
        return t, false;
      }
      LastRootIsRoot(hash, initialLeaves, height);
      t.leaves := initialLeaves;
      t.currentRoot := init.value.1;
      t.siblings := new Digest[height](i requires 0 <= i < height => init.value.0[i]);
      assert t.siblings[..] == init.value.0;
      ok := true;
    }

    /** ResetL1InfoTree: a new tree of height 32, whatever the height of the old one. */
    method Reset(initialLeaves: seq<Digest>) returns (t: L1InfoTree, ok: bool)
      ensures fresh(t) && fresh(t.siblings)
      ensures ok <==> |initialLeaves| <= TWO_32
      ensures ok ==> t.leaves == initialLeaves && t.currentRoot == Root(hash, initialLeaves, 32)
      ensures ok ==> t.hash == hash && t.height == 32 && t.ZeroHashesOk() && t.count == U32(|initialLeaves|)
      ensures ok && |initialLeaves| < TWO_32 && TrueBottom(initialLeaves, |initialLeaves|) ==> t.Valid()
    {
      assert Pow2(32) == TWO_32 by { Pow2Of32(); }
      t, ok := New(hash, 32, initialLeaves);
    }
  }

  lemma Pow2Of32()
    ensures Pow2(32) == TWO_32
  {
    assert Pow2(8) == 256;
    assert Pow2(16) == 256 * 256;
    assert Pow2(24) == 256 * 256 * 256;
  }

  lemma {:induction false} ShrOfZero(h: nat)
    ensures Shr(0, h) == 0
  {
    if h > 0 { ShrOfZero(h - 1); }
  }

  /** For every initial list and every later run of additions that fits the tree, the
      incremental root is the batch root of all the leaves, up to the very last one. Only
      an addition to 2^32 - 1 initial leaves needs the last of them to be zero. */
  method IncrementalMatchesBatch(hash: Hash, height: nat, initial: seq<Digest>, added: seq<Digest>)
    returns (incremental: Digest, batch: Digest)
    requires height >= 1 && |initial| + |added| <= Pow2(height) && |initial| + |added| <= TWO_32
    requires added == [] || TrueBottom(initial, |initial|)
    ensures incremental == batch == Root(hash, initial + added, height)
  {
    var t, ok := L1InfoTree.New(hash, height, initial);
    LastRootIsRoot(hash, initial, height);
    incremental := t.currentRoot;
    assert initial + added[..0] == initial;
    for i := 0 to |added|
      invariant t.ZeroHashesOk() && t.hash == hash && t.height == height && fresh(t) && fresh(t.siblings)
      invariant added != [] && |initial| + i < TWO_32 ==> t.Valid()
      invariant t.leaves == initial + added[..i]
      invariant incremental == LastRoot(hash, t.leaves, height)
    {
      hide LastRoot;
      var r := t.AddLeaf(t.count, added[i]);
      incremental := r.value;
      assert added[..i + 1] == added[..i] + [added[i]];
    }
    assert added[..|added|] == added;
    LastRootIsRoot(hash, initial + added, height);
    var b := t.BuildL1InfoRoot(initial + added);
    batch := b.value;
  }

  /** The top level is a single node exactly when the leaves fit. */
  lemma OneRoot(n: nat, height: nat)
    ensures Width(if n == 0 then 1 else n, height) == 1 <==> n <= Pow2(height)
  {
    WidthBound(if n == 0 then 1 else n, height, 1);
    WidthShrinks(if n == 0 then 1 else n, height);
  }

  lemma EvenBelow(index: nat, len: nat)
    requires index < U32(len) && len % 2 == 0 && index % 2 == 0
    ensures index + 1 < len
  {
  }
}
