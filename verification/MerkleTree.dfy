/** The reference withdraw tree: a binary tree over all leaves, padded with zero leaves. */
module MerkleTree {
  import opened Bytes
  import opened Bits

  /** The root of a subtree of height `h` all of whose leaves are zero. */
  function Zero(f: Keccak2, h: nat): Hash {
    if h == 0 then ZERO_HASH else f(Zero(f, h - 1), Zero(f, h - 1))
  }

  /** The node at level `h` and position `i` of the padded tree over `leaves`. */
  function Node(f: Keccak2, leaves: seq<Hash>, h: nat, i: nat): Hash {
    if h == 0 then
      if i < |leaves| then leaves[i] else ZERO_HASH
    else
      f(Node(f, leaves, h - 1, 2 * i), Node(f, leaves, h - 1, 2 * i + 1))
  }

  /** The height of the tree holding `n` leaves. */
  function TreeHeight(n: nat): nat
    requires n > 0
  {
    BitLength(n - 1)
  }

  function Root(f: Keccak2, leaves: seq<Hash>): Hash {
    if leaves == [] then ZERO_HASH else Node(f, leaves, TreeHeight(|leaves|), 0)
  }

  /** The siblings met on the way up from node `(h, i)`, over `k` levels. */
  function Path(f: Keccak2, leaves: seq<Hash>, h: nat, i: nat, k: nat): (p: seq<Hash>)
    ensures |p| == k
    decreases k
  {
    if k == 0 then [] else [Node(f, leaves, h, Sibling(i))] + Path(f, leaves, h + 1, i / 2, k - 1)
  }

  /** The inclusion proof of leaf `i`. */
  function ProofOf(f: Keccak2, leaves: seq<Hash>, i: nat): seq<Hash>
    requires i < |leaves|
  {
    Path(f, leaves, 0, i, TreeHeight(|leaves|))
  }

  /** What a verifier computes: fold a proof over a leaf at a given index. */
  function Climb(f: Keccak2, index: nat, leaf: Hash, proof: seq<Hash>): Hash
    decreases |proof|
  {
    if proof == [] then leaf
    else
      Climb(f, index / 2, if index % 2 == 0 then f(leaf, proof[0]) else f(proof[0], leaf), proof[1..])
  }

  /** Positions right of the last leaf hold zero subtrees. */
  lemma {:induction false} PaddingIsZero(f: Keccak2, leaves: seq<Hash>, h: nat, i: nat)
    requires leaves == [] || i > Shr(|leaves| - 1, h)
    ensures Node(f, leaves, h, i) == Zero(f, h)
  {
    if h > 0 {
      if leaves != [] {
        ShrSucc(|leaves| - 1, h - 1);
      }
      PaddingIsZero(f, leaves, h - 1, 2 * i);
      PaddingIsZero(f, leaves, h - 1, 2 * i + 1);
    }
  }

  /** A subtree whose leaves are all present never changes when leaves are appended. */
  lemma {:induction false} CompleteIsStable(f: Keccak2, leaves: seq<Hash>, more: seq<Hash>, h: nat, i: nat)
    requires i < Shr(|leaves|, h)
    ensures Node(f, leaves + more, h, i) == Node(f, leaves, h, i)
  {
    if h > 0 {
      ShrSucc(|leaves|, h - 1);
      CompleteIsStable(f, leaves, more, h - 1, 2 * i);
      CompleteIsStable(f, leaves, more, h - 1, 2 * i + 1);
    }
  }

  lemma {:induction false} PathAt(f: Keccak2, leaves: seq<Hash>, h: nat, i: nat, k: nat, j: nat)
    requires j < k
    ensures Path(f, leaves, h, i, k)[j] == Node(f, leaves, h + j, Sibling(Shr(i, j)))
    decreases k
  {
    if j > 0 {
      PathAt(f, leaves, h + 1, i / 2, k - 1, j - 1);
    }
  }

  /** A sequence that lists the siblings level by level is the path. */
  lemma {:induction false} PathFromNodes(f: Keccak2, leaves: seq<Hash>, i: nat, p: seq<Hash>)
    requires forall j :: 0 <= j < |p| ==> p[j] == Node(f, leaves, j, Sibling(Shr(i, j)))
    ensures p == Path(f, leaves, 0, i, |p|)
  {
    forall j | 0 <= j < |p| ensures p[j] == Path(f, leaves, 0, i, |p|)[j] {
      PathAt(f, leaves, 0, i, |p|, j);
    }
  }

  lemma {:induction false} ClimbReachesAncestor(f: Keccak2, leaves: seq<Hash>, h: nat, i: nat, k: nat)
    ensures Climb(f, i, Node(f, leaves, h, i), Path(f, leaves, h, i, k)) == Node(f, leaves, h + k, Shr(i, k))
    decreases k
  {
    if k > 0 {
      var p := Path(f, leaves, h, i, k);
      assert p[1..] == Path(f, leaves, h + 1, i / 2, k - 1);
      assert i == 2 * (i / 2) + i % 2;
      ClimbReachesAncestor(f, leaves, h + 1, i / 2, k - 1);
    }
  }

  /** Every proof recomputes the root at its leaf's index. */
  lemma {:induction false} ProofsVerify(f: Keccak2, leaves: seq<Hash>, i: nat)
    requires i < |leaves|
    ensures Climb(f, i, leaves[i], ProofOf(f, leaves, i)) == Root(f, leaves)
  {
    var k := TreeHeight(|leaves|);
    ClimbReachesAncestor(f, leaves, 0, i, k);
    ShrMonotone(i, |leaves| - 1, k);
    ShrZero(|leaves| - 1, k);
  }

  // The level-by-level definition of the root: pair up the hashes of a level, completing an
  // odd last pair with that level's zero hash, until a single hash is left.

  function PairUp(f: Keccak2, level: seq<Hash>, zero: Hash): (next: seq<Hash>)
    ensures |next| == (|level| + 1) / 2
  {
    seq((|level| + 1) / 2, i requires 0 <= i < (|level| + 1) / 2 =>
      f(level[2 * i], if 2 * i + 1 < |level| then level[2 * i + 1] else zero))
  }

  function RootByLevels(f: Keccak2, level: seq<Hash>, zero: Hash): Hash
    requires level != []
    decreases |level|
  {
    if |level| == 1 then level[0] else RootByLevels(f, PairUp(f, level, zero), f(zero, zero))
  }

  /** The occupied nodes of level `h`. */
  function Level(f: Keccak2, leaves: seq<Hash>, h: nat): (level: seq<Hash>)
    requires leaves != []
    ensures |level| == Shr(|leaves| - 1, h) + 1
  {
    seq(Shr(|leaves| - 1, h) + 1, i requires 0 <= i => Node(f, leaves, h, i))
  }

  /** A node is the hash of the pair below it, whose right one is a zero subtree beyond the level. */
  lemma {:induction false} PairIsParent(f: Keccak2, leaves: seq<Hash>, h: nat, i: nat)
    requires leaves != []
    ensures Node(f, leaves, h + 1, i) ==
      f(Node(f, leaves, h, 2 * i),
        if 2 * i + 1 <= Shr(|leaves| - 1, h) then Node(f, leaves, h, 2 * i + 1) else Zero(f, h))
  {
    hide Shr, Zero;
    if 2 * i + 1 > Shr(|leaves| - 1, h) {
      PaddingIsZero(f, leaves, h, 2 * i + 1);
    }
  }

  lemma {:induction false} PairUpGivesNextLevel(f: Keccak2, leaves: seq<Hash>, h: nat)
    requires leaves != []
    ensures PairUp(f, Level(f, leaves, h), Zero(f, h)) == Level(f, leaves, h + 1)
  {
    hide Shr, Node, Zero;
    var level := Level(f, leaves, h);
    ShrSucc(|leaves| - 1, h);
    forall i | 0 <= i < (|level| + 1) / 2
      ensures PairUp(f, level, Zero(f, h))[i] == Level(f, leaves, h + 1)[i]
    {
      PairIsParent(f, leaves, h, i);
    }
  }

  lemma {:induction false} RootByLevelsFrom(f: Keccak2, leaves: seq<Hash>, h: nat)
    requires leaves != [] && h <= TreeHeight(|leaves|)
    ensures RootByLevels(f, Level(f, leaves, h), Zero(f, h)) == Root(f, leaves)
    decreases TreeHeight(|leaves|) - h
  {
    hide Node, Shr, BitLength, PairUp;
    ShrZero(|leaves| - 1, h);
    if h < TreeHeight(|leaves|) {
      PairUpGivesNextLevel(f, leaves, h);
      RootByLevelsFrom(f, leaves, h + 1);
    }
  }

  /** Both definitions of the root agree. */
  lemma {:induction false} RootAgreesWithLevels(f: Keccak2, leaves: seq<Hash>)
    requires leaves != []
    ensures RootByLevels(f, leaves, ZERO_HASH) == Root(f, leaves)
  {
    assert Level(f, leaves, 0) == leaves;
    RootByLevelsFrom(f, leaves, 0);
  }
}
