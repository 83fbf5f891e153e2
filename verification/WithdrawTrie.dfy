/** The append-only withdraw trie: a Merkle tree kept as one branch of nodes.

    A trie over leaves `0..m` keeps, for every level `h` up to its height, the node at level `h`
    whose position is `m >> h` with the low bit cleared. The top entry is the root. */
module WithdrawTries {
  import opened Bytes
  import opened Bits
  import opened MerkleTree

  const MAX_HEIGHT: nat := 40

  /** The most leaves a trie of `MAX_HEIGHT` levels can hold. */
  const CAPACITY: nat := Pow2(39)

  // ---------- Proofs as bytes ----------

  function Concat(proof: seq<Hash>): (bytes: seq<byte>)
    ensures |bytes| == 32 * |proof|
  {
    if proof == [] then [] else Concat(proof[..|proof| - 1]) + proof[|proof| - 1]
  }

  function Split(bytes: seq<byte>): (proof: seq<Hash>)
    requires |bytes| % 32 == 0
    ensures |proof| == |bytes| / 32
  {
    if bytes == [] then [] else Split(bytes[..|bytes| - 32]) + [bytes[|bytes| - 32..]]
  }

  lemma {:induction false} SplitConcat(proof: seq<Hash>)
    ensures Split(Concat(proof)) == proof
  {
    if proof != [] {
      var front, last := proof[..|proof| - 1], proof[|proof| - 1];
      var bytes := Concat(proof);
      assert bytes[..|bytes| - 32] == Concat(front);
      assert bytes[|bytes| - 32..] == last;
      SplitConcat(front);
    }
  }

  lemma {:induction false} ConcatSplit(bytes: seq<byte>)
    requires |bytes| % 32 == 0
    ensures Concat(Split(bytes)) == bytes
  {
    if bytes != [] {
      var front := Split(bytes[..|bytes| - 32]);
      ConcatSplit(bytes[..|bytes| - 32]);
      assert Split(bytes)[..|Split(bytes)| - 1] == front;
    }
  }

  method EncodeMerkleProofToBytes(proof: seq<Hash>) returns (proofBytes: seq<byte>)
    ensures proofBytes == Concat(proof)
  {
    proofBytes := [];
    for i := 0 to |proof|
      invariant proofBytes == Concat(proof[..i])
    {
      assert proof[..i + 1][..i] == proof[..i];
      proofBytes := proofBytes + proof[i];
    }
    assert proof[..|proof|] == proof;
  }

  method DecodeBytesToMerkleProof(proofBytes: seq<byte>) returns (proof: seq<Hash>)
    requires |proofBytes| % 32 == 0
    ensures proof == Split(proofBytes)
  {
    proof := [];
    var i := 0;
    while i < |proofBytes|
      invariant 0 <= i <= |proofBytes| && i % 32 == 0
      invariant proof == Split(proofBytes[..i])
    {
      var word := proofBytes[i..i + 32];
      var upTo := proofBytes[..i + 32];
      assert upTo[..|upTo| - 32] == proofBytes[..i];
      assert upTo[|upTo| - 32..] == proofBytes[i..i + 32];
      proof := proof + [word];
      i := i + 32;
    }
    assert proofBytes[..i] == proofBytes;
  }

  // ---------- The branch invariant ----------

  /** `branches` is the branch kept for a tree over `leaves`. */
  ghost predicate BranchesMatch(f: Keccak2, leaves: seq<Hash>, branches: seq<Hash>) {
    leaves != [] ==>
      && TreeHeight(|leaves|) < |branches|
      && forall h :: 0 <= h <= TreeHeight(|leaves|) ==>
           branches[h] == Node(f, leaves, h, Even(Shr(|leaves| - 1, h)))
  }

  ghost predicate ZeroesMatch(f: Keccak2, zeroes: seq<Hash>) {
    forall h :: 0 <= h < |zeroes| ==> zeroes[h] == Zero(f, h)
  }

  lemma {:induction false} TopBranchIsRoot(f: Keccak2, leaves: seq<Hash>, branches: seq<Hash>)
    requires leaves != [] && BranchesMatch(f, leaves, branches)
    ensures branches[TreeHeight(|leaves|)] == Root(f, leaves)
  {
    hide Shr, Node;
    ShrZero(|leaves| - 1, TreeHeight(|leaves|));
  }

  /** Where position `n >> h` is a right child, the kept branch is its complete left sibling,
      whatever leaves follow. */
  lemma {:induction false} BranchIsLeftSibling(
      f: Keccak2, leaves: seq<Hash>, branches: seq<Hash>, more: seq<Hash>, h: nat)
    requires BranchesMatch(f, leaves, branches)
    requires Shr(|leaves|, h) % 2 == 1
    ensures leaves != [] && h <= TreeHeight(|leaves|)
    ensures branches[h] == Node(f, leaves + more, h, Shr(|leaves|, h) - 1)
  {
    hide Shr, Node;
    var n := |leaves|;
    ShrZero(n, h);
    assert n > 0;
    ShrPredecessor(n, h);
    if h > 0 {
      ShrSucc(n, h - 1);
      ShrPredecessor(n, h - 1);
      ShrZero(n - 1, h - 1);
    }
    CompleteIsStable(f, leaves, more, h, Shr(n, h) - 1);
  }

  // ---------- Climbing from a leaf ----------

  /** A climb from leaf `index` has reached level `h`: `root` is the node there, `proof` the siblings
      met, and the entries of `branches` below `h` are the ones kept for the tree over `leaves`. */
  ghost predicate Climbed(
      f: Keccak2, leaves: seq<Hash>, index: nat, h: nat, root: Hash, proof: seq<Hash>, branches: seq<Hash>)
  {
    && |proof| == h <= |branches|
    && root == Node(f, leaves, h, Shr(index, h))
    && (forall j :: 0 <= j < h ==> proof[j] == Node(f, leaves, j, Sibling(Shr(index, j))))
    && (forall j :: 0 <= j < h ==> branches[j] == Node(f, leaves, j, Even(Shr(index, j))))
  }

  lemma {:induction false} ClimbStart(f: Keccak2, leaves: seq<Hash>, index: nat, branches: seq<Hash>)
    requires index < |leaves|
    ensures Climbed(f, leaves, index, 0, leaves[index], [], branches)
  {
  }

  /** One level up, from a left child to its parent. */
  lemma {:induction false} ClimbLeft(
      f: Keccak2, leaves: seq<Hash>, index: nat, h: nat, root: Hash, proof: seq<Hash>, branches: seq<Hash>, right: Hash)
    requires Climbed(f, leaves, index, h, root, proof, branches) && h < |branches|
    requires Shr(index, h) % 2 == 0
    requires right == Node(f, leaves, h, Shr(index, h) + 1)
    ensures Climbed(f, leaves, index, h + 1, f(root, right), proof + [right], branches[h := root])
  {
    hide Shr;
    ShrSucc(index, h);
    var i := Shr(index, h);
    assert i == 2 * (i / 2);
  }

  /** One level up, from a right child to its parent. */
  lemma {:induction false} ClimbRight(
      f: Keccak2, leaves: seq<Hash>, index: nat, h: nat, root: Hash, proof: seq<Hash>, branches: seq<Hash>, left: Hash)
    requires Climbed(f, leaves, index, h, root, proof, branches) && h < |branches|
    requires Shr(index, h) % 2 == 1
    requires left == Node(f, leaves, h, Shr(index, h) - 1)
    ensures Climbed(f, leaves, index, h + 1, f(left, root), proof + [left], branches[h := left])
  {
    hide Shr;
    ShrSucc(index, h);
    var i := Shr(index, h);
    assert i == 2 * (i / 2) + 1;
  }

  /** A climb from the last leaf to the top gives its proof and the branch kept for the tree. */
  lemma {:induction false} ClimbEnd(
      f: Keccak2, leaves: seq<Hash>, index: nat, root: Hash, proof: seq<Hash>, branches: seq<Hash>)
    requires |leaves| == index + 1
    requires Climbed(f, leaves, index, BitLength(index), root, proof, branches) && BitLength(index) < |branches|
    ensures BranchesMatch(f, leaves, branches[BitLength(index) := root])
    ensures proof == ProofOf(f, leaves, index)
  {
    hide Shr, Node;
    ShrZero(index, BitLength(index));
    PathFromNodes(f, leaves, index, proof);
  }

  /** Adds leaf number `index` to the branch kept for the `index` leaves before it, and returns
      the new leaf's inclusion proof. */
  method UpdateBranchWithNewMessage(
      f: Keccak2, zeroes: array<Hash>, branches: array<Hash>, index: nat, msgHash: Hash, ghost leaves: seq<Hash>)
    returns (merkleProof: seq<Hash>)
    requires |leaves| == index
    requires zeroes != branches && ZeroesMatch(f, zeroes[..])
    requires BitLength(index) <= zeroes.Length && BitLength(index) < branches.Length
    requires BranchesMatch(f, leaves, branches[..])
    modifies branches
    ensures BranchesMatch(f, leaves + [msgHash], branches[..])
    ensures merkleProof == ProofOf(f, leaves + [msgHash], index)
  {
    ghost var grown := leaves + [msgHash];
    ghost var before := branches[..];
    var i, height, root := index, 0, msgHash;
    merkleProof := [];
    assert Shr(index, 0) == index;
    hide Climbed, BranchesMatch, Node, Shr, BitLength, Path;
    ClimbStart(f, grown, index, branches[..]);
    while i > 0
      invariant i == Shr(index, height) && height <= BitLength(index)
      invariant Climbed(f, grown, index, height, root, merkleProof, branches[..])
      invariant branches[height..] == before[height..]
    {
      ShrZero(index, height);
      ShrSucc(index, height);
      ghost var now := branches[..];
      if i % 2 == 0 {
        PaddingIsZero(f, grown, height, i + 1);
        ClimbLeft(f, grown, index, height, root, merkleProof, now, zeroes[height]);
        branches[height] := root;
        merkleProof := merkleProof + [zeroes[height]];
        root := f(root, zeroes[height]);
        assert branches[..] == now[height := now[height]][height := branches[height]];
      } else {
        assert now[height] == before[height] by {
          assert branches[height..][0] == before[height..][0];
        }
        BranchIsLeftSibling(f, leaves, before, [msgHash], height);
        ClimbRight(f, grown, index, height, root, merkleProof, now, branches[height]);
        assert now == now[height := branches[height]];
        root := f(branches[height], root);
        merkleProof := merkleProof + [branches[height]];
      }
      assert branches[height + 1..] == branches[height..][1..] == before[height + 1..];
      i := i / 2;
      height := height + 1;
    }
    ShrZero(index, height);
    ClimbEnd(f, grown, index, root, merkleProof, branches[..]);
    ghost var now := branches[..];
    branches[height] := root;
    assert branches[..] == now[height := root];
  }

  // ---------- Rebuilding a branch from the rightmost proof ----------

  /** `proof` is the rightmost leaf's proof in the tree over `leaves`. */
  ghost predicate IsRightmostProof(f: Keccak2, leaves: seq<Hash>, index: nat, msgHash: Hash, proof: seq<Hash>) {
    |leaves| == index + 1 && leaves[index] == msgHash && proof == ProofOf(f, leaves, index)
  }

  /** One level up, reading the sibling from the rightmost proof. */
  lemma {:induction false} ClimbByProof(
      f: Keccak2, leaves: seq<Hash>, index: nat, h: nat, root: Hash, proof: seq<Hash>, branches: seq<Hash>)
    requires |leaves| == index + 1 && proof == ProofOf(f, leaves, index)
    requires h < |proof| && h < |branches|
    requires Climbed(f, leaves, index, h, root, proof[..h], branches)
    ensures if Shr(index, h) % 2 == 0
            then Climbed(f, leaves, index, h + 1, f(root, proof[h]), proof[..h + 1], branches[h := root])
            else Climbed(f, leaves, index, h + 1, f(proof[h], root), proof[..h + 1], branches[h := proof[h]])
  {
    hide Climbed, Node, Shr, BitLength, Path;
    PathAt(f, leaves, 0, index, |proof|, h);
    assert proof[..h + 1] == proof[..h] + [proof[h]];
    if Shr(index, h) % 2 == 0 {
      ClimbLeft(f, leaves, index, h, root, proof[..h], branches, proof[h]);
    } else {
      ClimbRight(f, leaves, index, h, root, proof[..h], branches, proof[h]);
    }
  }

  method ClearFrom(branches: array<Hash>, from: nat)
    requires from <= branches.Length
    modifies branches
    ensures forall h :: 0 <= h < from ==> branches[h] == old(branches[h])
    ensures forall h :: from <= h < branches.Length ==> branches[h] == ZERO_HASH
  {
    var height := from;
    while height < branches.Length
      invariant from <= height <= branches.Length
      invariant forall h :: 0 <= h < from ==> branches[h] == old(branches[h])
      invariant forall h :: from <= h < height ==> branches[h] == ZERO_HASH
    {
      branches[height] := ZERO_HASH;
      height := height + 1;
    }
  }

  lemma {:induction false} BranchesMatchPrefix(f: Keccak2, leaves: seq<Hash>, branches: seq<Hash>, branches': seq<Hash>)
    requires leaves != [] && BranchesMatch(f, leaves, branches)
    requires |branches'| == |branches|
    requires forall h :: 0 <= h <= TreeHeight(|leaves|) ==> branches'[h] == branches[h]
    ensures BranchesMatch(f, leaves, branches')
  {
  }

  /** The loop of the recovery: climbs along `proof`, recording the left node of every pair. */
  method ClimbAlongProof(
      f: Keccak2, proof: seq<Hash>, index: nat, msgHash: Hash, branches: array<Hash>, ghost leaves: seq<Hash>)
    returns (height: nat, root: Hash)
    requires BitLength(index) <= |proof| && BitLength(index) < branches.Length
    modifies branches
    ensures height == BitLength(index)
    ensures root == Climb(f, index, msgHash, proof[..height])
    ensures IsRightmostProof(f, leaves, index, msgHash, proof) ==>
              Climbed(f, leaves, index, height, root, proof[..height], branches[..])
  {
    ghost var top := BitLength(index);
    ghost var known := IsRightmostProof(f, leaves, index, msgHash, proof);
    var i := index;
    height, root := 0, msgHash;
    assert Shr(index, 0) == index && proof[0..top] == proof[..top] && proof[..0] == [];
    if known {
      ClimbStart(f, leaves, index, branches[..]);
    }
    hide Climbed, Node, Shr, BitLength, Path;
    while i > 0
      invariant i == Shr(index, height) && height <= top
      invariant Climb(f, i, root, proof[height..top]) == Climb(f, index, msgHash, proof[..top])
      invariant known ==> Climbed(f, leaves, index, height, root, proof[..height], branches[..])
    {
      ShrZero(index, height);
      ShrSucc(index, height);
      assert proof[height..top][1..] == proof[height + 1..top];
      ghost var now := branches[..];
      if known {
        ClimbByProof(f, leaves, index, height, root, proof, now);
      }
      if i % 2 == 0 {
        branches[height] := root;
        root := f(root, proof[height]);
      } else {
        branches[height] := proof[height];
        root := f(proof[height], root);
      }
      assert branches[..] == now[height := branches[height]];
      i := i / 2;
      height := height + 1;
    }
    ShrZero(index, height);
  }

  method RecoverBranchFromProof(f: Keccak2, proof: seq<Hash>, index: nat, msgHash: Hash, ghost leaves: seq<Hash>)
    returns (branches: array<Hash>)
    requires BitLength(index) <= |proof| && BitLength(index) < 64
    ensures fresh(branches) && branches.Length == 64
    ensures branches[BitLength(index)] == Climb(f, index, msgHash, proof[..BitLength(index)])
    ensures forall h :: BitLength(index) < h < 64 ==> branches[h] == ZERO_HASH
    ensures IsRightmostProof(f, leaves, index, msgHash, proof) ==> BranchesMatch(f, leaves, branches[..])
  {
    branches := new Hash[64];
    var height, root := ClimbAlongProof(f, proof, index, msgHash, branches, leaves);
    hide Climbed, Node, Shr, BitLength, Path, Climb;
    ghost var now := branches[..];
    branches[height] := root;
    ghost var full := branches[..];
    assert full == now[height := root];
    ClearFrom(branches, height + 1);
    if IsRightmostProof(f, leaves, index, msgHash, proof) {
      ClimbEnd(f, leaves, index, root, proof[..height], now);
      BranchesMatchPrefix(f, leaves, full, branches[..]);
    }
  }

  // ---------- Many leaves at once: the layered cache ----------

  type Layer = map<nat, Hash>

  /** Reading a key that was never written gives the zero hash. */
  function Lookup(layer: Layer, i: nat): Hash {
    if i in layer then layer[i] else ZERO_HASH
  }

  function Put(cache: seq<Layer>, h: nat, i: nat, x: Hash): seq<Layer>
    requires h < |cache|
  {
    var layer: Layer := cache[h][i := x];
    cache[h := layer]
  }

  /** Everything cached is a node of the tree over `leaves`. */
  ghost predicate CacheCorrect(f: Keccak2, leaves: seq<Hash>, cache: seq<Layer>) {
    forall h, i :: 0 <= h < |cache| && i in cache[h] ==> cache[h][i] == Node(f, leaves, h, i)
  }

  /** Positions `from`, ..., `to - 1` are cached. */
  ghost predicate Covers(layer: Layer, from: nat, to: nat) {
    forall i :: from <= i < to ==> i in layer
  }

  /** The left sibling of a right child `position` is cached. */
  ghost predicate LeftSiblingCached(position: nat, layer: Layer) {
    position % 2 == 1 ==> position - 1 in layer
  }

  ghost predicate Grows(cache: seq<Layer>, cache': seq<Layer>) {
    |cache| == |cache'| && forall h :: 0 <= h < |cache| ==> cache[h].Keys <= cache'[h].Keys
  }

  lemma {:induction false} PutNode(f: Keccak2, leaves: seq<Hash>, cache: seq<Layer>, h: nat, i: nat, x: Hash)
    requires h < |cache| && CacheCorrect(f, leaves, cache)
    requires x == Node(f, leaves, h, i)
    ensures CacheCorrect(f, leaves, Put(cache, h, i, x))
    ensures Grows(cache, Put(cache, h, i, x))
  {
  }

  /** Above the top of the kept branch there are no right children. */
  lemma {:induction false} LeftSiblingsCached(f: Keccak2, leaves: seq<Hash>, branches: seq<Hash>, cache: seq<Layer>)
    requires BranchesMatch(f, leaves, branches)
    requires forall h :: 0 <= h < |cache| && leaves != [] && h <= TreeHeight(|leaves|) ==>
               LeftSiblingCached(Shr(|leaves|, h), cache[h])
    ensures forall h :: 0 <= h < |cache| ==> LeftSiblingCached(Shr(|leaves|, h), cache[h])
  {
    hide Shr, Node, BranchesMatch, BitLength;
    forall h | 0 <= h < |cache| ensures LeftSiblingCached(Shr(|leaves|, h), cache[h]) {
      if Shr(|leaves|, h) % 2 == 1 {
        BranchIsLeftSibling(f, leaves, branches, [], h);
      }
    }
  }

  /** Caches the branches that later pairs need as left children. */
  method CacheBranches(
      f: Keccak2, branches: array<Hash>, nextNonce: nat, height: int, ghost leaves: seq<Hash>, ghost hashes: seq<Hash>)
    returns (cache: seq<Layer>)
    requires |leaves| == nextNonce
    requires BranchesMatch(f, leaves, branches[..])
    requires height == if nextNonce == 0 then -1 else TreeHeight(nextNonce)
    requires height < MAX_HEIGHT
    ensures |cache| == MAX_HEIGHT
    ensures CacheCorrect(f, leaves + hashes, cache)
    ensures forall h :: 0 <= h < MAX_HEIGHT ==> LeftSiblingCached(Shr(nextNonce, h), cache[h])
  {
    assert Shr(nextNonce, 0) == nextNonce && height < branches.Length;
    hide Node, Shr, BitLength, BranchesMatch;
    cache := seq(MAX_HEIGHT, _ => map[]);
    if nextNonce != 0 {
      var index := nextNonce;
      for h := 0 to height + 1
        invariant |cache| == MAX_HEIGHT
        invariant index == Shr(nextNonce, h)
        invariant CacheCorrect(f, leaves + hashes, cache)
        invariant forall g :: 0 <= g < h ==> LeftSiblingCached(Shr(nextNonce, g), cache[g])
      {
        ShrSucc(nextNonce, h);
        if index % 2 == 1 {
          BranchIsLeftSibling(f, leaves, branches[..], hashes, h);
          PutNode(f, leaves + hashes, cache, h, Sibling(index), branches[h]);
          cache := Put(cache, h, Sibling(index), branches[h]);
        }
        index := index / 2;
      }
    }
    LeftSiblingsCached(f, leaves, branches[..], cache);
  }

  method CacheLeaves(f: Keccak2, before: seq<Layer>, nextNonce: nat, hashes: seq<Hash>, ghost leaves: seq<Hash>)
    returns (cache: seq<Layer>)
    requires |before| > 0 && |leaves| == nextNonce
    requires CacheCorrect(f, leaves + hashes, before)
    ensures |cache| == |before| && Grows(before, cache)
    ensures CacheCorrect(f, leaves + hashes, cache)
    ensures Covers(cache[0], nextNonce, nextNonce + |hashes|)
  {
    hide CacheCorrect;
    cache := before;
    for i := 0 to |hashes|
      invariant Grows(before, cache)
      invariant CacheCorrect(f, leaves + hashes, cache)
      invariant Covers(cache[0], nextNonce, nextNonce + i)
    {
      PutNode(f, leaves + hashes, cache, 0, nextNonce + i, hashes[i]);
      cache := Put(cache, 0, nextNonce + i, hashes[i]);
    }
  }

  /** A cached pair gives its cached parent. */
  lemma {:induction false} ParentOfPair(f: Keccak2, leaves: seq<Hash>, cache: seq<Layer>, h: nat, i: nat)
    requires h < |cache| && CacheCorrect(f, leaves, cache)
    requires i % 2 == 0 && i in cache[h] && i + 1 in cache[h]
    ensures f(Lookup(cache[h], i), Lookup(cache[h], Sibling(i))) == Node(f, leaves, h + 1, i / 2)
  {
    assert 2 * (i / 2) == i;
  }

  /** Hashes the pairs at positions `lo`, ..., `maxIndex` of level `h` into level `h + 1`. */
  method HashPairs(f: Keccak2, before: seq<Layer>, h: nat, lo: nat, maxIndex: nat, ghost leaves: seq<Hash>)
    returns (cache: seq<Layer>)
    requires h + 1 < |before| && lo % 2 == 0 && lo <= maxIndex
    requires CacheCorrect(f, leaves, before)
    requires Covers(before[h], lo, Even(maxIndex) + 2)
    ensures CacheCorrect(f, leaves, cache)
    ensures |cache| == |before| && Grows(before, cache)
    ensures cache[h] == before[h]
    ensures Covers(cache[h + 1], lo / 2, maxIndex / 2 + 1)
  {
    hide Node, CacheCorrect;
    cache := before;
    var i := lo;
    while i <= maxIndex
      invariant lo <= i <= maxIndex + 2 && i % 2 == 0
      invariant Grows(before, cache) && cache[h] == before[h]
      invariant CacheCorrect(f, leaves, cache)
      invariant Covers(cache[h + 1], lo / 2, i / 2)
    {
      ParentOfPair(f, leaves, cache, h, i);
      var parent := f(Lookup(cache[h], i), Lookup(cache[h], Sibling(i)));
      PutNode(f, leaves, cache, h + 1, i / 2, parent);
      cache := Put(cache, h + 1, i / 2, parent);
      i := i + 2;
    }
  }

  /** Completes level `h` on the right and hashes its pairs into level `h + 1`. */
  method HashLevel(
      f: Keccak2, zeroes: array<Hash>, before: seq<Layer>, h: nat, minIndex: nat, maxIndex: nat,
      ghost leaves: seq<Hash>)
    returns (cache: seq<Layer>)
    requires h + 1 < |before| && h < zeroes.Length
    requires ZeroesMatch(f, zeroes[..])
    requires leaves != [] && maxIndex == Shr(|leaves| - 1, h) && minIndex <= maxIndex
    requires CacheCorrect(f, leaves, before)
    requires Covers(before[h], Even(minIndex), maxIndex + 1)
    ensures CacheCorrect(f, leaves, cache)
    ensures |cache| == |before| && Grows(before, cache)
    ensures Covers(cache[h], Even(minIndex), Even(maxIndex) + 2)
    ensures Covers(cache[h + 1], minIndex / 2, maxIndex / 2 + 1)
  {
    hide Node, Shr, CacheCorrect;
    cache := before;
    var lo := if minIndex % 2 == 1 then minIndex - 1 else minIndex;
    if maxIndex % 2 == 0 {
      PaddingIsZero(f, leaves, h, maxIndex + 1);
      PutNode(f, leaves, cache, h, Sibling(maxIndex), zeroes[h]);
      cache := Put(cache, h, Sibling(maxIndex), zeroes[h]);
    }
    cache := HashPairs(f, cache, h, lo, maxIndex, leaves);
  }

  /** Levels below `h` hold every node the proofs of leaves `from` onwards can need, and level `h`
      every node above those leaves. */
  ghost predicate BuiltTo(f: Keccak2, leaves: seq<Hash>, from: nat, h: nat, cache: seq<Layer>) {
    && from < |leaves| && h < |cache|
    && CacheCorrect(f, leaves, cache)
    && (forall g :: h <= g < |cache| ==> LeftSiblingCached(Shr(from, g), cache[g]))
    && (forall g :: 0 <= g < h ==> Covers(cache[g], Even(Shr(from, g)), Even(Shr(|leaves| - 1, g)) + 2))
    && Covers(cache[h], Shr(from, h), Shr(|leaves| - 1, h) + 1)
  }

  lemma {:induction false} LevelBuilt(
      f: Keccak2, leaves: seq<Hash>, from: nat, h: nat, before: seq<Layer>, cache: seq<Layer>)
    requires h + 1 < |before| && BuiltTo(f, leaves, from, h, before)
    requires CacheCorrect(f, leaves, cache) && |cache| == |before| && Grows(before, cache)
    requires Covers(cache[h], Even(Shr(from, h)), Even(Shr(|leaves| - 1, h)) + 2)
    requires Covers(cache[h + 1], Shr(from, h) / 2, Shr(|leaves| - 1, h) / 2 + 1)
    ensures BuiltTo(f, leaves, from, h + 1, cache)
  {
    ShrSucc(from, h);
    ShrSucc(|leaves| - 1, h);
    forall g | h < g < |cache| ensures LeftSiblingCached(Shr(from, g), cache[g]) {
      assert LeftSiblingCached(Shr(from, g), before[g]);
    }
    forall g | 0 <= g < h ensures Covers(cache[g], Even(Shr(from, g)), Even(Shr(|leaves| - 1, g)) + 2) {
      assert Covers(before[g], Even(Shr(from, g)), Even(Shr(|leaves| - 1, g)) + 2);
    }
  }

  lemma {:induction false} LevelZeroBuilt(f: Keccak2, leaves: seq<Hash>, from: nat, before: seq<Layer>,
      cache: seq<Layer>)
    requires from < |leaves| && |before| > 0
    requires forall h :: 0 <= h < |before| ==> LeftSiblingCached(Shr(from, h), before[h])
    requires |cache| == |before| && Grows(before, cache) && CacheCorrect(f, leaves, cache)
    requires Covers(cache[0], from, |leaves|)
    ensures BuiltTo(f, leaves, from, 0, cache)
  {
    forall h | 0 <= h < |cache| ensures LeftSiblingCached(Shr(from, h), cache[h]) {
      assert LeftSiblingCached(Shr(from, h), before[h]);
    }
  }

  /** What hashing level `h` needs. */
  lemma {:induction false} LevelReady(f: Keccak2, leaves: seq<Hash>, from: nat, h: nat, cache: seq<Layer>)
    requires BuiltTo(f, leaves, from, h, cache)
    ensures CacheCorrect(f, leaves, cache) && h < |cache|
    ensures Shr(from, h) <= Shr(|leaves| - 1, h)
    ensures Covers(cache[h], Even(Shr(from, h)), Shr(|leaves| - 1, h) + 1)
  {
    hide Shr, Node;
    ShrMonotone(from, |leaves| - 1, h);
    assert LeftSiblingCached(Shr(from, h), cache[h]);
  }

  /** Builds all levels above a seeded level 0. */
  method HashLevels(
      f: Keccak2, zeroes: array<Hash>, seeded: seq<Layer>, nextNonce: nat, length: nat, ghost leaves: seq<Hash>)
    returns (cache: seq<Layer>)
    requires zeroes.Length == |seeded| == MAX_HEIGHT && ZeroesMatch(f, zeroes[..])
    requires length > 0 && |leaves| == nextNonce + length && TreeHeight(|leaves|) < MAX_HEIGHT
    requires BuiltTo(f, leaves, nextNonce, 0, seeded)
    ensures BuiltTo(f, leaves, nextNonce, TreeHeight(|leaves|), cache)
  {
    cache := seeded;
    var minIndex, maxIndex := nextNonce, nextNonce + length - 1;
    ghost var last := maxIndex;
    assert Shr(nextNonce, 0) == nextNonce && Shr(last, 0) == last;
    hide Node, Shr, BitLength, CacheCorrect, BuiltTo, Covers, Grows;
    var h := 0;
    while maxIndex > 0
      invariant h <= BitLength(last) && |cache| == MAX_HEIGHT
      invariant minIndex == Shr(nextNonce, h) && maxIndex == Shr(last, h)
      invariant BuiltTo(f, leaves, nextNonce, h, cache)
    {
      ShrZero(last, h);
      ShrSucc(last, h);
      ShrSucc(nextNonce, h);
      LevelReady(f, leaves, nextNonce, h, cache);
      ghost var before := cache;
      cache := HashLevel(f, zeroes, cache, h, minIndex, maxIndex, leaves);
      LevelBuilt(f, leaves, nextNonce, h, before, cache);
      minIndex := minIndex / 2;
      maxIndex := maxIndex / 2;
      h := h + 1;
    }
    ShrZero(last, h);
  }

  method BuildCache(
      f: Keccak2, zeroes: array<Hash>, branches: array<Hash>, nextNonce: nat, height: int, hashes: seq<Hash>,
      ghost leaves: seq<Hash>)
    returns (cache: seq<Layer>)
    requires |leaves| == nextNonce && hashes != []
    requires nextNonce + |hashes| <= CAPACITY
    requires zeroes.Length == MAX_HEIGHT && ZeroesMatch(f, zeroes[..])
    requires BranchesMatch(f, leaves, branches[..])
    requires height == if nextNonce == 0 then -1 else TreeHeight(nextNonce)
    ensures BuiltTo(f, leaves + hashes, nextNonce, TreeHeight(nextNonce + |hashes|), cache)
  {
    hide Node, Shr, BitLength, Pow2, CacheCorrect, BuiltTo, BranchesMatch, Covers, Grows;
    BitLengthBound(nextNonce + |hashes| - 1, 39);
    if nextNonce > 0 {
      BitLengthMonotone(nextNonce - 1, nextNonce + |hashes| - 1);
    }
    var seeded := CacheBranches(f, branches, nextNonce, height, leaves, hashes);
    cache := CacheLeaves(f, seeded, nextNonce, hashes, leaves);
    LevelZeroBuilt(f, leaves + hashes, nextNonce, seeded, cache);
    cache := HashLevels(f, zeroes, cache, nextNonce, |hashes|, leaves + hashes);
  }

  /** The sibling met at level `h` on the way up from a new leaf is cached. */
  lemma {:induction false} SiblingCached(f: Keccak2, leaves: seq<Hash>, from: nat, cache: seq<Layer>, i: nat, h: nat)
    requires leaves != [] && BuiltTo(f, leaves, from, TreeHeight(|leaves|), cache)
    requires from <= i < |leaves| && h < TreeHeight(|leaves|)
    ensures Lookup(cache[h], Sibling(Shr(i, h))) == Node(f, leaves, h, Sibling(Shr(i, h)))
  {
    hide Shr, Node, BitLength;
    ShrMonotone(from, i, h);
    ShrMonotone(i, |leaves| - 1, h);
    assert Covers(cache[h], Even(Shr(from, h)), Even(Shr(|leaves| - 1, h)) + 2);
    assert Sibling(Shr(i, h)) in cache[h];
  }

  lemma ClimbFrom(f: Keccak2, leaves: seq<Hash>, from: nat, height: nat, cache: seq<Layer>, i: nat)
    requires BuiltTo(f, leaves, from, height, cache)
    ensures height < |cache| && Shr(i, 0) == i
  {
  }

  /** Reads the proof of leaf `i` out of a complete cache. */
  method ReadProof(f: Keccak2, cache: seq<Layer>, i: nat, height: nat, ghost leaves: seq<Hash>, ghost from: nat)
    returns (merkleProof: seq<Hash>)
    requires from <= i < |leaves| && height == TreeHeight(|leaves|)
    requires BuiltTo(f, leaves, from, height, cache)
    ensures merkleProof == ProofOf(f, leaves, i)
  {
    hide Shr, Node, BitLength, BuiltTo, Path;
    merkleProof := [];
    var index := i;
    ClimbFrom(f, leaves, from, height, cache, i);
    for h := 0 to height
      invariant index == Shr(i, h)
      invariant |merkleProof| == h
      invariant forall j :: 0 <= j < h ==> merkleProof[j] == Node(f, leaves, j, Sibling(Shr(i, j)))
    {
      ShrSucc(i, h);
      SiblingCached(f, leaves, from, cache, i, h);
      merkleProof := merkleProof + [Lookup(cache[h], Sibling(index))];
      index := index / 2;
    }
    PathFromNodes(f, leaves, i, merkleProof);
  }

  /** Reads the encoded proofs of the last `length` leaves. */
  method ReadProofs(f: Keccak2, cache: seq<Layer>, nextNonce: nat, length: nat, height: nat, ghost leaves: seq<Hash>)
    returns (proofs: seq<seq<byte>>)
    requires 0 < length <= nextNonce == |leaves| && height == TreeHeight(|leaves|)
    requires BuiltTo(f, leaves, nextNonce - length, height, cache)
    ensures |proofs| == length
    ensures forall i :: 0 <= i < length ==> proofs[i] == Concat(ProofOf(f, leaves, nextNonce - length + i))
  {
    hide BuiltTo, Node, Path, BitLength, Concat;
    proofs := [];
    for i := 0 to length
      invariant |proofs| == i
      invariant forall j :: 0 <= j < i ==> proofs[j] == Concat(ProofOf(f, leaves, nextNonce - length + j))
    {
      var index := nextNonce + i - length;
      var merkleProof := ReadProof(f, cache, index, height, leaves, nextNonce - length);
      var bytes := EncodeMerkleProofToBytes(merkleProof);
      proofs := proofs + [bytes];
    }
  }

  // ---------- The trie ----------

  method ZeroSubtrees(f: Keccak2) returns (zeroes: array<Hash>)
    ensures fresh(zeroes) && zeroes.Length == MAX_HEIGHT && ZeroesMatch(f, zeroes[..])
  {
    hide Zeros;
    zeroes := new Hash[MAX_HEIGHT];
    zeroes[0] := ZERO_HASH;
    for i := 1 to MAX_HEIGHT
      invariant forall h :: 0 <= h < i ==> zeroes[h] == Zero(f, h)
    {
      zeroes[i] := f(zeroes[i - 1], zeroes[i - 1]);
    }
  }

  class WithdrawTrie {
    const keccak2: Keccak2
    const zeroes: array<Hash>
    var nextMessageNonce: nat
    var height: int
    var branches: array<Hash>

    /** Every leaf appended so far. */
    ghost var leaves: seq<Hash>

    ghost predicate Valid()
      reads this, zeroes, branches
    {
      && zeroes != branches
      && zeroes.Length == MAX_HEIGHT && ZeroesMatch(keccak2, zeroes[..])
      && MAX_HEIGHT <= branches.Length && BranchesMatch(keccak2, leaves, branches[..])
      && nextMessageNonce == |leaves| <= CAPACITY
      && height == if leaves == [] then -1 else TreeHeight(|leaves|)
    }

    constructor (f: Keccak2)
      ensures Valid() && fresh(zeroes) && fresh(branches)
      ensures keccak2 == f && leaves == []
    {
      hide Pow2;
      var zs := ZeroSubtrees(f);
      keccak2 := f;
      zeroes := zs;
      branches := new Hash[MAX_HEIGHT];
      height := -1;
      nextMessageNonce := 0;
      leaves := [];
    }

    /** Rebuilds the trie from its rightmost leaf's encoded proof. `known` are the leaves of the
        tree the proof is meant to come from; when it does come from it, the whole trie is back. */
    method Initialize(currentMessageNonce: nat, msgHash: Hash, proofBytes: seq<byte>, ghost known: seq<Hash>)
      requires zeroes.Length == MAX_HEIGHT && ZeroesMatch(keccak2, zeroes[..])
      requires |proofBytes| % 32 == 0
      requires BitLength(currentMessageNonce) <= |proofBytes| / 32 && BitLength(currentMessageNonce) < 64
      modifies this
      ensures fresh(branches) && branches.Length == 64
      ensures nextMessageNonce == currentMessageNonce + 1 && height == |proofBytes| / 32
      ensures branches[BitLength(currentMessageNonce)] ==
              Climb(keccak2, currentMessageNonce, msgHash, Split(proofBytes)[..BitLength(currentMessageNonce)])
      ensures |known| <= CAPACITY && IsRightmostProof(keccak2, known, currentMessageNonce, msgHash, Split(proofBytes))
              ==> Valid() && leaves == known
    {
      var proof := DecodeBytesToMerkleProof(proofBytes);
      branches := RecoverBranchFromProof(keccak2, proof, currentMessageNonce, msgHash, known);
      height := |proof|;
      nextMessageNonce := currentMessageNonce + 1;
      leaves := known;
    }

    /** The root of the tree over all leaves so far. */
    method MessageRoot() returns (root: Hash)
      requires Valid()
      ensures root == Root(keccak2, leaves)
    {
      if height == -1 {
        return ZERO_HASH;
      }
      TopBranchIsRoot(keccak2, leaves, branches[..]);
      return branches[height];
    }

    /** Updates the branches with new leaves one by one. */
    method AppendOneByOne(hashes: seq<Hash>)
      requires Valid() && |leaves| + |hashes| <= CAPACITY
      modifies this`nextMessageNonce, this`height, this`leaves, branches
      ensures Valid() && leaves == old(leaves) + hashes
    {
      hide Node, BitLength, Path, Pow2, Zero, BranchesMatch, ZeroesMatch;
      ghost var start := leaves;
      for i := 0 to |hashes|
        invariant Valid() && branches == old(branches)
        invariant leaves == start + hashes[..i]
      {
        BitLengthBound(nextMessageNonce, 39);
        var proof := UpdateBranchWithNewMessage(keccak2, zeroes, branches, nextMessageNonce, hashes[i], leaves);
        nextMessageNonce := nextMessageNonce + 1;
        height := |proof|;
        leaves := leaves + [hashes[i]];
      }
      assert hashes[..|hashes|] == hashes;
    }

    /** Appends leaves and returns the proof of each in the tree holding all of them. */
    method AppendMessages(hashes: seq<Hash>) returns (proofs: seq<seq<byte>>)
      requires Valid() && |leaves| + |hashes| <= CAPACITY
      modifies this`nextMessageNonce, this`height, this`leaves, branches
      ensures Valid() && leaves == old(leaves) + hashes
      ensures |proofs| == |hashes|
      ensures forall i :: 0 <= i < |hashes| ==>
                proofs[i] == Concat(ProofOf(keccak2, leaves, |old(leaves)| + i))
    {
      hide BuiltTo, Node, Path, Pow2, BitLength, BranchesMatch, ZeroesMatch, Concat;
      proofs := [];
      if |hashes| == 0 {
        assert hashes == [];
        return;
      }
      var cache := BuildCache(keccak2, zeroes, branches, nextMessageNonce, height, hashes, leaves);
      AppendOneByOne(hashes);
      proofs := ReadProofs(keccak2, cache, nextMessageNonce, |hashes|, height, leaves);
    }
  }

  /** A new trie, initialized from a rightmost leaf. */
  method Restore(f: Keccak2, nonce: nat, msgHash: Hash, proofBytes: seq<byte>, ghost known: seq<Hash>)
    returns (trie: WithdrawTrie)
    requires |proofBytes| % 32 == 0
    requires BitLength(nonce) <= |proofBytes| / 32 && BitLength(nonce) < 64
    ensures fresh(trie) && fresh(trie.branches) && fresh(trie.zeroes)
    ensures trie.keccak2 == f && trie.nextMessageNonce == nonce + 1
    ensures |known| <= CAPACITY && IsRightmostProof(f, known, nonce, msgHash, Split(proofBytes))
            ==> trie.Valid() && trie.leaves == known
  {
    hide BranchesMatch, IsRightmostProof, Split, Climb, BitLength, Pow2;
    trie := new WithdrawTrie(f);
    trie.Initialize(nonce, msgHash, proofBytes, known);
  }

  // ---------- Consequences ----------

  /** The capacity is exact: one leaf more and the tree has a level the trie has no room for. */
  lemma {:induction false} CapacityIsExact(n: nat)
    requires n > 0
    ensures n <= CAPACITY <==> TreeHeight(n) < MAX_HEIGHT
  {
    hide Pow2, BitLength;
    BitLengthBound(n - 1, 39);
  }

  /** The leaves determine everything a trie will ever use: next nonce, height and branch. */
  lemma {:induction false} LeavesDetermineTrie(a: WithdrawTrie, b: WithdrawTrie)
    requires a.Valid() && b.Valid() && a.keccak2 == b.keccak2 && a.leaves == b.leaves
    ensures a.nextMessageNonce == b.nextMessageNonce && a.height == b.height
    ensures a.leaves != [] ==> a.height < a.branches.Length && a.height < b.branches.Length
                               && a.branches[..a.height + 1] == b.branches[..b.height + 1]
  {
    hide Node, Shr, BitLength;
  }

  /** A trie of the leaves, built and then rebuilt from its rightmost proof. */
  method Rebuild(f: Keccak2, first: seq<Hash>) returns (rebuilt: WithdrawTrie)
    requires first != [] && |first| <= CAPACITY
    ensures fresh(rebuilt) && fresh(rebuilt.branches) && fresh(rebuilt.zeroes)
    ensures rebuilt.Valid() && rebuilt.keccak2 == f && rebuilt.leaves == first
  {
    hide Node, Path, BitLength, Pow2, BranchesMatch, ZeroesMatch, Concat, Split, Climb;
    var part := new WithdrawTrie(f);
    var proofs := part.AppendMessages(first);
    assert part.leaves == first;
    SplitConcat(ProofOf(f, first, |first| - 1));
    BitLengthBound(|first| - 1, 39);
    rebuilt := Restore(f, |first| - 1, first[|first| - 1], proofs[|first| - 1], first);
  }

  /** Splitting a list over two calls changes neither the root nor the second call's proofs, and a trie
      rebuilt in between from the rightmost proof is as good as the original. */
  method SplitAppend(f: Keccak2, first: seq<Hash>, second: seq<Hash>)
    returns (rootAtOnce: Hash, rootSplit: Hash, proofsAtOnce: seq<seq<byte>>, proofsSplit: seq<seq<byte>>)
    requires first != [] && |first| + |second| <= CAPACITY
    ensures rootAtOnce == rootSplit == Root(f, first + second)
    ensures |proofsAtOnce| == |first| + |second| && proofsSplit == proofsAtOnce[|first|..]
  {
    hide Node, ProofOf, Pow2, BranchesMatch, ZeroesMatch, Concat, Split, Climb, IsRightmostProof, Root;
    var whole := new WithdrawTrie(f);
    proofsAtOnce := whole.AppendMessages(first + second);
    assert whole.leaves == first + second;
    rootAtOnce := whole.MessageRoot();
    var rebuilt := Rebuild(f, first);
    proofsSplit := rebuilt.AppendMessages(second);
    rootSplit := rebuilt.MessageRoot();
    assert forall i :: 0 <= i < |second| ==> proofsSplit[i] == proofsAtOnce[|first|..][i];
  }
}
