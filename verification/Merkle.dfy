/**
 The Blake2b Merkle tree shared by the provider's client and the pallet: levels
 are reduced pairwise, an unpaired last node is promoted unchanged, and a proof
 for one leaf is the list of siblings met on the way up.
 */
module Merkle {
  import opened Primitives

  /** `blake2_256`, kept uninterpreted. */
  type HashFunction = Bytes -> Hash

  /** `Blake2bHasher::concat_and_hash`. */
  function ConcatAndHash(h: HashFunction, left: Hash, right: Option<Hash>): Hash {
    match right
    case Some(r) => h(left + r)
    case None => left
  }

  function ParentCount(n: nat): nat {
    (n + 1) / 2
  }

  function Pairing(h: HashFunction, nodes: seq<Hash>, k: nat): Hash
    requires 2 * k < |nodes|
  {
    ConcatAndHash(h, nodes[2 * k], if 2 * k + 1 < |nodes| then Some(nodes[2 * k + 1]) else None)
  }

  function NextLayer(h: HashFunction, nodes: seq<Hash>): seq<Hash> {
    seq(ParentCount(|nodes|), k requires 0 <= k < ParentCount(|nodes|) => Pairing(h, nodes, k))
  }

  /** `MerkleTree::root` of a non-empty leaf list. */
  function Root(h: HashFunction, nodes: seq<Hash>): Hash
    requires nodes != []
    decreases |nodes|
  {
    if |nodes| == 1 then nodes[0] else Root(h, NextLayer(h, nodes))
  }

  /** True when node `i` of a level of `n` nodes has no sibling. */
  predicate Unpaired(i: nat, n: nat) {
    i % 2 == 0 && i + 1 == n
  }

  function Sibling(i: nat): nat {
    if i % 2 == 0 then i + 1 else i - 1
  }

  /** `tree.proof(&[i]).proof_hashes()`. */
  function InclusionProof(h: HashFunction, nodes: seq<Hash>, i: nat): seq<Hash>
    requires i < |nodes|
    decreases |nodes|
  {
    if |nodes| == 1 then []
    else
      (if Unpaired(i, |nodes|) then [] else [nodes[Sibling(i)]]) + InclusionProof(h, NextLayer(h, nodes), i / 2)
  }

  function Combine(h: HashFunction, node: Hash, sibling: Hash, i: nat): Hash {
    if i % 2 == 0 then ConcatAndHash(h, node, Some(sibling)) else ConcatAndHash(h, sibling, Some(node))
  }

  /** The root recomputed from one leaf; `None` when the proof is too short, surplus hashes are not read. */
  function RecomputedRoot(h: HashFunction, node: Hash, i: nat, n: nat, proof: seq<Hash>): Option<Hash>
    decreases n
  {
    if n <= 1 then Some(node)
    else if Unpaired(i, n) then RecomputedRoot(h, node, i / 2, ParentCount(n), proof)
    else if proof == [] then None
    else RecomputedRoot(h, Combine(h, node, proof[0], i), i / 2, ParentCount(n), proof[1..])
  }

  /** `MerkleProof::verify` for a single leaf. */
  predicate Verify(h: HashFunction, root: Hash, i: nat, leaf: Hash, n: nat, proof: seq<Hash>) {
    RecomputedRoot(h, leaf, i, n, proof) == Some(root)
  }

  function LeafHashes(h: HashFunction, chunks: seq<Bytes>): (r: seq<Hash>)
    ensures |r| == |chunks|
  {
    seq(|chunks|, i requires 0 <= i < |chunks| => h(chunks[i]))
  }

  /** The root returned by `build_merkle_tree`. */
  function BuiltRoot(h: HashFunction, chunks: seq<Bytes>): Hash
    requires chunks != []
  {
    Root(h, LeafHashes(h, chunks))
  }

  /** `generate_inclusion_proof` on the tree of `build_merkle_tree`. */
  function GeneratedProof(h: HashFunction, chunks: seq<Bytes>, i: nat): seq<Hash>
    requires i < |chunks|
  {
    InclusionProof(h, LeafHashes(h, chunks), i)
  }

  // ------------------------------------------------------------------ completeness

  /** A generated proof leads back to the root, whatever hashes trail it. */
  lemma {:induction false} ProofReachesRoot(h: HashFunction, nodes: seq<Hash>, i: nat, surplus: seq<Hash>)
    requires i < |nodes|
    ensures RecomputedRoot(h, nodes[i], i, |nodes|, InclusionProof(h, nodes, i) + surplus) == Some(Root(h, nodes))
    decreases |nodes|
  {
    if |nodes| > 1 {
      ProofReachesRoot(h, NextLayer(h, nodes), i / 2, surplus);
      ClimbOneLayer(h, nodes, i, surplus);
    }
  }

  /** Reading one layer of a generated proof moves from node `i` to its parent. */
  lemma ClimbOneLayer(h: HashFunction, nodes: seq<Hash>, i: nat, surplus: seq<Hash>)
    requires i < |nodes| && |nodes| > 1
    ensures var up := NextLayer(h, nodes);
            RecomputedRoot(h, nodes[i], i, |nodes|, InclusionProof(h, nodes, i) + surplus)
            == RecomputedRoot(h, up[i / 2], i / 2, |up|, InclusionProof(h, up, i / 2) + surplus)
  {
    var up := NextLayer(h, nodes);
    var rest := InclusionProof(h, up, i / 2);
    var proof := InclusionProof(h, nodes, i) + surplus;
    if Unpaired(i, |nodes|) {
      assert proof == rest + surplus;
      assert up[i / 2] == nodes[i];
    } else {
      assert proof == [nodes[Sibling(i)]] + (rest + surplus);
      assert proof[1..] == rest + surplus;
      ParentOfPair(h, nodes, i);
    }
  }

  lemma ParentOfPair(h: HashFunction, nodes: seq<Hash>, i: nat)
    requires i < |nodes| && !Unpaired(i, |nodes|)
    ensures NextLayer(h, nodes)[i / 2] == Combine(h, nodes[i], nodes[Sibling(i)], i)
  {
    assert NextLayer(h, nodes)[i / 2] == Pairing(h, nodes, i / 2);
    if i % 2 == 0 {
      assert 2 * (i / 2) == i;
    } else {
      assert 2 * (i / 2) == i - 1;
    }
  }

  function PowerOfTwo(k: nat): nat {
    if k == 0 then 1 else 2 * PowerOfTwo(k - 1)
  }

  /** A tree of at most 2^k leaves needs at most k siblings. */
  lemma {:induction false} ProofDepth(h: HashFunction, nodes: seq<Hash>, i: nat, k: nat)
    requires i < |nodes| <= PowerOfTwo(k)
    ensures |InclusionProof(h, nodes, i)| <= k
    decreases |nodes|
  {
    if |nodes| > 1 {
      assert k > 0;
      ProofDepth(h, NextLayer(h, nodes), i / 2, k - 1);
    }
  }

  lemma PowerOfTwo32()
    ensures PowerOfTwo(32) == USIZE_RANGE
  {
    assert PowerOfTwo(8) == 256;
    assert PowerOfTwo(16) == 65536;
    assert PowerOfTwo(24) == 16777216;
  }

  /** An honest provider's proof verifies at every index and fits the on-chain bound of 32 hashes. */
  lemma HonestProofVerifies(h: HashFunction, chunks: seq<Bytes>, i: nat)
    requires i < |chunks|
    ensures Verify(h, BuiltRoot(h, chunks), i, h(chunks[i]), |chunks|, GeneratedProof(h, chunks, i))
    ensures |chunks| <= USIZE_RANGE ==> |GeneratedProof(h, chunks, i)| <= 32
  {
    var leaves := LeafHashes(h, chunks);
    ProofReachesRoot(h, leaves, i, []);
    assert InclusionProof(h, leaves, i) + [] == InclusionProof(h, leaves, i);
    if |chunks| <= USIZE_RANGE {
      PowerOfTwo32();
      ProofDepth(h, leaves, i, 32);
    }
  }

  /** The layout on the smallest trees: left before right, and an unpaired last node promoted unhashed. */
  lemma SmallTrees(h: HashFunction, a: Hash, b: Hash, c: Hash)
    ensures Root(h, [a]) == a
    ensures Root(h, [a, b]) == h(a + b)
    ensures Root(h, [a, b, c]) == h(h(a + b) + c)
    ensures InclusionProof(h, [a, b, c], 2) == [h(a + b)]
    ensures InclusionProof(h, [a, b, c], 1) == [a, c]
  {
    var two := [h(a + b), c];
    assert NextLayer(h, [a, b]) == [h(a + b)];
    assert NextLayer(h, [a, b, c]) == two;
    assert NextLayer(h, two) == [h(h(a + b) + c)];
    assert Root(h, two) == Root(h, NextLayer(h, two));
    assert InclusionProof(h, two, 0) == [c] + [] && InclusionProof(h, two, 1) == [h(a + b)] + [];
  }

  lemma LayersAppend(h: HashFunction, xs: seq<Hash>, ys: seq<Hash>)
    requires |xs| % 2 == 0
    ensures NextLayer(h, xs + ys) == NextLayer(h, xs) + NextLayer(h, ys)
  {
    var all := xs + ys;
    var m := |xs| / 2;
    forall k | 0 <= k < ParentCount(|all|)
      ensures NextLayer(h, all)[k] == (NextLayer(h, xs) + NextLayer(h, ys))[k]
    {
      if k < m {
        assert all[2 * k] == xs[2 * k] && all[2 * k + 1] == xs[2 * k + 1];
      } else {
        assert all[2 * k] == ys[2 * (k - m)];
        assert 2 * k + 1 < |all| ==> all[2 * k + 1] == ys[2 * (k - m) + 1];
      }
    }
  }

  /**
   The root of every tree, without its layers: the first power of two leaves
   that leave no more than as many over form the left subtree, the rest the
   right one, and the left root is hashed before the right.
   */
  lemma {:induction false} RootSplits(h: HashFunction, xs: seq<Hash>, ys: seq<Hash>, k: nat)
    requires |xs| == PowerOfTwo(k) && 1 <= |ys| <= |xs|
    ensures Root(h, xs + ys) == h(Root(h, xs) + Root(h, ys))
    decreases k
  {
    if k == 0 {
      SmallTrees(h, xs[0], ys[0], ys[0]);
      assert xs == [xs[0]] && ys == [ys[0]] && xs + ys == [xs[0], ys[0]];
    } else {
      LayersAppend(h, xs, ys);
      RootSplits(h, NextLayer(h, xs), NextLayer(h, ys), k - 1);
      if |ys| == 1 {
        assert NextLayer(h, ys) == ys;
      }
    }
  }

  /** The same for chunks: a leaf is the hash of its chunk. */
  lemma BuiltRootSplits(h: HashFunction, cs: seq<Bytes>, ds: seq<Bytes>, k: nat)
    requires |cs| == PowerOfTwo(k) && 1 <= |ds| <= |cs|
    ensures BuiltRoot(h, cs + ds) == h(BuiltRoot(h, cs) + BuiltRoot(h, ds))
    ensures |ds| == 1 ==> BuiltRoot(h, ds) == h(ds[0])
  {
    assert LeafHashes(h, cs + ds) == LeafHashes(h, cs) + LeafHashes(h, ds);
    RootSplits(h, LeafHashes(h, cs), LeafHashes(h, ds), k);
  }

  // ---------------------------------------------------------------------- binding

  predicate Collision(h: HashFunction, x: Bytes, y: Bytes) {
    x != y && h(x) == h(y)
  }

  /** The 64 bytes hashed when `node` meets `sibling` at position `i`. */
  function Preimage(node: Hash, sibling: Hash, i: nat): (r: Bytes)
    ensures |r| == 64
  {
    if i % 2 == 0 then node + sibling else sibling + node
  }

  lemma PreimageFixesNode(a: Hash, b: Hash, x: Hash, y: Hash, i: nat)
    requires Preimage(a, x, i) == Preimage(b, y, i)
    ensures a == b
  {
    if i % 2 == 0 {
      assert a == Preimage(a, x, i)[..32];
      assert b == Preimage(b, y, i)[..32];
    } else {
      assert a == Preimage(a, x, i)[32..];
      assert b == Preimage(b, y, i)[32..];
    }
  }

  /** Walks two proofs up in step and returns the first pair of node preimages that merge. */
  function NodeCollision(h: HashFunction, a: Hash, b: Hash, i: nat, n: nat, p: seq<Hash>, q: seq<Hash>): (Bytes, Bytes)
    decreases n
  {
    if n <= 1 then ([], [])
    else if Unpaired(i, n) then NodeCollision(h, a, b, i / 2, ParentCount(n), p, q)
    else if p == [] || q == [] then ([], [])
    else if Combine(h, a, p[0], i) == Combine(h, b, q[0], i) then (Preimage(a, p[0], i), Preimage(b, q[0], i))
    else NodeCollision(h, Combine(h, a, p[0], i), Combine(h, b, q[0], i), i / 2, ParentCount(n), p[1..], q[1..])
  }

  /**
   Position binding: two different leaf hashes accepted for one root, index and
   leaf count yield a collision of the 64-byte node hash, for any root at all.
   */
  lemma {:induction false} PositionBinding(h: HashFunction, root: Hash, i: nat, n: nat, a: Hash, b: Hash,
                                           p: seq<Hash>, q: seq<Hash>)
    requires a != b
    requires Verify(h, root, i, a, n, p) && Verify(h, root, i, b, n, q)
    ensures var (x, y) := NodeCollision(h, a, b, i, n, p, q); |x| == |y| == 64 && Collision(h, x, y)
    decreases n
  {
    if Unpaired(i, n) {
      PositionBinding(h, root, i / 2, ParentCount(n), a, b, p, q);
    } else {
      var up, vp := Combine(h, a, p[0], i), Combine(h, b, q[0], i);
      if up == vp {
        if Preimage(a, p[0], i) == Preimage(b, q[0], i) {
          PreimageFixesNode(a, b, p[0], q[0], i);
        }
      } else {
        PositionBinding(h, root, i / 2, ParentCount(n), up, vp, p[1..], q[1..]);
      }
    }
  }

  /** The collision handed over by two different chunks that both pass. */
  function ChunkCollision(h: HashFunction, c: Bytes, d: Bytes, i: nat, n: nat, p: seq<Hash>, q: seq<Hash>)
    : (Bytes, Bytes)
  {
    if h(c) == h(d) then (c, d) else NodeCollision(h, h(c), h(d), i, n, p, q)
  }

  /** No two different chunks can both answer a dispute at one index without exhibiting a hash collision. */
  lemma ChunkBinding(h: HashFunction, root: Hash, i: nat, n: nat, c: Bytes, d: Bytes, p: seq<Hash>, q: seq<Hash>)
    requires c != d
    requires Verify(h, root, i, h(c), n, p) && Verify(h, root, i, h(d), n, q)
    ensures var (x, y) := ChunkCollision(h, c, d, i, n, p, q); Collision(h, x, y)
  {
    if h(c) != h(d) {
      PositionBinding(h, root, i, n, h(c), h(d), p, q);
    }
  }

  /** Against an honest root, an accepted chunk is the committed one, or a collision is at hand. */
  lemma HonestRootAcceptsOnlyItsChunk(h: HashFunction, chunks: seq<Bytes>, i: nat, c: Bytes, proof: seq<Hash>)
    requires i < |chunks|
    requires Verify(h, BuiltRoot(h, chunks), i, h(c), |chunks|, proof)
    ensures c == chunks[i]
            || var (x, y) := ChunkCollision(h, c, chunks[i], i, |chunks|, proof, GeneratedProof(h, chunks, i));
               Collision(h, x, y)
  {
    HonestProofVerifies(h, chunks, i);
    if c != chunks[i] {
      ChunkBinding(h, BuiltRoot(h, chunks), i, |chunks|, c, chunks[i], proof, GeneratedProof(h, chunks, i));
    }
  }
}
