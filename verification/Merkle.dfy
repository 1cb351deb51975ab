/** Attestation batches: sorted-pair Merkle proofs over an abstract hash. */
module Merkle {
  import opened Prelude

  type Byte = x: int | 0 <= x < 256

  /** 32-byte digests; the hash is any total function from bytes to digests. */
  type Digest = d: seq<Byte> | |d| == 32 witness seq(32, _ => 0)
  type Hash = seq<Byte> -> Digest

  // ---- Canonical pairs ----------------------------------------------------

  /** Lexicographic `a <= b`, from byte `i` on. */
  predicate LexLe(a: Digest, b: Digest, i: nat)
    requires i <= 32
    decreases 32 - i
  {
    if i == 32 then true
    else a[i] < b[i] || (a[i] == b[i] && LexLe(a, b, i + 1))
  }

  method BytesLe(a: Digest, b: Digest) returns (le: bool)
    ensures le == LexLe(a, b, 0)
  {
    for i := 0 to 32
      invariant LexLe(a, b, 0) == LexLe(a, b, i)
    {
      if a[i] < b[i] {
        return true;
      }
      if a[i] > b[i] {
        return false;
      }
    }
    return true;
  }

  /** The order is total and antisymmetric, so the sorted pair is canonical. */
  lemma LexOrder(a: Digest, b: Digest, i: nat)
    requires i <= 32
    ensures LexLe(a, b, i) || LexLe(b, a, i)
    ensures LexLe(a, b, i) && LexLe(b, a, i) ==> a[i..] == b[i..]
    decreases 32 - i
  {
    if i < 32 {
      LexOrder(a, b, i + 1);
      if a[i] == b[i] {
        assert a[i..] == [a[i]] + a[i + 1..] && b[i..] == [b[i]] + b[i + 1..];
      }
    }
  }

  /** What the order compares: the first byte in which the digests differ. */
  lemma {:induction false} LexMeaning(a: Digest, b: Digest, i: nat)
    requires i <= 32
    ensures LexLe(a, b, i) <==> a[i..] == b[i..] || exists k :: i <= k < 32 && a[i..k] == b[i..k] && a[k] < b[k]
    decreases 32 - i
  {
    if i < 32 {
      LexMeaning(a, b, i + 1);
      assert a[i..] == [a[i]] + a[i + 1..] && b[i..] == [b[i]] + b[i + 1..];
      forall k | i < k < 32
        ensures a[i..k] == b[i..k] <==> a[i] == b[i] && a[i + 1..k] == b[i + 1..k]
      {
        assert a[i..k] == [a[i]] + a[i + 1..k] && b[i..k] == [b[i]] + b[i + 1..k];
      }
      if a[i] < b[i] {
        assert a[i..i] == b[i..i];
      }
    }
  }

  /** The bytes hashed for a pair: the prefix, then the smaller and the larger node. */
  function Preimage(a: Digest, b: Digest): seq<Byte> {
    var (left, right) := if LexLe(a, b, 0) then (a, b) else (b, a);
    [0x01] + left + right
  }

  function HashPair(h: Hash, a: Digest, b: Digest): Digest {
    h(Preimage(a, b))
  }

  lemma PairIsUnordered(a: Digest, b: Digest)
    ensures Preimage(a, b) == Preimage(b, a)
  {
    LexOrder(a, b, 0);
    assert a[0..] == a && b[0..] == b;
  }

  /** The layout: one byte of prefix, the digest that is smaller at the first
      difference, then the other. */
  lemma PreimageLayout(a: Digest, b: Digest, k: nat)
    requires k < 32 && a[..k] == b[..k] && a[k] < b[k]
    ensures Preimage(a, b) == [1] + a + b && Preimage(b, a) == [1] + a + b
  {
    LexMeaning(a, b, 0);
    LexOrder(a, b, 0);
    assert a[0..k] == a[..k] && b[0..k] == b[..k] && a[0..] == a && b[0..] == b;
    PairIsUnordered(a, b);
  }

  /** Equal preimages come from the same unordered pair. */
  lemma PreimageIsInjective(a: Digest, b: Digest, c: Digest, d: Digest)
    requires Preimage(a, b) == Preimage(c, d)
    ensures (a == c && b == d) || (a == d && b == c)
  {
    var p, q := Preimage(a, b), Preimage(c, d);
    var (l, r) := if LexLe(a, b, 0) then (a, b) else (b, a);
    var (m, s) := if LexLe(c, d, 0) then (c, d) else (d, c);
    assert p[1..33] == l && p[33..] == r;
    assert q[1..33] == m && q[33..] == s;
  }

  // ---- Proofs -------------------------------------------------------------

  /** The root recomputed from a node and the sibling path above it. */
  function ComputeRoot(h: Hash, leaf: Digest, proof: seq<Digest>): Digest {
    if |proof| == 0 then leaf
    else HashPair(h, ComputeRoot(h, leaf, proof[..|proof| - 1]), proof[|proof| - 1])
  }

  method HashPairBytes(h: Hash, a: Digest, b: Digest) returns (d: Digest)
    ensures d == HashPair(h, a, b)
  {
    var left, right := a, b;
    var le := BytesLe(a, b);
    if !le {
      left, right := b, a;
    }
    var buf: seq<Byte> := [0x01];
    buf := buf + left;
    buf := buf + right;
    d := h(buf);
  }

  method RecomputeRoot(h: Hash, leaf: Digest, proof: seq<Digest>) returns (current: Digest)
    ensures current == ComputeRoot(h, leaf, proof)
  {
    current := leaf;
    for i := 0 to |proof|
      invariant current == ComputeRoot(h, leaf, proof[..i])
    {
      assert proof[..i + 1][..i] == proof[..i];
      current := HashPairBytes(h, current, proof[i]);
    }
    assert proof[..|proof|] == proof;
  }

  lemma ComputeRootFirst(h: Hash, leaf: Digest, sibling: Digest, rest: seq<Digest>)
    ensures ComputeRoot(h, leaf, [sibling] + rest) == ComputeRoot(h, HashPair(h, leaf, sibling), rest)
  {
    var proof := [sibling] + rest;
    if |rest| == 0 {
      assert proof[..0] == [];
    } else {
      ComputeRootFirst(h, leaf, sibling, rest[..|rest| - 1]);
      assert proof[..|proof| - 1] == [sibling] + rest[..|rest| - 1];
    }
  }

  // ---- Trees --------------------------------------------------------------

  /** Pair up neighbours; an unpaired last node is promoted unchanged. */
  function NextLevel(h: Hash, level: seq<Digest>): (next: seq<Digest>)
    ensures |next| == (|level| + 1) / 2
  {
    if |level| == 0 then []
    else if |level| == 1 then [level[0]]
    else [HashPair(h, level[0], level[1])] + NextLevel(h, level[2..])
  }

  /** The parent of positions `2j` and `2j + 1`. */
  function Parent(h: Hash, level: seq<Digest>, j: nat): Digest
    requires 2 * j < |level|
  {
    if 2 * j + 1 < |level| then HashPair(h, level[2 * j], level[2 * j + 1]) else level[2 * j]
  }

  lemma {:induction false} NextLevelAt(h: Hash, level: seq<Digest>, j: nat)
    requires j < (|level| + 1) / 2
    ensures NextLevel(h, level)[j] == Parent(h, level, j)
  {
    if j > 0 {
      var rest := level[2..];
      NextLevelAt(h, rest, j - 1);
      assert Parent(h, rest, j - 1) == Parent(h, level, j);
    }
  }

  /** Neighbours are hashed together, and the last of an odd level moves up as it is. */
  lemma LevelMeaning(h: Hash, level: seq<Digest>)
    ensures forall j: nat :: 2 * j + 1 < |level| ==> NextLevel(h, level)[j] == h(Preimage(level[2 * j], level[2 * j + 1]))
    ensures |level| % 2 == 1 ==> NextLevel(h, level)[|level| / 2] == level[|level| - 1]
  {
    forall j: nat | 2 * j < |level|
      ensures NextLevel(h, level)[j] == Parent(h, level, j)
    {
      NextLevelAt(h, level, j);
    }
  }

  function Levels(h: Hash, leaves: seq<Digest>): (levels: seq<seq<Digest>>)
    ensures |levels| > 0
    decreases |leaves|
  {
    if |leaves| <= 1 then [leaves]
    else [leaves] + Levels(h, NextLevel(h, leaves))
  }

  function Root(h: Hash, leaves: seq<Digest>): Digest
    requires |leaves| > 0
    decreases |leaves|
  {
    if |leaves| == 1 then leaves[0] else Root(h, NextLevel(h, leaves))
  }

  function Sibling(idx: nat): int {
    if idx % 2 == 1 then idx - 1 else idx + 1
  }

  function ProofOf(h: Hash, leaves: seq<Digest>, idx: nat): seq<Digest>
    requires idx < |leaves|
    decreases |leaves|
  {
    if |leaves| == 1 then []
    else
      var rest := ProofOf(h, NextLevel(h, leaves), idx / 2);
      if Sibling(idx) < |leaves| then [leaves[Sibling(idx)]] + rest else rest
  }

  lemma SiblingsHashToParent(h: Hash, leaves: seq<Digest>, idx: nat)
    requires idx < |leaves| && 0 <= Sibling(idx) < |leaves|
    ensures HashPair(h, leaves[idx], leaves[Sibling(idx)]) == Parent(h, leaves, idx / 2)
  {
    PairIsUnordered(leaves[idx], leaves[Sibling(idx)]);
  }

  /** The first sibling of a proof, if any, leads from a leaf to its parent. */
  lemma ProofStep(h: Hash, leaves: seq<Digest>, idx: nat, rest: seq<Digest>)
    requires idx < |leaves| && |leaves| > 1 && rest == ProofOf(h, NextLevel(h, leaves), idx / 2)
    ensures ComputeRoot(h, leaves[idx], ProofOf(h, leaves, idx)) == ComputeRoot(h, Parent(h, leaves, idx / 2), rest)
  {
    if Sibling(idx) < |leaves| {
      SiblingsHashToParent(h, leaves, idx);
      ComputeRootFirst(h, leaves[idx], leaves[Sibling(idx)], rest);
    }
  }

  /** Completeness: for every non-empty leaf list, of any size, and every index
      the generated proof recomputes the root. */
  lemma {:induction false} ProofsVerify(h: Hash, leaves: seq<Digest>, idx: nat)
    requires idx < |leaves|
    ensures ComputeRoot(h, leaves[idx], ProofOf(h, leaves, idx)) == Root(h, leaves)
    decreases |leaves|
  {
    if |leaves| > 1 {
      ProofStep(h, leaves, idx, ProofOf(h, NextLevel(h, leaves), idx / 2));
      NextLevelAt(h, leaves, idx / 2);
      ProofsVerify(h, NextLevel(h, leaves), idx / 2);
    }
  }

  // ---- Soundness ----------------------------------------------------------

  /** Every node of the tree, at every level. */
  function Nodes(h: Hash, leaves: seq<Digest>): set<Digest>
    decreases |leaves|
  {
    (set x | x in leaves) + if |leaves| > 1 then Nodes(h, NextLevel(h, leaves)) else {}
  }

  /** The byte strings hashed while building the tree. */
  function TreePreimages(h: Hash, leaves: seq<Digest>): set<seq<Byte>>
    decreases |leaves|
  {
    (set j | 0 <= j < |leaves| / 2 :: Preimage(leaves[2 * j], leaves[2 * j + 1]))
    + if |leaves| > 1 then TreePreimages(h, NextLevel(h, leaves)) else {}
  }

  /** The byte strings hashed while checking a proof. */
  function ProofPreimages(h: Hash, leaf: Digest, proof: seq<Digest>): set<seq<Byte>> {
    if |proof| == 0 then {}
    else
      var init := proof[..|proof| - 1];
      ProofPreimages(h, leaf, init) + {Preimage(ComputeRoot(h, leaf, init), proof[|proof| - 1])}
  }

  /** No two different byte strings of the two collections have the same digest. */
  ghost predicate NoCollision(h: Hash, ps: set<seq<Byte>>, qs: set<seq<Byte>>) {
    forall p, q :: p in ps && q in qs && h(p) == h(q) ==> p == q
  }

  /** No leaf is the digest of an internal pair met while checking. */
  ghost predicate LeavesSeparate(h: Hash, leaves: seq<Digest>, ps: set<seq<Byte>>) {
    forall p :: p in ps ==> h(p) !in leaves
  }

  lemma RootIsNode(h: Hash, leaves: seq<Digest>)
    requires |leaves| > 0
    ensures Root(h, leaves) in Nodes(h, leaves)
    decreases |leaves|
  {
    if |leaves| > 1 {
      RootIsNode(h, NextLevel(h, leaves));
    }
  }

  /** A node that is not a leaf is the hash of two nodes. */
  lemma NodeOrigin(h: Hash, leaves: seq<Digest>, x: Digest) returns (l: Digest, r: Digest)
    requires x in Nodes(h, leaves) && x !in leaves
    ensures l in Nodes(h, leaves) && r in Nodes(h, leaves)
    ensures x == HashPair(h, l, r) && Preimage(l, r) in TreePreimages(h, leaves)
    decreases |leaves|
  {
    var next := NextLevel(h, leaves);
    if x in next {
      var j :| 0 <= j < |next| && next[j] == x;
      NextLevelAt(h, leaves, j);
      assert 2 * j + 1 < |leaves|;
      l, r := leaves[2 * j], leaves[2 * j + 1];
      assert l in leaves && r in leaves;
    } else {
      l, r := NodeOrigin(h, next, x);
    }
  }

  /** Soundness: whatever recomputes a node of the tree is itself a node of the
      tree, unless the hash collides between the proof and the tree or a leaf is
      the digest of one of the proof's own pairs. */
  lemma {:induction false} OnlyNodesVerify(h: Hash, leaves: seq<Digest>, v: Digest, proof: seq<Digest>)
    requires NoCollision(h, ProofPreimages(h, v, proof), TreePreimages(h, leaves))
    requires LeavesSeparate(h, leaves, ProofPreimages(h, v, proof))
    requires ComputeRoot(h, v, proof) in Nodes(h, leaves)
    ensures v in Nodes(h, leaves)
    decreases |proof|
  {
    if |proof| > 0 {
      var init, s := proof[..|proof| - 1], proof[|proof| - 1];
      var c := ComputeRoot(h, v, init);
      var p := Preimage(c, s);
      assert p in ProofPreimages(h, v, proof);
      var l, r := NodeOrigin(h, leaves, h(p));
      PreimageIsInjective(c, s, l, r);
      OnlyNodesVerify(h, leaves, v, init);
    }
  }

  /** Checking `v` with `proof` against the tree exhibits no collision. */
  ghost predicate CollisionFree(h: Hash, leaves: seq<Digest>, v: Digest, proof: seq<Digest>) {
    && NoCollision(h, ProofPreimages(h, v, proof), TreePreimages(h, leaves))
    && LeavesSeparate(h, leaves, ProofPreimages(h, v, proof))
  }

  ghost predicate Proves(h: Hash, leaves: seq<Digest>, v: Digest, proof: seq<Digest>, root: Digest) {
    CollisionFree(h, leaves, v, proof) && ComputeRoot(h, v, proof) == root
  }

  /** What a committed root vouches for: a value that recomputes it is a node. */
  lemma RootProvesNodes(h: Hash, leaves: seq<Digest>, v: Digest, proof: seq<Digest>)
    requires |leaves| > 0 && Proves(h, leaves, v, proof, Root(h, leaves))
    ensures v in Nodes(h, leaves)
  {
    RootIsNode(h, leaves);
    OnlyNodesVerify(h, leaves, v, proof);
  }

  /** Every node, at any level, has a proof: with `RootProvesNodes`, the values
      that can be proved against the root are exactly the nodes. */
  lemma NodesHaveProofs(h: Hash, leaves: seq<Digest>, x: Digest) returns (proof: seq<Digest>)
    requires |leaves| > 0 && x in Nodes(h, leaves)
    ensures ComputeRoot(h, x, proof) == Root(h, leaves)
    decreases |leaves|
  {
    if x in leaves {
      var idx :| 0 <= idx < |leaves| && leaves[idx] == x;
      ProofsVerify(h, leaves, idx);
      proof := ProofOf(h, leaves, idx);
    } else {
      proof := NodesHaveProofs(h, NextLevel(h, leaves), x);
    }
  }

  /** For a fixed proof the recomputed root determines the leaf, unless the two
      checks themselves exhibit a collision. */
  lemma {:induction false} RootDeterminesLeaf(h: Hash, v: Digest, w: Digest, proof: seq<Digest>)
    requires NoCollision(h, ProofPreimages(h, v, proof), ProofPreimages(h, w, proof))
    requires ComputeRoot(h, v, proof) == ComputeRoot(h, w, proof)
    ensures v == w
    decreases |proof|
  {
    if |proof| > 0 {
      var init, s := proof[..|proof| - 1], proof[|proof| - 1];
      var c, d := ComputeRoot(h, v, init), ComputeRoot(h, w, init);
      assert Preimage(c, s) in ProofPreimages(h, v, proof);
      assert Preimage(d, s) in ProofPreimages(h, w, proof);
      PreimageIsInjective(c, s, d, s);
      RootDeterminesLeaf(h, v, w, init);
    }
  }

  // ---- The builder --------------------------------------------------------

  method BuildLevel(h: Hash, level: seq<Digest>) returns (next: seq<Digest>)
    ensures next == NextLevel(h, level)
  {
    next := [];
    var i := 0;
    while i < |level|
      invariant 0 <= i <= |level| + 1 && (i <= |level| ==> i % 2 == 0)
      invariant next + NextLevel(h, level[Min(i, |level|)..]) == NextLevel(h, level)
    {
      if i + 1 < |level| {
        var d := HashPairBytes(h, level[i], level[i + 1]);
        assert level[i..][2..] == level[i + 2..];
        next := next + [d];
      } else {
        next := next + [level[i]];
      }
      i := i + 2;
    }
  }

  method BuildTree(h: Hash, leaves: seq<Digest>) returns (levels: seq<seq<Digest>>)
    ensures levels == Levels(h, leaves)
  {
    levels := [leaves];
    var current := leaves;
    ghost var below: seq<seq<Digest>> := [];
    while |current| > 1
      invariant levels == below + [current] && below + Levels(h, current) == Levels(h, leaves)
      decreases |current|
    {
      var next := BuildLevel(h, current);
      Regroup(below, current, Levels(h, next));
      below := levels;
      levels := levels + [next];
      current := next;
    }
  }

  lemma Regroup(below: seq<seq<Digest>>, current: seq<Digest>, above: seq<seq<Digest>>)
    ensures below + ([current] + above) == below + [current] + above
  {
  }

  lemma LevelsTail(h: Hash, leaves: seq<Digest>)
    requires |leaves| > 1
    ensures Levels(h, leaves)[0] == leaves && Levels(h, leaves)[1..] == Levels(h, NextLevel(h, leaves))
  {
  }

  lemma LastLevelIsRoot(h: Hash, leaves: seq<Digest>)
    requires |leaves| > 0
    ensures var levels := Levels(h, leaves); levels[|levels| - 1] == [Root(h, leaves)]
    decreases |leaves|
  {
    if |leaves| > 1 {
      LevelsTail(h, leaves);
      LastLevelIsRoot(h, NextLevel(h, leaves));
    }
  }

  method TreeRoot(h: Hash, levels: seq<seq<Digest>>, ghost leaves: seq<Digest>) returns (root: Digest)
    requires |leaves| > 0 && levels == Levels(h, leaves)
    ensures root == Root(h, leaves)
  {
    LastLevelIsRoot(h, leaves);
    root := levels[|levels| - 1][0];
  }

  method TreeProof(h: Hash, levels: seq<seq<Digest>>, idx: nat, ghost leaves: seq<Digest>) returns (proof: seq<Digest>)
    requires idx < |leaves| && levels == Levels(h, leaves)
    ensures proof == ProofOf(h, leaves, idx)
  {
    proof := [];
    var current: nat := idx;
    ghost var rest := leaves;
    for k := 0 to |levels| - 1
      invariant current < |rest| && levels[k..] == Levels(h, rest)
      invariant proof + ProofOf(h, rest, current) == ProofOf(h, leaves, idx)
    {
      var level := levels[k];
      LevelsTail(h, rest);
      assert levels[k..][1..] == levels[k + 1..];
      var sibling := Sibling(current);
      if sibling < |level| {
        proof := proof + [level[sibling]];
      }
      rest := NextLevel(h, rest);
      current := current / 2;
    }
    assert |Levels(h, rest)| == 1;
  }

  // ---- Stored batches -----------------------------------------------------

  datatype Batch = Batch(merkleRoot: Digest, count: u32, committedAt: u64)

  class AttestationStore {
    var batches: map<Address, Batch>

    constructor ()
      ensures batches == map[]
    {
      batches := map[];
    }

    method Commit(borrower: Address, merkleRoot: Digest, count: u32, now: u64)
      modifies this
      ensures batches == old(batches)[borrower := Batch(merkleRoot, count, now)]
    {
      batches := batches[borrower := Batch(merkleRoot, count, now)];
    }

    method Clear(borrower: Address)
      modifies this
      ensures batches == old(batches) - {borrower}
    {
      batches := batches - {borrower};
    }

    method Verify(h: Hash, borrower: Address, leaf: Digest, proof: seq<Digest>) returns (r: Result<bool>)
      ensures borrower !in batches ==> r == Err(AttestationBatchNotFound)
      ensures borrower in batches ==> r == Ok(ComputeRoot(h, leaf, proof) == batches[borrower].merkleRoot)
    {
      if borrower !in batches {
        return Err(AttestationBatchNotFound);
      }
      var computed := RecomputeRoot(h, leaf, proof);
      r := Ok(computed == batches[borrower].merkleRoot);
    }

    /** Committing a tree's root makes every one of its leaves verifiable, and
        nothing but its nodes, barring a collision. */
    method CommitTree(h: Hash, borrower: Address, leaves: seq<Digest>, now: u64)
      requires 0 < |leaves| <= U32_MAX
      modifies this
      ensures borrower in batches
      ensures forall idx :: 0 <= idx < |leaves| ==>
        ComputeRoot(h, leaves[idx], ProofOf(h, leaves, idx)) == batches[borrower].merkleRoot
      ensures forall v, proof :: Proves(h, leaves, v, proof, batches[borrower].merkleRoot) ==> v in Nodes(h, leaves)
    {
      var levels := BuildTree(h, leaves);
      var root := TreeRoot(h, levels, leaves);
      Commit(borrower, root, |leaves|, now);
      forall idx | 0 <= idx < |leaves|
        ensures ComputeRoot(h, leaves[idx], ProofOf(h, leaves, idx)) == batches[borrower].merkleRoot
      {
        ProofsVerify(h, leaves, idx);
      }
      forall v, proof | Proves(h, leaves, v, proof, root)
        ensures v in Nodes(h, leaves)
      {
        RootProvesNodes(h, leaves, v, proof);
      }
    }
  }
}
