/** The duplicate-last Merkle tree of proof batches, over symbolic hashes.

    SHA-256 is modelled by free constructors. The leaf and node preimages carry
    different domain prefixes and fixed-width hexadecimal fields, so the two kinds of
    preimage are disjoint and each determines its fields; `Raw` stands for every other
    64-digit value. A commitment is itself any 64-digit value, so nothing stops a
    caller from committing to the hash of an inner node.
 */
module MerkleTree {
  import opened Sorting

  datatype Hash = Raw(id: nat) | LeafOf(commitment: Hash) | NodeOf(left: Hash, right: Hash)

  datatype Position = Left | Right

  datatype Step = Step(position: Position, hash: Hash)

  // ----- one level of the tree

  /** The right child of pair `i`: the neighbour, or the left child again at an odd end. */
  function RightOf(level: seq<Hash>, i: nat): Hash
    requires 2 * i < |level|
  {
    if 2 * i + 1 < |level| then level[2 * i + 1] else level[2 * i]
  }

  function Parent(level: seq<Hash>, i: nat): Hash
    requires 2 * i < |level|
  {
    NodeOf(level[2 * i], RightOf(level, i))
  }

  function NextLevel(level: seq<Hash>): seq<Hash> {
    seq((|level| + 1) / 2, i requires 0 <= i < (|level| + 1) / 2 => Parent(level, i))
  }

  /** The step that the level contributes to the proof of its node `i`. */
  function StepAt(level: seq<Hash>, i: nat): Step
    requires i < |level|
  {
    if i % 2 == 0 then Step(Right, RightOf(level, i / 2)) else Step(Left, level[i - 1])
  }

  // ----- the whole tree

  function Root(level: seq<Hash>): Hash
    requires |level| > 0
    decreases |level|
  {
    if |level| == 1 then level[0] else Root(NextLevel(level))
  }

  function ProofOf(level: seq<Hash>, i: nat): seq<Step>
    requires i < |level|
    decreases |level|
  {
    if |level| == 1 then [] else [StepAt(level, i)] + ProofOf(NextLevel(level), i / 2)
  }

  /** The number of levels above `n` nodes. */
  function Height(n: nat): nat
    requires n > 0
  {
    if n == 1 then 0 else 1 + Height((n + 1) / 2)
  }

  function Apply(current: Hash, step: Step): Hash {
    match step.position
    case Left => NodeOf(step.hash, current)
    case Right => NodeOf(current, step.hash)
  }

  /** The hash a verifier reaches from `current` along `proof`. */
  function Fold(current: Hash, proof: seq<Step>): Hash
    decreases |proof|
  {
    if proof == [] then current else Fold(Apply(current, proof[0]), proof[1..])
  }

  // ----- completeness and the length of proofs

  lemma {:induction false} StoredProofFolds(level: seq<Hash>, i: nat)
    requires i < |level|
    ensures Fold(level[i], ProofOf(level, i)) == Root(level)
    ensures |ProofOf(level, i)| == Height(|level|)
    decreases |level|
  {
    if |level| > 1 {
      StoredProofFolds(NextLevel(level), i / 2);
      var proof := ProofOf(level, i);
      assert proof[1..] == ProofOf(NextLevel(level), i / 2);
      assert Apply(level[i], proof[0]) == NextLevel(level)[i / 2];
    }
  }

  function Pow2(k: nat): (r: nat)
    ensures r > 0
  {
    if k == 0 then 1 else 2 * Pow2(k - 1)
  }

  /** The height is exactly the base-two logarithm of the number of nodes, rounded up. */
  lemma {:induction false} HeightIsCeilLog(n: nat)
    requires n > 0
    ensures n <= Pow2(Height(n))
    ensures n > 1 ==> Pow2(Height(n) - 1) < n
  {
    if n > 1 {
      HeightIsCeilLog((n + 1) / 2);
    }
  }

  lemma {:induction false} Pow2Monotone(a: nat, b: nat)
    requires a <= b
    ensures Pow2(a) <= Pow2(b)
    decreases b - a
  {
    if a < b {
      Pow2Monotone(a, b - 1);
    }
  }

  /** A batch of at most 10,000 leaves has proofs of at most 14 steps. */
  lemma HeightBound(n: nat)
    requires 0 < n <= 10_000
    ensures Height(n) <= 14
  {
    HeightIsCeilLog(n);
    assert Pow2(14) == 16384 by {
      assert Pow2(4) == 16;
      assert Pow2(8) == 256;
      assert Pow2(12) == 4096;
    }
    if Height(n) > 14 {
      Pow2Monotone(14, Height(n) - 1);
    }
  }

  // ----- the shape of a root

  /** `h` is a full binary tree of depth `d` whose lowest nodes are leaf hashes. */
  predicate Full(h: Hash, d: nat) {
    if d == 0 then h.LeafOf? else h.NodeOf? && Full(h.left, d - 1) && Full(h.right, d - 1)
  }

  predicate FullLevel(level: seq<Hash>, d: nat) {
    forall i :: 0 <= i < |level| ==> Full(level[i], d)
  }

  lemma {:induction false} RootIsFull(level: seq<Hash>, d: nat)
    requires |level| > 0 && FullLevel(level, d)
    ensures Full(Root(level), d + Height(|level|))
    decreases |level|
  {
    if |level| > 1 {
      RootIsFull(NextLevel(level), d + 1);
    }
  }

  /** A full tree has only one depth. */
  lemma {:induction false} FullDepthUnique(h: Hash, d: nat, e: nat)
    requires Full(h, d) && Full(h, e)
    ensures d == e
  {
    if d > 0 && e > 0 {
      FullDepthUnique(h.left, d - 1, e - 1);
    }
  }

  // ----- the root binds the leaves

  lemma NextLevelDistinct(level: seq<Hash>)
    requires Distinct(level)
    ensures Distinct(NextLevel(level))
  {
    var next := NextLevel(level);
    forall i, j | 0 <= i < j < |next| ensures next[i] != next[j] {
      assert next[i].left == level[2 * i] && next[j].left == level[2 * j];
    }
  }

  /** Distinct levels with the same parents are the same level. */
  lemma NextLevelInjective(a: seq<Hash>, b: seq<Hash>)
    requires Distinct(a) && Distinct(b)
    requires NextLevel(a) == NextLevel(b)
    ensures a == b
  {
    var m := |NextLevel(a)|;
    forall i | 0 <= i < m
      ensures a[2 * i] == b[2 * i] && RightOf(a, i) == RightOf(b, i)
    {
      assert NextLevel(a)[i] == NextLevel(b)[i];
    }
    if m > 0 {
      // an odd end would repeat its node where the other level has two different ones
      assert RightOf(a, m - 1) == RightOf(b, m - 1);
      assert |a| == |b|;
      forall k | 0 <= k < |a| ensures a[k] == b[k] {
        assert RightOf(a, k / 2) == RightOf(b, k / 2);
      }
    }
  }

  lemma {:induction false} RootBinding(a: seq<Hash>, b: seq<Hash>)
    requires |a| > 0 && |b| > 0 && Distinct(a) && Distinct(b)
    requires Height(|a|) == Height(|b|) && Root(a) == Root(b)
    ensures a == b
    decreases |a|
  {
    if |a| > 1 && |b| > 1 {
      NextLevelDistinct(a);
      NextLevelDistinct(b);
      RootBinding(NextLevel(a), NextLevel(b));
      NextLevelInjective(a, b);
    }
  }

  function LeafLevel(commitments: seq<Hash>): seq<Hash> {
    seq(|commitments|, i requires 0 <= i < |commitments| => LeafOf(commitments[i]))
  }

  /** The root binds the batch: equal roots of two lists of pairwise distinct commitments,
      of any lengths, mean the same list in the same order. */
  lemma RootBindsCommitments(cs: seq<Hash>, ds: seq<Hash>)
    requires |cs| > 0 && |ds| > 0 && Distinct(cs) && Distinct(ds)
    requires Root(LeafLevel(cs)) == Root(LeafLevel(ds))
    ensures cs == ds
  {
    var a, b := LeafLevel(cs), LeafLevel(ds);
    RootIsFull(a, 0);
    RootIsFull(b, 0);
    FullDepthUnique(Root(a), Height(|a|), Height(|b|));
    RootBinding(a, b);
    forall i | 0 <= i < |cs| ensures cs[i] == ds[i] {
      assert a[i] == b[i];
    }
  }

  // ----- soundness of proofs

  lemma {:induction false} FoldSplit(current: Hash, p: seq<Step>, q: seq<Step>)
    ensures Fold(current, p + q) == Fold(Fold(current, p), q)
    decreases |p|
  {
    if p == [] {
      assert p + q == q;
    } else {
      assert (p + q)[1..] == p[1..] + q;
      FoldSplit(Apply(current, p[0]), p[1..], q);
    }
  }

  /** Peeling a path off a full tree of depth `d`: the path is no longer than `d`
      and starts at a full tree of what is left of the depth. */
  lemma {:induction false} FoldPeels(current: Hash, proof: seq<Step>, d: nat)
    requires Full(Fold(current, proof), d)
    ensures |proof| <= d && Full(current, d - |proof|)
    decreases |proof|
  {
    if proof != [] {
      var init, last := proof[..|proof| - 1], proof[|proof| - 1];
      assert proof == init + [last];
      FoldSplit(current, init, [last]);
      assert Fold(Fold(current, init), [last]) == Apply(Fold(current, init), last) by {
        assert [last][1..] == [];
      }
      FoldPeels(current, init, d - 1);
    }
  }

  /** `proof` names the stored sibling at every step for node `i`, and says the other side
      only where the sibling is the node itself. */
  predicate MatchesStored(level: seq<Hash>, i: nat, proof: seq<Step>)
    requires i < |level|
  {
    && |proof| == |ProofOf(level, i)|
    && forall k :: 0 <= k < |proof| ==>
         && proof[k].hash == ProofOf(level, i)[k].hash
         && (proof[k].position == ProofOf(level, i)[k].position
             || proof[k].hash == Fold(level[i], proof[..k]))
  }

  lemma MatchesStoredCons(level: seq<Hash>, i: nat, proof: seq<Step>)
    requires i < |level| && |level| > 1 && proof != []
    requires Apply(level[i], proof[0]) == NextLevel(level)[i / 2]
    ensures MatchesStored(level, i, proof)
        <==> && MatchesStored(NextLevel(level), i / 2, proof[1..])
             && proof[0].hash == StepAt(level, i).hash
             && (proof[0].position == StepAt(level, i).position || proof[0].hash == level[i])
  {
    var next, rest := NextLevel(level), proof[1..];
    var stored := ProofOf(level, i);
    assert stored[1..] == ProofOf(next, i / 2);
    forall k | 0 <= k < |rest|
      ensures Fold(level[i], proof[..k + 1]) == Fold(next[i / 2], rest[..k])
    {
      assert proof[..k + 1][1..] == rest[..k];
    }
    assert proof[..0] == [];
    if MatchesStored(level, i, proof) {
      forall k | 0 <= k < |rest|
        ensures rest[k].hash == stored[1..][k].hash
        ensures rest[k].position == stored[1..][k].position || rest[k].hash == Fold(next[i / 2], rest[..k])
      {
        assert rest[k] == proof[k + 1];
      }
    }
    if MatchesStored(next, i / 2, rest)
       && proof[0].hash == StepAt(level, i).hash
       && (proof[0].position == StepAt(level, i).position || proof[0].hash == level[i]) {
      forall k | 0 <= k < |proof|
        ensures proof[k].hash == stored[k].hash
        ensures proof[k].position == stored[k].position || proof[k].hash == Fold(level[i], proof[..k])
      {
        if k > 0 {
          assert proof[k] == rest[k - 1] && stored[k] == stored[1..][k - 1];
        }
      }
    }
  }

  /** A path as long as the tree is high that folds to the root starts at some node
      and is that node's stored path, up to sides that do not matter. */
  lemma {:induction false} FoldedPathIsStored(level: seq<Hash>, current: Hash, proof: seq<Step>) returns (i: nat)
    requires |level| > 0 && |proof| == Height(|level|) && Fold(current, proof) == Root(level)
    ensures i < |level| && current == level[i] && MatchesStored(level, i, proof)
    decreases |level|
  {
    if |level| == 1 {
      return 0;
    }
    var j := FoldedPathIsStored(NextLevel(level), Apply(current, proof[0]), proof[1..]);
    i := if proof[0].position == Left && 2 * j + 1 < |level| then 2 * j + 1 else 2 * j;
    MatchesStoredCons(level, i, proof);
  }

  /** Conversely, every such variant of a stored path folds to the root. */
  lemma {:induction false} MatchingPathFolds(level: seq<Hash>, i: nat, proof: seq<Step>)
    requires i < |level| && MatchesStored(level, i, proof)
    ensures Fold(level[i], proof) == Root(level)
    decreases |level|
  {
    StoredProofFolds(level, i);
    if |level| > 1 {
      var stored := ProofOf(level, i);
      assert proof[0].hash == stored[0].hash && proof[..0] == [];
      assert Apply(level[i], proof[0]) == NextLevel(level)[i / 2];
      MatchesStoredCons(level, i, proof);
      MatchingPathFolds(NextLevel(level), i / 2, proof[1..]);
    }
  }

  /** What a path from a commitment to the root can be, exactly. */
  lemma PathsToRoot(cs: seq<Hash>, c: Hash, proof: seq<Step>)
    requires |cs| > 0
    ensures Fold(LeafOf(c), proof) == Root(LeafLevel(cs))
        <==> exists i :: 0 <= i < |cs| && c == cs[i] && MatchesStored(LeafLevel(cs), i, proof)
  {
    var level := LeafLevel(cs);
    RootIsFull(level, 0);
    if Fold(LeafOf(c), proof) == Root(level) {
      FoldPeels(LeafOf(c), proof, Height(|cs|));
      var i := FoldedPathIsStored(level, LeafOf(c), proof);
      assert c == cs[i];
    }
    if i :| 0 <= i < |cs| && c == cs[i] && MatchesStored(level, i, proof) {
      MatchingPathFolds(level, i, proof);
    }
  }

  // ----- why repeated commitments must be refused

  /** Without the distinctness test the root is ambiguous: repeating the last of
      an odd number of commitments leaves it unchanged. */
  lemma RepeatedLastSharesRoot(cs: seq<Hash>)
    requires |cs| % 2 == 1 && |cs| > 1
    ensures Root(LeafLevel(cs)) == Root(LeafLevel(cs + [cs[|cs| - 1]]))
  {
    var a, b := LeafLevel(cs), LeafLevel(cs + [cs[|cs| - 1]]);
    assert NextLevel(a) == NextLevel(b);
  }

  /** The node, among `n` of them, that fills slot `j` of the lowest row of the full tree. */
  function Slot(n: nat, j: nat): (i: nat)
    requires 0 < n && j < Pow2(Height(n))
    ensures i < n
    decreases n
  {
    if n == 1 then 0
    else
      var child := 2 * Slot((n + 1) / 2, j / 2) + j % 2;
      if child < n then child else child - 1
  }

  /** The lowest row of the full tree: the list with the repetitions of the odd ends. */
  function Padded(s: seq<Hash>): seq<Hash>
    requires |s| > 0
  {
    seq(Pow2(Height(|s|)), j requires 0 <= j < Pow2(Height(|s|)) => s[Slot(|s|, j)])
  }

  lemma SlotChildren(n: nat, q: nat)
    requires n > 1 && q < Pow2(Height((n + 1) / 2))
    ensures Pow2(Height(n)) == 2 * Pow2(Height((n + 1) / 2))
    ensures Slot(n, 2 * q) == 2 * Slot((n + 1) / 2, q)
    ensures Slot(n, 2 * q + 1)
         == var p := Slot((n + 1) / 2, q); if 2 * p + 1 < n then 2 * p + 1 else 2 * p
  {
    assert (2 * q) / 2 == q && (2 * q) % 2 == 0;
    assert (2 * q + 1) / 2 == q && (2 * q + 1) % 2 == 1;
  }

  lemma PaddedAt(s: seq<Hash>, j: nat)
    requires |s| > 0 && j < Pow2(Height(|s|))
    ensures Padded(s)[j] == s[Slot(|s|, j)]
  {
  }

  lemma PaddedParents(level: seq<Hash>, q: nat)
    requires |level| > 1 && q < Pow2(Height(|NextLevel(level)|))
    ensures Pow2(Height(|level|)) == 2 * Pow2(Height(|NextLevel(level)|))
    ensures Padded(NextLevel(level))[q] == NodeOf(Padded(level)[2 * q], Padded(level)[2 * q + 1])
  {
    var n, p := |level|, Slot(|NextLevel(level)|, q);
    SlotChildren(n, q);
    PaddedAt(NextLevel(level), q);
    PaddedAt(level, 2 * q);
    PaddedAt(level, 2 * q + 1);
    assert NextLevel(level)[p] == Parent(level, p);
  }

  lemma {:induction false} RootIffPadded(a: seq<Hash>, b: seq<Hash>)
    requires |a| > 0 && |b| > 0 && Height(|a|) == Height(|b|)
    ensures Root(a) == Root(b) <==> Padded(a) == Padded(b)
    decreases |a|
  {
    if |a| == 1 {
      assert |b| == 1 && Padded(a) == [a[0]] && Padded(b) == [b[0]];
    } else {
      RootIffPadded(NextLevel(a), NextLevel(b));
      PaddedPairs(a);
      PaddedPairs(b);
      PairsAgree(Padded(NextLevel(a)), Padded(a), Padded(NextLevel(b)), Padded(b));
    }
  }

  predicate Pairs(x: seq<Hash>, u: seq<Hash>) {
    |u| == 2 * |x| && forall k :: 0 <= k < |x| ==> x[k] == NodeOf(u[2 * k], u[2 * k + 1])
  }

  lemma PairsAgree(x: seq<Hash>, u: seq<Hash>, y: seq<Hash>, v: seq<Hash>)
    requires Pairs(x, u) && Pairs(y, v)
    ensures x == y <==> u == v
  {
    if x == y {
      forall j | 0 <= j < |u| ensures u[j] == v[j] {
        assert x[j / 2] == y[j / 2];
      }
    }
  }

  lemma PaddedPairs(a: seq<Hash>)
    requires |a| > 1
    ensures Pairs(Padded(NextLevel(a)), Padded(a))
  {
    PaddedParents(a, 0);
    forall k | 0 <= k < |Padded(NextLevel(a))|
      ensures Padded(NextLevel(a))[k] == NodeOf(Padded(a)[2 * k], Padded(a)[2 * k + 1])
    {
      PaddedParents(a, k);
    }
  }

  /** The whole ambiguity: two lists of commitments, with or without repetitions,
      share a root exactly when they pad to the same full row. */
  lemma RootsAgreeExactly(cs: seq<Hash>, ds: seq<Hash>)
    requires |cs| > 0 && |ds| > 0
    ensures Root(LeafLevel(cs)) == Root(LeafLevel(ds)) <==> Padded(cs) == Padded(ds)
  {
    var a, b := LeafLevel(cs), LeafLevel(ds);
    RootIsFull(a, 0);
    RootIsFull(b, 0);
    if Root(a) == Root(b) {
      FullDepthUnique(Root(a), Height(|a|), Height(|b|));
    }
    if Padded(cs) == Padded(ds) {
      Pow2Injective(Height(|cs|), Height(|ds|));
    }
    if Height(|cs|) == Height(|ds|) {
      RootIffPadded(a, b);
      forall j | 0 <= j < Pow2(Height(|cs|))
        ensures Padded(a)[j] == LeafOf(Padded(cs)[j]) && Padded(b)[j] == LeafOf(Padded(ds)[j])
      {
      }
      assert Padded(cs) == Padded(ds) ==> Padded(a) == Padded(b);
      if Padded(a) == Padded(b) {
        forall j | 0 <= j < Pow2(Height(|cs|)) ensures Padded(cs)[j] == Padded(ds)[j] {
          assert Padded(a)[j] == Padded(b)[j];
        }
      }
    }
  }

  lemma {:induction false} Pow2Injective(a: nat, b: nat)
    requires Pow2(a) == Pow2(b)
    ensures a == b
  {
    if a < b {
      Pow2Monotone(a, b - 1);
    } else if b < a {
      Pow2Monotone(b, a - 1);
    }
  }
}
