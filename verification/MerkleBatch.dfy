/** Building a proof batch and checking an inclusion proof
    (`build_merkle_batch` and `verify_merkle_proof`). */
module MerkleBatch {
  import opened Outcomes
  import opened Sorting
  import opened MerkleTree

  // ----- what arrives from outside

  /** A text field that should hold 64 hexadecimal digits. */
  datatype HexText = Hex(hash: Hash) | NotHex

  /** A text field that should hold a date-time, with the normalised UTC text it is turned into. */
  datatype TimeText = Instant(utc: string) | NotInstant

  datatype WireReceipt =
    | WrongFields
    | WireReceipt(receiptId: string, commitment: HexText, occurredAt: TimeText)

  datatype Receipt = Receipt(receiptId: string, commitment: Hash, occurredAt: string)

  datatype BatchLeaf = BatchLeaf(receipt: Receipt, leafIndex: nat, leafHash: Hash, proof: seq<Step>)

  datatype Batch = Batch(leafCount: nat, root: Hash, leaves: seq<BatchLeaf>)

  datatype BatchError = Empty | TooLarge | InvalidReceipt | DuplicateReceiptId | DuplicateCommitment

  const MAX_RECEIPTS := 10_000
  const MAX_PROOF_STEPS := 32

  predicate Alphanumeric(c: char) {
    'A' <= c <= 'Z' || 'a' <= c <= 'z' || '0' <= c <= '9'
  }

  predicate ValidId(s: string) {
    && 16 <= |s| <= 128
    && Alphanumeric(s[0])
    && forall i :: 0 < i < |s| ==> Alphanumeric(s[i]) || s[i] in "._-"
  }

  predicate ValidReceipt(w: WireReceipt) {
    w.WireReceipt? && ValidId(w.receiptId) && w.commitment.Hex? && w.occurredAt.Instant?
  }

  function Normalise(w: WireReceipt): Receipt
    requires ValidReceipt(w)
  {
    Receipt(w.receiptId, w.commitment.hash, w.occurredAt.utc)
  }

  function NormaliseAll(ws: seq<WireReceipt>): seq<Receipt>
    requires forall i :: 0 <= i < |ws| ==> ValidReceipt(ws[i])
  {
    seq(|ws|, i requires 0 <= i < |ws| => Normalise(ws[i]))
  }

  // ----- order

  predicate ReceiptLe(a: Receipt, b: Receipt) {
    StringLe(a.occurredAt, b.occurredAt)
    && (a.occurredAt == b.occurredAt ==> StringLe(a.receiptId, b.receiptId))
  }

  lemma ReceiptLePreorder()
    ensures TotalPreorder(ReceiptLe)
  {
    forall x: Receipt, y: Receipt ensures ReceiptLe(x, y) || ReceiptLe(y, x) {
      StringLeTotal(x.occurredAt, y.occurredAt);
      StringLeTotal(x.receiptId, y.receiptId);
    }
    forall x: Receipt, y: Receipt, z: Receipt | ReceiptLe(x, y) && ReceiptLe(y, z) ensures ReceiptLe(x, z) {
      StringLeTransitive(x.occurredAt, y.occurredAt, z.occurredAt);
      if x.occurredAt == z.occurredAt {
        StringLeAntisymmetric(x.occurredAt, y.occurredAt);
        StringLeTransitive(x.receiptId, y.receiptId, z.receiptId);
      }
    }
  }

  function Ids(rs: seq<Receipt>): seq<string> {
    seq(|rs|, i requires 0 <= i < |rs| => rs[i].receiptId)
  }

  function Commitments(rs: seq<Receipt>): seq<Hash> {
    seq(|rs|, i requires 0 <= i < |rs| => rs[i].commitment)
  }

  // ----- the batch a list of receipts should give

  function BatchFor(ordered: seq<Receipt>): Batch
    requires |ordered| > 0
  {
    var level := LeafLevel(Commitments(ordered));
    Batch(|ordered|, Root(level),
          seq(|ordered|, i requires 0 <= i < |ordered| =>
            BatchLeaf(ordered[i], i, level[i], ProofOf(level, i))))
  }

  function BatchOf(ws: seq<WireReceipt>): Result<Batch, BatchError> {
    if |ws| == 0 then Err(Empty)
    else if |ws| > MAX_RECEIPTS then Err(TooLarge)
    else if exists i :: 0 <= i < |ws| && !ValidReceipt(ws[i]) then Err(InvalidReceipt)
    else
      var ordered := Sort(NormaliseAll(ws), ReceiptLe);
      SortPermutes(NormaliseAll(ws), ReceiptLe);
      if !Distinct(Ids(ordered)) then Err(DuplicateReceiptId)
      else if !Distinct(Commitments(ordered)) then Err(DuplicateCommitment)
      else Ok(BatchFor(ordered))
  }

  // ----- building

  /** Appending one step to the proofs of some leaves. */
  method AppendStep(proofs: array<seq<Step>>, ids: seq<nat>, step: Step)
    requires Distinct(ids) && forall i :: 0 <= i < |ids| ==> ids[i] < proofs.Length
    modifies proofs
    ensures forall d :: 0 <= d < proofs.Length ==>
              proofs[d] == old(proofs[d]) + if d in ids then [step] else []
  {
    for i := 0 to |ids|
      invariant forall d :: 0 <= d < proofs.Length ==>
                  proofs[d] == old(proofs[d]) + if d in ids[..i] then [step] else []
    {
      assert ids[i] !in ids[..i];
      assert ids[..i + 1] == ids[..i] + [ids[i]];
      proofs[ids[i]] := proofs[ids[i]] + [step];
    }
    assert ids[..|ids|] == ids;
  }

  datatype LevelNode = LevelNode(hash: Hash, descendants: seq<nat>)

  /** The nodes carry the hashes of `cur`, and their descendants partition the leaves:
      leaf `d` is below node `own[d]` and no other. */
  ghost predicate LevelOk(level: seq<LevelNode>, cur: seq<Hash>, own: seq<nat>) {
    && |level| == |cur|
    && (forall d :: 0 <= d < |own| ==> own[d] < |level|)
    && NodesOk(level, cur, own)
  }

  ghost predicate NodesOk(level: seq<LevelNode>, cur: seq<Hash>, own: seq<nat>) {
    |level| <= |cur| && forall j :: 0 <= j < |level| ==> NodeOk(level[j], j, cur, own)
  }

  function Halved(own: seq<nat>): seq<nat> {
    seq(|own|, d requires 0 <= d < |own| => own[d] / 2)
  }

  /** Joining the descendants of a pair of nodes. */
  lemma JoinDescendants(a: seq<nat>, b: seq<nat>)
    requires Distinct(a) && Distinct(b) && forall d :: d in a ==> d !in b
    ensures Distinct(a + b)
    ensures forall d :: d in a + b <==> d in a || d in b
  {
    forall i, j | 0 <= i < j < |a + b| ensures (a + b)[i] != (a + b)[j] {
      if i < |a| <= j {
        assert a[i] in a && b[j - |a|] in b;
      }
    }
  }

  /** The node at `j` of a level whose nodes are `cur`, over the leaves that `own` puts there. */
  ghost predicate NodeOk(node: LevelNode, j: nat, cur: seq<Hash>, own: seq<nat>) {
    && j < |cur| && node.hash == cur[j]
    && Distinct(node.descendants)
    && (forall i :: 0 <= i < |node.descendants| ==> node.descendants[i] < |own|)
    && (forall d :: 0 <= d < |own| ==> (d in node.descendants <==> own[d] == j))
  }

  /** One turn of the pairing loop. */
  method PairAt(level: seq<LevelNode>, index: nat, proofs: array<seq<Step>>, ghost cur: seq<Hash>, ghost own: seq<nat>)
    returns (node: LevelNode)
    requires |own| == proofs.Length && LevelOk(level, cur, own) && index < |level| && index % 2 == 0
    modifies proofs
    ensures NodeOk(node, index / 2, NextLevel(cur), Halved(own))
    ensures forall d :: 0 <= d < proofs.Length ==>
              proofs[d] == old(proofs[d]) + if index <= own[d] < index + 2 then [StepAt(cur, own[d])] else []
  {
    var left := level[index];
    if index + 1 < |level| {
      var right := level[index + 1];
      JoinDescendants(left.descendants, right.descendants);
      AppendStep(proofs, left.descendants, Step(Right, right.hash));
      AppendStep(proofs, right.descendants, Step(Left, left.hash));
      node := LevelNode(NodeOf(left.hash, right.hash), left.descendants + right.descendants);
    } else {
      AppendStep(proofs, left.descendants, Step(Right, left.hash));
      node := LevelNode(NodeOf(left.hash, left.hash), left.descendants);
    }
  }

  /** One round of the pairing loop: the next level, with every proof one step longer. */
  method PairLevel(level: seq<LevelNode>, proofs: array<seq<Step>>, ghost cur: seq<Hash>, ghost own: seq<nat>)
    returns (next: seq<LevelNode>)
    requires |level| > 1 && |own| == proofs.Length && LevelOk(level, cur, own)
    modifies proofs
    ensures LevelOk(next, NextLevel(cur), Halved(own))
    ensures forall d :: 0 <= d < proofs.Length ==> proofs[d] == old(proofs[d]) + [StepAt(cur, own[d])]
  {
    next := [];
    var index := 0;
    while index < |level|
      invariant index == 2 * |next| && |next| <= (|level| + 1) / 2
      invariant NodesOk(next, NextLevel(cur), Halved(own))
      invariant forall d :: 0 <= d < proofs.Length ==>
                  proofs[d] == old(proofs[d]) + if own[d] < index then [StepAt(cur, own[d])] else []
    {
      var node := PairAt(level, index, proofs, cur, own);
      next := next + [node];
      index := index + 2;
    }
  }

  lemma LeavesOk(leaves: seq<Hash>, own: seq<nat>)
    requires |own| == |leaves| && forall d :: 0 <= d < |own| ==> own[d] == d
    ensures LevelOk(seq(|leaves|, i requires 0 <= i < |leaves| => LevelNode(leaves[i], [i])), leaves, own)
  {
  }

  /** Moving one step from the path still to come to the path already written. */
  lemma ProofAdvances(written: seq<Step>, cur: seq<Hash>, o: nat, whole: seq<Step>)
    requires |cur| > 1 && o < |cur| && written + ProofOf(cur, o) == whole
    ensures written + [StepAt(cur, o)] + ProofOf(NextLevel(cur), o / 2) == whole
  {
  }

  /** The level loop. */
  method BuildTree(leaves: seq<Hash>) returns (root: Hash, stored: seq<seq<Step>>)
    requires |leaves| > 0
    ensures root == Root(leaves)
    ensures |stored| == |leaves| && forall i :: 0 <= i < |leaves| ==> stored[i] == ProofOf(leaves, i)
  {
    var proofs := new seq<Step>[|leaves|](_ => []);
    var level := seq(|leaves|, i requires 0 <= i < |leaves| => LevelNode(leaves[i], [i]));
    ghost var cur := leaves;
    ghost var own: seq<nat> := seq(|leaves|, i => i);
    LeavesOk(leaves, own);
    while |level| > 1
      invariant |level| > 0 && |own| == proofs.Length == |leaves| && LevelOk(level, cur, own)
      invariant Root(cur) == Root(leaves)
      invariant forall d :: 0 <= d < |leaves| ==> proofs[d] + ProofOf(cur, own[d]) == ProofOf(leaves, d)
    {
      ghost var before := proofs[..];
      level := PairLevel(level, proofs, cur, own);
      forall d | 0 <= d < |leaves|
        ensures proofs[d] + ProofOf(NextLevel(cur), own[d] / 2) == ProofOf(leaves, d)
      {
        ProofAdvances(before[d], cur, own[d], ProofOf(leaves, d));
      }
      cur, own := NextLevel(cur), Halved(own);
    }
    root := level[0].hash;
    stored := proofs[..];
  }

  lemma {:induction false} CardinalityOfDistinct<T>(s: seq<T>)
    ensures |set x | x in s| == |s| <==> Distinct(s)
    ensures |set x | x in s| <= |s|
  {
    if s != [] {
      var x, rest := s[0], s[1..];
      CardinalityOfDistinct(rest);
      assert s == [x] + rest;
      assert (set y | y in s) == {x} + set y | y in rest;
      if x in rest {
        var k :| 0 <= k < |rest| && rest[k] == x;
        assert s[k + 1] == s[0];
        assert (set y | y in s) == set y | y in rest;
      } else {
        forall i, j | 0 <= i < j < |s| && Distinct(rest) ensures s[i] != s[j] {
          if i == 0 { assert s[j] == rest[j - 1]; } else { assert s[i] == rest[i - 1] && s[j] == rest[j - 1]; }
        }
        if Distinct(s) {
          forall i, j | 0 <= i < j < |rest| ensures rest[i] != rest[j] {
            assert rest[i] == s[i + 1] && rest[j] == s[j + 1];
          }
        }
      }
    }
  }

  method AllDistinct<T(==)>(s: seq<T>) returns (ok: bool)
    ensures ok <==> Distinct(s)
  {
    ok := |set x | x in s| == |s|;
    CardinalityOfDistinct(s);
  }

  method Build(ws: seq<WireReceipt>) returns (r: Result<Batch, BatchError>)
    ensures r == BatchOf(ws)
  {
    if |ws| == 0 { return Err(Empty); }
    if |ws| > MAX_RECEIPTS { return Err(TooLarge); }
    var ordered: seq<Receipt> := [];
    for i := 0 to |ws|
      invariant |ordered| == i
      invariant forall k :: 0 <= k < i ==> ValidReceipt(ws[k]) && ordered[k] == Normalise(ws[k])
    {
      if !ValidReceipt(ws[i]) { return Err(InvalidReceipt); }
      ordered := ordered + [Normalise(ws[i])];
    }
    assert ordered == NormaliseAll(ws);
    SortPermutes(ordered, ReceiptLe);
    ordered := Sort(ordered, ReceiptLe);
    var ids := AllDistinct(Ids(ordered));
    if !ids { return Err(DuplicateReceiptId); }
    var commitments := AllDistinct(Commitments(ordered));
    if !commitments { return Err(DuplicateCommitment); }
    var leafHashes := LeafLevel(Commitments(ordered));
    var root, stored := BuildTree(leafHashes);
    r := Ok(Batch(|ordered|, root,
                  seq(|ordered|, i requires 0 <= i < |ordered| =>
                    BatchLeaf(ordered[i], i, leafHashes[i], stored[i]))));
    assert r.value.leaves == BatchFor(ordered).leaves;
  }

  // ----- verifying

  datatype WireStep = MissingKeys | WireStep(position: string, hash: HexText)

  datatype WireProof = NotAList | WireProof(steps: seq<WireStep>)

  predicate ValidStep(w: WireStep) {
    w.WireStep? && w.position in ["left", "right"] && w.hash.Hex?
  }

  function ParseStep(w: WireStep): Step
    requires ValidStep(w)
  {
    Step(if w.position == "left" then Left else Right, w.hash.hash)
  }

  predicate ValidProof(w: WireProof) {
    && w.WireProof? && |w.steps| <= MAX_PROOF_STEPS
    && forall i :: 0 <= i < |w.steps| ==> ValidStep(w.steps[i])
  }

  function ParseProof(w: WireProof): seq<Step>
    requires ValidProof(w)
  {
    seq(|w.steps|, i requires 0 <= i < |w.steps| => ParseStep(w.steps[i]))
  }

  predicate Accepts(commitment: HexText, proof: WireProof, root: HexText) {
    && commitment.Hex? && root.Hex? && ValidProof(proof)
    && Fold(LeafOf(commitment.hash), ParseProof(proof)) == root.hash
  }

  method Verify(commitment: HexText, proof: WireProof, root: HexText) returns (ok: bool)
    ensures ok == Accepts(commitment, proof, root)
  {
    if commitment.NotHex? || root.NotHex? || proof.NotAList? || |proof.steps| > MAX_PROOF_STEPS {
      return false;
    }
    var current := LeafOf(commitment.hash);
    ghost var done: seq<Step> := [];
    for i := 0 to |proof.steps|
      invariant |done| == i
      invariant forall k :: 0 <= k < i ==> ValidStep(proof.steps[k]) && done[k] == ParseStep(proof.steps[k])
      invariant current == Fold(LeafOf(commitment.hash), done)
    {
      var w := proof.steps[i];
      if w.MissingKeys? || w.position !in ["left", "right"] || w.hash.NotHex? { return false; }
      FoldSplit(LeafOf(commitment.hash), done, [ParseStep(w)]);
      assert [ParseStep(w)][1..] == [];
      current := if w.position == "left" then NodeOf(w.hash.hash, current) else NodeOf(current, w.hash.hash);
      done := done + [ParseStep(w)];
    }
    assert done == ParseProof(proof);
    ok := current == root.hash;
  }

  // ----- what a built batch promises

  /** A proof as it is written into the batch. */
  function WriteProof(proof: seq<Step>): WireProof {
    WireProof(seq(|proof|, i requires 0 <= i < |proof| =>
                WireStep(if proof[i].position == Left then "left" else "right", Hex(proof[i].hash))))
  }

  /** An accepted batch is the one built from some receipts with pairwise different commitments. */
  lemma AcceptedBatch(ws: seq<WireReceipt>) returns (rs: seq<Receipt>)
    requires BatchOf(ws).Ok?
    ensures 0 < |rs| <= MAX_RECEIPTS && Distinct(Commitments(rs)) && BatchOf(ws) == Ok(BatchFor(rs))
  {
    rs := Sort(NormaliseAll(ws), ReceiptLe);
    SortPermutes(NormaliseAll(ws), ReceiptLe);
  }

  lemma BatchLeafIs(rs: seq<Receipt>, i: nat)
    requires i < |rs|
    ensures var leaf, level := BatchFor(rs).leaves[i], LeafLevel(Commitments(rs));
            && |level| == |rs| && leaf.leafHash == level[i] == LeafOf(rs[i].commitment)
            && leaf.receipt == rs[i] && leaf.proof == ProofOf(level, i)
  {
  }

  lemma WrittenProofParses(proof: seq<Step>)
    requires |proof| <= MAX_PROOF_STEPS
    ensures ValidProof(WriteProof(proof)) && ParseProof(WriteProof(proof)) == proof
  {
    var w := WriteProof(proof);
    forall k | 0 <= k < |w.steps| ensures ValidStep(w.steps[k]) && ParseStep(w.steps[k]) == proof[k] {
    }
    assert ParseProof(w) == proof;
  }

  /** Every stored proof verifies against the root, and all of them have the same length:
      the rounded-up base-two logarithm of the leaf count, at most 14. */
  lemma StoredProofsVerify(ws: seq<WireReceipt>, i: nat)
    requires BatchOf(ws).Ok? && i < |BatchOf(ws).value.leaves|
    ensures var b := BatchOf(ws).value;
            var leaf := b.leaves[i];
            && Accepts(Hex(leaf.receipt.commitment), WriteProof(leaf.proof), Hex(b.root))
            && |leaf.proof| == Height(b.leafCount) <= 14
  {
    var rs := AcceptedBatch(ws);
    BatchLeafIs(rs, i);
    var level := LeafLevel(Commitments(rs));
    StoredProofFolds(level, i);
    HeightBound(|rs|);
    WrittenProofParses(ProofOf(level, i));
  }

  /** The steps are those stored with the leaf, except that a step may name the other side
      where its sibling is the node itself. */
  predicate StoredUpToSides(leaf: BatchLeaf, steps: seq<Step>) {
    && |steps| == |leaf.proof|
    && forall k :: 0 <= k < |steps| ==>
         && steps[k].hash == leaf.proof[k].hash
         && (steps[k].position == leaf.proof[k].position
             || steps[k].hash == Fold(leaf.leafHash, steps[..k]))
  }

  /** Leaf `i` of the batch has the commitment, and its stored proof is these steps, up to sides. */
  predicate AcceptedLeaf(b: Batch, i: int, c: Hash, steps: seq<Step>) {
    0 <= i < |b.leaves| && c == b.leaves[i].receipt.commitment && StoredUpToSides(b.leaves[i], steps)
  }

  /** The verifier accepts a proof against a built root exactly when the commitment is that of
      one of the leaves and the proof is its stored proof, up to the side of a self-sibling. */
  lemma VerifierExact(ws: seq<WireReceipt>, c: Hash, proof: WireProof)
    requires BatchOf(ws).Ok?
    ensures var b := BatchOf(ws).value;
            Accepts(Hex(c), proof, Hex(b.root))
            <==> ValidProof(proof) && exists i :: AcceptedLeaf(b, i, c, ParseProof(proof))
  {
    if ValidProof(proof) {
      var rs := AcceptedBatch(ws);
      var cs, steps := Commitments(rs), ParseProof(proof);
      PathsToRoot(cs, c, steps);
      forall i | 0 <= i < |rs|
        ensures AcceptedLeaf(BatchFor(rs), i, c, steps) <==> c == cs[i] && MatchesStored(LeafLevel(cs), i, steps)
      {
        BatchLeafIs(rs, i);
      }
    }
  }

  /** The root binds a batch: two built batches with the same root hold the same commitments
      in the same order. */
  lemma BatchRootBinds(ws: seq<WireReceipt>, vs: seq<WireReceipt>)
    requires BatchOf(ws).Ok? && BatchOf(vs).Ok? && BatchOf(ws).value.root == BatchOf(vs).value.root
    ensures var a, b := BatchOf(ws).value, BatchOf(vs).value;
            && a.leafCount == b.leafCount == |a.leaves| == |b.leaves|
            && forall i :: 0 <= i < |a.leaves| ==>
                 && a.leaves[i].receipt.commitment == b.leaves[i].receipt.commitment
                 && a.leaves[i].proof == b.leaves[i].proof
  {
    var rs := AcceptedBatch(ws);
    var qs := AcceptedBatch(vs);
    RootBindsCommitments(Commitments(rs), Commitments(qs));
    forall i | 0 <= i < |rs|
      ensures BatchFor(rs).leaves[i].receipt.commitment == BatchFor(qs).leaves[i].receipt.commitment
      ensures BatchFor(rs).leaves[i].proof == BatchFor(qs).leaves[i].proof
    {
      BatchLeafIs(rs, i);
      BatchLeafIs(qs, i);
      assert Commitments(rs)[i] == Commitments(qs)[i];
    }
  }

  // ----- the order of the input does not matter

  lemma NormaliseWithout(ws: seq<WireReceipt>, k: nat, rest: seq<WireReceipt>)
    requires k < |ws| && rest == ws[..k] + ws[k + 1..]
    requires forall i :: 0 <= i < |ws| ==> ValidReceipt(ws[i])
    ensures forall i :: 0 <= i < |rest| ==> ValidReceipt(rest[i])
    ensures multiset(NormaliseAll(ws)) == multiset{Normalise(ws[k])} + multiset(NormaliseAll(rest))
  {
    var rs := NormaliseAll(ws);
    SplitAt(rs, k);
    assert rs[..k] + rs[k + 1..] == NormaliseAll(rest);
  }

  lemma RemoveFromBoth<T>(a: seq<T>, b: seq<T>, k: nat)
    requires multiset(a) == multiset(b) && a != [] && k < |b| && b[k] == a[0]
    ensures multiset(a[1..]) == multiset(b[..k] + b[k + 1..])
  {
    SplitFirst(a);
    SplitAt(b, k);
    assert multiset(a[1..]) == multiset(a) - multiset{a[0]};
  }

  lemma {:induction false} NormalisePermuted(ws: seq<WireReceipt>, vs: seq<WireReceipt>)
    requires multiset(ws) == multiset(vs)
    requires forall i :: 0 <= i < |ws| ==> ValidReceipt(ws[i])
    requires forall i :: 0 <= i < |vs| ==> ValidReceipt(vs[i])
    ensures multiset(NormaliseAll(ws)) == multiset(NormaliseAll(vs))
    decreases |ws|
  {
    if ws == [] {
      assert |multiset(vs)| == 0;
    } else {
      assert ws[0] in multiset(vs);
      var k :| 0 <= k < |vs| && vs[k] == ws[0];
      var a, b := ws[1..], vs[..k] + vs[k + 1..];
      RemoveFromBoth(ws, vs, k);
      assert a == ws[..0] + ws[1..];
      NormaliseWithout(ws, 0, a);
      NormaliseWithout(vs, k, b);
      NormalisePermuted(a, b);
    }
  }

  /** Receipts with pairwise different identifiers never tie. */
  lemma ReceiptsNeverTie(rs: seq<Receipt>)
    requires Distinct(Ids(rs))
    ensures NoTies(rs, ReceiptLe)
  {
    forall i, j | 0 <= i < |rs| && 0 <= j < |rs| && ReceiptLe(rs[i], rs[j]) && ReceiptLe(rs[j], rs[i])
      ensures rs[i] == rs[j]
    {
      StringLeAntisymmetric(rs[i].occurredAt, rs[j].occurredAt);
      StringLeAntisymmetric(rs[i].receiptId, rs[j].receiptId);
      assert Ids(rs)[i] == Ids(rs)[j];
    }
  }

  lemma SortedBatchesAgree(ws: seq<WireReceipt>, vs: seq<WireReceipt>)
    requires multiset(ws) == multiset(vs) && BatchOf(ws).Ok?
    ensures BatchOf(vs) == BatchOf(ws)
  {
    assert |multiset(ws)| == |multiset(vs)|;
    forall i | 0 <= i < |vs| ensures ValidReceipt(vs[i]) {
      assert vs[i] in multiset(ws);
    }
    NormalisePermuted(ws, vs);
    var a, b := Sort(NormaliseAll(ws), ReceiptLe), Sort(NormaliseAll(vs), ReceiptLe);
    ReceiptLePreorder();
    SortPermutes(NormaliseAll(ws), ReceiptLe);
    SortPermutes(NormaliseAll(vs), ReceiptLe);
    SortSorts(NormaliseAll(ws), ReceiptLe);
    SortSorts(NormaliseAll(vs), ReceiptLe);
    ReceiptsNeverTie(a);
    SortedUnique(a, b, ReceiptLe);
  }

  /** Any two arrangements of the same receipts are both refused or give the identical batch. */
  lemma OrderIndependent(ws: seq<WireReceipt>, vs: seq<WireReceipt>)
    requires multiset(ws) == multiset(vs)
    ensures (BatchOf(ws).Err? && BatchOf(vs).Err?) || BatchOf(ws) == BatchOf(vs)
  {
    if BatchOf(ws).Ok? {
      SortedBatchesAgree(ws, vs);
    } else if BatchOf(vs).Ok? {
      SortedBatchesAgree(vs, ws);
    }
  }
}
