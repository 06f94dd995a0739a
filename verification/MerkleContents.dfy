/** What a batch holds and in which order, when a list of receipts is refused, and what the verifier
    computes: each said without the functions that build and check batches. */
module MerkleContents {
  import opened Outcomes
  import opened Sorting
  import opened MerkleTree
  import opened MerkleBatch

  // ----- the leaves of a root, read from left to right

  /** Every path of length `d` downwards from `h` passes inner nodes only. */
  predicate Deep(h: Hash, d: nat) {
    d == 0 || (h.NodeOf? && Deep(h.left, d - 1) && Deep(h.right, d - 1))
  }

  /** The nodes `d` levels below `h`, from left to right. */
  function Row(h: Hash, d: nat): seq<Hash>
    requires Deep(h, d)
  {
    if d == 0 then [h] else Row(h.left, d - 1) + Row(h.right, d - 1)
  }

  function Children(row: seq<Hash>): seq<Hash>
    requires forall i :: 0 <= i < |row| ==> row[i].NodeOf?
  {
    seq(2 * |row|, j requires 0 <= j < 2 * |row| => if j % 2 == 0 then row[j / 2].left else row[j / 2].right)
  }

  lemma ChildrenSplit(a: seq<Hash>, b: seq<Hash>)
    requires forall i :: 0 <= i < |a + b| ==> (a + b)[i].NodeOf?
    ensures (forall i :: 0 <= i < |a| ==> a[i].NodeOf?) && (forall i :: 0 <= i < |b| ==> b[i].NodeOf?)
    ensures Children(a + b) == Children(a) + Children(b)
  {
    forall i | 0 <= i < |a| ensures a[i].NodeOf? { assert (a + b)[i] == a[i]; }
    forall i | 0 <= i < |b| ensures b[i].NodeOf? { assert (a + b)[|a| + i] == b[i]; }
  }

  lemma {:induction false} RowDeeper(h: Hash, d: nat)
    requires Deep(h, d) && forall i :: 0 <= i < |Row(h, d)| ==> Row(h, d)[i].NodeOf?
    ensures Deep(h, d + 1) && Row(h, d + 1) == Children(Row(h, d))
    decreases d
  {
    if d == 0 {
      assert Row(h, 0)[0] == h;
      assert Deep(h.left, 0) && Deep(h.right, 0);
      assert Deep(h, 1);
      assert Row(h, 1) == [h.left] + [h.right];
    } else {
      assert Row(h, d) == Row(h.left, d - 1) + Row(h.right, d - 1);
      ChildrenSplit(Row(h.left, d - 1), Row(h.right, d - 1));
      RowDeeper(h.left, d - 1);
      RowDeeper(h.right, d - 1);
    }
  }

  lemma PaddedChildren(level: seq<Hash>)
    requires |level| > 1
    ensures forall i :: 0 <= i < |Padded(NextLevel(level))| ==> Padded(NextLevel(level))[i].NodeOf?
    ensures Children(Padded(NextLevel(level))) == Padded(level)
  {
    PaddedPairs(level);
  }

  lemma {:induction false} RowOfRoot(level: seq<Hash>)
    requires |level| > 0
    ensures Deep(Root(level), Height(|level|)) && Row(Root(level), Height(|level|)) == Padded(level)
    decreases |level|
  {
    if |level| == 1 {
      assert Padded(level) == [level[0]];
    } else {
      var next := NextLevel(level);
      RowOfRoot(next);
      PaddedChildren(level);
      RowDeeper(Root(next), Height(|next|));
    }
  }

  lemma {:induction false} SlotOfNode(n: nat, j: nat)
    requires j < n
    ensures n <= Pow2(Height(n)) && Slot(n, j) == j
    decreases n
  {
    HeightIsCeilLog(n);
    if n > 1 {
      SlotOfNode((n + 1) / 2, j / 2);
    }
  }

  predicate IsLeafOf(h: Hash, cs: seq<Hash>) {
    exists i :: 0 <= i < |cs| && h == LeafOf(cs[i])
  }

  /** Read from left to right, the lowest row of a root holds the leaves of the commitments in their
      order, and after them only repetitions. */
  lemma LeavesInOrder(cs: seq<Hash>)
    requires |cs| > 0
    ensures var root, d := Root(LeafLevel(cs)), Height(|cs|);
            && Deep(root, d) && |cs| <= |Row(root, d)| == Pow2(d)
            && (forall j :: 0 <= j < |cs| ==> Row(root, d)[j] == LeafOf(cs[j]))
            && (forall j :: |cs| <= j < |Row(root, d)| ==> IsLeafOf(Row(root, d)[j], cs))
  {
    var level := LeafLevel(cs);
    RowOfRoot(level);
    HeightIsCeilLog(|cs|);
    forall j | 0 <= j < |cs| ensures Padded(level)[j] == LeafOf(cs[j]) { SlotOfNode(|cs|, j); }
    forall j | |cs| <= j < |Padded(level)| ensures IsLeafOf(Padded(level)[j], cs) {
      assert Padded(level)[j] == LeafOf(cs[Slot(|cs|, j)]);
    }
  }

  // ----- what a batch holds

  /** What was said of one receipt. */
  datatype Facts = Facts(id: string, commitment: Hash, time: string)

  predicate LetterOrDigit(c: char) {
    'A' <= c <= 'Z' || 'a' <= c <= 'z' || '0' <= c <= '9'
  }

  /** A letter or digit, then 15 to 127 letters, digits, points, underscores and hyphens. */
  predicate GoodId(id: string) {
    && 16 <= |id| <= 128 && LetterOrDigit(id[0])
    && forall i :: 1 <= i < |id| ==> LetterOrDigit(id[i]) || id[i] == '.' || id[i] == '_' || id[i] == '-'
  }

  /** All fields are there and have their formats. */
  predicate GoodReceipt(w: WireReceipt) {
    w.WireReceipt? && GoodId(w.receiptId) && w.commitment.Hex? && w.occurredAt.Instant?
  }

  predicate AllGood(ws: seq<WireReceipt>) {
    forall i :: 0 <= i < |ws| ==> GoodReceipt(ws[i])
  }

  function Given(ws: seq<WireReceipt>): seq<Facts>
    requires AllGood(ws)
  {
    seq(|ws|, i requires 0 <= i < |ws| => Facts(ws[i].receiptId, ws[i].commitment.hash, ws[i].occurredAt.utc))
  }

  function Held(b: Batch): seq<Facts> {
    seq(|b.leaves|, i requires 0 <= i < |b.leaves| =>
      var r := b.leaves[i].receipt; Facts(r.receiptId, r.commitment, r.occurredAt))
  }

  lemma GoodIsValid(w: WireReceipt)
    ensures ValidReceipt(w) <==> GoodReceipt(w)
  {
  }

  function AsFacts(r: Receipt): Facts {
    Facts(r.receiptId, r.commitment, r.occurredAt)
  }

  function AllFacts(rs: seq<Receipt>): seq<Facts> {
    seq(|rs|, i requires 0 <= i < |rs| => AsFacts(rs[i]))
  }

  lemma {:induction false} FactsPermute(a: seq<Receipt>, b: seq<Receipt>)
    requires multiset(a) == multiset(b)
    ensures multiset(AllFacts(a)) == multiset(AllFacts(b))
    decreases |a|
  {
    assert |multiset(a)| == |a| && |multiset(b)| == |b|;
    if a == [] {
      assert AllFacts(a) == AllFacts(b);
    } else {
      assert a[0] in multiset(b);
      var k :| 0 <= k < |b| && b[k] == a[0];
      var rest := b[..k] + b[k + 1..];
      RemoveFromBoth(a, b, k);
      FactsPermute(a[1..], rest);
      SplitFirst(AllFacts(a));
      SplitAt(AllFacts(b), k);
      assert AllFacts(a)[1..] == AllFacts(a[1..]);
      assert AllFacts(b)[..k] + AllFacts(b)[k + 1..] == AllFacts(rest);
    }
  }

  lemma SortedReceipts(ws: seq<WireReceipt>) returns (rs: seq<Receipt>)
    requires AllGood(ws)
    ensures forall i :: 0 <= i < |ws| ==> ValidReceipt(ws[i])
    ensures rs == Sort(NormaliseAll(ws), ReceiptLe)
    ensures |rs| == |ws| && multiset(AllFacts(rs)) == multiset(Given(ws)) && SortedBy(rs, ReceiptLe)
  {
    forall i | 0 <= i < |ws| ensures ValidReceipt(ws[i]) { GoodIsValid(ws[i]); }
    rs := Sort(NormaliseAll(ws), ReceiptLe);
    SortPermutes(NormaliseAll(ws), ReceiptLe);
    ReceiptLePreorder();
    SortSorts(NormaliseAll(ws), ReceiptLe);
    FactsPermute(rs, NormaliseAll(ws));
    assert AllFacts(NormaliseAll(ws)) == Given(ws);
  }

  lemma AcceptedIsGood(ws: seq<WireReceipt>) returns (rs: seq<Receipt>)
    requires BatchOf(ws).Ok?
    ensures AllGood(ws) && |rs| == |ws| > 0 && BatchOf(ws) == Ok(BatchFor(rs)) && Distinct(Ids(rs))
    ensures multiset(AllFacts(rs)) == multiset(Given(ws)) && SortedBy(rs, ReceiptLe)
  {
    forall i | 0 <= i < |ws| ensures GoodReceipt(ws[i]) { GoodIsValid(ws[i]); }
    rs := SortedReceipts(ws);
  }

  /** An accepted batch holds exactly what the receipts said, each as often as it was said, numbers its
      leaves from zero, hashes each commitment as a leaf, and has the root of these leaves. */
  lemma BatchHolds(ws: seq<WireReceipt>)
    requires BatchOf(ws).Ok?
    ensures AllGood(ws)
    ensures var b := BatchOf(ws).value;
            && b.leafCount == |b.leaves| == |ws| > 0
            && multiset(Held(b)) == multiset(Given(ws))
            && (forall i :: 0 <= i < |b.leaves| ==>
                  b.leaves[i].leafIndex == i && b.leaves[i].leafHash == LeafOf(b.leaves[i].receipt.commitment))
            && Deep(b.root, Height(b.leafCount)) && |Row(b.root, Height(b.leafCount))| >= b.leafCount
            && (forall i :: 0 <= i < |b.leaves| ==> Row(b.root, Height(b.leafCount))[i] == b.leaves[i].leafHash)
  {
    var rs := AcceptedIsGood(ws);
    assert Held(BatchFor(rs)) == AllFacts(rs);
    LeavesInOrder(Commitments(rs));
  }

  /** The leaves stand in the declared order: by time, and at the same time by identifier. */
  lemma BatchInOrder(ws: seq<WireReceipt>, i: nat, j: nat)
    requires BatchOf(ws).Ok? && i < j < |BatchOf(ws).value.leaves|
    ensures var a, b := BatchOf(ws).value.leaves[i].receipt, BatchOf(ws).value.leaves[j].receipt;
            Before(a.occurredAt, b.occurredAt) || (a.occurredAt == b.occurredAt && Before(a.receiptId, b.receiptId))
  {
    var rs := AcceptedIsGood(ws);
    assert ReceiptLe(rs[i], rs[j]) && Ids(rs)[i] != Ids(rs)[j];
    StringLeMeans(rs[i].occurredAt, rs[j].occurredAt);
    StringLeMeans(rs[i].receiptId, rs[j].receiptId);
  }

  // ----- when a list of receipts is refused

  ghost predicate SharedId(ws: seq<WireReceipt>)
    requires AllGood(ws)
  {
    exists i, j :: 0 <= i < j < |ws| && ws[i].receiptId == ws[j].receiptId
  }

  ghost predicate SharedCommitment(ws: seq<WireReceipt>)
    requires AllGood(ws)
  {
    exists i, j :: 0 <= i < j < |ws| && ws[i].commitment == ws[j].commitment
  }

  lemma IdsRepeat(ws: seq<WireReceipt>, rs: seq<Receipt>)
    requires AllGood(ws) && multiset(AllFacts(rs)) == multiset(Given(ws))
    ensures Distinct(Ids(rs)) <==> !SharedId(ws)
  {
    var f := (x: Facts) => x.id;
    if !Distinct(Ids(rs)) {
      var i, j :| 0 <= i < j < |rs| && Ids(rs)[i] == Ids(rs)[j];
      assert f(AllFacts(rs)[i]) == f(AllFacts(rs)[j]);
      RepeatsPermute(AllFacts(rs), Given(ws), f);
      var k, l :| 0 <= k < l < |Given(ws)| && f(Given(ws)[k]) == f(Given(ws)[l]);
      assert ws[k].receiptId == ws[l].receiptId;
    }
    if SharedId(ws) {
      var i, j :| 0 <= i < j < |ws| && ws[i].receiptId == ws[j].receiptId;
      assert f(Given(ws)[i]) == f(Given(ws)[j]);
      RepeatsPermute(Given(ws), AllFacts(rs), f);
      var k, l :| 0 <= k < l < |AllFacts(rs)| && f(AllFacts(rs)[k]) == f(AllFacts(rs)[l]);
      assert Ids(rs)[k] == Ids(rs)[l];
    }
  }

  lemma CommitmentsRepeat(ws: seq<WireReceipt>, rs: seq<Receipt>)
    requires AllGood(ws) && multiset(AllFacts(rs)) == multiset(Given(ws))
    ensures Distinct(Commitments(rs)) <==> !SharedCommitment(ws)
  {
    var f := (x: Facts) => x.commitment;
    if !Distinct(Commitments(rs)) {
      var i, j :| 0 <= i < j < |rs| && Commitments(rs)[i] == Commitments(rs)[j];
      assert f(AllFacts(rs)[i]) == f(AllFacts(rs)[j]);
      RepeatsPermute(AllFacts(rs), Given(ws), f);
      var k, l :| 0 <= k < l < |Given(ws)| && f(Given(ws)[k]) == f(Given(ws)[l]);
      assert ws[k].commitment == ws[l].commitment;
    }
    if SharedCommitment(ws) {
      var i, j :| 0 <= i < j < |ws| && ws[i].commitment == ws[j].commitment;
      assert f(Given(ws)[i]) == f(Given(ws)[j]);
      RepeatsPermute(Given(ws), AllFacts(rs), f);
      var k, l :| 0 <= k < l < |AllFacts(rs)| && f(AllFacts(rs)[k]) == f(AllFacts(rs)[l]);
      assert Commitments(rs)[k] == Commitments(rs)[l];
    }
  }

  /** Exactly which lists of receipts are refused, and with which error: said of the list as it came. */
  lemma RefusedExactly(ws: seq<WireReceipt>)
    ensures BatchOf(ws) == Err(Empty) <==> ws == []
    ensures BatchOf(ws) == Err(TooLarge) <==> |ws| > 10_000
    ensures BatchOf(ws) == Err(InvalidReceipt) <==> 0 < |ws| <= 10_000 && !AllGood(ws)
    ensures BatchOf(ws) == Err(DuplicateReceiptId) <==> 0 < |ws| <= 10_000 && AllGood(ws) && SharedId(ws)
    ensures BatchOf(ws) == Err(DuplicateCommitment)
        <==> 0 < |ws| <= 10_000 && AllGood(ws) && !SharedId(ws) && SharedCommitment(ws)
  {
    forall i | 0 <= i < |ws| ensures ValidReceipt(ws[i]) <==> GoodReceipt(ws[i]) { GoodIsValid(ws[i]); }
    if AllGood(ws) {
      var rs := SortedReceipts(ws);
      IdsRepeat(ws, rs);
      CommitmentsRepeat(ws, rs);
    }
  }

  // ----- what the verifier computes

  predicate GoodStep(w: WireStep) {
    w.WireStep? && (w.position == "left" || w.position == "right") && w.hash.Hex?
  }

  predicate GoodSteps(steps: seq<WireStep>) {
    forall k :: 0 <= k < |steps| ==> GoodStep(steps[k])
  }

  /** The hash that a path written on the wire leads to, seen from its upper end: the last step puts its
      own hash on the side it names, beside what the steps before it lead to. */
  function Climb(start: Hash, steps: seq<WireStep>): Hash
    requires GoodSteps(steps)
  {
    if steps == [] then start
    else
      var last, below := steps[|steps| - 1], Climb(start, steps[..|steps| - 1]);
      if last.position == "left" then NodeOf(last.hash.hash, below) else NodeOf(below, last.hash.hash)
  }

  lemma {:induction false} ClimbIsFold(start: Hash, steps: seq<WireStep>)
    requires GoodSteps(steps) && |steps| <= MAX_PROOF_STEPS
    ensures ValidProof(WireProof(steps))
    ensures Climb(start, steps) == Fold(start, ParseProof(WireProof(steps)))
    decreases |steps|
  {
    assert ValidProof(WireProof(steps)) by {
      forall k | 0 <= k < |steps| ensures ValidStep(steps[k]) { assert GoodStep(steps[k]); }
    }
    if steps != [] {
      var init, last := steps[..|steps| - 1], steps[|steps| - 1];
      ClimbIsFold(start, init);
      assert GoodStep(last);
      assert ParseProof(WireProof(steps)) == ParseProof(WireProof(init)) + [ParseStep(last)];
      FoldSplit(start, ParseProof(WireProof(init)), [ParseStep(last)]);
      assert [ParseStep(last)][1..] == [];
    }
  }

  /** The verifier accepts exactly a commitment, at most 32 good steps and a root such that the steps lead
      from the commitment's leaf to the root, each with its hash on the side that it names. */
  lemma VerifierClimbs(commitment: HexText, proof: WireProof, root: HexText)
    ensures Accepts(commitment, proof, root) <==>
              && commitment.Hex? && root.Hex? && proof.WireProof? && |proof.steps| <= 32 && GoodSteps(proof.steps)
              && Climb(LeafOf(commitment.hash), proof.steps) == root.hash
  {
    if proof.WireProof? && |proof.steps| <= 32 && commitment.Hex? {
      if ValidProof(proof) {
        forall k | 0 <= k < |proof.steps| ensures GoodStep(proof.steps[k]) { assert ValidStep(proof.steps[k]); }
      }
      if GoodSteps(proof.steps) { ClimbIsFold(LeafOf(commitment.hash), proof.steps); }
    }
  }
}
