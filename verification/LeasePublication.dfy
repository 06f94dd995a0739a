/** Publication through the destination lease is all or nothing. */
module LeasePublication {
  import opened Outcomes
  import opened DestinationLease
  import opened LeaseTheorems

  // ----- what the closure check establishes

  predicate ClaimsFile(s: State, p: Path, e: Entry) {
    && e in s.ledger && e.path == p && InPlace(s.tree, e)
    && s.tree[p].kind == File && e.expected == Some(s.tree[p].bytes)
  }

  /** Below the version root there are exactly the files claimed through the lease, each a single-link
      file that the lease holds, with exactly the bytes recorded for it. */
  ghost predicate ExactlyTheWritten(s: State, n: Names) {
    && (forall p :: p in s.tree && [n.version] < p && !s.tree[p].kind.Directory? ==>
          exists e :: ClaimsFile(s, p, e))
    && (forall e :: e in s.ledger && e.proof.Proven? && e.proof.kind == File && [n.version] < e.path ==>
          ClaimsFile(s, e.path, e))
  }

  lemma ClosedHolds(s: State, n: Names)
    requires Closed(s, n)
    ensures ExactlyTheWritten(s, n)
  {
    RevalidatedMeans(s);
    forall e | e in s.ledger && e.proof.Proven? && e.proof.kind == File && [n.version] < e.path
      ensures ClaimsFile(s, e.path, e)
    {
      var i :| 0 <= i < |s.ledger| && s.ledger[i] == e;
      assert IsFile(e) && Under(e.path, VersionRoot(n));
    }
    forall p | p in s.tree && [n.version] < p && !s.tree[p].kind.Directory? ensures exists e :: ClaimsFile(s, p, e) {
      assert p in FilesBelow(s.tree, VersionRoot(n));
      assert p in LedgerFiles(s.ledger, VersionRoot(n));
      var e :| e in s.ledger && IsFile(e) && Under(e.path, VersionRoot(n)) && e.path == p;
      assert ClaimsFile(s, p, e);
    }
  }

  lemma HeldCloses(s: State, n: Names)
    requires AllInPlace(s) && ExactlyTheWritten(s, n)
    ensures Closed(s, n)
  {
    RevalidatedMeans(s);
    forall i | 0 <= i < |s.ledger| && IsFile(s.ledger[i]) && Under(s.ledger[i].path, VersionRoot(n))
      ensures s.ledger[i].expected == Some(s.tree[s.ledger[i].path].bytes)
    {
      assert ClaimsFile(s, s.ledger[i].path, s.ledger[i]);
    }
    forall p | p in FilesBelow(s.tree, VersionRoot(n)) ensures p in LedgerFiles(s.ledger, VersionRoot(n)) {
      var e :| ClaimsFile(s, p, e);
      assert IsFile(e);
    }
    forall p | p in LedgerFiles(s.ledger, VersionRoot(n)) ensures p in FilesBelow(s.tree, VersionRoot(n)) {
      var e :| e in s.ledger && IsFile(e) && Under(e.path, VersionRoot(n)) && e.path == p;
      assert ClaimsFile(s, p, e);
    }
  }

  lemma ClosedMeans(s: State, n: Names)
    ensures Closed(s, n) <==> AllInPlace(s) && ExactlyTheWritten(s, n)
  {
    RevalidatedMeans(s);
    if Closed(s, n) { ClosedHolds(s, n); }
    if AllInPlace(s) && ExactlyTheWritten(s, n) { HeldCloses(s, n); }
  }

  // ----- reaching the published and the committed state

  lemma Step(s: State, n: Names, a: Action)
    ensures Next(s, n, a).phase == PinPublished && s.phase != PinPublished ==>
              a.PublishPin? && s.phase == Active && !s.markerHeld && Closed(s, n)
    ensures Next(s, n, a).phase == Committed && s.phase != Committed ==>
              && a.Commit? && s.phase == PinPublished && Closed(s, n)
              && PinPath(n) in s.tree
              && exists e :: e in s.ledger && e.path == PinPath(n) && e.expected == Some(s.tree[PinPath(n)].bytes)
  {
  }

  lemma Snoc(actions: seq<Action>)
    requires actions != []
    ensures actions == actions[..|actions| - 1] + [actions[|actions| - 1]]
  {
  }

  /** In every run that reaches `PinPublished` or `Committed`, whatever others did to the tree, there
      is a step at which the marker had been removed and the closure check held. */
  lemma {:induction false} PublishedOnlyWhenClosed(s0: State, n: Names, actions: seq<Action>) returns (k: nat)
    requires s0.phase == Active
    requires var phase := Run(s0, n, actions).phase; phase == PinPublished || phase == Committed
    ensures k < |actions| && actions[k].PublishPin?
    ensures var s := Run(s0, n, actions[..k]);
            && s.phase == Active && !s.markerHeld && AllInPlace(s) && ExactlyTheWritten(s, n)
            && Next(s, n, actions[k]).phase == PinPublished
    decreases |actions|
  {
    var m := |actions| - 1;
    Snoc(actions);
    RunSnoc(s0, n, actions[..m], actions[m]);
    var s := Run(s0, n, actions[..m]);
    Step(s, n, actions[m]);
    if s.phase == PinPublished || s.phase == Committed {
      k := PublishedOnlyWhenClosed(s0, n, actions[..m]);
      assert actions[..m][..k] == actions[..k];
    } else {
      k := m;
      ClosedMeans(s, n);
    }
  }

  /** And a committed run passed the closure check again at its commit, with the pin's own bytes. */
  lemma {:induction false} CommittedOnlyWhenClosed(s0: State, n: Names, actions: seq<Action>) returns (k: nat)
    requires s0.phase == Active && Run(s0, n, actions).phase == Committed
    ensures k < |actions| && actions[k].Commit?
    ensures var s := Run(s0, n, actions[..k]);
            && s.phase == PinPublished && AllInPlace(s) && ExactlyTheWritten(s, n) && [n.pin] in s.tree
            && exists e :: e in s.ledger && e.path == [n.pin] && e.expected == Some(s.tree[[n.pin]].bytes)
    decreases |actions|
  {
    var m := |actions| - 1;
    Snoc(actions);
    RunSnoc(s0, n, actions[..m], actions[m]);
    var s := Run(s0, n, actions[..m]);
    Step(s, n, actions[m]);
    if s.phase == Committed {
      k := CommittedOnlyWhenClosed(s0, n, actions[..m]);
      assert actions[..m][..k] == actions[..k];
    } else {
      k := m;
      ClosedMeans(s, n);
    }
  }

  /** The step writes what `e` records through the descriptor of `e`'s own file, which `e`'s path then
      leads to, and records it. (A write does not truncate; the closure check compares the whole file.) */
  ghost predicate Writes(s: State, n: Names, a: Action, e: Entry)
    requires e.expected.Some?
  {
    var bytes, s2 := e.expected.value, Next(s, n, a);
    && (a == WriteFile(bytes, None) || a == PublishPin(bytes, None))
    && (exists d :: && d in s.ledger && d.path == e.path && d.created == e.created
                    && d.(expected := e.expected) in s2.ledger)
    && s2.tree == Written(s.tree, e.created, bytes)
    && e.path in s.tree && e.path in s2.tree && s2.tree[e.path].ino == s.tree[e.path].ino == e.created
    && bytes <= s2.tree[e.path].bytes
    && s2.tree[e.path].bytes[|bytes|..] == (if |bytes| <= |s.tree[e.path].bytes| then s.tree[e.path].bytes[|bytes|..]
                                            else [])
  }

  predicate SameRecord(d: Entry, e: Entry) {
    d.path == e.path && d.kind == e.kind && d.created == e.created && d.expected == e.expected
  }

  /** Writing the claim `d` of a file that its path leads to. */
  lemma WrittenHolds(s: State, d: Entry, bytes: Bytes)
    requires DatedEntry(s.made, s.next, d) && d.kind.File? && Owned(Written(s.tree, d.created, bytes), d)
    ensures var t := Written(s.tree, d.created, bytes);
            && d.path in t && d.path in s.tree && t[d.path].ino == s.tree[d.path].ino == d.created
            && bytes <= t[d.path].bytes
            && t[d.path].bytes[|bytes|..] == (if |bytes| <= |s.tree[d.path].bytes| then s.tree[d.path].bytes[|bytes|..]
                                              else [])
  {
  }

  /** A claim's record changes only by a write through its descriptor that goes through. */
  lemma RecordChanged(s: State, n: Names, a: Action, i: nat)
    requires i < |s.ledger| <= |Next(s, n, a).ledger| && !a.RemoveMarker?
    ensures var d, s2 := s.ledger[i], Next(s, n, a);
            var e := s2.ledger[i];
            SameRecord(d, e)
            || (&& (a.WriteFile? || a.PublishPin?) && a.partial.None?
                && e == d.(expected := Some(a.bytes)) && s2.tree == Written(s.tree, d.created, a.bytes)
                && Owned(s2.tree, d))
  {
  }

  lemma WritesNow(s: State, n: Names, a: Action, i: nat)
    requires Dated(s) && i < |s.ledger| <= |Next(s, n, a).ledger| && !a.RemoveMarker?
    requires var e := Next(s, n, a).ledger[i]; e.expected.Some? && e.kind.File? && !SameRecord(s.ledger[i], e)
    ensures Writes(s, n, a, Next(s, n, a).ledger[i])
  {
    var d, s2 := s.ledger[i], Next(s, n, a);
    assert d in s.ledger && DatedEntry(s.made, s.next, d);
    RecordChanged(s, n, a, i);
    WrittenHolds(s, d, a.bytes);
    assert d.(expected := s2.ledger[i].expected) == s2.ledger[i] && s2.ledger[i] in s2.ledger;
  }

  lemma NothingForgotten(s: State, n: Names, a: Action)
    requires !a.RemoveMarker?
    ensures |Next(s, n, a).ledger| >= |s.ledger|
    ensures forall i :: |s.ledger| <= i < |Next(s, n, a).ledger| ==> Next(s, n, a).ledger[i].expected.None?
  {
  }

  lemma NewRecord(s: State, n: Names, a: Action, e: Entry)
    requires Dated(s) && e in Next(s, n, a).ledger && e.expected.Some? && e.kind.File?
    ensures Writes(s, n, a, e) || exists d :: d in s.ledger && SameRecord(d, e)
  {
    var s2 := Next(s, n, a);
    var i :| 0 <= i < |s2.ledger| && s2.ledger[i] == e;
    if a.RemoveMarker? {
      assert e in s.ledger;
    } else {
      NothingForgotten(s, n, a);
      assert s.ledger[i] in s.ledger;
      if !SameRecord(s.ledger[i], e) { WritesNow(s, n, a, i); }
    }
  }

  /** Whatever the lease has recorded for a file, in any run and whatever others did, an earlier step
      wrote completely into that very object, while its path led to it. */
  lemma {:induction false} RecordsWereWritten(tree: Tree, next: Ino, n: Names, actions: seq<Action>, e: Entry)
    returns (k: nat)
    requires Fresh(tree, next) && e in Run(Start(tree, next), n, actions).ledger && e.expected.Some? && e.kind.File?
    ensures k < |actions| && Writes(Run(Start(tree, next), n, actions[..k]), n, actions[k], e)
    decreases |actions|
  {
    var m := |actions| - 1;
    Snoc(actions);
    RunSnoc(Start(tree, next), n, actions[..m], actions[m]);
    var s := Run(Start(tree, next), n, actions[..m]);
    RunDated(Start(tree, next), n, actions[..m]);
    NewRecord(s, n, actions[m], e);
    if d :| d in s.ledger && SameRecord(d, e) {
      k := RecordsWereWritten(tree, next, n, actions[..m], d);
      assert actions[..m][..k] == actions[..k];
    } else {
      k := m;
    }
  }

  // ----- a failed write

  /** A file below the version root whose write did not go through, other than the marker. */
  predicate Spoiled(s: State, n: Names, e: Entry) {
    && e.kind.File? && Under(e.path, VersionRoot(n)) && !e.open && e.expected.None?
    && (e.proof.Proven? ==> e.proof.kind.File?)
    && (s.markerHeld ==> e.path != MarkerPath(n))
  }

  ghost predicate HasSpoiled(s: State, n: Names) {
    exists i :: 0 <= i < |s.ledger| && Spoiled(s, n, s.ledger[i])
  }

  /** A write that fails part-way leaves such a file. */
  lemma FailedWriteSpoils(s: State, n: Names, bytes: Bytes, partial: Bytes)
    requires s.phase == Active && s.ledger != [] && Last(s).open && Last(s).kind.File? && Last(s).expected.None?
    requires Under(Last(s).path, VersionRoot(n)) && (s.markerHeld ==> Last(s).path != MarkerPath(n))
    requires Last(s).proof.Proven? ==> Last(s).proof.kind.File?
    ensures HasSpoiled(Next(s, n, WriteFile(bytes, Some(partial))), n)
  {
    var s2 := Next(s, n, WriteFile(bytes, Some(partial)));
    assert Spoiled(s2, n, s2.ledger[|s.ledger| - 1]);
  }

  lemma NotSpoiled(s: State, n: Names)
    requires Closed(s, n)
    ensures !HasSpoiled(s, n)
  {
  }

  lemma MarkerKeepsSpoiled(s: State, n: Names, fails: bool)
    requires HasSpoiled(s, n)
    ensures HasSpoiled(Next(s, n, RemoveMarker(fails)), n)
  {
    var s2 := Next(s, n, RemoveMarker(fails));
    if s2 != s {
      var i :| 0 <= i < |s.ledger| && Spoiled(s, n, s.ledger[i]);
      var m := Find(s.ledger, MarkerPath(n)).value;
      var j := if i < m then i else i - 1;
      assert s2.ledger[j] == s.ledger[i];
      assert Spoiled(s2, n, s2.ledger[j]);
    }
  }

  /** The steps that change at most the last claim keep it. */
  lemma LastKeepsSpoiled(s: State, n: Names, a: Action)
    requires HasSpoiled(s, n)
    requires a.ProveDirectory? || a.ProveFile? || a.WriteFile? || a.CloseFile?
    ensures HasSpoiled(Next(s, n, a), n)
  {
    var i :| 0 <= i < |s.ledger| && Spoiled(s, n, s.ledger[i]);
    assert Spoiled(Next(s, n, a), n, Next(s, n, a).ledger[i]);
  }

  lemma SpoiledStays(s: State, n: Names, a: Action)
    requires HasSpoiled(s, n)
    ensures HasSpoiled(Next(s, n, a), n)
    ensures Next(s, n, a).phase == PinPublished ==> s.phase == PinPublished
  {
    var i :| 0 <= i < |s.ledger| && Spoiled(s, n, s.ledger[i]);
    match a
    case RemoveMarker(fails) => MarkerKeepsSpoiled(s, n, fails);
    case PublishPin(_, _) => assert !Closed(s, n) by { if Closed(s, n) { NotSpoiled(s, n); } }
    case ProveDirectory(_) => LastKeepsSpoiled(s, n, a);
    case ProveFile(_) => LastKeepsSpoiled(s, n, a);
    case WriteFile(_, _) => LastKeepsSpoiled(s, n, a);
    case CloseFile => LastKeepsSpoiled(s, n, a);
    case _ => assert Spoiled(Next(s, n, a), n, Next(s, n, a).ledger[i]);
  }

  /** From then on the lease can never be published, whatever is tried. */
  lemma {:induction false} SpoiledNeverPublishes(s: State, n: Names, actions: seq<Action>)
    requires HasSpoiled(s, n) && s.phase == Active
    ensures Run(s, n, actions).phase != PinPublished && Run(s, n, actions).phase != Committed
    decreases |actions|
  {
    if |actions| > 0 {
      var m := |actions| - 1;
      Snoc(actions);
      RunSnoc(s, n, actions[..m], actions[m]);
      SpoiledNeverPublishes(s, n, actions[..m]);
      SpoiledRun(s, n, actions[..m]);
      SpoiledStays(Run(s, n, actions[..m]), n, actions[m]);
      Step(Run(s, n, actions[..m]), n, actions[m]);
    }
  }

  lemma {:induction false} SpoiledRun(s: State, n: Names, actions: seq<Action>)
    requires HasSpoiled(s, n)
    ensures HasSpoiled(Run(s, n, actions), n)
    decreases |actions|
  {
    if actions != [] {
      SpoiledStays(s, n, actions[0]);
      SpoiledRun(Next(s, n, actions[0]), n, actions[1..]);
    }
  }
}
