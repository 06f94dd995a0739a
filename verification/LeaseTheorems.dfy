/** What the destination lease guarantees over every run. */
module LeaseTheorems {
  import opened Outcomes
  import opened DestinationLease

  // ----- rollback restores the tree

  /** Every proper prefix of a path is a directory of the tree. */
  ghost predicate WellFormed(t: Tree) {
    forall p, k :: p in t && 0 < k < |p| ==> p[..k] in t && t[p[..k]].kind.Directory?
  }

  predicate HasClaim(ledger: seq<Entry>, p: Path) {
    exists i :: 0 <= i < |ledger| && ledger[i].path == p
  }

  predicate EntryOk(start: Tree, t: Tree, e: Entry) {
    && e.path in t && e.path !in start && e.path != []
    && t[e.path].ino == e.created && t[e.path].kind == e.kind && t[e.path].nlink == 1
    && (e.proof.Proven? ==> e.proof == Proven(e.created, e.kind))
  }

  ghost predicate Untouched(start: Tree, t: Tree) {
    forall p :: p in start ==> p in t && t[p] == start[p]
  }

  ghost predicate Covered(start: Tree, ledger: seq<Entry>, t: Tree) {
    forall p :: p in t ==> p in start || HasClaim(ledger, p)
  }

  ghost predicate EntriesOk(start: Tree, ledger: seq<Entry>, t: Tree) {
    forall i :: 0 <= i < |ledger| ==> EntryOk(start, t, ledger[i])
  }

  /** No claim comes before a claim of something above it, and none is repeated. */
  predicate TopDown(ledger: seq<Entry>) {
    forall i, j :: 0 <= i < j < |ledger| ==> ledger[i].path != ledger[j].path && !Under(ledger[i].path, ledger[j].path)
  }

  /** The tree is the starting tree and the claimed objects, claimed from the top down. */
  ghost predicate Claimed(start: Tree, ledger: seq<Entry>, t: Tree) {
    Untouched(start, t) && Covered(start, ledger, t) && EntriesOk(start, ledger, t) && TopDown(ledger)
  }

  ghost predicate Calm(start: Tree, low: Ino, s: State) {
    && WellFormed(s.tree) && low <= s.next
    && (forall p :: p in start ==> start[p].ino < low)
    && (forall i :: 0 <= i < |s.ledger| ==> low <= s.ledger[i].created < s.next)
    && (s.phase == Active || s.phase == PinPublished || s.phase == Committed ==> Claimed(start, s.ledger, s.tree))
  }

  predicate AllProven(ledger: seq<Entry>) {
    forall i :: 0 <= i < |ledger| ==> ledger[i].proof.Proven?
  }

  predicate NoForeign(actions: seq<Action>) {
    forall i :: 0 <= i < |actions| ==> !actions[i].Foreign?
  }

  lemma UnderMeans(q: Path, p: Path)
    ensures Under(q, p) <==> |p| < |q| && q[..|p|] == p
  {
  }

  lemma NothingBelowNew(t: Tree, p: Path)
    requires WellFormed(t) && p !in t && p != []
    ensures EmptyDir(t, p)
  {
    forall q | q in t ensures !Under(q, p) {
      UnderMeans(q, p);
      assert |p| < |q| ==> q[..|p|] in t;
    }
  }

  lemma PrefixesOfNew(t: Tree, p: Path, k: nat)
    requires WellFormed(t) && p != [] && HasParent(t, p) && 0 < k < |p|
    ensures p[..k] in t && t[p[..k]].kind.Directory?
  {
    var parent := p[..|p| - 1];
    if k < |parent| {
      assert parent[..k] == p[..k];
    } else {
      assert p[..k] == parent;
    }
  }

  lemma NewIsWellFormed(t: Tree, p: Path, node: Node)
    requires WellFormed(t) && p != [] && p !in t && HasParent(t, p)
    ensures WellFormed(t[p := node])
  {
    NothingBelowNew(t, p);
    var t2 := t[p := node];
    forall q, k | q in t2 && 0 < k < |q| ensures q[..k] in t2 && t2[q[..k]].kind.Directory? {
      assert q[..k] == p ==> Under(q, p);
      if q == p { PrefixesOfNew(t, p, k); }
    }
  }

  lemma CreatedCalm(start: Tree, low: Ino, s: State, p: Path, kind: Kind)
    requires Calm(start, low, s) && s.phase == Active && p != [] && p !in s.tree && HasParent(s.tree, p)
    ensures Calm(start, low, Created(s, p, kind))
  {
    var s2 := Created(s, p, kind);
    NothingBelowNew(s.tree, p);
    NewIsWellFormed(s.tree, p, s2.tree[p]);
    forall q | q in s2.tree ensures q in start || HasClaim(s2.ledger, q) {
      if q == p {
        assert s2.ledger[|s.ledger|].path == p;
      } else if q !in start {
        assert HasClaim(s.ledger, q);
        var i :| 0 <= i < |s.ledger| && s.ledger[i].path == q;
        assert s2.ledger[i].path == q;
      }
    }
    forall i | 0 <= i < |s2.ledger| ensures EntryOk(start, s2.tree, s2.ledger[i]) {
      if i < |s.ledger| { assert EntryOk(start, s.tree, s.ledger[i]); }
    }
    forall i, j | 0 <= i < j < |s2.ledger|
      ensures s2.ledger[i].path != s2.ledger[j].path && !Under(s2.ledger[i].path, s2.ledger[j].path)
    {
      assert EntryOk(start, s.tree, s.ledger[i]);
    }
  }

  /** Writing the bytes of an object that was not there at the start. */
  lemma WrittenClaimed(start: Tree, ledger: seq<Entry>, t: Tree, ino: Ino, bytes: Bytes)
    requires Claimed(start, ledger, t) && WellFormed(t) && forall p :: p in start ==> start[p].ino != ino
    ensures Claimed(start, ledger, Written(t, ino, bytes)) && WellFormed(Written(t, ino, bytes))
  {
    var t2 := Written(t, ino, bytes);
    forall i | 0 <= i < |ledger| ensures EntryOk(start, t2, ledger[i]) {
      assert EntryOk(start, t, ledger[i]);
    }
  }

  /** The two records claim the same object, and the second is proven right if at all. */
  predicate SameClaim(a: Entry, b: Entry) {
    && b.path == a.path && b.kind == a.kind && b.created == a.created
    && (b.proof.Proven? ==> b.proof == Proven(b.created, b.kind))
  }

  lemma RecordClaimed(start: Tree, ledger: seq<Entry>, t: Tree, i: nat, e: Entry)
    requires Claimed(start, ledger, t) && i < |ledger| && SameClaim(ledger[i], e)
    ensures Claimed(start, ledger[i := e], t)
  {
    var ledger2 := ledger[i := e];
    forall q | q in t ensures q in start || HasClaim(ledger2, q) {
      if q !in start {
        assert HasClaim(ledger, q);
        var j :| 0 <= j < |ledger| && ledger[j].path == q;
        assert ledger2[j].path == q;
      }
    }
    forall j | 0 <= j < |ledger2| ensures EntryOk(start, t, ledger2[j]) {
      assert EntryOk(start, t, ledger[j]);
    }
  }

  lemma RemovedTopDown(ledger: seq<Entry>, i: nat)
    requires TopDown(ledger) && i < |ledger|
    ensures TopDown(RemovedAt(ledger, i))
    ensures forall j :: 0 <= j < |ledger| && j != i ==> HasClaim(RemovedAt(ledger, i), ledger[j].path)
    ensures forall e :: e in RemovedAt(ledger, i) ==> e in ledger && e.path != ledger[i].path
  {
    var rest := RemovedAt(ledger, i);
    forall j, l | 0 <= j < l < |rest| ensures rest[j].path != rest[l].path && !Under(rest[j].path, rest[l].path) {
      assert rest[j] == ledger[if j < i then j else j + 1] && rest[l] == ledger[if l < i then l else l + 1];
    }
    forall j | 0 <= j < |ledger| && j != i ensures HasClaim(rest, ledger[j].path) {
      assert rest[if j < i then j else j - 1] == ledger[j];
    }
    forall e | e in rest ensures e in ledger && e.path != ledger[i].path {
      var j :| 0 <= j < |rest| && rest[j] == e;
      assert e == ledger[if j < i then j else j + 1];
    }
  }

  lemma MarkerCalm(start: Tree, ledger: seq<Entry>, t: Tree, i: nat)
    requires Claimed(start, ledger, t) && WellFormed(t) && i < |ledger| && ledger[i].kind.File?
    ensures WellFormed(t - {ledger[i].path})
    ensures Claimed(start, RemovedAt(ledger, i), t - {ledger[i].path})
  {
    var p := ledger[i].path;
    var t2, rest := t - {p}, RemovedAt(ledger, i);
    RemovedTopDown(ledger, i);
    assert EntryOk(start, t, ledger[i]);
    forall q | q in t2 ensures q in start || HasClaim(rest, q) {
      if q !in start { assert HasClaim(ledger, q); }
    }
    forall j | 0 <= j < |rest| ensures EntryOk(start, t2, rest[j]) {
      assert rest[j] in rest && rest[j] in ledger;
      assert EntryOk(start, t, rest[j]);
    }
  }

  // ----- undoing

  lemma NothingBelowLast(start: Tree, todo: seq<Entry>, t: Tree)
    requires Claimed(start, todo, t) && WellFormed(start) && todo != []
    ensures EmptyDir(t, todo[|todo| - 1].path)
  {
    var e := todo[|todo| - 1];
    assert EntryOk(start, t, e);
    forall q | q in t ensures !Under(q, e.path) {
      UnderMeans(q, e.path);
      assert q in start && |e.path| < |q| ==> q[..|e.path|] in start;
      if q !in start { assert HasClaim(todo, q); }
    }
  }

  lemma LastIsRemovable(start: Tree, todo: seq<Entry>, t: Tree)
    requires Claimed(start, todo, t) && WellFormed(start) && todo != []
    ensures var e := todo[|todo| - 1]; e.proof.Proven? && e.kind != Other ==> Removable(t, e)
  {
    NothingBelowLast(start, todo, t);
    assert EntryOk(start, t, todo[|todo| - 1]);
  }

  lemma UndoCovered(start: Tree, todo: seq<Entry>, t: Tree)
    requires Covered(start, todo, t) && todo != []
    ensures Covered(start, todo[..|todo| - 1], t - {todo[|todo| - 1].path})
  {
    var n := |todo| - 1;
    forall q | q in t - {todo[n].path} ensures q in start || HasClaim(todo[..n], q) {
      if q !in start {
        assert HasClaim(todo, q);
        var i :| 0 <= i < |todo| && todo[i].path == q;
        assert todo[..n][i].path == q;
      }
    }
  }

  lemma UndoEntries(start: Tree, todo: seq<Entry>, t: Tree)
    requires EntriesOk(start, todo, t) && TopDown(todo) && todo != []
    ensures EntriesOk(start, todo[..|todo| - 1], t - {todo[|todo| - 1].path})
    ensures TopDown(todo[..|todo| - 1])
  {
    var n := |todo| - 1;
    forall i | 0 <= i < n ensures EntryOk(start, t - {todo[n].path}, todo[..n][i]) {
      assert EntryOk(start, t, todo[i]) && todo[i].path != todo[n].path;
    }
  }

  /** Removing the newest claim leaves the tree of the older ones. */
  lemma UndoClaimed(start: Tree, todo: seq<Entry>, t: Tree)
    requires Claimed(start, todo, t) && todo != []
    ensures Claimed(start, todo[..|todo| - 1], t - {todo[|todo| - 1].path})
  {
    assert EntryOk(start, t, todo[|todo| - 1]);
    UndoCovered(start, todo, t);
    UndoEntries(start, todo, t);
  }

  function Undos(k: nat): seq<Action> {
    seq(k, _ => UndoLast(false))
  }

  /** The system calls of a rollback of `k` claims. */
  function RollbackScript(k: nat): seq<Action> {
    [BeginRollback(false)] + Undos(k) + [EndRollback]
  }

  lemma NothingLeft(start: Tree, t: Tree)
    requires Claimed(start, [], t)
    ensures t == start
  {
    forall p | p in t ensures p in start { assert p in start || HasClaim([], p); }
  }

  /** Every claim is proven, and is a file's or a directory's. */
  predicate Undoable(todo: seq<Entry>) {
    forall i :: 0 <= i < |todo| ==> todo[i].proof.Proven? && todo[i].kind != Other
  }

  lemma UndoStep(start: Tree, s: State, n: Names, todo: seq<Entry>)
    requires s.phase == RollingBack(todo, false) && WellFormed(start) && todo != []
    requires Claimed(start, todo, s.tree) && Undoable(todo)
    ensures var rest, s2 := todo[..|todo| - 1], Next(s, n, UndoLast(false));
            s2.phase == RollingBack(rest, false) && Claimed(start, rest, s2.tree) && Undoable(rest)
  {
    LastIsRemovable(start, todo, s.tree);
    UndoClaimed(start, todo, s.tree);
  }

  lemma RunUndo(s: State, n: Names, k: nat)
    ensures Run(s, n, Undos(k + 1)) == Run(Next(s, n, UndoLast(false)), n, Undos(k))
  {
    assert Undos(k + 1)[1..] == Undos(k);
  }

  lemma {:induction false} UndosRestore(start: Tree, s: State, n: Names, todo: seq<Entry>)
    requires s.phase == RollingBack(todo, false) && WellFormed(start)
    requires Claimed(start, todo, s.tree) && Undoable(todo)
    ensures Run(s, n, Undos(|todo|)).phase == RollingBack([], false)
    ensures Run(s, n, Undos(|todo|)).tree == start
    decreases |todo|
  {
    if todo == [] {
      NothingLeft(start, s.tree);
    } else {
      UndoStep(start, s, n, todo);
      RunUndo(s, n, |todo| - 1);
      UndosRestore(start, Next(s, n, UndoLast(false)), n, todo[..|todo| - 1]);
    }
  }

  // ----- runs without foreign changes

  lemma ProveCalm(start: Tree, low: Ino, s: State, e: Entry)
    requires Calm(start, low, s) && s.phase == Active && s.ledger != [] && SameClaim(Last(s), e)
    ensures Calm(start, low, WithLast(s, e))
  {
    RecordClaimed(start, s.ledger, s.tree, |s.ledger| - 1, e);
  }

  lemma WrittenCalm(start: Tree, low: Ino, s: State, i: nat, bytes: Bytes)
    requires Calm(start, low, s) && s.phase == Active && i < |s.ledger|
    ensures Calm(start, low, s.(tree := Written(s.tree, s.ledger[i].created, bytes)))
  {
    WrittenClaimed(start, s.ledger, s.tree, s.ledger[i].created, bytes);
  }

  lemma WrittenRecordCalm(start: Tree, low: Ino, s: State, bytes: Bytes, e: Entry)
    requires Calm(start, low, s) && s.phase == Active && s.ledger != [] && SameClaim(Last(s), e)
    ensures Calm(start, low, WithLast(s, e).(tree := Written(s.tree, Last(s).created, bytes)))
  {
    WrittenCalm(start, low, s, |s.ledger| - 1, bytes);
    ProveCalm(start, low, s.(tree := Written(s.tree, Last(s).created, bytes)), e);
  }

  lemma WriteCalm(start: Tree, low: Ino, s: State, bytes: Bytes, partial: Option<Bytes>)
    requires Calm(start, low, s) && s.phase == Active && s.ledger != []
    ensures Calm(start, low, OnWrite(s, bytes, partial))
  {
    var e := Last(s);
    assert SameClaim(e, e.(open := false)) && SameClaim(e, e.(expected := Some(bytes))) by {
      assert EntryOk(start, s.tree, e);
    }
    match partial
    case Some(b) => WrittenRecordCalm(start, low, s, b, e.(open := false));
    case None =>
      WrittenRecordCalm(start, low, s, bytes, e.(open := false));
      WrittenRecordCalm(start, low, s, bytes, e.(expected := Some(bytes)));
  }

  lemma PinRecordCalm(start: Tree, low: Ino, s: State, i: nat, bytes: Bytes)
    requires Calm(start, low, s) && s.phase == Active && i < |s.ledger|
    ensures Calm(start, low, s.(ledger := s.ledger[i := s.ledger[i].(expected := Some(bytes))], phase := PinPublished))
  {
    var e := s.ledger[i];
    assert EntryOk(start, s.tree, e);
    RecordClaimed(start, s.ledger, s.tree, i, e.(expected := Some(bytes)));
  }

  lemma PinCalm(start: Tree, low: Ino, s: State, n: Names, i: nat, bytes: Bytes, partial: Option<Bytes>)
    requires Calm(start, low, s) && s.phase == Active && i < |s.ledger|
    ensures Calm(start, low, PublishedPin(s, n, i, bytes, partial))
  {
    WrittenCalm(start, low, s, i, if partial.Some? then partial.value else bytes);
    PinRecordCalm(start, low, s.(tree := PublishedPin(s, n, i, bytes, partial).tree), i, bytes);
  }

  lemma UndoneCalm(start: Tree, low: Ino, s: State, fails: bool)
    requires Calm(start, low, s) && s.phase.RollingBack? && s.phase.todo != []
    ensures Calm(start, low, Undone(s, s.phase.todo, s.phase.errors, fails))
  {
    var e := s.phase.todo[|s.phase.todo| - 1];
    if !fails && Removable(s.tree, e) {
      var t := s.tree - {e.path};
      forall q, k | q in t && 0 < k < |q| ensures q[..k] in t && t[q[..k]].kind.Directory? {
        assert q[..k] in s.tree && s.tree[q[..k]].kind.Directory?;
        assert q[..k] == e.path ==> Under(q, e.path);
      }
    }
  }

  lemma LastStepCalm(start: Tree, low: Ino, s: State, n: Names, a: Action)
    requires Calm(start, low, s) && (a.ProveDirectory? || a.ProveFile? || a.CloseFile?)
    ensures Calm(start, low, Next(s, n, a))
  {
    var s2 := Next(s, n, a);
    if s2 != s {
      assert EntryOk(start, s.tree, Last(s));
      ProveCalm(start, low, s, Last(s2));
    }
  }

  lemma MarkerStepCalm(start: Tree, low: Ino, s: State, n: Names, fails: bool)
    requires Calm(start, low, s)
    ensures Calm(start, low, Next(s, n, RemoveMarker(fails)))
  {
    if Next(s, n, RemoveMarker(fails)) != s {
      var i := Find(s.ledger, MarkerPath(n)).value;
      assert EntryOk(start, s.tree, s.ledger[i]);
      MarkerCalm(start, s.ledger, s.tree, i);
    }
  }

  lemma NextCalm(start: Tree, low: Ino, s: State, n: Names, a: Action)
    requires Calm(start, low, s) && !a.Foreign?
    ensures Calm(start, low, Next(s, n, a))
  {
    var s2 := Next(s, n, a);
    if s2 == s { return; }
    match a
    case Mkdir(p, _) => CreatedCalm(start, low, s, p, Directory);
    case OpenFile(p, _) => CreatedCalm(start, low, s, p, File);
    case WriteFile(bytes, partial) => WriteCalm(start, low, s, bytes, partial);
    case RemoveMarker(fails) => MarkerStepCalm(start, low, s, n, fails);
    case PublishPin(bytes, partial) => PinCalm(start, low, s, n, Find(s.ledger, PinPath(n)).value, bytes, partial);
    case UndoLast(fails) => UndoneCalm(start, low, s, fails);
    case ProveDirectory(_) => LastStepCalm(start, low, s, n, a);
    case ProveFile(_) => LastStepCalm(start, low, s, n, a);
    case CloseFile => LastStepCalm(start, low, s, n, a);
    case _ =>
  }

  lemma {:induction false} RunCalm(start: Tree, low: Ino, s: State, n: Names, actions: seq<Action>)
    requires Calm(start, low, s) && NoForeign(actions)
    ensures Calm(start, low, Run(s, n, actions))
    decreases |actions|
  {
    if actions != [] {
      NextCalm(start, low, s, n, actions[0]);
      RunCalm(start, low, Next(s, n, actions[0]), n, actions[1..]);
    }
  }

  /** A claim that was never proven is preserved, and the rollback says so. */
  lemma {:induction false} UndosIncomplete(s: State, n: Names)
    requires s.phase.RollingBack? && (s.phase.errors || !AllProven(s.phase.todo))
    ensures Run(s, n, Undos(|s.phase.todo|)).phase == RollingBack([], true)
    decreases |s.phase.todo|
  {
    var todo := s.phase.todo;
    if todo != [] {
      UndosIncomplete(Next(s, n, UndoLast(false)), n);
      assert Undos(|todo|)[1..] == Undos(|todo| - 1);
    }
  }

  lemma RollbackRun(s: State, n: Names)
    ensures Run(s, n, RollbackScript(|s.ledger|))
            == Next(Run(Next(s, n, BeginRollback(false)), n, Undos(|s.ledger|)), n, EndRollback)
  {
    RunSplit(s, n, [BeginRollback(false)] + Undos(|s.ledger|), [EndRollback]);
    RunSplit(s, n, [BeginRollback(false)], Undos(|s.ledger|));
    assert [BeginRollback(false)][1..] == [] && [EndRollback][1..] == [];
  }

  /** After any run of the lease without foreign changes, failed creations and failed writes
      included, rollback ends in `RolledBack` exactly when every claim was proven, and the tree is
      then exactly what it was before. */
  lemma RollbackRestores(tree: Tree, next: Ino, n: Names, actions: seq<Action>)
    requires WellFormed(tree) && Fresh(tree, next) && NoForeign(actions)
    requires var s := Run(Start(tree, next), n, actions); s.phase == Active || s.phase == PinPublished
    ensures var s := Run(Start(tree, next), n, actions);
            var done := Run(s, n, RollbackScript(|s.ledger|));
            && (AllProven(s.ledger) ==> done.phase == RolledBack && done.tree == tree)
            && (!AllProven(s.ledger) ==> done.phase == RollbackIncomplete)
  {
    var s := Run(Start(tree, next), n, actions);
    RunCalm(tree, next, Start(tree, next), n, actions);
    KindsCalm(tree, next, n, actions);
    var begun := Next(s, n, BeginRollback(false));
    RollbackRun(s, n);
    if AllProven(s.ledger) {
      UndosRestore(tree, begun, n, s.ledger);
    } else {
      UndosIncomplete(begun, n);
    }
  }

  ghost predicate OwnKinds(ledger: seq<Entry>) {
    forall i :: 0 <= i < |ledger| ==> ledger[i].kind != Other
  }

  lemma KindsNext(s: State, n: Names, a: Action)
    requires OwnKinds(s.ledger)
    ensures OwnKinds(Next(s, n, a).ledger)
  {
    match a
    case RemoveMarker(_) =>
    case PublishPin(_, _) =>
    case WriteFile(_, _) =>
    case _ =>
  }

  /** The lease makes only files and directories. */
  lemma {:induction false} KindsRun(s: State, n: Names, actions: seq<Action>)
    requires OwnKinds(s.ledger)
    ensures OwnKinds(Run(s, n, actions).ledger)
    decreases |actions|
  {
    if actions != [] {
      KindsNext(s, n, actions[0]);
      KindsRun(Next(s, n, actions[0]), n, actions[1..]);
    }
  }

  lemma KindsCalm(tree: Tree, next: Ino, n: Names, actions: seq<Action>)
    ensures var s := Run(Start(tree, next), n, actions);
            forall i :: 0 <= i < |s.ledger| ==> s.ledger[i].kind != Other
  {
    KindsRun(Start(tree, next), n, actions);
  }

  // ----- what is removed, and where

  /** The claim's path leads to the very object it was proven for, and to a file by its only link. */
  predicate InPlace(t: Tree, e: Entry) {
    && e.path in t && e.proof == Proven(t[e.path].ino, t[e.path].kind)
    && (t[e.path].kind == File ==> t[e.path].nlink == 1)
  }

  ghost predicate AllInPlace(s: State) {
    forall e :: e in s.ledger ==> InPlace(s.tree, e)
  }

  lemma RevalidatedMeans(s: State)
    ensures Revalidated(s) <==> AllInPlace(s)
  {
    if Revalidated(s) {
      forall e | e in s.ledger ensures InPlace(s.tree, e) {
        var i :| 0 <= i < |s.ledger| && s.ledger[i] == e;
        assert Owned(s.tree, s.ledger[i]);
      }
    }
    if AllInPlace(s) {
      forall i | 0 <= i < |s.ledger| ensures Owned(s.tree, s.ledger[i]) {
        assert s.ledger[i] in s.ledger && InPlace(s.tree, s.ledger[i]);
      }
    }
  }

  /** The claim next in line for removal. */
  predicate NextInLine(s: State, e: Entry) {
    s.phase.RollingBack? && s.phase.todo != [] && e == s.phase.todo[|s.phase.todo| - 1]
  }

  /** No step of the lease removes anything but the object of one claim, from the path of that claim, where it
      still is: in a rollback the newest claim left, and then only a file or an empty directory; before, only the
      marker, and only while every claim is in place. */
  lemma OnlyProvenIsRemoved(s: State, n: Names, a: Action, p: Path)
    requires !a.Foreign? && p in s.tree && p !in Next(s, n, a).tree
    ensures Next(s, n, a).tree == s.tree - {p}
    ensures exists e: Entry :: && e.path == p && InPlace(s.tree, e)
                        && ((&& a == UndoLast(false) && NextInLine(s, e)
                             && (s.tree[p].kind == File
                                 || (s.tree[p].kind == Directory && forall q :: q in s.tree ==> !(p < q))))
                            || (&& a == RemoveMarker(false) && s.phase == Active && s.markerHeld && AllInPlace(s)
                                && p == [n.version, n.marker] && s.tree[p].kind == File && e in s.ledger))
  {
    RevalidatedMeans(s);
    match a
    case UndoLast(_) => UndoRemoves(s, n, a, p);
    case RemoveMarker(_) => MarkerRemoves(s, n, a, p);
    case _ =>
  }

  lemma UndoRemoves(s: State, n: Names, a: Action, p: Path)
    requires a.UndoLast? && p in s.tree && p !in Next(s, n, a).tree
    ensures Next(s, n, a).tree == s.tree - {p} && s.phase.RollingBack? && s.phase.todo != []
    ensures var e := s.phase.todo[|s.phase.todo| - 1];
            && a == UndoLast(false) && NextInLine(s, e) && e.path == p && InPlace(s.tree, e)
            && (s.tree[p].kind == File || (s.tree[p].kind == Directory && forall q :: q in s.tree ==> !(p < q)))
  {
    var e := s.phase.todo[|s.phase.todo| - 1];
    assert Removable(s.tree, e);
    if s.tree[p].kind == Directory {
      forall q | q in s.tree ensures !(p < q) { assert !Under(q, p); }
    }
  }

  lemma MarkerRemoves(s: State, n: Names, a: Action, p: Path)
    requires a.RemoveMarker? && p in s.tree && p !in Next(s, n, a).tree
    ensures Next(s, n, a).tree == s.tree - {p} && Revalidated(s)
    ensures exists e: Entry :: && e.path == p && InPlace(s.tree, e) && e in s.ledger && s.tree[p].kind == File
                        && a == RemoveMarker(false) && s.phase == Active && s.markerHeld
                        && p == [n.version, n.marker]
  {
    var i := Find(s.ledger, MarkerPath(n)).value;
    var e := s.ledger[i];
    assert Owned(s.tree, e) && e in s.ledger;
    assert e.path == p && InPlace(s.tree, e);
  }

  // ----- what a rollback's end tells

  /** At step `i` a rollback met trouble: a descriptor did not close, or the newest claim left was not removed,
      because the call failed, the claim was not in place, or its directory was not empty. */
  predicate TroubleAt(s: State, n: Names, actions: seq<Action>, i: int) {
    0 <= i < |actions| && Trouble(Run(s, n, actions[..i]), actions[i])
  }

  predicate Trouble(s: State, a: Action) {
    || (a == BeginRollback(true) && (s.phase == Active || s.phase == PinPublished))
    || (&& a.UndoLast? && s.phase.RollingBack? && s.phase.todo != []
        && var e := s.phase.todo[|s.phase.todo| - 1];
           || a.fails || !InPlace(s.tree, e)
           || !(s.tree[e.path].kind == File
                || (s.tree[e.path].kind == Directory && forall q :: q in s.tree ==> !(e.path < q))))
  }

  ghost predicate Troubled(s: State, n: Names, actions: seq<Action>) {
    exists i :: TroubleAt(s, n, actions, i)
  }

  /** The phase knows whether there has been trouble. */
  predicate Knows(phase: Phase, trouble: bool) {
    match phase
    case RollingBack(_, errors) => errors == trouble
    case RolledBack => !trouble
    case RollbackIncomplete => trouble
    case _ => !trouble
  }

  lemma UndoKnows(s: State, n: Names, fails: bool, trouble: bool)
    requires Knows(s.phase, trouble) && s.phase.RollingBack? && s.phase.todo != []
    ensures Knows(Next(s, n, UndoLast(fails)).phase, trouble || Trouble(s, UndoLast(fails)))
  {
    var e := s.phase.todo[|s.phase.todo| - 1];
    assert Owned(s.tree, e) <==> InPlace(s.tree, e);
    assert EmptyDir(s.tree, e.path) <==> forall q :: q in s.tree ==> !(e.path < q) by {
      assert forall q: Path :: Under(q, e.path) <==> e.path < q;
    }
  }

  lemma NextKnows(s: State, n: Names, a: Action, trouble: bool)
    requires Knows(s.phase, trouble)
    ensures Knows(Next(s, n, a).phase, trouble || Trouble(s, a))
  {
    match a
    case UndoLast(fails) => if s.phase.RollingBack? && s.phase.todo != [] { UndoKnows(s, n, fails, trouble); }
    case _ =>
  }

  /** In every run, whatever others do: a rollback that ends as rolled back has closed every descriptor and removed
      the object of every claim it came to; it ends as incomplete exactly if it did not. */
  lemma {:induction false} RollbackVerdict(s: State, n: Names, actions: seq<Action>)
    requires s.phase == Active
    ensures Knows(Run(s, n, actions).phase, Troubled(s, n, actions))
    decreases |actions|
  {
    if actions != [] {
      var m := |actions| - 1;
      var init, a := actions[..m], actions[m];
      assert actions == init + [a];
      RunSnoc(s, n, init, a);
      RollbackVerdict(s, n, init);
      NextKnows(Run(s, n, init), n, a, Troubled(s, n, init));
      assert forall i :: 0 <= i < m ==> actions[..i] == init[..i];
      if i :| TroubleAt(s, n, init, i) { assert TroubleAt(s, n, actions, i); }
      if Trouble(Run(s, n, init), a) { assert TroubleAt(s, n, actions, m); }
      if i :| TroubleAt(s, n, actions, i) { assert i < m ==> TroubleAt(s, n, init, i); }
    }
  }

  // ----- foreign objects

  /** An object that is neither file nor directory is never removed, whoever made it. */
  predicate HonestEntry(made: set<Ino>, e: Entry) {
    e.proof.Proven? && !e.proof.kind.Other? ==> e.proof.ino in made
  }

  /** Every identity in the ledger that can be removed is that of an object the lease made. */
  ghost predicate Honest(s: State) {
    forall e :: e in s.ledger ==> HonestEntry(s.made, e)
  }

  /** At no directory claim had the new directory been replaced by somebody's file or directory before its
      identity was read. */
  predicate Faithful(s: State, n: Names, actions: seq<Action>)
    decreases |actions|
  {
    actions == [] || (FaithfulStep(s, actions[0]) && Faithful(Next(s, n, actions[0]), n, actions[1..]))
  }

  /** The step reads the identity of the directory claimed last. */
  predicate Proves(s: State, a: Action) {
    && a.ProveDirectory? && !a.fails && s.phase == Active && s.ledger != []
    && Last(s).kind.Directory? && Last(s).proof.Unproven? && Last(s).path in s.tree
  }

  predicate FaithfulStep(s: State, a: Action) {
    Proves(s, a) && !s.tree[Last(s).path].kind.Other? ==> s.tree[Last(s).path].ino in s.made
  }

  predicate DatedEntry(made: set<Ino>, next: Ino, e: Entry) {
    && e.created in made
    && (e.proof.Proven? ==> e.proof.ino < next && (e.kind.File? ==> e.proof.ino == e.created))
  }

  /** Objects and recorded identities are older than anything still to be made. */
  ghost predicate Dated(s: State) {
    && Fresh(s.tree, s.next)
    && (forall e :: e in s.ledger ==> DatedEntry(s.made, s.next, e))
    && (forall x :: x in s.made ==> x < s.next)
    && (forall x :: x in s.removed ==> x < s.next)
    && (s.phase.RollingBack? ==> forall e :: e in s.phase.todo ==> e in s.ledger)
  }

  ghost predicate Clean(s: State) {
    Honest(s) && s.removed <= s.made
  }

  lemma LastMembers(s: State, e: Entry)
    requires s.ledger != []
    ensures forall x :: x in WithLast(s, e).ledger <==> x == e || x in s.ledger[..|s.ledger| - 1]
    ensures forall x :: x in s.ledger <==> x == Last(s) || x in s.ledger[..|s.ledger| - 1]
  {
    var n := |s.ledger| - 1;
    assert WithLast(s, e).ledger == s.ledger[..n] + [e] && s.ledger == s.ledger[..n] + [Last(s)];
  }

  lemma AtMembers(ledger: seq<Entry>, i: nat, e: Entry)
    requires i < |ledger|
    ensures forall x :: x in ledger[i := e] ==> x == e || x in ledger
    ensures forall x :: x in ledger ==> x == ledger[i] || x in ledger[i := e]
    ensures forall x :: x in RemovedAt(ledger, i) ==> x in ledger
    ensures forall x :: x in ledger ==> x == ledger[i] || x in RemovedAt(ledger, i)
  {
    assert ledger[i := e] == ledger[..i] + [e] + ledger[i + 1..];
    assert ledger == ledger[..i] + [ledger[i]] + ledger[i + 1..];
  }

  lemma LastDated(s: State, e: Entry)
    requires Dated(s) && s.phase == Active && s.ledger != [] && DatedEntry(s.made, s.next, e)
    ensures Dated(WithLast(s, e))
  {
    LastMembers(s, e);
  }

  lemma WrittenDated(s: State, ino: Ino, bytes: Bytes)
    requires Dated(s)
    ensures Dated(s.(tree := Written(s.tree, ino, bytes)))
  {
  }

  lemma WriteDated(s: State, bytes: Bytes, partial: Option<Bytes>)
    requires Dated(s) && s.phase == Active && s.ledger != []
    ensures Dated(OnWrite(s, bytes, partial))
  {
    var e := Last(s);
    assert e in s.ledger;
    LastDated(s, e.(open := false));
    LastDated(s, e.(expected := Some(bytes)));
    match partial
    case Some(b) => WrittenDated(WithLast(s, e.(open := false)), e.created, b);
    case None =>
      WrittenDated(WithLast(s, e.(open := false)), e.created, bytes);
      WrittenDated(WithLast(s, e.(expected := Some(bytes))), e.created, bytes);
  }

  lemma PinDated(s: State, n: Names, i: nat, bytes: Bytes, partial: Option<Bytes>)
    requires Dated(s) && s.phase == Active && i < |s.ledger|
    ensures Dated(PublishedPin(s, n, i, bytes, partial))
  {
    var e := s.ledger[i];
    assert e in s.ledger && DatedEntry(s.made, s.next, e);
    AtMembers(s.ledger, i, e.(expected := Some(bytes)));
    WrittenDated(s, e.created, if partial.Some? then partial.value else bytes);
  }

  lemma MarkerDated(s: State, n: Names, fails: bool)
    requires Dated(s)
    ensures Dated(Next(s, n, RemoveMarker(fails)))
  {
    if Next(s, n, RemoveMarker(fails)) != s {
      var i := Find(s.ledger, MarkerPath(n)).value;
      AtMembers(s.ledger, i, s.ledger[i]);
      assert s.ledger[i] in s.ledger;
    }
  }

  lemma LastStepDated(s: State, n: Names, a: Action)
    requires Dated(s) && (a.ProveDirectory? || a.ProveFile? || a.CloseFile?)
    ensures Dated(Next(s, n, a))
  {
    var s2 := Next(s, n, a);
    if s2 != s {
      assert Last(s) in s.ledger;
      LastDated(s, Last(s2));
    }
  }

  lemma UndoDated(s: State, n: Names, a: Action)
    requires Dated(s) && a.UndoLast?
    ensures Dated(Next(s, n, a))
  {
    if s.phase.RollingBack? && s.phase.todo != [] {
      var e := s.phase.todo[|s.phase.todo| - 1];
      assert e in s.phase.todo && DatedEntry(s.made, s.next, e);
    }
  }

  lemma CreatedDated(s: State, p: Path, kind: Kind)
    requires Dated(s) && s.phase == Active
    ensures Dated(Created(s, p, kind))
  {
    var s2 := Created(s, p, kind);
    forall e | e in s2.ledger ensures DatedEntry(s2.made, s2.next, e) {
      if e in s.ledger { assert DatedEntry(s.made, s.next, e); }
    }
  }

  lemma NextDated(s: State, n: Names, a: Action)
    requires Dated(s)
    ensures Dated(Next(s, n, a))
  {
    var s2 := Next(s, n, a);
    if s2 == s { return; }
    match a
    case Mkdir(p, _) => CreatedDated(s, p, Directory);
    case OpenFile(p, _) => CreatedDated(s, p, File);
    case ProveDirectory(_) => LastStepDated(s, n, a);
    case ProveFile(_) => LastStepDated(s, n, a);
    case CloseFile => LastStepDated(s, n, a);
    case WriteFile(bytes, partial) => WriteDated(s, bytes, partial);
    case RemoveMarker(fails) => MarkerDated(s, n, fails);
    case PublishPin(bytes, partial) => PinDated(s, n, Find(s.ledger, PinPath(n)).value, bytes, partial);
    case UndoLast(_) => UndoDated(s, n, a);
    case _ =>
  }

  /** Replacing the last record: nothing changes except by what it says. */
  lemma LastClean(s: State, e: Entry)
    requires s.ledger != []
    ensures HonestEntry(s.made, Last(s)) ==>
              (Clean(WithLast(s, e)) <==> Clean(s) && HonestEntry(s.made, e))
    ensures e.proof == Last(s).proof ==> (Clean(WithLast(s, e)) <==> Clean(s))
  {
    LastMembers(s, e);
    assert e.proof == Last(s).proof ==> (HonestEntry(s.made, e) <==> HonestEntry(s.made, Last(s)));
    if Clean(WithLast(s, e)) && HonestEntry(s.made, Last(s)) {
      assert e in WithLast(s, e).ledger && HonestEntry(s.made, e);
      forall x | x in s.ledger ensures HonestEntry(s.made, x) {
        assert x != Last(s) ==> x in WithLast(s, e).ledger;
      }
    }
    if Clean(s) && HonestEntry(s.made, e) {
      forall x | x in WithLast(s, e).ledger ensures HonestEntry(s.made, x) {
        assert x != e ==> x in s.ledger;
      }
    }
  }

  lemma AtClean(s: State, i: nat, e: Entry)
    requires i < |s.ledger| && e.proof == s.ledger[i].proof
    ensures Honest(s.(ledger := s.ledger[i := e])) <==> Honest(s)
    ensures Honest(s) <==> Honest(s.(ledger := RemovedAt(s.ledger, i))) && HonestEntry(s.made, s.ledger[i])
  {
    AtMembers(s.ledger, i, e);
    assert s.ledger[i] in s.ledger && e in s.ledger[i := e] by { assert s.ledger[i := e][i] == e; }
    assert HonestEntry(s.made, e) <==> HonestEntry(s.made, s.ledger[i]);
  }

  lemma LastStepClean(s: State, n: Names, a: Action)
    requires Dated(s) && (a.ProveDirectory? || a.ProveFile? || a.WriteFile? || a.CloseFile?)
    ensures Clean(Next(s, n, a)) <==> Clean(s) && FaithfulStep(s, a)
  {
    var s2 := Next(s, n, a);
    if s2 != s {
      assert Last(s) in s.ledger && DatedEntry(s.made, s.next, Last(s));
      LastClean(s, Last(s2));
      assert s2.ledger == WithLast(s, Last(s2)).ledger;
    }
  }

  lemma MarkerClean(s: State, n: Names, a: Action)
    requires a.RemoveMarker?
    ensures Clean(Next(s, n, a)) <==> Clean(s)
  {
    var s2 := Next(s, n, a);
    if s2 != s {
      var i := Find(s.ledger, MarkerPath(n)).value;
      AtClean(s, i, s.ledger[i]);
    }
  }

  lemma PinClean(s: State, n: Names, a: Action)
    requires a.PublishPin?
    ensures Clean(Next(s, n, a)) <==> Clean(s)
  {
    var s2 := Next(s, n, a);
    if s2.ledger != s.ledger {
      var i := Find(s.ledger, PinPath(n)).value;
      AtClean(s, i, s2.ledger[i]);
      assert s2.ledger == s.ledger[i := s2.ledger[i]];
    }
  }

  lemma UndoClean(s: State, n: Names, a: Action)
    requires Dated(s) && a.UndoLast?
    ensures Clean(Next(s, n, a)) <==> Clean(s)
  {
    if s.phase.RollingBack? && s.phase.todo != [] {
      var e := s.phase.todo[|s.phase.todo| - 1];
      assert e in s.ledger;
      assert Honest(s) ==> HonestEntry(s.made, e);
    }
  }

  /** A step changes what the lease recorded or removed for the worse only at an unfaithful claim. */
  lemma NextClean(s: State, n: Names, a: Action)
    requires Dated(s)
    ensures Clean(Next(s, n, a)) <==> Clean(s) && FaithfulStep(s, a)
  {
    match a
    case ProveDirectory(_) => LastStepClean(s, n, a);
    case ProveFile(_) => LastStepClean(s, n, a);
    case WriteFile(_, _) => LastStepClean(s, n, a);
    case CloseFile => LastStepClean(s, n, a);
    case RemoveMarker(_) => MarkerClean(s, n, a);
    case PublishPin(_, _) => PinClean(s, n, a);
    case UndoLast(_) => UndoClean(s, n, a);
    case _ => CreationClean(s, n, a);
  }

  lemma CreationClean(s: State, n: Names, a: Action)
    requires Dated(s) && (a.Mkdir? || a.OpenFile? || a.Foreign? || a.Commit? || a.BeginRollback? || a.EndRollback?)
    ensures Clean(Next(s, n, a)) <==> Clean(s)
  {
    var s2 := Next(s, n, a);
    if s2.ledger != s.ledger {
      var e := s2.ledger[|s.ledger|];
      assert s2.ledger == s.ledger + [e];
      forall x | x in s.ledger ensures x in s2.ledger && (HonestEntry(s.made, x) <==> HonestEntry(s2.made, x)) {
        assert DatedEntry(s.made, s.next, x);
      }
      assert s2.removed <= s2.made <==> s.removed <= s.made by {
        forall x | x in s.removed && x in s2.made ensures x in s.made { assert x < s.next; }
      }
    }
  }

  lemma {:induction false} CleanIffFaithful(s: State, n: Names, actions: seq<Action>)
    requires Dated(s)
    ensures Clean(Run(s, n, actions)) <==> Clean(s) && Faithful(s, n, actions)
    decreases |actions|
  {
    if actions != [] {
      NextDated(s, n, actions[0]);
      NextClean(s, n, actions[0]);
      CleanIffFaithful(Next(s, n, actions[0]), n, actions[1..]);
    }
  }

  // ----- what a rollback can remove

  /** The steps of a rollback, with anything that others do in between. */
  predicate Undoing(more: seq<Action>) {
    forall i :: 0 <= i < |more| ==>
      more[i].Foreign? || more[i].BeginRollback? || more[i].UndoLast? || more[i].EndRollback?
  }

  /** Only objects that the lease made have been removed. */
  predicate OnlyOwn(s: State) {
    s.removed <= s.made
  }

  lemma {:induction false} UndoingIsFaithful(s: State, n: Names, more: seq<Action>)
    requires Undoing(more)
    ensures Faithful(s, n, more)
    decreases |more|
  {
    if more != [] { UndoingIsFaithful(Next(s, n, more[0]), n, more[1..]); }
  }

  lemma {:induction false} RunDated(s: State, n: Names, actions: seq<Action>)
    requires Dated(s)
    ensures Dated(Run(s, n, actions))
    decreases |actions|
  {
    if actions != [] {
      NextDated(s, n, actions[0]);
      RunDated(Next(s, n, actions[0]), n, actions[1..]);
    }
  }

  /** Failing removals, down to the claim at `j`. */
  lemma {:induction false} SkipAbove(s: State, n: Names, todo: seq<Entry>, j: nat, errors: bool)
    returns (more: seq<Action>)
    requires s.phase == RollingBack(todo, errors) && j < |todo|
    ensures Undoing(more)
    ensures var t := Run(s, n, more);
            t.tree == s.tree && t.made == s.made && t.phase.RollingBack? && t.phase.todo == todo[..j + 1]
    decreases |todo|
  {
    if |todo| == j + 1 {
      more := [];
      assert todo[..j + 1] == todo;
    } else {
      var rest := todo[..|todo| - 1];
      var fewer := SkipAbove(Next(s, n, UndoLast(true)), n, rest, j, true);
      more := [UndoLast(true)] + fewer;
      assert more[1..] == fewer && rest[..j + 1] == todo[..j + 1];
    }
  }

  /** With its object back in place, the claim at `j` is removed. */
  lemma UndoesAt(s: State, n: Names, e: Entry)
    requires s.phase.RollingBack? && s.phase.todo != [] && s.phase.todo[|s.phase.todo| - 1] == e
    requires e.proof.Proven? && !e.proof.kind.Other? && s.tree == map[e.path := Node(e.proof.ino, e.proof.kind, [], 1)]
    ensures e.proof.ino in Next(s, n, UndoLast(false)).removed
    ensures Next(s, n, UndoLast(false)).made == s.made
  {
    assert Removable(s.tree, e);
  }

  lemma RunTwo(s: State, n: Names, a: Action, b: Action)
    ensures Run(s, n, [a, b]) == Next(Next(s, n, a), n, b)
  {
    assert [a, b] == [] + [a] + [b];
    RunSnoc(s, n, [], a);
    RunSnoc(s, n, [] + [a], b);
  }

  /** Somebody puts back the one object that a claim names, and a rollback begins. */
  lemma PutBack(s: State, n: Names, e: Entry) returns (more: seq<Action>)
    requires Dated(s) && (s.phase == Active || s.phase == PinPublished) && e in s.ledger && e.proof.Proven?
    ensures Undoing(more)
    ensures Run(s, n, more) == s.(tree := map[e.path := Node(e.proof.ino, e.proof.kind, [], 1)],
                                  phase := RollingBack(s.ledger, false))
  {
    assert DatedEntry(s.made, s.next, e);
    var tree := map[e.path := Node(e.proof.ino, e.proof.kind, [], 1)];
    RunTwo(s, n, Foreign(tree, s.next), BeginRollback(false));
    more := [Foreign(tree, s.next), BeginRollback(false)];
  }

  lemma UndoingJoins(a: seq<Action>, b: seq<Action>)
    requires Undoing(a) && Undoing(b)
    ensures Undoing(a + b)
  {
  }

  /** A claim of somebody else's file or directory can be made to remove it. */
  lemma DishonestRemoves(s: State, n: Names, j: nat) returns (more: seq<Action>)
    requires Dated(s) && (s.phase == Active || s.phase == PinPublished)
    requires j < |s.ledger| && !HonestEntry(s.made, s.ledger[j])
    ensures Undoing(more) && !OnlyOwn(Run(s, n, more))
  {
    var e := s.ledger[j];
    var first := PutBack(s, n, e);
    var begun := Run(s, n, first);
    var second := SkipAbove(begun, n, s.ledger, j, false);
    var there := Run(begun, n, second);
    UndoesAt(there, n, e);
    RunSplit(s, n, first, second);
    UndoingJoins(first, second);
    RunSnoc(s, n, first + second, UndoLast(false));
    UndoingJoins(first + second, [UndoLast(false)]);
    more := first + second + [UndoLast(false)];
  }

  /** From a clean state, no rollback removes what the lease did not make. */
  lemma CleanUndoing(s: State, n: Names, more: seq<Action>)
    requires Dated(s) && Clean(s) && Undoing(more)
    ensures OnlyOwn(Run(s, n, more))
  {
    UndoingIsFaithful(s, n, more);
    CleanIffFaithful(s, n, more);
  }

  lemma StartDated(tree: Tree, next: Ino)
    requires Fresh(tree, next)
    ensures Dated(Start(tree, next)) && Clean(Start(tree, next))
  {
  }

  /** Under any foreign changes whatever, as long as no new directory is replaced by somebody's file or
      directory before its identity is read, the lease removes only what it made. */
  lemma FaithfulRemovesOwn(tree: Tree, next: Ino, n: Names, actions: seq<Action>)
    requires Fresh(tree, next) && Faithful(Start(tree, next), n, actions)
    ensures OnlyOwn(Run(Start(tree, next), n, actions))
  {
    StartDated(tree, next);
    CleanIffFaithful(Start(tree, next), n, actions);
  }

  /** And that condition is exact: in a lease that can be rolled back, whatever others then do, no rollback
      can remove what the lease did not make, if and only if no such replacement has happened. */
  lemma OnlyOwnObjectsRemoved(tree: Tree, next: Ino, n: Names, actions: seq<Action>)
    requires Fresh(tree, next)
    requires var s := Run(Start(tree, next), n, actions); s.phase == Active || s.phase == PinPublished
    ensures var s := Run(Start(tree, next), n, actions);
            Faithful(Start(tree, next), n, actions) <==> forall more :: Undoing(more) ==> OnlyOwn(Run(s, n, more))
  {
    var s := Run(Start(tree, next), n, actions);
    StartDated(tree, next);
    RunDated(Start(tree, next), n, actions);
    CleanIffFaithful(Start(tree, next), n, actions);
    if Clean(s) {
      forall more | Undoing(more) ensures OnlyOwn(Run(s, n, more)) { CleanUndoing(s, n, more); }
    } else if Honest(s) {
      assert Undoing([]) && !OnlyOwn(Run(s, n, []));
    } else {
      var e :| e in s.ledger && !HonestEntry(s.made, e);
      var j :| 0 <= j < |s.ledger| && s.ledger[j] == e;
      var more := DishonestRemoves(s, n, j);
    }
  }

  /** A run in which the new version root is replaced before its identity is read. */
  lemma ReplacementIsClaimed(n: Names, swapped: Tree, claim: Entry) returns (actions: seq<Action>)
    requires swapped == map[VersionRoot(n) := Node(7, Directory, [], 1)]
    requires claim == Entry(VersionRoot(n), Directory, 0, Proven(7, Directory), false, None)
    ensures var s := Run(Start(map[], 0), n, actions);
            s.tree == swapped && s.ledger == [claim] && s.made == {0} && s.phase == Active
  {
    var p, s0 := VersionRoot(n), Start(map[], 0);
    var a1 := [Mkdir(p, false)];
    var a2 := a1 + [Foreign(swapped, 8)];
    assert var s := Run(s0, n, a1); s.ledger == [claim.(proof := Unproven)] && s.next == 1 && s.made == {0} by {
      assert a1[1..] == [];
    }
    assert Run(s0, n, a2) == Run(s0, n, a1).(tree := swapped, next := 8) by { RunSnoc(s0, n, a1, Foreign(swapped, 8)); }
    RunSnoc(s0, n, a2, ProveDirectory(false));
    actions := a2 + [ProveDirectory(false)];
  }

  /** The replacement does happen to be removed: the claim takes the identity it finds. */
  lemma ReplacedDirectoryIsRemoved(n: Names)
    ensures exists actions :: var s := Run(Start(map[], 0), n, actions); !(s.removed <= s.made)
  {
    var s0, swapped := Start(map[], 0), map[VersionRoot(n) := Node(7, Directory, [], 1)];
    var claim := Entry(VersionRoot(n), Directory, 0, Proven(7, Directory), false, None);
    var before := ReplacementIsClaimed(n, swapped, claim);
    var begun := before + [BeginRollback(false)];
    RunSnoc(s0, n, before, BeginRollback(false));
    RunSnoc(s0, n, begun, UndoLast(false));
    assert Removable(swapped, claim);
    assert 7 in Run(s0, n, begun + [UndoLast(false)]).removed;
  }
}
