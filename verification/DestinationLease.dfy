/** The generator's destination lease: an undo log over a file tree with object identities.

    Each step below is one system call of the lease (an identity check and the removal it guards
    count as one), or an arbitrary change of the tree by somebody else. */
module DestinationLease {
  import opened Outcomes

  type Path = seq<string>          // relative to the parent root, never empty
  type Bytes = seq<nat>
  type Ino = nat

  datatype Kind = Directory | File | Other

  datatype Node = Node(ino: Ino, kind: Kind, bytes: Bytes, nlink: nat)

  type Tree = map<Path, Node>

  /** The identity that a ledger entry holds for its path. */
  datatype Proof = Unproven | Proven(ino: Ino, kind: Kind)

  /** `created` is the object of kind `kind` that the lease made; `open` says that its descriptor is open;
      `expected` is the content after a write that went through. */
  datatype Entry = Entry(path: Path, kind: Kind, created: Ino, proof: Proof, open: bool, expected: Option<Bytes>)

  datatype Phase =
    | Active | PinPublished | Committed
    | RollingBack(todo: seq<Entry>, errors: bool) | RolledBack | RollbackIncomplete

  /** `made` and `removed` remember which objects the lease created and took away. */
  datatype State = State(
    tree: Tree, next: Ino, ledger: seq<Entry>, markerHeld: bool, phase: Phase, made: set<Ino>, removed: set<Ino>)

  /** The names below the parent root. */
  datatype Names = Names(version: string, pin: string, marker: string)

  function VersionRoot(n: Names): Path { [n.version] }
  function MarkerPath(n: Names): Path { [n.version, n.marker] }
  function PinPath(n: Names): Path { [n.pin] }

  function Start(tree: Tree, next: Ino): State {
    State(tree, next, [], true, Active, {}, {})
  }

  // ----- checks

  /** `inspectOwned`: the object at the path is the recorded one, and a file has a single link. */
  predicate Owned(t: Tree, e: Entry) {
    && e.proof.Proven? && e.path in t
    && t[e.path].ino == e.proof.ino && t[e.path].kind == e.proof.kind
    && (e.proof.kind.File? ==> t[e.path].nlink == 1)
  }

  predicate IsFile(e: Entry) {
    e.proof.Proven? && e.proof.kind.File?
  }

  predicate Under(p: Path, q: Path) {
    q < p
  }

  predicate EmptyDir(t: Tree, p: Path) {
    forall q :: q in t ==> !Under(q, p)
  }

  predicate Revalidated(s: State) {
    forall i :: 0 <= i < |s.ledger| ==> Owned(s.tree, s.ledger[i])
  }

  /** The files below the version root. */
  function FilesBelow(t: Tree, root: Path): set<Path> {
    set p | p in t && Under(p, root) && !t[p].kind.Directory?
  }

  function LedgerFiles(ledger: seq<Entry>, root: Path): set<Path> {
    set e | e in ledger && IsFile(e) && Under(e.path, root) :: e.path
  }

  /** `verifyVersionClosure`: every claim still holds, the files below the version root are the
      claimed ones, and each has exactly the bytes recorded for it. */
  predicate Closed(s: State, n: Names) {
    && Revalidated(s)
    && FilesBelow(s.tree, VersionRoot(n)) == LedgerFiles(s.ledger, VersionRoot(n))
    && forall i :: 0 <= i < |s.ledger| && IsFile(s.ledger[i]) && Under(s.ledger[i].path, VersionRoot(n)) ==>
         s.ledger[i].expected == Some(s.tree[s.ledger[i].path].bytes)
  }

  // ----- steps

  datatype Action =
    | Foreign(tree: Tree, next: Ino)
    | Mkdir(path: Path, fails: bool)
    | ProveDirectory(fails: bool)
    | OpenFile(path: Path, fails: bool)
    | ProveFile(fails: bool)
    | WriteFile(bytes: Bytes, partial: Option<Bytes>)
    | CloseFile
    | RemoveMarker(fails: bool)
    | PublishPin(bytes: Bytes, partial: Option<Bytes>)
    | Commit
    | BeginRollback(closeFails: bool)
    | UndoLast(fails: bool)
    | EndRollback

  predicate HasParent(t: Tree, p: Path) {
    |p| == 1 || (|p| > 1 && p[..|p| - 1] in t && t[p[..|p| - 1]].kind.Directory?)
  }

  function Last(s: State): Entry
    requires s.ledger != []
  {
    s.ledger[|s.ledger| - 1]
  }

  function WithLast(s: State, e: Entry): State
    requires s.ledger != []
  {
    s.(ledger := s.ledger[|s.ledger| - 1 := e])
  }

  /** An exclusive creation: the new object and its claim, whose identity is still to be proven. */
  function Created(s: State, p: Path, kind: Kind): State {
    s.(tree := s.tree[p := Node(s.next, kind, [], 1)], next := s.next + 1,
       ledger := s.ledger + [Entry(p, kind, s.next, Unproven, kind.File?, None)], made := s.made + {s.next})
  }

  /** Writing from offset zero does not truncate: what lies beyond the new bytes stays. */
  function Overwritten(before: Bytes, bytes: Bytes): Bytes {
    if |before| <= |bytes| then bytes else bytes + before[|bytes|..]
  }

  /** Writing through a descriptor reaches the object wherever it is. */
  function Written(t: Tree, ino: Ino, bytes: Bytes): Tree {
    map p | p in t :: if t[p].ino == ino then t[p].(bytes := Overwritten(t[p].bytes, bytes)) else t[p]
  }

  predicate Fresh(t: Tree, next: Ino) {
    forall p :: p in t ==> t[p].ino < next
  }

  /** The claim of a path in the ledger. */
  function Find(ledger: seq<Entry>, p: Path): (r: Option<nat>)
    ensures r.Some? ==> r.value < |ledger| && ledger[r.value].path == p
    ensures r.None? ==> forall i :: 0 <= i < |ledger| ==> ledger[i].path != p
  {
    if ledger == [] then None
    else if ledger[0].path == p then Some(0)
    else match Find(ledger[1..], p)
         case Some(i) => Some(i + 1)
         case None => None
  }

  function RemovedAt(ledger: seq<Entry>, i: nat): seq<Entry>
    requires i < |ledger|
  {
    ledger[..i] + ledger[i + 1..]
  }

  /** The recorded object is still there, and can be unlinked or is an empty directory. */
  predicate Removable(t: Tree, e: Entry) {
    Owned(t, e) && (e.proof.kind.File? || (e.proof.kind.Directory? && EmptyDir(t, e.path)))
  }

  function Undone(s: State, todo: seq<Entry>, errors: bool, fails: bool): State
    requires todo != []
  {
    var e, rest := todo[|todo| - 1], todo[..|todo| - 1];
    if fails || !Removable(s.tree, e)
    then s.(phase := RollingBack(rest, true))
    else s.(tree := s.tree - {e.path}, phase := RollingBack(rest, errors), removed := s.removed + {e.proof.ino})
  }

  /** Writing a claimed file: the content is recorded only if the write went through and the
      path still leads to the file; otherwise the descriptor is closed and nothing is recorded. */
  function OnWrite(s: State, bytes: Bytes, partial: Option<Bytes>): State
    requires s.ledger != []
  {
    match partial
    case Some(b) => WithLast(s, Last(s).(open := false)).(tree := Written(s.tree, Last(s).created, b))
    case None =>
      var t := Written(s.tree, Last(s).created, bytes);
      if Owned(t, Last(s)) then WithLast(s, Last(s).(expected := Some(bytes))).(tree := t)
      else WithLast(s, Last(s).(open := false)).(tree := t)
  }

  function PublishedPin(s: State, n: Names, i: nat, bytes: Bytes, partial: Option<Bytes>): State
    requires i < |s.ledger|
  {
    var e := s.ledger[i];
    match partial
    case Some(b) => s.(tree := Written(s.tree, e.created, b))
    case None =>
      var t := Written(s.tree, e.created, bytes);
      if Owned(t, e) then s.(tree := t, ledger := s.ledger[i := e.(expected := Some(bytes))], phase := PinPublished)
      else s.(tree := t)
  }

  /** One step; an action that is not possible changes nothing. */
  function Next(s: State, n: Names, a: Action): State {
    match a
    case Foreign(tree, next) => if next >= s.next && Fresh(tree, next) then s.(tree := tree, next := next) else s
    case Mkdir(p, fails) =>
      if s.phase != Active || p == [] || fails || p in s.tree || !HasParent(s.tree, p) then s
      else Created(s, p, Directory)
    case ProveDirectory(fails) =>
      if s.phase != Active || s.ledger == [] || !Last(s).kind.Directory? || !Last(s).proof.Unproven? || fails
         || Last(s).path !in s.tree then s
      else var found := s.tree[Last(s).path];
           WithLast(s, Last(s).(proof := Proven(found.ino, found.kind)))
    case OpenFile(p, fails) =>
      if s.phase != Active || p == [] || fails || p in s.tree || !HasParent(s.tree, p) then s
      else Created(s, p, File)
    case ProveFile(fails) =>
      if s.phase != Active || s.ledger == [] || !Last(s).kind.File? || !Last(s).open || fails then s
      else WithLast(s, Last(s).(proof := Proven(Last(s).created, File)))
    case WriteFile(bytes, partial) =>
      if s.phase != Active || s.ledger == [] || !Last(s).open then s else OnWrite(s, bytes, partial)
    case CloseFile =>
      if s.phase != Active || s.ledger == [] || !Last(s).open then s else WithLast(s, Last(s).(open := false))
    case RemoveMarker(fails) =>
      (match Find(s.ledger, MarkerPath(n))
       case None => s
       case Some(i) =>
         if s.phase != Active || !s.markerHeld || fails || !Revalidated(s) || !IsFile(s.ledger[i]) then s
         else s.(tree := s.tree - {MarkerPath(n)}, ledger := RemovedAt(s.ledger, i), markerHeld := false,
                 removed := s.removed + {s.ledger[i].proof.ino}))
    case PublishPin(bytes, partial) =>
      (match Find(s.ledger, PinPath(n))
       case None => s
       case Some(i) =>
         if s.phase != Active || s.markerHeld || !Closed(s, n) then s
         else PublishedPin(s, n, i, bytes, partial))
    case Commit =>
      (match Find(s.ledger, PinPath(n))
       case None => s
       case Some(i) =>
         if s.phase != PinPublished || !Closed(s, n) || s.ledger[i].expected != Some(s.tree[PinPath(n)].bytes)
         then s else s.(phase := Committed))
    case BeginRollback(closeFails) =>
      if s.phase == Active || s.phase == PinPublished then s.(phase := RollingBack(s.ledger, closeFails)) else s
    case UndoLast(fails) =>
      if s.phase.RollingBack? && s.phase.todo != [] then Undone(s, s.phase.todo, s.phase.errors, fails) else s
    case EndRollback =>
      if s.phase.RollingBack? && s.phase.todo == []
      then s.(phase := if s.phase.errors then RollbackIncomplete else RolledBack) else s
  }

  function Run(s: State, n: Names, actions: seq<Action>): State
    decreases |actions|
  {
    if actions == [] then s else Run(Next(s, n, actions[0]), n, actions[1..])
  }

  lemma {:induction false} RunSplit(s: State, n: Names, a: seq<Action>, b: seq<Action>)
    ensures Run(s, n, a + b) == Run(Run(s, n, a), n, b)
    decreases |a|
  {
    if a == [] {
      assert a + b == b;
    } else {
      assert (a + b)[1..] == a[1..] + b;
      RunSplit(Next(s, n, a[0]), n, a[1..], b);
    }
  }

  lemma RunSnoc(s: State, n: Names, actions: seq<Action>, a: Action)
    ensures Run(s, n, actions + [a]) == Next(Run(s, n, actions), n, a)
  {
    RunSplit(s, n, actions, [a]);
    assert [a][1..] == [];
  }
}
