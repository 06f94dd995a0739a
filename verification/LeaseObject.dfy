/** The lease as the program runs it: one object whose ledger is pushed and spliced, with the file
    tree around it. Every change it makes is a step of `DestinationLease`, recorded in a ghost trace,
    so all that is proved of runs holds of the object. */
module LeaseObject {
  import opened Outcomes
  import opened DestinationLease
  import opened LeaseTheorems
  import opened LeasePublication

  /** What happens around one system call: somebody may change the tree just before it, and the
      call may fail, a write after having written `partial`. */
  datatype Event = Event(foreign: Option<(Tree, Ino)>, fails: bool, partial: Bytes)

  predicate Quiet(events: seq<Event>) {
    forall i :: 0 <= i < |events| ==> events[i].foreign.None? && !events[i].fails
  }

  class Lease {
    const names: Names
    var tree: Tree
    var next: Ino
    var ledger: seq<Entry>
    var markerHeld: bool
    var phase: Phase
    var events: seq<Event>

    ghost const start: State
    ghost var made: set<Ino>
    ghost var removed: set<Ino>
    ghost var trace: seq<Action>

    ghost function Snapshot(): State
      reads this
    {
      State(tree, next, ledger, markerHeld, phase, made, removed)
    }

    /** The object is where the recorded steps lead. */
    ghost predicate Valid()
      reads this
    {
      && start == Start(start.tree, start.next) && Fresh(start.tree, start.next)
      && Snapshot() == Run(start, names, trace)
    }

    constructor (tree: Tree, next: Ino, names: Names, events: seq<Event>)
      requires Fresh(tree, next)
      ensures Valid() && start == Start(tree, next) && trace == []
      ensures this.names == names && this.events == events
    {
      this.names, this.tree, this.next, this.events := names, tree, next, events;
      ledger, markerHeld, phase := [], true, Active;
      start, made, removed, trace := Start(tree, next), {}, {}, [];
    }

    ghost method Record(a: Action)
      requires Snapshot() == Next(Run(start, names, trace), names, a)
      requires start == Start(start.tree, start.next) && Fresh(start.tree, start.next)
      modifies this`trace
      ensures Valid() && trace == old(trace) + [a]
      ensures old(NoForeign(trace)) && !a.Foreign? ==> NoForeign(trace)
    {
      RunSnoc(start, names, trace, a);
      trace := trace + [a];
    }

    /** The outside world moves, up to the lease's next system call. */
    method Await() returns (e: Event)
      requires Valid()
      modifies this`tree, this`next, this`events, this`trace
      ensures Valid() && old(trace) <= trace
      ensures events == if old(events) == [] then [] else old(events)[1..]
      ensures old(Quiet(events)) ==>
        Quiet(events) && e.foreign.None? && !e.fails && trace == old(trace) && tree == old(tree) && next == old(next)
    {
      if events == [] { return Event(None, false, []); }
      e := events[0];
      events := events[1..];
      if e.foreign.Some? {
        if e.foreign.value.1 >= next && Fresh(e.foreign.value.0, e.foreign.value.1) {
          tree, next := e.foreign.value.0, e.foreign.value.1;
        }
        Record(Foreign(e.foreign.value.0, e.foreign.value.1));
      }
    }

    // ----- claims

    /** Exclusive creation: the object is new, and its claim is pushed before anything else. */
    method Make(p: Path, kind: Kind) returns (ok: bool)
      requires Valid() && phase == Active && p != [] && kind != Other
      modifies this`tree, this`next, this`ledger, this`made, this`trace
      ensures Valid() && old(trace) <= trace
      ensures ok <==> old(p !in tree && HasParent(tree, p))
      ensures ok ==> ledger == old(ledger) + [Entry(p, kind, old(next), Unproven, kind.File?, None)]
      ensures ok ==> tree == old(tree)[p := Node(old(next), kind, [], 1)]
      ensures !ok ==> ledger == old(ledger) && tree == old(tree)
      ensures old(NoForeign(trace)) ==> NoForeign(trace)
    {
      if p in tree || !HasParent(tree, p) { return false; }
      tree := tree[p := Node(next, kind, [], 1)];
      ledger := ledger + [Entry(p, kind, next, Unproven, kind.File?, None)];
      made := made + {next};
      next := next + 1;
      Record(if kind.File? then OpenFile(p, false) else Mkdir(p, false));
      return true;
    }

    /** A directory claim takes the identity that it finds at its path. */
    method ProveLastDirectory()
      requires Valid() && phase == Active && ledger != [] && ledger[|ledger| - 1].path in tree
      requires ledger[|ledger| - 1].kind.Directory? && ledger[|ledger| - 1].proof.Unproven?
      modifies this`ledger, this`trace
      ensures Valid() && old(trace) <= trace
      ensures old(NoForeign(trace)) ==> NoForeign(trace)
      ensures var e := old(ledger[|ledger| - 1]);
              ledger == old(ledger)[|old(ledger)| - 1 := e.(proof := Proven(tree[e.path].ino, tree[e.path].kind))]
    {
      var found := tree[ledger[|ledger| - 1].path];
      ledger := ledger[|ledger| - 1 := ledger[|ledger| - 1].(proof := Proven(found.ino, found.kind))];
      Record(ProveDirectory(false));
    }

    /** A file claim takes its identity from the open descriptor. */
    method ProveLastFile()
      requires Valid() && phase == Active && ledger != []
      requires ledger[|ledger| - 1].kind.File? && ledger[|ledger| - 1].open
      modifies this`ledger, this`trace
      ensures Valid() && old(trace) <= trace
      ensures old(NoForeign(trace)) ==> NoForeign(trace)
      ensures var e := old(ledger[|ledger| - 1]);
              ledger == old(ledger)[|old(ledger)| - 1 := e.(proof := Proven(e.created, File))]
    {
      var e := ledger[|ledger| - 1];
      ledger := ledger[|ledger| - 1 := e.(proof := Proven(e.created, File))];
      Record(ProveFile(false));
    }

    method CloseLast()
      requires Valid() && phase == Active && ledger != []
      modifies this`ledger, this`trace
      ensures Valid() && old(trace) <= trace
      ensures old(NoForeign(trace)) ==> NoForeign(trace)
      ensures ledger == old(ledger[|ledger| - 1 := ledger[|ledger| - 1].(open := false)])
    {
      if ledger[|ledger| - 1].open {
        ledger := ledger[|ledger| - 1 := ledger[|ledger| - 1].(open := false)];
        Record(CloseFile);
      }
    }

    /** Proves the directory just made: it must be one, and still be there at a second look. */
    method ProveDirectoryClaim(p: Path) returns (ok: bool)
      requires Valid() && phase == Active && ledger != [] && ledger[|ledger| - 1].path == p
      requires ledger[|ledger| - 1].kind.Directory? && ledger[|ledger| - 1].proof.Unproven?
      modifies this`tree, this`next, this`ledger, this`trace, this`events
      ensures Valid() && old(trace) <= trace
      ensures |ledger| == |old(ledger)|
      ensures var n := |ledger| - 1; ledger == old(ledger)[n := old(ledger)[n].(proof := ledger[n].proof)]
      ensures ok ==> Owned(tree, ledger[|ledger| - 1]) && ledger[|ledger| - 1].proof.kind.Directory?
      ensures old(Quiet(events)) ==> Quiet(events) && tree == old(tree) && (old(NoForeign(trace)) ==> NoForeign(trace))
      ensures old(Quiet(events) && p in tree && tree[p].kind.Directory?) ==> ok
    {
      var e := Await();
      if e.fails || p !in tree { return false; }
      ProveLastDirectory();
      if !tree[p].kind.Directory? { return false; }
      e := Await();
      ok := !e.fails && Owned(tree, ledger[|ledger| - 1]);
    }

    method CreateDirectory(p: Path) returns (ok: bool)
      requires Valid() && phase == Active && p != []
      modifies this`tree, this`next, this`ledger, this`made, this`trace, this`events
      ensures Valid() && old(trace) <= trace
      ensures ledger == old(ledger) || GrewBy(old(ledger), ledger, p, Directory)
      ensures ok ==> ledger != old(ledger) && Owned(tree, ledger[|old(ledger)|])
                     && ledger[|old(ledger)|].proof.kind.Directory?
      ensures old(Quiet(events)) ==> Quiet(events) && (old(NoForeign(trace)) ==> NoForeign(trace))
      ensures old(Quiet(events)) ==> (ok <==> old(p !in tree && HasParent(tree, p)))
      ensures old(Quiet(events)) ==>
                if ok then Added(old(tree), tree, p, Directory) else ledger == old(ledger) && tree == old(tree)
    {
      var e := Await();
      if e.fails { return false; }
      ok := Make(p, Directory);
      if ok { ok := ProveDirectoryClaim(p); }
    }

    /** Proves the file just opened, and closes it unless it was proven and is to stay open. */
    method ProveFileClaim(keepOpen: bool) returns (ok: bool)
      requires Valid() && phase == Active && ledger != []
      requires ledger[|ledger| - 1].kind.File? && ledger[|ledger| - 1].open
      modifies this`tree, this`next, this`ledger, this`trace, this`events
      ensures Valid() && old(trace) <= trace
      ensures |ledger| == |old(ledger)|
      ensures var n, e := |ledger| - 1, old(ledger[|ledger| - 1]);
              && ledger == old(ledger)[n := e.(proof := ledger[n].proof, open := ok && keepOpen)]
              && (ledger[n].proof == e.proof || ledger[n].proof == Proven(e.created, File))
              && (ok ==> ledger[n].proof.Proven?)
      ensures old(Quiet(events)) ==> Quiet(events) && tree == old(tree) && (old(NoForeign(trace)) ==> NoForeign(trace))
      ensures old(Quiet(events) && Holds(tree, ledger[|ledger| - 1])) ==> ok
    {
      var e := Await();
      if e.fails {
        CloseLast();
        return false;
      }
      ProveLastFile();
      e := Await();
      ok := !e.fails && Owned(tree, ledger[|ledger| - 1]);
      if !ok || !keepOpen { CloseLast(); }
    }

    method CreateFile(p: Path, keepOpen: bool) returns (ok: bool)
      requires Valid() && phase == Active && p != []
      modifies this`tree, this`next, this`ledger, this`made, this`trace, this`events
      ensures Valid() && old(trace) <= trace
      ensures ledger == old(ledger) || GrewBy(old(ledger), ledger, p, File)
      ensures ledger != old(ledger) ==> ledger[|old(ledger)|].open == (ok && keepOpen)
      ensures ok ==> ledger != old(ledger) && ledger[|old(ledger)|].proof.Proven?
      ensures old(Quiet(events)) ==> Quiet(events) && (old(NoForeign(trace)) ==> NoForeign(trace))
      ensures old(Quiet(events)) ==> (ok <==> old(p !in tree && HasParent(tree, p)))
      ensures old(Quiet(events)) ==>
                if ok then Added(old(tree), tree, p, File) && Holds(tree, ledger[|old(ledger)|])
                else ledger == old(ledger) && tree == old(tree)
    {
      var e := Await();
      if e.fails { return false; }
      ok := Make(p, File);
      if !ok { return; }
      ok := ProveFileClaim(keepOpen);
    }

    /** The write itself: `partial` if it failed on the way. */
    method WriteLast(bytes: Bytes, partial: Option<Bytes>) returns (ok: bool)
      requires Valid() && phase == Active && ledger != [] && ledger[|ledger| - 1].open
      modifies this`tree, this`ledger, this`trace
      ensures Valid() && old(trace) <= trace
      ensures old(NoForeign(trace)) ==> NoForeign(trace)
      ensures old(partial.None? && Owned(tree, ledger[|ledger| - 1])) ==> ok
      ensures var e := old(ledger[|ledger| - 1]);
              && ledger == old(ledger)[|old(ledger)| - 1 :=
                                         e.(open := false, expected := if ok then Some(bytes) else e.expected)]
              && (ok ==> Owned(tree, e))
      ensures ok ==> partial.None? && tree == Written(old(tree), old(ledger[|ledger| - 1].created), bytes)
    {
      var n, e := |ledger| - 1, ledger[|ledger| - 1];
      tree := Written(tree, e.created, match partial case Some(b) => b case None => bytes);
      ok := partial.None? && Owned(tree, e);
      ledger := ledger[n := if ok then e.(expected := Some(bytes)) else e.(open := false)];
      Record(WriteFile(bytes, partial));
      CloseLast();
    }

    /** Creates a file, writes it through its descriptor and looks at it once more. */
    method WriteNew(target: Path, bytes: Bytes) returns (ok: bool)
      requires Valid() && phase == Active && target != []
      modifies this`tree, this`next, this`ledger, this`made, this`trace, this`events
      ensures Valid() && old(trace) <= trace
      ensures ledger == old(ledger) || LeftBehind(old(ledger), ledger, target)
      ensures ok ==> ledger != old(ledger) && Owned(tree, ledger[|old(ledger)|])
                     && ledger[|old(ledger)|].expected == Some(bytes)
      ensures old(Quiet(events)) ==> Quiet(events) && (old(NoForeign(trace)) ==> NoForeign(trace))
      ensures old(Quiet(events)) ==> (ok <==> old(target !in tree && HasParent(tree, target)))
      ensures old(Quiet(events)) && ok ==> target in tree && tree[target].bytes == bytes
    {
      ok := CreateFile(target, true);
      if !ok { return; }
      var e := Await();
      ok := WriteLast(bytes, if e.fails then Some(e.partial) else None);
      if !ok { return; }
      e := Await();
      ok := !e.fails && Owned(tree, ledger[|ledger| - 1]);
    }

    // ----- the operations

    /** Every claim still leads to its object. */
    method Revalidate() returns (ok: bool)
      requires Valid()
      ensures ok <==> AllInPlace(Snapshot())
      ensures ok <==> Revalidated(Snapshot())
    {
      RevalidatedMeans(Snapshot());
      var i := 0;
      while i < |ledger|
        invariant 0 <= i <= |ledger|
        invariant forall k :: 0 <= k < i ==> Owned(tree, ledger[k])
      {
        if !Owned(tree, ledger[i]) { return false; }
        i := i + 1;
      }
      return true;
    }

    /** Acquiring claims the version root, the marker and the pin; a failure rolls back. */
    method Acquire() returns (ok: bool)
      requires Valid() && phase == Active && ledger == [] && markerHeld
      modifies this
      ensures Valid()
      ensures ok ==> phase == Active && markerHeld && |ledger| == 3
                     && ledger[0].path == [names.version] && ledger[1].path == [names.version, names.marker]
                     && ledger[2].path == [names.pin] && AllProven(ledger)
      ensures !ok ==> phase == RolledBack || phase == RollbackIncomplete || (phase == Active && ledger == [])
      ensures old(Undisturbed() && trace == [] && names.version != names.pin) ==>
                && (ok <==> old([names.version] !in tree && [names.pin] !in tree))
                && (if ok then Serene() && DirectoryClaim(ledger, VersionRoot(names)) else tree == old(tree))
    {
      ghost var calm := Undisturbed() && trace == [] && names.version != names.pin;
      ghost var before := tree;
      ok := CreateDirectory(VersionRoot(names));
      if !ok && ledger == [] { return; }
      if ok {
        if calm { MarkerFits(before, tree, names); }
        ok := CreateFile(MarkerPath(names), false);
      }
      if ok { ok := CreateFile(PinPath(names), true); }
      if !ok { var _ := Rollback(); }
    }

    /** One directory below the version root: claimed already, or made now. */
    method EnsureSegment(current: Path) returns (ok: bool)
      requires Valid() && phase == Active && Under(current, VersionRoot(names))
      modifies this
      ensures Valid() && phase == Active && markerHeld == old(markerHeld) && old(ledger) <= ledger
      ensures old(trace) <= trace
      ensures forall i :: |old(ledger)| <= i < |ledger| ==> ledger[i].kind.Directory? && ledger[i].path == current
      ensures ok ==> HasClaim(ledger, current)
      ensures old(Quiet(events)) ==> Quiet(events) && (old(NoForeign(trace)) ==> NoForeign(trace))
      ensures old(Serene() && HasClaim(ledger, VersionRoot(names))
                  && OnlyDirectory(ledger, current) && HasParent(tree, current)) ==>
                ok && Serene() && DirectoryClaim(ledger, current)
    {
      if Serene() && HasClaim(ledger, VersionRoot(names)) { SegmentNow(start.tree, start.next, names, trace, current); }
      match Find(ledger, current) {
        case Some(i) =>
          ok := Owned(tree, ledger[i]);
          assert ledger[i].path == current;
        case None =>
          ok := Revalidate();
          if !ok { return; }
          ok := CreateDirectory(current);
          if ok { assert ledger[|ledger| - 1].path == current; }
      }
    }

    /** The first `k` directories of the path are claimed, and the others fit. */
    ghost predicate Along(relative: seq<string>, k: nat)
      reads this
    {
      && Serene() && k <= |relative| && DirectoriesFit(ledger, VersionRoot(names), relative)
      && DirectoryClaim(ledger, VersionRoot(names) + relative[..k])
    }

    /** One turn of the loop over the directories of a path. */
    method EnsureNext(relative: seq<string>, k: nat) returns (ok: bool)
      requires Valid() && phase == Active && k < |relative|
      modifies this
      ensures Valid() && phase == Active && markerHeld == old(markerHeld) && old(ledger) <= ledger
      ensures old(trace) <= trace
      ensures forall i :: |old(ledger)| <= i < |ledger| ==> ledger[i].kind.Directory? && |ledger[i].path| == k + 2
      ensures ok ==> HasClaim(ledger, VersionRoot(names) + relative[..k + 1])
      ensures old(Quiet(events)) ==> Quiet(events) && (old(NoForeign(trace)) ==> NoForeign(trace))
      ensures old(Along(relative, k)) ==> ok && Along(relative, k + 1)
    {
      ghost var root := VersionRoot(names);
      if Along(relative, k) { ParentNow(start.tree, start.next, names, trace, relative, k); }
      assert (root + relative[..k + 1])[..|root|] == root;
      ok := EnsureSegment(VersionRoot(names) + relative[..k + 1]);
      if old(Along(relative, k)) { StillFit(old(ledger), ledger, root, relative); }
    }

    method EnsureDirectory(relative: seq<string>) returns (ok: bool)
      requires Valid()
      modifies this
      ensures Valid() && phase == old(phase) && markerHeld == old(markerHeld) && old(ledger) <= ledger
      ensures old(trace) <= trace
      ensures forall i :: |old(ledger)| <= i < |ledger| ==>
                ledger[i].kind.Directory? && |ledger[i].path| <= 1 + |relative|
      ensures ok ==> phase == Active
      ensures ok ==> forall k :: 1 <= k <= |relative| ==> HasClaim(ledger, VersionRoot(names) + relative[..k])
      ensures old(Quiet(events)) ==> Quiet(events) && (old(NoForeign(trace)) ==> NoForeign(trace))
      ensures old(Along(relative, 0)) ==> ok && Along(relative, |relative|)
    {
      if phase != Active { return false; }
      var k := 0;
      while k < |relative|
        invariant 0 <= k <= |relative|
        invariant Valid() && phase == Active && markerHeld == old(markerHeld) && old(ledger) <= ledger
        invariant old(trace) <= trace
        invariant forall i :: |old(ledger)| <= i < |ledger| ==> ledger[i].kind.Directory? && |ledger[i].path| <= 1 + k
        invariant forall j :: 1 <= j <= k ==> HasClaim(ledger, VersionRoot(names) + relative[..j])
        invariant old(Quiet(events)) ==> Quiet(events) && (old(NoForeign(trace)) ==> NoForeign(trace))
        invariant old(Along(relative, 0)) ==> Along(relative, k)
      {
        ghost var before := ledger;
        var made := EnsureNext(relative, k);
        if !made { return false; }
        ClaimsGrow(before, ledger);
        k := k + 1;
      }
      return true;
    }

    /** The directories of a new file; left alone, they leave room for it if it fits at all. */
    method OpenFolder(relative: seq<string>) returns (ok: bool)
      requires Valid() && relative != []
      modifies this
      ensures Valid() && phase == old(phase) && markerHeld == old(markerHeld) && old(ledger) <= ledger
      ensures old(trace) <= trace
      ensures forall i :: |old(ledger)| <= i < |ledger| ==> ledger[i].kind.Directory?
      ensures ok ==> phase == Active
      ensures old(Quiet(events)) ==> Quiet(events) && (old(NoForeign(trace)) ==> NoForeign(trace))
      ensures old(Serene() && DirectoryClaim(ledger, VersionRoot(names))
                  && WriteFits(ledger, VersionRoot(names), relative)) ==>
                ok && Serene() && RoomFor(Snapshot(), VersionRoot(names) + relative)
    {
      ghost var root := VersionRoot(names);
      ghost var fits := Serene() && DirectoryClaim(ledger, root) && WriteFits(ledger, root, relative);
      if fits { FolderFits(ledger, VersionRoot(names), relative); }
      ok := EnsureDirectory(relative[..|relative| - 1]);
      if fits { RoomNow(start.tree, start.next, names, trace, old(ledger), relative); }
    }

    /** The file itself, once its directory is there. */
    method WriteBelow(relative: seq<string>, bytes: Bytes) returns (ok: bool)
      requires Valid() && phase == Active && relative != []
      modifies this`tree, this`next, this`ledger, this`made, this`trace, this`events
      ensures Valid() && old(trace) <= trace
      ensures ledger == old(ledger) || LeftBehind(old(ledger), ledger, VersionRoot(names) + relative)
      ensures (markerHeld ==> relative != [names.marker]) && ledger != old(ledger)
              && ledger[|old(ledger)|].expected.None? ==>
                Spoiled(Snapshot(), names, ledger[|old(ledger)|])
      ensures ok ==> ledger != old(ledger) && Owned(tree, ledger[|old(ledger)|])
                     && ledger[|old(ledger)|].expected == Some(bytes)
      ensures old(Quiet(events)) ==> Quiet(events) && (old(NoForeign(trace)) ==> NoForeign(trace))
      ensures old(Quiet(events)) ==> (ok <==> old(RoomFor(Snapshot(), VersionRoot(names) + relative)))
      ensures old(Quiet(events)) && ok ==>
                VersionRoot(names) + relative in tree && tree[VersionRoot(names) + relative].bytes == bytes
    {
      ok := Revalidate();
      if !ok { return; }
      ok := WriteNew(VersionRoot(names) + relative, bytes);
      if ledger != old(ledger) && (markerHeld ==> relative != [names.marker]) {
        SpoiledUnlessWritten(Snapshot(), names, old(ledger), relative);
      }
    }

    /** A file below the version root is created and written once. Success records exactly its
        bytes; a file that was created without that stays behind as one that nobody can publish.
        Left alone, a lease takes every write whose path runs through directories to a free name. */
    method WriteExclusive(relative: seq<string>, bytes: Bytes) returns (ok: bool)
      requires Valid() && relative != []
      modifies this
      ensures Valid() && phase == old(phase) && markerHeld == old(markerHeld)
      ensures old(trace) <= trace
      ensures ok ==> phase == Active && ledger != [] && Last(Snapshot()).path == [names.version] + relative
                     && Owned(tree, Last(Snapshot())) && Last(Snapshot()).expected == Some(bytes)
      ensures old(ledger) <= ledger
      ensures (markerHeld ==> relative != [names.marker]) ==>
        forall i :: |old(ledger)| <= i < |ledger| && ledger[i].kind.File? && ledger[i].expected.None? ==>
          Spoiled(Snapshot(), names, ledger[i])
      ensures old(Serene() && DirectoryClaim(ledger, VersionRoot(names))) ==>
                && (ok <==> old(WriteFits(ledger, VersionRoot(names), relative)))
                && (ok ==> Serene() && DirectoryClaim(ledger, VersionRoot(names)))
                && (ok ==> [names.version] + relative in tree && tree[[names.version] + relative].bytes == bytes)
    {
      ok := OpenFolder(relative);
      if !ok { return; }
      ok := WriteBelow(relative, bytes);
      if old(Serene() && DirectoryClaim(ledger, VersionRoot(names))) && ok {
        HadRoom(start.tree, start.next, names, trace, old(ledger), relative);
        ClaimStays(old(ledger), ledger, VersionRoot(names));
      }
    }

    /** The marker and its claim, found at `i`, disappear. */
    method DropMarker(i: nat)
      requires Valid() && phase == Active && markerHeld && Revalidated(Snapshot())
      requires Find(ledger, MarkerPath(names)) == Some(i) && IsFile(ledger[i])
      modifies this`tree, this`ledger, this`markerHeld, this`removed, this`trace
      ensures Valid() && !markerHeld && ledger == RemovedAt(old(ledger), i)
      ensures tree == old(tree) - {MarkerPath(names)}
    {
      removed := removed + {ledger[i].proof.ino};
      tree := tree - {MarkerPath(names)};
      ledger := RemovedAt(ledger, i);
      markerHeld := false;
      Record(DestinationLease.Action.RemoveMarker(false));
    }

    method RemoveMarker() returns (ok: bool)
      requires Valid()
      modifies this
      ensures Valid() && phase == old(phase)
      ensures ok ==> phase == Active && old(markerHeld) && !markerHeld && [names.version, names.marker] !in tree
      ensures old(Quiet(events)) ==> tree == if ok then old(tree) - {[names.version, names.marker]} else old(tree)
      ensures ok ==> exists i :: 0 <= i < |old(ledger)| && old(ledger)[i].path == [names.version, names.marker]
                                && ledger == RemovedAt(old(ledger), i)
      ensures !ok ==> markerHeld == old(markerHeld) && ledger == old(ledger)
      ensures old(Quiet(events)) ==>
                (ok <==> old(phase == Active && markerHeld && AllInPlace(Snapshot())
                             && FileClaimed(ledger, MarkerPath(names))))
    {
      if phase != Active || !markerHeld { return false; }
      var e := Await();
      if e.fails { return false; }
      var valid := Revalidate();
      if !valid { return false; }
      match Find(ledger, MarkerPath(names)) {
        case None => return false;
        case Some(i) =>
          if !IsFile(ledger[i]) { return false; }
          DropMarker(i);
          return true;
      }
    }

    /** The check before publication and before commit. */
    method VerifyClosure() returns (ok: bool)
      requires Valid()
      ensures ok <==> AllInPlace(Snapshot()) && ExactlyTheWritten(Snapshot(), names)
    {
      ClosedMeans(Snapshot(), names);
      ok := Revalidate();
      if !ok { return; }
      if FilesBelow(tree, VersionRoot(names)) != LedgerFiles(ledger, VersionRoot(names)) { return false; }
      var i := 0;
      while i < |ledger|
        invariant 0 <= i <= |ledger|
        invariant forall k :: 0 <= k < i && IsFile(ledger[k]) && Under(ledger[k].path, VersionRoot(names)) ==>
                    ledger[k].expected == Some(tree[ledger[k].path].bytes)
      {
        if IsFile(ledger[i]) && Under(ledger[i].path, VersionRoot(names)) {
          if ledger[i].expected != Some(tree[ledger[i].path].bytes) { return false; }
        }
        i := i + 1;
      }
    }

    method WritePin(i: nat, bytes: Bytes, partial: Option<Bytes>) returns (ok: bool)
      requires Valid() && phase == Active && !markerHeld && Closed(Snapshot(), names)
      requires Find(ledger, PinPath(names)) == Some(i)
      modifies this`tree, this`ledger, this`phase, this`trace
      ensures Valid() && phase == (if ok then PinPublished else Active)
      ensures ledger == if ok then old(ledger)[i := old(ledger)[i].(expected := Some(bytes))] else old(ledger)
      ensures ok ==> Owned(tree, old(ledger)[i])
      ensures ok <==> partial.None?
    {
      var pin := ledger[i];
      tree := Written(tree, pin.created, match partial case Some(b) => b case None => bytes);
      ok := partial.None? && Owned(tree, pin);
      if ok {
        ledger := ledger[i := pin.(expected := Some(bytes))];
        phase := PinPublished;
      }
      Record(DestinationLease.Action.PublishPin(bytes, partial));
    }

    method PublishPin(bytes: Bytes) returns (ok: bool)
      requires Valid()
      modifies this
      ensures Valid() && markerHeld == old(markerHeld)
      ensures ok ==> old(phase) == Active && phase == PinPublished && !markerHeld
      ensures ok ==> exists i :: 0 <= i < |ledger| == |old(ledger)|
                                && ledger[i].path == [names.pin] && InPlace(tree, ledger[i])
                                && ledger == old(ledger)[i := old(ledger)[i].(expected := Some(bytes))]
      ensures !ok ==> phase == old(phase) && ledger == old(ledger)
      ensures old(HasSpoiled(Snapshot(), names)) ==> !ok
      ensures old(Quiet(events)) ==>
                (ok <==> old(phase == Active && !markerHeld && AllInPlace(Snapshot())
                             && ExactlyTheWritten(Snapshot(), names)
                             && HasClaim(ledger, PinPath(names))))
    {
      if phase != Active || markerHeld { return false; }
      var e := Await();
      var closed := VerifyClosure();
      if !closed { return false; }
      ClosedMeans(Snapshot(), names);
      NotSpoiled(Snapshot(), names);
      match Find(ledger, PinPath(names)) {
        case None => return false;
        case Some(i) =>
          ok := WritePin(i, bytes, if e.fails then Some(e.partial) else None);
          assert ok ==> ledger[i].path == PinPath(names) && InPlace(tree, ledger[i]);
      }
    }

    method Commit() returns (ok: bool)
      requires Valid()
      modifies this
      ensures Valid() && ledger == old(ledger)
      ensures ok ==> old(phase) == PinPublished && phase == Committed && ExactlyTheWritten(Snapshot(), names)
      ensures ok ==> exists e :: e in ledger && ClaimsFile(Snapshot(), [names.pin], e)
      ensures !ok ==> phase == old(phase)
      ensures old(Quiet(events)) ==>
                (ok <==> old(phase == PinPublished && AllInPlace(Snapshot()) && ExactlyTheWritten(Snapshot(), names)
                             && PinAsRecorded(tree, ledger, names)))
    {
      if phase != PinPublished { return false; }
      var _ := Await();
      var closed := VerifyClosure();
      if !closed { return false; }
      ClosedMeans(Snapshot(), names);
      match Find(ledger, PinPath(names)) {
        case None => return false;
        case Some(i) =>
          if !IsFile(ledger[i]) || ledger[i].expected != Some(tree[PinPath(names)].bytes) { return false; }
          assert ClaimsFile(Snapshot(), PinPath(names), ledger[i]);
          phase := Committed;
          Record(DestinationLease.Action.Commit);
          ClosedMeans(Snapshot(), names);
          assert ClaimsFile(Snapshot(), PinPath(names), ledger[i]);
          return true;
      }
    }

    /** One turn of the rollback loop. */
    method Undo(i: nat, errors: bool, fails: bool) returns (failed: bool)
      requires Valid() && i < |ledger| && phase == RollingBack(ledger[..i + 1], errors)
      modifies this`tree, this`removed, this`phase, this`trace
      ensures Valid() && trace == old(trace) + [UndoLast(fails)]
      ensures phase == RollingBack(ledger[..i], errors || failed)
      ensures failed <==> fails || !Removable(old(tree), ledger[i])
      ensures tree == if failed then old(tree) else old(tree) - {ledger[i].path}
    {
      assert ledger[..i + 1][..i] == ledger[..i];
      failed := fails || !Removable(tree, ledger[i]);
      if !failed {
        removed := removed + {ledger[i].proof.ino};
        tree := tree - {ledger[i].path};
      }
      phase := RollingBack(ledger[..i], errors || failed);
      Record(UndoLast(fails));
    }

    /** The rollback loop, newest claim first. */
    method UndoAll(closeFailed: bool) returns (errors: bool)
      requires Valid() && phase == RollingBack(ledger, closeFailed)
      modifies this`tree, this`next, this`removed, this`phase, this`trace, this`events
      ensures Valid() && phase == RollingBack([], errors)
      ensures old(Quiet(events)) ==> trace == old(trace) + Undos(|ledger|)
    {
      ghost var quiet := Quiet(events);
      var i := |ledger|;
      errors := closeFailed;
      assert ledger[..i] == ledger;
      while i > 0
        invariant 0 <= i <= |ledger| && Valid() && phase == RollingBack(ledger[..i], errors)
        invariant quiet ==> Quiet(events) && trace == old(trace) + Undos(|ledger| - i)
      {
        i := i - 1;
        var e := Await();
        var failed := Undo(i, errors, e.fails);
        errors := errors || failed;
        assert quiet ==> Undos(|ledger| - i) == Undos(|ledger| - i - 1) + [UndoLast(false)];
      }
    }

    /** The rollback starts by closing the descriptors; a failure counts, but does not stop it. */
    method CloseAll() returns (failed: bool)
      requires Valid() && (phase == Active || phase == PinPublished)
      modifies this`tree, this`next, this`phase, this`trace, this`events
      ensures Valid() && phase == RollingBack(ledger, failed)
      ensures old(Quiet(events)) ==> !failed && Quiet(events) && trace == old(trace) + [BeginRollback(false)]
    {
      var e := Await();
      failed := e.fails;
      phase := RollingBack(ledger, failed);
      Record(BeginRollback(failed));
    }

    /** Takes the claims back, newest first. If nobody else ever changed the tree and no call of the
        rollback fails, it succeeds exactly when all claims were proven, and then leaves the tree as
        it was before the lease. */
    method Rollback() returns (ok: bool)
      requires Valid()
      modifies this
      ensures Valid()
      ensures old(phase) != Active && old(phase) != PinPublished ==> !ok && Snapshot() == old(Snapshot())
      ensures old(phase) == Active || old(phase) == PinPublished ==>
                phase == if ok then RolledBack else RollbackIncomplete
      ensures old((phase == Active || phase == PinPublished) && Undisturbed()) ==>
                (ok <==> old(AllProven(ledger))) && (ok ==> tree == start.tree)
    {
      if phase != Active && phase != PinPublished { return false; }
      var closeFailed := CloseAll();
      var errors := UndoAll(closeFailed);
      ok := !errors;
      phase := if ok then RolledBack else RollbackIncomplete;
      Record(EndRollback);
      if old(Undisturbed()) {
        assert trace == old(trace) + RollbackScript(|ledger|);
        QuietRollback(start.tree, start.next, names, old(trace));
      }
    }

    /** An active lease whose claims are all proven, left alone. */
    ghost predicate Serene()
      reads this
    {
      Undisturbed() && phase == Active && AllProven(ledger)
    }

    /** Nobody else has changed the tree, and nobody will. */
    ghost predicate Undisturbed()
      reads this
    {
      Quiet(events) && NoForeign(trace) && WellFormed(start.tree)
    }
  }

  // ----- what fits into an undisturbed lease

  predicate DirectoryClaim(ledger: seq<Entry>, p: Path) {
    exists i :: 0 <= i < |ledger| && ledger[i].path == p && ledger[i].kind.Directory?
  }

  predicate OnlyDirectory(ledger: seq<Entry>, p: Path) {
    forall i :: 0 <= i < |ledger| && ledger[i].path == p ==> ledger[i].kind.Directory?
  }

  /** The root is a claimed directory, and nothing else than directories is claimed on the way. */
  predicate DirectoriesFit(ledger: seq<Entry>, root: Path, relative: seq<string>) {
    DirectoryClaim(ledger, root) && forall k :: 1 <= k <= |relative| ==> OnlyDirectory(ledger, root + relative[..k])
  }

  /** The path of a new file runs through directories to a name that is not claimed. */
  predicate WriteFits(ledger: seq<Entry>, root: Path, relative: seq<string>) {
    && (forall k :: 1 <= k < |relative| ==> OnlyDirectory(ledger, root + relative[..k]))
    && !HasClaim(ledger, root + relative)
  }

  /** An undisturbed lease finds the starting tree and its own objects. */
  lemma SereneMeans(tree: Tree, next: Ino, n: Names, trace: seq<Action>)
    requires WellFormed(tree) && Fresh(tree, next) && NoForeign(trace)
    requires Run(Start(tree, next), n, trace).phase == Active
    ensures var s := Run(Start(tree, next), n, trace);
            && Claimed(tree, s.ledger, s.tree) && WellFormed(s.tree)
            && (AllProven(s.ledger) ==> Revalidated(s))
  {
    RunCalm(tree, next, Start(tree, next), n, trace);
    var s := Run(Start(tree, next), n, trace);
    if AllProven(s.ledger) {
      forall i | 0 <= i < |s.ledger| ensures Owned(s.tree, s.ledger[i]) {
        assert EntryOk(tree, s.tree, s.ledger[i]);
      }
    }
  }

  /** What is below a claimed directory and not claimed is not there. */
  lemma FreeBelow(start: Tree, ledger: seq<Entry>, t: Tree, root: Path, p: Path)
    requires Claimed(start, ledger, t) && WellFormed(start) && HasClaim(ledger, root) && Under(p, root)
    requires !HasClaim(ledger, p)
    ensures p !in t
  {
    var i :| 0 <= i < |ledger| && ledger[i].path == root;
    assert EntryOk(start, t, ledger[i]);
    UnderMeans(p, root);
    assert p[..|root|] == root;
  }

  lemma SegmentNow(tree: Tree, next: Ino, n: Names, trace: seq<Action>, p: Path)
    requires WellFormed(tree) && Fresh(tree, next) && NoForeign(trace) && Under(p, VersionRoot(n))
    requires var s := Run(Start(tree, next), n, trace);
             s.phase == Active && AllProven(s.ledger) && HasClaim(s.ledger, VersionRoot(n))
    ensures var s := Run(Start(tree, next), n, trace);
            Revalidated(s) && (!HasClaim(s.ledger, p) ==> p !in s.tree)
  {
    SereneMeans(tree, next, n, trace);
    var s := Run(Start(tree, next), n, trace);
    if !HasClaim(s.ledger, p) { FreeBelow(tree, s.ledger, s.tree, VersionRoot(n), p); }
  }

  lemma DirectoryThere(start: Tree, ledger: seq<Entry>, t: Tree, p: Path)
    requires EntriesOk(start, ledger, t) && DirectoryClaim(ledger, p)
    ensures p in t && t[p].kind.Directory?
  {
    var i :| 0 <= i < |ledger| && ledger[i].path == p && ledger[i].kind.Directory?;
    assert EntryOk(start, t, ledger[i]);
  }

  lemma ParentThere(start: Tree, ledger: seq<Entry>, t: Tree, root: Path, relative: seq<string>, k: nat)
    requires EntriesOk(start, ledger, t) && k < |relative| && DirectoryClaim(ledger, root + relative[..k]) && root != []
    ensures HasParent(t, root + relative[..k + 1])
  {
    var p := root + relative[..k + 1];
    assert p[..|p| - 1] == root + relative[..k];
    DirectoryThere(start, ledger, t, root + relative[..k]);
  }

  lemma ParentNow(tree: Tree, next: Ino, n: Names, trace: seq<Action>, relative: seq<string>, k: nat)
    requires WellFormed(tree) && Fresh(tree, next) && NoForeign(trace) && k < |relative|
    requires var s := Run(Start(tree, next), n, trace);
             s.phase == Active && DirectoryClaim(s.ledger, VersionRoot(n) + relative[..k])
    ensures HasParent(Run(Start(tree, next), n, trace).tree, VersionRoot(n) + relative[..k + 1])
  {
    SereneMeans(tree, next, n, trace);
    var s := Run(Start(tree, next), n, trace);
    ParentThere(tree, s.ledger, s.tree, VersionRoot(n), relative, k);
  }

  lemma StillFit(before: seq<Entry>, after: seq<Entry>, root: Path, relative: seq<string>)
    requires before <= after && DirectoriesFit(before, root, relative)
    requires forall i :: |before| <= i < |after| ==> after[i].kind.Directory?
    ensures DirectoriesFit(after, root, relative)
  {
    var i :| 0 <= i < |before| && before[i].path == root && before[i].kind.Directory?;
    assert after[i].path == root;
    forall k | 1 <= k <= |relative| ensures OnlyDirectory(after, root + relative[..k]) {
      assert OnlyDirectory(before, root + relative[..k]);
    }
  }

  lemma FolderFits(ledger: seq<Entry>, root: Path, relative: seq<string>)
    requires relative != [] && DirectoryClaim(ledger, root) && WriteFits(ledger, root, relative)
    ensures DirectoriesFit(ledger, root, relative[..|relative| - 1])
    ensures DirectoryClaim(ledger, root + relative[..|relative| - 1][..0])
  {
    var folder := relative[..|relative| - 1];
    assert root + folder[..0] == root;
    forall k | 1 <= k <= |folder| ensures OnlyDirectory(ledger, root + folder[..k]) {
      assert folder[..k] == relative[..k];
    }
  }

  lemma ClaimStays(before: seq<Entry>, after: seq<Entry>, p: Path)
    requires before <= after && DirectoryClaim(before, p)
    ensures DirectoryClaim(after, p)
  {
    var i :| 0 <= i < |before| && before[i].path == p && before[i].kind.Directory?;
    assert after[i].path == p;
  }

  /** All claims hold, and the path can be created. */
  predicate RoomFor(s: State, p: Path) {
    Revalidated(s) && p !in s.tree && HasParent(s.tree, p)
  }

  /** Once its directories are claimed, the name of the new file is free and has its parent. */
  lemma RoomNow(tree: Tree, next: Ino, n: Names, trace: seq<Action>, before: seq<Entry>, relative: seq<string>)
    requires WellFormed(tree) && Fresh(tree, next) && NoForeign(trace) && relative != []
    requires var s, root := Run(Start(tree, next), n, trace), VersionRoot(n);
             && s.phase == Active && AllProven(s.ledger)
             && before <= s.ledger && HasClaim(s.ledger, root) && WriteFits(before, root, relative)
             && (forall i :: |before| <= i < |s.ledger| ==> |s.ledger[i].path| < 1 + |relative|)
             && DirectoryClaim(s.ledger, root + relative[..|relative| - 1][..|relative| - 1])
    ensures var s, root := Run(Start(tree, next), n, trace), VersionRoot(n);
            RoomFor(s, root + relative)
  {
    SereneMeans(tree, next, n, trace);
    var s, root, m := Run(Start(tree, next), n, trace), VersionRoot(n), |relative| - 1;
    assert relative[..m][..m] == relative[..m] && relative[..m + 1] == relative;
    ParentThere(tree, s.ledger, s.tree, root, relative, m);
    assert !HasClaim(s.ledger, root + relative) by {
      assert !HasClaim(before, root + relative);
    }
    assert (root + relative)[..|root|] == root;
    FreeBelow(tree, s.ledger, s.tree, root, root + relative);
  }

  /** A file that was written had room before. */
  lemma HadRoom(tree: Tree, next: Ino, n: Names, trace: seq<Action>, before: seq<Entry>, relative: seq<string>)
    requires WellFormed(tree) && Fresh(tree, next) && NoForeign(trace) && relative != []
    requires var s := Run(Start(tree, next), n, trace);
             && s.phase == Active && before <= s.ledger && |before| < |s.ledger|
             && s.ledger[|s.ledger| - 1].path == VersionRoot(n) + relative
    ensures WriteFits(before, VersionRoot(n), relative)
  {
    SereneMeans(tree, next, n, trace);
    var s, root := Run(Start(tree, next), n, trace), VersionRoot(n);
    var p, after := root + relative, s.ledger;
    assert EntryOk(tree, s.tree, after[|after| - 1]);
    forall k | 1 <= k < |relative| ensures OnlyDirectory(before, root + relative[..k]) {
      assert p[..1 + k] == root + relative[..k];
      forall i | 0 <= i < |before| && before[i].path == root + relative[..k] ensures before[i].kind.Directory? {
        assert EntryOk(tree, s.tree, after[i]);
      }
    }
  }

  /** A file that was created and not written blocks publication. */
  lemma SpoiledUnlessWritten(s: State, n: Names, before: seq<Entry>, relative: seq<string>)
    requires LeftBehind(before, s.ledger, VersionRoot(n) + relative) && relative != []
    requires s.markerHeld ==> relative != [n.marker]
    ensures s.ledger[|before|].expected.None? ==> Spoiled(s, n, s.ledger[|before|])
  {
    var target := VersionRoot(n) + relative;
    assert target[1..] == relative && MarkerPath(n)[1..] == [n.marker];
    assert Under(target, VersionRoot(n));
  }

  /** In the new version root the marker's name is free. */
  lemma MarkerFits(before: Tree, after: Tree, n: Names)
    requires WellFormed(before) && Added(before, after, VersionRoot(n), Directory)
    ensures MarkerPath(n) !in after && HasParent(after, MarkerPath(n))
  {
    NothingBelowNew(before, VersionRoot(n));
    UnderMeans(MarkerPath(n), VersionRoot(n));
    assert MarkerPath(n)[..1] == VersionRoot(n);
  }

  /** The recorded steps of an undisturbed rollback. */
  lemma QuietRollback(tree: Tree, next: Ino, n: Names, trace: seq<Action>)
    requires WellFormed(tree) && Fresh(tree, next) && NoForeign(trace)
    requires var s := Run(Start(tree, next), n, trace); s.phase == Active || s.phase == PinPublished
    ensures var s := Run(Start(tree, next), n, trace);
            var done := Run(Start(tree, next), n, trace + RollbackScript(|s.ledger|));
            && (AllProven(s.ledger) ==> done.phase == RolledBack && done.tree == tree)
            && (!AllProven(s.ledger) ==> done.phase == RollbackIncomplete)
  {
    RollbackRestores(tree, next, n, trace);
    RunSplit(Start(tree, next), n, trace, RollbackScript(|Run(Start(tree, next), n, trace).ledger|));
  }

  /** The path's claim is a file's. */
  predicate FileClaimed(ledger: seq<Entry>, p: Path) {
    match Find(ledger, p)
    case Some(i) => IsFile(ledger[i])
    case None => false
  }

  /** The pin's claim is a file's, and the file has the recorded bytes. */
  predicate PinAsRecorded(t: Tree, ledger: seq<Entry>, n: Names) {
    match Find(ledger, PinPath(n))
    case Some(i) => IsFile(ledger[i]) && PinPath(n) in t && ledger[i].expected == Some(t[PinPath(n)].bytes)
    case None => false
  }

  /** The path of the claim leads to the very object that the lease made. */
  predicate Holds(t: Tree, e: Entry) {
    e.path in t && t[e.path].ino == e.created && t[e.path].kind == e.kind && t[e.path].nlink == 1
  }

  /** One new object of the kind, and nothing else, has appeared. */
  predicate Added(before: Tree, after: Tree, p: Path, kind: Kind) {
    && p !in before && p in after && after == before[p := after[p]]
    && after[p].kind == kind && after[p].bytes == [] && after[p].nlink == 1
  }

  /** One file claim was pushed; its descriptor is closed. */
  predicate LeftBehind(before: seq<Entry>, after: seq<Entry>, p: Path) {
    && |after| == |before| + 1 && after[..|before|] == before
    && var e := after[|before|];
       e.path == p && e.kind.File? && !e.open && (e.proof.Proven? ==> e.proof.kind.File?)
  }

  /** One claim was pushed, with nothing recorded for it yet. */
  predicate GrewBy(before: seq<Entry>, after: seq<Entry>, p: Path, kind: Kind) {
    && |after| == |before| + 1 && after[..|before|] == before
    && after[|before|].path == p && after[|before|].kind == kind && after[|before|].expected.None?
    && (kind.File? && after[|before|].proof.Proven? ==> after[|before|].proof == Proven(after[|before|].created, File))
  }

  lemma ClaimsGrow(a: seq<Entry>, b: seq<Entry>)
    requires a <= b
    ensures forall p :: HasClaim(a, p) ==> HasClaim(b, p)
  {
    forall p | HasClaim(a, p) ensures HasClaim(b, p) {
      var i :| 0 <= i < |a| && a[i].path == p;
      assert b[i].path == p;
    }
  }
}
