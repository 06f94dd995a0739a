/** What the durable claim store promises its callers, over every run. */
module DurableClaimTheorems {
  import opened Outcomes
  import opened DurableClaimStore
  import opened DurableClaimSafety

  lemma ReachableInv(actions: seq<Action>)
    ensures Inv(Run(INITIAL, actions))
  {
    InitialInv();
    RunInv(INITIAL, actions);
  }

  /** Successes are never taken back, and a call keeps its capability and authorization. */
  ghost predicate Extends(s: State, t: State) {
    && s.won <= t.won && s.done.Keys <= t.done.Keys
    && forall c :: c in s.calls ==>
         c in t.calls && t.calls[c].cap == s.calls[c].cap && t.calls[c].auth == s.calls[c].auth
  }

  lemma PublishExtends(s: State, c: CallId, job: Job, pub: Pub, io: Io, newFile: FileId, junk: Content)
    requires c in s.calls
    ensures Extends(s, DoPublish(s, c, job, pub, io, newFile, junk))
  {
  }

  lemma NextExtends(s: State, a: Action)
    ensures Extends(s, Next(s, a))
  {
    if a.Step? && a.c in s.calls && s.calls[a.c].phase.Publish? {
      var p := s.calls[a.c].phase;
      PublishExtends(s, a.c, p.job, p.pub, a.io, a.newFile, a.junk);
    }
  }

  lemma {:induction false} RunExtends(s: State, actions: seq<Action>)
    ensures Extends(s, Run(s, actions))
    decreases |actions|
  {
    if actions != [] {
      NextExtends(s, actions[0]);
      RunExtends(Next(s, actions[0]), actions[1..]);
    }
  }

  // ----- claim

  /** At most one claim of a capability ever returns success. */
  lemma AtMostOneClaim(actions: seq<Action>, c: CallId, d: CallId)
    requires c in Run(INITIAL, actions).won && d in Run(INITIAL, actions).won
    ensures c in Run(INITIAL, actions).calls && d in Run(INITIAL, actions).calls
    ensures Run(INITIAL, actions).calls[c].cap == Run(INITIAL, actions).calls[d].cap ==> c == d
  {
    ReachableInv(actions);
    var s := Run(INITIAL, actions);
    if s.calls[c].cap == s.calls[d].cap {
      assert Holds(s, c) && Holds(s, d);
    }
  }

  /** A claim that returned success is on the medium then and after anything that follows. */
  lemma ClaimSurvives(actions: seq<Action>, more: seq<Action>, c: CallId)
    requires c in Run(INITIAL, actions).won
    ensures c in Run(INITIAL, actions).calls
    ensures var k := Run(INITIAL, actions).calls[c];
            DurablyClaimed(Run(INITIAL, actions + more).disk, k.cap, k.auth)
  {
    ReachableInv(actions);
    RunSplit(INITIAL, actions, more);
    RunInv(Run(INITIAL, actions), more);
    RunExtends(Run(INITIAL, actions), more);
  }

  /** From then on every other claim of the capability is refused, whatever authorization it
      carries: its next step ends it, and it never reaches a state from which it could write. */
  lemma LaterClaimsRefused(actions: seq<Action>, c: CallId, d: CallId, io: Io, newFile: FileId, junk: Content)
    requires var s := Run(INITIAL, actions);
             c in s.won && c in s.calls && d in s.calls && d != c && s.calls[d].cap == s.calls[c].cap
    ensures var s := Run(INITIAL, actions);
            && d !in s.won && !Owns(s.calls[d].phase)
            && (s.calls[d].phase.Mkdir? ==>
                  Next(s, Step(d, io, newFile, junk)).calls[d].phase.ClaimRefused?)
  {
    ReachableInv(actions);
    var s := Run(INITIAL, actions);
    assert Holds(s, c);
    assert Holds(s, d) ==> c == d;
    HeldExists(s, c);
  }

  // ----- complete

  predicate Ended(p: Phase) {
    p.Completed? || p.Dead?
  }

  /** A completed call does nothing more. */
  ghost predicate DoneEnded(s: State) {
    forall c :: c in s.done ==> c in s.calls && Ended(s.calls[c].phase)
  }

  ghost predicate SameResults(s: State, t: State) {
    forall c :: c in s.done ==> c in t.done && t.done[c] == s.done[c]
  }

  lemma PublishKeepsResults(s: State, c: CallId, job: Job, pub: Pub, io: Io, newFile: FileId, junk: Content)
    requires DoneEnded(s) && c in s.calls && c !in s.done
    ensures var t := DoPublish(s, c, job, pub, io, newFile, junk); DoneEnded(t) && SameResults(s, t)
  {
  }

  lemma NextKeepsResults(s: State, a: Action)
    requires DoneEnded(s)
    ensures DoneEnded(Next(s, a)) && SameResults(s, Next(s, a))
  {
    if a.Step? && a.c in s.calls && s.calls[a.c].phase.Publish? {
      var p := s.calls[a.c].phase;
      PublishKeepsResults(s, a.c, p.job, p.pub, a.io, a.newFile, a.junk);
    }
  }

  lemma {:induction false} RunKeepsResults(s: State, actions: seq<Action>)
    requires DoneEnded(s)
    ensures DoneEnded(Run(s, actions)) && SameResults(s, Run(s, actions))
    decreases |actions|
  {
    if actions != [] {
      NextKeepsResults(s, actions[0]);
      RunKeepsResults(Next(s, actions[0]), actions[1..]);
    }
  }

  /** A completion that returned success is on the medium, bound to its claim, after anything
      that follows; and no other call completes the capability. */
  lemma CompletionSurvives(actions: seq<Action>, more: seq<Action>, c: CallId)
    requires c in Run(INITIAL, actions).done
    ensures var s, later := Run(INITIAL, actions), Run(INITIAL, actions + more);
            && c in s.calls
            && DurablyConsumed(later.disk, s.calls[c].cap, s.calls[c].auth, s.done[c])
            && forall d :: d in later.done && d in later.calls && later.calls[d].cap == s.calls[c].cap ==> d == c
  {
    ReachableInv(actions);
    ReachableInv(actions + more);
    RunSplit(INITIAL, actions, more);
    RunExtends(Run(INITIAL, actions), more);
    RunKeepsResults(INITIAL, actions);
    RunKeepsResults(Run(INITIAL, actions), more);
    var later := Run(INITIAL, actions + more);
    forall d | d in later.done && d in later.calls && later.calls[d].cap == Run(INITIAL, actions).calls[c].cap
      ensures d == c
    {
      assert Holds(later, c) && Holds(later, d);
    }
  }

  // ----- inspect

  /** The abstract state of a capability. */
  function Abstract(d: Disk, cap: Cap): Observed {
    if cap !in d.root then Absent
    else if ClaimJson !in d.root[cap].now then ReservedIncomplete
    else
      match Read(d, cap, TerminalJson)
      case Some(TerminalBody(t)) => Consumed(t.terminal)
      case _ => Reserved
  }

  /** Action `a` is the last file-system read of inspection `c`, which ends with `r`. */
  predicate Finishes(s: State, a: Action, c: CallId, r: Result<Observed, Error>) {
    && a.Step? && a.c == c && c in s.calls && Inspecting(s.calls[c].phase)
    && Next(s, a).calls[c].phase == Inspected(r)
  }

  /** What one read of an inspection may end with, on a disk where published records are whole. */
  predicate Faithful(d: Disk, k: Call, io: Io, r: Result<Observed, Error>) {
    match r
    case Ok(o) => o == Abstract(d, k.cap)
    case Err(e) => (e == IoFailed && io != Fine) || (e == BindingMismatch && ClaimedByAnother(d, k))
  }

  predicate ClaimedByAnother(d: Disk, k: Call) {
    match Read(d, k.cap, ClaimJson)
    case Some(ClaimBody(c)) => c == MakeClaim(k.cap, c.auth) && c.auth != k.auth
    case _ => false
  }

  lemma ReadIsFaithful(d: Disk, won: set<CallId>, c: CallId, k: Call, io: Io)
    requires DiskOk(d) && CallOk(d, won, c, k) && Inspecting(k.phase) && DoInspect(d, k, io).Inspected?
    ensures Faithful(d, k, io, DoInspect(d, k, io).result)
  {
    if k.cap in d.root {
      assert DirOk(d, k.cap);
    }
  }

  /** An inspection returns the abstract state that held at its last read, although its reads
      are spread over time. It fails only if a read failed, or if another authorization holds the
      claim: it never meets a torn, corrupt or unbound record, even after power losses. */
  lemma InspectionExact(actions: seq<Action>, a: Action, c: CallId, r: Result<Observed, Error>)
    requires Finishes(Run(INITIAL, actions), a, c, r)
    ensures var s := Run(INITIAL, actions); Faithful(s.disk, s.calls[c], a.io, r)
  {
    ReachableInv(actions);
    var s := Run(INITIAL, actions);
    assert CallOk(s.disk, s.won, c, s.calls[c]);
    ReadIsFaithful(s.disk, s.won, c, s.calls[c], a.io);
  }

  /** The order in which a capability advances. */
  predicate ObservedLe(a: Observed, b: Observed) {
    a == b || Rank(a) < Rank(b)
  }

  function Rank(o: Observed): nat {
    match o
    case Absent => 0
    case ReservedIncomplete => 1
    case Reserved => 2
    case Consumed(_) => 3
  }

  predicate NoPowerLoss(actions: seq<Action>) {
    forall i :: 0 <= i < |actions| ==> !actions[i].PowerLoss?
  }

  lemma KeptAdvances(d1: Disk, d2: Disk, c: CallId, cap: Cap)
    requires Keeps(d1, d2, c) && DiskOk(d1) && DiskOk(d2)
    ensures ObservedLe(Abstract(d1, cap), Abstract(d2, cap))
  {
    if cap in d1.root {
      assert DirOk(d1, cap) && DirOk(d2, cap);
    }
  }

  lemma FillKeeps(s: State, c: CallId, job: Job, pub: Pub, io: Io, newFile: FileId, junk: Content)
    requires Inv(s) && c in s.calls && s.calls[c].phase == Publish(job, pub) && (pub.WriteTemp? || pub.SyncTemp?)
    ensures Keeps(s.disk, DoPublish(s, c, job, pub, io, newFile, junk).disk, c)
  {
    assert CallOk(s.disk, s.won, c, s.calls[c]);
    UnchangedKept(s.disk, c);
    FileChanged(s.disk, pub.f, DoPublish(s, c, job, pub, io, newFile, junk).disk.files[pub.f], c);
  }

  lemma OpenKeeps(s: State, c: CallId, job: Job, io: Io, newFile: FileId, junk: Content)
    requires Inv(s) && c in s.calls && s.calls[c].phase == Publish(job, OpenTemp)
    ensures Keeps(s.disk, DoPublish(s, c, job, OpenTemp, io, newFile, junk).disk, c)
  {
    assert CallOk(s.disk, s.won, c, s.calls[c]);
    UnchangedKept(s.disk, c);
    if newFile !in s.disk.files { TempOpened(s.disk, s.calls[c].cap, TempName(c, job), newFile, c); }
  }

  lemma LinkKeeps(s: State, c: CallId, job: Job, f: FileId, io: Io, newFile: FileId, junk: Content)
    requires Inv(s) && c in s.calls && s.calls[c].phase == Publish(job, LinkFinal(f))
    ensures Keeps(s.disk, DoPublish(s, c, job, LinkFinal(f), io, newFile, junk).disk, c)
  {
    var k := s.calls[c];
    assert CallOk(s.disk, s.won, c, k);
    UnchangedKept(s.disk, c);
    if Target(job) !in s.disk.root[k.cap].now { FinalLinked(s.disk, c, k, job, f); }
  }

  lemma UnlinkKeeps(s: State, c: CallId, job: Job, f: FileId, io: Io, newFile: FileId, junk: Content)
    requires Inv(s) && c in s.calls && s.calls[c].phase == Publish(job, UnlinkTemp(f))
    ensures Keeps(s.disk, DoPublish(s, c, job, UnlinkTemp(f), io, newFile, junk).disk, c)
  {
    assert CallOk(s.disk, s.won, c, s.calls[c]);
    UnchangedKept(s.disk, c);
    TempUnlinked(s.disk, s.calls[c].cap, TempName(c, job), c);
  }

  lemma SyncKeeps(s: State, c: CallId, job: Job, f: FileId, io: Io, newFile: FileId, junk: Content)
    requires Inv(s) && c in s.calls && s.calls[c].phase == Publish(job, SyncDir(f))
    ensures Keeps(s.disk, DoPublish(s, c, job, SyncDir(f), io, newFile, junk).disk, c)
  {
    assert CallOk(s.disk, s.won, c, s.calls[c]);
    UnchangedKept(s.disk, c);
    DirSyncedOk(s.disk, s.calls[c].cap, c);
  }

  /** Each step except a power loss keeps what the published records say. */
  lemma PublishKeeps(s: State, c: CallId, job: Job, pub: Pub, io: Io, newFile: FileId, junk: Content)
    requires Inv(s) && c in s.calls && s.calls[c].phase == Publish(job, pub)
    ensures Keeps(s.disk, DoPublish(s, c, job, pub, io, newFile, junk).disk, c)
  {
    match pub
    case OpenTemp => OpenKeeps(s, c, job, io, newFile, junk);
    case WriteTemp(f) => FillKeeps(s, c, job, pub, io, newFile, junk);
    case SyncTemp(f) => FillKeeps(s, c, job, pub, io, newFile, junk);
    case LinkFinal(f) => LinkKeeps(s, c, job, f, io, newFile, junk);
    case UnlinkTemp(f) => UnlinkKeeps(s, c, job, f, io, newFile, junk);
    case SyncDir(f) => SyncKeeps(s, c, job, f, io, newFile, junk);
  }

  lemma CallStepKeeps(s: State, c: CallId, io: Io, newFile: FileId, junk: Content)
    requires Inv(s) && c in s.calls
    ensures Keeps(s.disk, DoStep(s, c, io, newFile, junk).disk, c)
  {
    assert CallOk(s.disk, s.won, c, s.calls[c]);
    UnchangedKept(s.disk, c);
    match s.calls[c].phase
    case Publish(job, pub) => PublishKeeps(s, c, job, pub, io, newFile, junk);
    case Cleanup(job, why) => TempUnlinked(s.disk, s.calls[c].cap, TempName(c, job), c);
    case _ =>
  }

  lemma StepAdvances(s: State, a: Action, cap: Cap)
    requires Inv(s) && !a.PowerLoss?
    ensures ObservedLe(Abstract(s.disk, cap), Abstract(Next(s, a).disk, cap))
  {
    NextInv(s, a);
    if a.Step? && a.c in s.calls {
      CallStepKeeps(s, a.c, a.io, a.newFile, a.junk);
      KeptAdvances(s.disk, Next(s, a).disk, a.c, cap);
    } else if a.WriteBackEntry? && a.cap in s.disk.root {
      EntryWrittenBackOk(s.disk, a.cap, a.name, 0);
      KeptAdvances(s.disk, Next(s, a).disk, 0, cap);
    }
  }

  lemma {:induction false} RunAdvances(s: State, actions: seq<Action>, cap: Cap)
    requires Inv(s) && NoPowerLoss(actions)
    ensures ObservedLe(Abstract(s.disk, cap), Abstract(Run(s, actions).disk, cap))
    decreases |actions|
  {
    if actions != [] {
      StepAdvances(s, actions[0], cap);
      NextInv(s, actions[0]);
      RunAdvances(Next(s, actions[0]), actions[1..], cap);
    }
  }

  /** Without a power loss between them, an inspection that ends later never reports an earlier
      state, and a terminal state never turns into the other one. */
  lemma InspectionsNeverGoBack(before: seq<Action>, a: Action, between: seq<Action>, b: Action,
                               c: CallId, d: CallId, o: Observed, p: Observed)
    requires Finishes(Run(INITIAL, before), a, c, Ok(o))
    requires NoPowerLoss(between)
    requires Finishes(Run(INITIAL, before + [a] + between), b, d, Ok(p))
    requires Run(INITIAL, before).calls[c].cap == Run(INITIAL, before + [a] + between).calls[d].cap
    ensures ObservedLe(o, p)
  {
    var s := Run(INITIAL, before);
    var cap := s.calls[c].cap;
    ReachableInv(before);
    RunSplit(INITIAL, before, [a] + between);
    assert before + [a] + between == before + ([a] + between);
    assert NoPowerLoss([a] + between);
    RunAdvances(s, [a] + between, cap);
    InspectionExact(before, a, c, Ok(o));
    InspectionExact(before + [a] + between, b, d, Ok(p));
  }

  /** What a success guarantees to every later inspection, power losses or not. */
  lemma SuccessIsVisible(actions: seq<Action>, c: CallId)
    requires c in Run(INITIAL, actions).won
    ensures var s := Run(INITIAL, actions);
            && c in s.calls
            && Rank(Abstract(s.disk, s.calls[c].cap)) >= Rank(Reserved)
            && (c in s.done ==> Abstract(s.disk, s.calls[c].cap) == Consumed(s.done[c]))
  {
    ReachableInv(actions);
    var s := Run(INITIAL, actions);
    assert DurablyClaimed(s.disk, s.calls[c].cap, s.calls[c].auth);
    assert DirOk(s.disk, s.calls[c].cap);
  }

  // ----- the converse fails

  lemma RunSnoc(s: State, actions: seq<Action>, a: Action)
    ensures Run(s, actions + [a]) == Next(Run(s, actions), a)
  {
    RunSplit(s, actions, [a]);
    assert [a][1..] == [];
  }

  /** The states of a lone claim after each of its first good steps. */
  function Stage(cap: Cap, auth: Hash, i: nat): State {
    var temp, body := Temp(0, false), ClaimBody(MakeClaim(cap, auth));
    match i
    case 0 => Lone(cap, auth, Mkdir, map[], {}, map[])
    case 1 => Lone(cap, auth, SyncRoot, map[cap := Dir(map[], map[])], {}, map[])
    case 2 => Lone(cap, auth, Publish(ForClaim, OpenTemp), map[cap := Dir(map[], map[])], {cap}, map[])
    case 3 => Lone(cap, auth, Publish(ForClaim, WriteTemp(0)), map[cap := Dir(map[temp := 0], map[])], {cap},
                   map[0 := File(Unreadable, false, 0)])
    case 4 => Lone(cap, auth, Publish(ForClaim, SyncTemp(0)), map[cap := Dir(map[temp := 0], map[])], {cap},
                   map[0 := File(body, false, 0)])
    case 5 => Lone(cap, auth, Publish(ForClaim, LinkFinal(0)), map[cap := Dir(map[temp := 0], map[])], {cap},
                   map[0 := File(body, true, 0)])
    case 6 => Lone(cap, auth, Publish(ForClaim, UnlinkTemp(0)),
                   map[cap := Dir(map[temp := 0, ClaimJson := 0], map[])], {cap}, map[0 := File(body, true, 0)])
    case _ => Lone(cap, auth, Publish(ForClaim, SyncDir(0)),
                   map[cap := Dir(map[ClaimJson := 0], map[])], {cap}, map[0 := File(body, true, 0)])
  }

  function Lone(cap: Cap, auth: Hash, p: Phase, root: map<Cap, Dir>, medium: set<Cap>,
                files: map<FileId, File>): State {
    State(Disk(root, medium, files), map[0 := Call(cap, auth, p)], {}, map[])
  }

  const FINE := Step(0, Fine, 0, Unreadable)

  lemma EarlyStages(cap: Cap, auth: Hash)
    ensures Next(Stage(cap, auth, 0), FINE) == Stage(cap, auth, 1)
    ensures Next(Stage(cap, auth, 1), FINE) == Stage(cap, auth, 2)
  {
    var s1, s2 := Next(Stage(cap, auth, 0), FINE), Next(Stage(cap, auth, 1), FINE);
    assert s1.disk.root == Stage(cap, auth, 1).disk.root && s1.calls == Stage(cap, auth, 1).calls;
    assert s2.disk.rootMedium == {cap} && s2.calls == Stage(cap, auth, 2).calls;
  }

  lemma OpenStage(cap: Cap, auth: Hash)
    ensures Next(Stage(cap, auth, 2), FINE) == Stage(cap, auth, 3)
  {
    var s, t := Next(Stage(cap, auth, 2), FINE), Stage(cap, auth, 3);
    assert s.disk.root[cap].now == t.disk.root[cap].now;
    assert s.disk.root == t.disk.root && s.disk.files == t.disk.files && s.calls == t.calls;
  }

  lemma WriteStage(cap: Cap, auth: Hash)
    ensures Next(Stage(cap, auth, 3), FINE) == Stage(cap, auth, 4)
  {
    var s, t := Next(Stage(cap, auth, 3), FINE), Stage(cap, auth, 4);
    assert s.disk.files == t.disk.files && s.calls == t.calls;
  }

  lemma SyncStage(cap: Cap, auth: Hash)
    ensures Next(Stage(cap, auth, 4), FINE) == Stage(cap, auth, 5)
  {
    var s, t := Next(Stage(cap, auth, 4), FINE), Stage(cap, auth, 5);
    assert s.disk.files == t.disk.files && s.calls == t.calls;
  }

  lemma LinkStage(cap: Cap, auth: Hash)
    ensures Next(Stage(cap, auth, 5), FINE) == Stage(cap, auth, 6)
  {
    var s, t := Next(Stage(cap, auth, 5), FINE), Stage(cap, auth, 6);
    assert s.disk.root[cap].now == t.disk.root[cap].now;
    assert s.disk.root == t.disk.root && s.calls == t.calls;
  }

  lemma UnlinkStage(cap: Cap, auth: Hash)
    ensures Next(Stage(cap, auth, 6), FINE) == Stage(cap, auth, 7)
  {
    var s, t := Next(Stage(cap, auth, 6), FINE), Stage(cap, auth, 7);
    assert s.disk.root[cap].now == t.disk.root[cap].now;
    assert s.disk.root == t.disk.root && s.calls == t.calls;
  }

  lemma NextStage(cap: Cap, auth: Hash, i: nat)
    requires i < 7
    ensures Next(Stage(cap, auth, i), FINE) == Stage(cap, auth, i + 1)
  {
    match i
    case 0 => EarlyStages(cap, auth);
    case 1 => EarlyStages(cap, auth);
    case 2 => OpenStage(cap, auth);
    case 3 => WriteStage(cap, auth);
    case 4 => SyncStage(cap, auth);
    case 5 => LinkStage(cap, auth);
    case _ => UnlinkStage(cap, auth);
  }

  lemma LoneClaimReaches(cap: Cap, auth: Hash, n: nat) returns (actions: seq<Action>)
    requires n <= 7
    ensures Run(INITIAL, actions) == Stage(cap, auth, n)
  {
    if n == 0 {
      actions := [StartClaim(0, cap, auth)];
      assert actions[1..] == [] && Run(INITIAL, actions).calls == Stage(cap, auth, 0).calls;
    } else {
      var before := LoneClaimReaches(cap, auth, n - 1);
      actions := before + [FINE];
      RunSnoc(INITIAL, before, FINE);
      NextStage(cap, auth, n - 1);
    }
  }

  /** Call 0 returned an error, and yet its own record is on the medium. */
  predicate MayBeDurable(s: State, cap: Cap, auth: Hash) {
    && 0 in s.calls && s.calls[0] == Call(cap, auth, ClaimRefused(IoFailed)) && 0 !in s.won
    && DurablyClaimed(s.disk, cap, auth) && s.disk.files[s.disk.root[cap].medium[ClaimJson]].owner == 0
  }

  lemma LateFailure(cap: Cap, auth: Hash)
    ensures MayBeDurable(Next(Stage(cap, auth, 7), Step(0, FailsAfter, 0, Unreadable)), cap, auth)
  {
  }

  /** A claim that returned an error may still have recorded the claim for good: here the last
      directory sync takes effect and then reports a failure. */
  lemma FailedClaimMayBeDurable(cap: Cap, auth: Hash)
    ensures exists actions :: MayBeDurable(Run(INITIAL, actions), cap, auth)
  {
    var actions := LoneClaimReaches(cap, auth, 7);
    RunSnoc(INITIAL, actions, Step(0, FailsAfter, 0, Unreadable));
    LateFailure(cap, auth);
  }
}
