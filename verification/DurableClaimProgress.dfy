/** What a claim's outcome tells its caller: which failures may still have recorded the claim, and
    when a claim that meets no failure succeeds. */
module DurableClaimProgress {
  import opened Outcomes
  import opened DurableClaimStore
  import opened DurableClaimSafety
  import opened DurableClaimTheorems

  // ----- what a call has left on the disk

  /** The disk holds no file and no temporary name of the call. */
  ghost predicate NoneOf(d: Disk, c: CallId) {
    && (forall f :: f in d.files ==> d.files[f].owner != c)
    && (forall cap, forTerminal :: !Named(d, cap, Temp(c, forTerminal)))
  }

  /** A call that has not opened a file. */
  predicate Unwritten(p: Phase) {
    p.Mkdir? || p.SyncRoot? || p == Publish(ForClaim, OpenTemp) || p == ClaimRefused(Replay)
    || Inspecting(p) || p.Inspected?
  }

  /** A claim that has its directory and has not yet linked its record. */
  predicate BeforeLink(p: Phase) {
    p.SyncRoot?
    || (p.Publish? && p.job.ForClaim? && (p.pub.OpenTemp? || p.pub.WriteTemp? || p.pub.SyncTemp? || p.pub.LinkFinal?))
  }

  predicate NoRecord(d: Disk, cap: Cap) {
    cap in d.root && ClaimJson !in d.root[cap].now
  }

  /** Claims fail only with an I/O error or as a replay, and as a replay only at their first step. */
  predicate PhaseOk(d: Disk, k: Call) {
    && (BeforeLink(k.phase) ==> NoRecord(d, k.cap))
    && (k.phase.Cleanup? && k.phase.job.ForClaim? ==> k.phase.why == IoFailed)
    && (k.phase.ClaimRefused? ==> k.phase.why == IoFailed || k.phase.why == Replay)
  }

  predicate Blank(s: State, c: CallId) {
    c !in s.calls || Unwritten(s.calls[c].phase)
  }

  ghost predicate Traces(s: State) {
    && (forall c :: Blank(s, c) ==> NoneOf(s.disk, c))
    && (forall c :: c in s.calls ==> PhaseOk(s.disk, s.calls[c]))
  }

  /** All that is new in `d2` belongs to call `c`. */
  ghost predicate OnlyOf(d1: Disk, d2: Disk, c: CallId) {
    && d1.root.Keys <= d2.root.Keys
    && (forall f :: f in d2.files ==>
          d2.files[f].owner == c || (f in d1.files && d1.files[f].owner == d2.files[f].owner))
    && (forall cap, o, forTerminal :: Named(d2, cap, Temp(o, forTerminal)) ==>
          o == c || Named(d1, cap, Temp(o, forTerminal)))
  }

  /** The step publishes no claim record, except its own. */
  ghost predicate LinksOnly(d1: Disk, d2: Disk, own: Option<Cap>) {
    forall cap :: NoRecord(d1, cap) ==> NoRecord(d2, cap) || own == Some(cap)
  }

  lemma OthersKeep(d1: Disk, d2: Disk, c: CallId, o: CallId)
    requires OnlyOf(d1, d2, c) && o != c && NoneOf(d1, o)
    ensures NoneOf(d2, o)
  {
  }

  lemma StepTraces(s: State, c: CallId, d: Disk, p: Phase, own: Option<Cap>)
    requires Exclusive(s) && Traces(s) && c in s.calls
    requires OnlyOf(s.disk, d, c) && LinksOnly(s.disk, d, own)
    requires own.Some? ==> own.value == s.calls[c].cap && Holds(s, c)
    requires Unwritten(p) ==> NoneOf(d, c)
    requires PhaseOk(d, s.calls[c].(phase := p))
    ensures Traces(Goto(s, c, d, p))
  {
    var s2 := Goto(s, c, d, p);
    forall o | Blank(s2, o) ensures NoneOf(s2.disk, o) {
      if o != c {
        assert Blank(s, o);
        OthersKeep(s.disk, d, c, o);
      }
    }
    forall o | o in s2.calls ensures PhaseOk(s2.disk, s2.calls[o]) {
      if o != c {
        assert PhaseOk(s.disk, s.calls[o]);
        if BeforeLink(s.calls[o].phase) { assert Holds(s, o); }
      }
    }
  }

  lemma SameDisk(d: Disk, c: CallId)
    ensures OnlyOf(d, d, c) && LinksOnly(d, d, None)
  {
  }

  /** Steps that do not change the disk. */
  lemma StillTraces(s: State, c: CallId, p: Phase)
    requires Exclusive(s) && Traces(s) && c in s.calls
    requires Unwritten(p) ==> Unwritten(s.calls[c].phase)
    requires PhaseOk(s.disk, s.calls[c].(phase := p))
    ensures Traces(Goto(s, c, s.disk, p))
  {
    SameDisk(s.disk, c);
    if Unwritten(p) { assert Blank(s, c); }
    StepTraces(s, c, s.disk, p, None);
  }

  lemma NoneStays(d1: Disk, d2: Disk, c: CallId)
    requires NoneOf(d1, c) && d2.files == d1.files
    requires forall cap, name :: Named(d2, cap, name) ==> Named(d1, cap, name)
    ensures NoneOf(d2, c)
  {
    forall cap, forTerminal ensures !Named(d2, cap, Temp(c, forTerminal)) {
      assert !Named(d1, cap, Temp(c, forTerminal));
    }
  }

  // ----- each step

  lemma MkdirTraces(s: State, c: CallId, io: Io)
    requires Exclusive(s) && Traces(s) && c in s.calls && s.calls[c].phase.Mkdir?
    ensures Traces(DoMkdir(s, c, io))
  {
    var s2 := DoMkdir(s, c, io);
    assert Blank(s, c);
    SameDisk(s.disk, c);
    NoneStays(s.disk, s2.disk, c);
    StepTraces(s, c, s2.disk, s2.calls[c].phase, None);
  }

  lemma SyncRootTraces(s: State, c: CallId, io: Io)
    requires Exclusive(s) && Traces(s) && c in s.calls && s.calls[c].phase.SyncRoot?
    ensures Traces(DoSyncRoot(s, c, io))
  {
    var s2 := DoSyncRoot(s, c, io);
    assert Blank(s, c) && PhaseOk(s.disk, s.calls[c]);
    NoneStays(s.disk, s2.disk, c);
    StepTraces(s, c, s2.disk, s2.calls[c].phase, None);
  }

  lemma FileTraces(d: Disk, f: FileId, file: File)
    requires f in d.files && file.owner == d.files[f].owner
    ensures var d2 := d.(files := d.files[f := file]);
            OnlyOf(d, d2, file.owner) && LinksOnly(d, d2, None)
  {
  }

  lemma OpenedTraces(d: Disk, cap: Cap, c: CallId, forTerminal: bool, f: FileId)
    requires cap in d.root && f !in d.files
    ensures var d2 := Linked(d, cap, Temp(c, forTerminal), f).(files := d.files[f := File(Unreadable, false, c)]);
            OnlyOf(d, d2, c) && LinksOnly(d, d2, None)
  {
  }

  lemma OpenTraces(s: State, c: CallId, job: Job, io: Io, newFile: FileId, junk: Content)
    requires Exclusive(s) && Traces(s) && c in s.calls && s.calls[c].phase == Publish(job, OpenTemp)
    requires CallOk(s.disk, s.won, c, s.calls[c])
    ensures Traces(DoPublish(s, c, job, OpenTemp, io, newFile, junk))
  {
    var k, d, temp := s.calls[c], s.disk, TempName(c, job);
    assert PhaseOk(d, k);
    if io == FailsBefore || temp in d.root[k.cap].now {
      StillTraces(s, c, Failed(job, IoFailed));
    } else if newFile !in d.files {
      var d2 := Linked(d, k.cap, temp, newFile).(files := d.files[newFile := File(Unreadable, false, c)]);
      OpenedTraces(d, k.cap, c, job.ForTerminal?, newFile);
      StepTraces(s, c, d2, if io == Fine then Publish(job, WriteTemp(newFile)) else Failed(job, IoFailed), None);
    }
  }

  /** Steps that change only the call's own file. */
  lemma FillTraces(s: State, c: CallId, job: Job, pub: Pub, file: File, p: Phase)
    requires Exclusive(s) && Traces(s) && c in s.calls && s.calls[c].phase == Publish(job, pub)
    requires pub.WriteTemp? || pub.SyncTemp?
    requires pub.f in s.disk.files && s.disk.files[pub.f].owner == c && file.owner == c
    requires p == Publish(job, SyncTemp(pub.f)) || p == Publish(job, LinkFinal(pub.f)) || p == Cleanup(job, IoFailed)
    ensures Traces(Goto(s, c, s.disk.(files := s.disk.files[pub.f := file]), p))
  {
    assert PhaseOk(s.disk, s.calls[c]);
    FileTraces(s.disk, pub.f, file);
    StepTraces(s, c, s.disk.(files := s.disk.files[pub.f := file]), p, None);
  }

  lemma WriteTraces(s: State, c: CallId, job: Job, f: FileId, io: Io, newFile: FileId, junk: Content)
    requires Exclusive(s) && Traces(s) && c in s.calls && s.calls[c].phase == Publish(job, WriteTemp(f))
    requires CallOk(s.disk, s.won, c, s.calls[c])
    ensures Traces(DoPublish(s, c, job, WriteTemp(f), io, newFile, junk))
  {
    if io == Fine {
      FillTraces(s, c, job, WriteTemp(f), File(Body(s.calls[c], job), false, c), Publish(job, SyncTemp(f)));
    } else {
      FillTraces(s, c, job, WriteTemp(f), File(junk, false, c), Cleanup(job, IoFailed));
    }
  }

  lemma SyncTempTraces(s: State, c: CallId, job: Job, f: FileId, io: Io, newFile: FileId, junk: Content)
    requires Exclusive(s) && Traces(s) && c in s.calls && s.calls[c].phase == Publish(job, SyncTemp(f))
    requires CallOk(s.disk, s.won, c, s.calls[c])
    ensures Traces(DoPublish(s, c, job, SyncTemp(f), io, newFile, junk))
  {
    if io == FailsBefore {
      StillTraces(s, c, Cleanup(job, IoFailed));
    } else {
      FillTraces(s, c, job, SyncTemp(f), s.disk.files[f].(synced := true),
                 if io == Fine then Publish(job, LinkFinal(f)) else Cleanup(job, IoFailed));
    }
  }

  lemma LinkedTraces(d: Disk, cap: Cap, job: Job, f: FileId, c: CallId)
    requires cap in d.root
    ensures OnlyOf(d, Linked(d, cap, Target(job), f), c) && LinksOnly(d, Linked(d, cap, Target(job), f), Some(cap))
  {
  }

  /** A claim always finds its final name free. */
  lemma LinkTraces(s: State, c: CallId, job: Job, f: FileId, io: Io, newFile: FileId, junk: Content)
    requires Exclusive(s) && Traces(s) && c in s.calls && s.calls[c].phase == Publish(job, LinkFinal(f))
    requires CallOk(s.disk, s.won, c, s.calls[c])
    ensures Traces(DoPublish(s, c, job, LinkFinal(f), io, newFile, junk))
  {
    var k := s.calls[c];
    assert PhaseOk(s.disk, k) && Holds(s, c);
    if io == FailsBefore {
      StillTraces(s, c, Cleanup(job, IoFailed));
    } else if Target(job) in s.disk.root[k.cap].now {
      StillTraces(s, c, Cleanup(job, Replay));
    } else {
      LinkedTraces(s.disk, k.cap, job, f, c);
      StepTraces(s, c, Linked(s.disk, k.cap, Target(job), f),
                 if io == Fine then Publish(job, UnlinkTemp(f)) else Cleanup(job, IoFailed), Some(k.cap));
    }
  }

  lemma UnlinkedTraces(d: Disk, cap: Cap, temp: Name, c: CallId)
    requires cap in d.root && temp.Temp?
    ensures OnlyOf(d, Unlinked(d, cap, temp), c) && LinksOnly(d, Unlinked(d, cap, temp), None)
  {
  }

  lemma SyncedTraces(d: Disk, cap: Cap, c: CallId)
    requires cap in d.root
    ensures OnlyOf(d, DirSynced(d, cap), c) && LinksOnly(d, DirSynced(d, cap), None)
  {
  }

  lemma UnlinkTraces(s: State, c: CallId, job: Job, f: FileId, io: Io, newFile: FileId, junk: Content)
    requires Exclusive(s) && Traces(s) && c in s.calls && s.calls[c].phase == Publish(job, UnlinkTemp(f))
    requires CallOk(s.disk, s.won, c, s.calls[c])
    ensures Traces(DoPublish(s, c, job, UnlinkTemp(f), io, newFile, junk))
  {
    var k := s.calls[c];
    if io == FailsBefore {
      StillTraces(s, c, Cleanup(job, IoFailed));
    } else {
      UnlinkedTraces(s.disk, k.cap, TempName(c, job), c);
      StepTraces(s, c, Unlinked(s.disk, k.cap, TempName(c, job)),
                 if io == Fine then Publish(job, SyncDir(f)) else Cleanup(job, IoFailed), None);
    }
  }

  lemma SyncTraces(s: State, c: CallId, job: Job, f: FileId, io: Io, newFile: FileId, junk: Content)
    requires Exclusive(s) && Traces(s) && c in s.calls && s.calls[c].phase == Publish(job, SyncDir(f))
    requires CallOk(s.disk, s.won, c, s.calls[c])
    ensures Traces(DoPublish(s, c, job, SyncDir(f), io, newFile, junk))
  {
    var k := s.calls[c];
    var d := DirSynced(s.disk, k.cap);
    SyncedTraces(s.disk, k.cap, c);
    match io
    case Fine => ReturnedTraces(s, c, job, d);
    case FailsBefore => StillTraces(s, c, Failed(job, IoFailed));
    case FailsAfter => StepTraces(s, c, d, Failed(job, IoFailed), None);
  }

  lemma ReturnedTraces(s: State, c: CallId, job: Job, d: Disk)
    requires Exclusive(s) && Traces(s) && c in s.calls && OnlyOf(s.disk, d, c) && LinksOnly(s.disk, d, None)
    ensures Traces(Returned(s, c, job, d))
  {
    var p := if job.ForClaim? then Open else Completed(job.terminal);
    StepTraces(s, c, d, p, None);
    SameTraces(Goto(s, c, d, p), Returned(s, c, job, d));
  }

  lemma SameTraces(s: State, t: State)
    requires Traces(s) && s.calls == t.calls && s.disk == t.disk
    ensures Traces(t)
  {
    forall c | Blank(t, c) ensures NoneOf(t.disk, c) { assert Blank(s, c); }
  }

  lemma CleanupTraces(s: State, c: CallId, job: Job, why: Error, io: Io)
    requires Exclusive(s) && Traces(s) && c in s.calls && s.calls[c].phase == Cleanup(job, why)
    requires CallOk(s.disk, s.won, c, s.calls[c])
    ensures Traces(DoCleanup(s, c, job, why, io))
  {
    var s2 := DoCleanup(s, c, job, why, io);
    assert PhaseOk(s.disk, s.calls[c]);
    UnlinkedTraces(s.disk, s.calls[c].cap, TempName(c, job), c);
    SameDisk(s.disk, c);
    StepTraces(s, c, s2.disk, s2.calls[c].phase, None);
  }

  lemma PublishTraces(s: State, c: CallId, job: Job, pub: Pub, io: Io, newFile: FileId, junk: Content)
    requires Exclusive(s) && Traces(s) && c in s.calls && s.calls[c].phase == Publish(job, pub)
    requires CallOk(s.disk, s.won, c, s.calls[c])
    ensures Traces(DoPublish(s, c, job, pub, io, newFile, junk))
  {
    match pub
    case OpenTemp => OpenTraces(s, c, job, io, newFile, junk);
    case WriteTemp(f) => WriteTraces(s, c, job, f, io, newFile, junk);
    case SyncTemp(f) => SyncTempTraces(s, c, job, f, io, newFile, junk);
    case LinkFinal(f) => LinkTraces(s, c, job, f, io, newFile, junk);
    case UnlinkTemp(f) => UnlinkTraces(s, c, job, f, io, newFile, junk);
    case SyncDir(f) => SyncTraces(s, c, job, f, io, newFile, junk);
  }

  lemma InspectTraces(s: State, c: CallId, io: Io)
    requires Exclusive(s) && Traces(s) && c in s.calls && Inspecting(s.calls[c].phase)
    ensures Traces(Goto(s, c, s.disk, DoInspect(s.disk, s.calls[c], io)))
  {
    StillTraces(s, c, DoInspect(s.disk, s.calls[c], io));
  }

  lemma LateTraces(s: State, c: CallId, p: Phase)
    requires Exclusive(s) && Traces(s) && c in s.calls
    requires p.FailedClosed? || p.ReadClaim? || (p.Publish? && p.job.ForTerminal?)
    ensures Traces(Goto(s, c, s.disk, p))
  {
    StillTraces(s, c, p);
  }

  lemma StatTraces(s: State, c: CallId, t: Terminal, io: Io)
    requires Exclusive(s) && Traces(s) && c in s.calls && s.calls[c].phase == StatClaim(t)
    ensures Traces(DoStatClaim(s, c, t, io))
  {
    var p := DoStatClaim(s, c, t, io).calls[c].phase;
    LateTraces(s, c, p);
  }

  lemma ReadTraces(s: State, c: CallId, t: Terminal, io: Io)
    requires Exclusive(s) && Traces(s) && c in s.calls && s.calls[c].phase == ReadClaim(t)
    ensures Traces(DoReadClaim(s, c, t, io))
  {
    var p := DoReadClaim(s, c, t, io).calls[c].phase;
    LateTraces(s, c, p);
  }

  lemma CallTraces(s: State, c: CallId, io: Io, newFile: FileId, junk: Content)
    requires Inv(s) && Traces(s) && c in s.calls
    ensures Traces(DoStep(s, c, io, newFile, junk))
  {
    assert CallOk(s.disk, s.won, c, s.calls[c]);
    if Inspecting(s.calls[c].phase) {
      InspectTraces(s, c, io);
    } else {
      match s.calls[c].phase
      case Mkdir => MkdirTraces(s, c, io);
      case SyncRoot => SyncRootTraces(s, c, io);
      case Publish(job, pub) => PublishTraces(s, c, job, pub, io, newFile, junk);
      case Cleanup(job, why) => CleanupTraces(s, c, job, why, io);
      case StatClaim(t) => StatTraces(s, c, t, io);
      case ReadClaim(t) => ReadTraces(s, c, t, io);
      case _ =>
    }
  }

  lemma DiskTraces(s: State, d: Disk)
    requires Traces(s) && d.root.Keys == s.disk.root.Keys && d.files == s.disk.files
    requires forall cap :: cap in d.root ==> d.root[cap].now == s.disk.root[cap].now
    requires forall cap, name :: Named(d, cap, name) ==> Named(s.disk, cap, name)
    ensures Traces(s.(disk := d))
  {
    var s2 := s.(disk := d);
    forall c | Blank(s2, c) ensures NoneOf(d, c) { assert Blank(s, c) && NoneOf(s.disk, c); }
    forall c | c in s2.calls ensures PhaseOk(d, s2.calls[c]) { assert PhaseOk(s.disk, s.calls[c]); }
  }

  lemma StartTraces(s: State, c: CallId, k: Call)
    requires Traces(s) && c !in s.calls && (k.phase.Mkdir? || k.phase.LookDir?)
    ensures Traces(s.(calls := s.calls[c := k]))
  {
    var s2 := s.(calls := s.calls[c := k]);
    forall o | Blank(s2, o) ensures NoneOf(s2.disk, o) { assert Blank(s, o); }
    forall o | o in s2.calls ensures PhaseOk(s2.disk, s2.calls[o]) {
      if o != c { assert PhaseOk(s.disk, s.calls[o]); }
    }
  }

  lemma PowerLossTraces(s: State, torn: map<FileId, Content>)
    requires Traces(s)
    ensures Traces(Next(s, PowerLoss(torn)))
  {
    var s2 := Next(s, PowerLoss(torn));
    forall c | Blank(s2, c) ensures NoneOf(s2.disk, c) {
      assert Blank(s, c) && NoneOf(s.disk, c);
      forall cap, forTerminal ensures !Named(s2.disk, cap, Temp(c, forTerminal)) {
        assert !Named(s.disk, cap, Temp(c, forTerminal));
      }
    }
  }

  lemma WriteBackTraces(s: State, a: Action)
    requires Traces(s) && (a.WriteBackRoot? || a.WriteBackEntry?)
    ensures Traces(Next(s, a))
  {
    if a.cap in s.disk.root { DiskTraces(s, Next(s, a).disk); }
  }

  lemma NextTraces(s: State, a: Action)
    requires Inv(s) && Traces(s)
    ensures Traces(Next(s, a))
  {
    match a
    case StartClaim(c, cap, auth) => if c !in s.calls { StartTraces(s, c, Call(cap, auth, Mkdir)); }
    case StartInspect(c, cap, auth) => if c !in s.calls { StartTraces(s, c, Call(cap, auth, LookDir)); }
    case StartComplete(c, t) => if c in s.calls && s.calls[c].phase == Open { StillTraces(s, c, StatClaim(t)); }
    case Step(c, io, newFile, junk) => if c in s.calls { CallTraces(s, c, io, newFile, junk); }
    case Kill(c) => if c in s.calls { StillTraces(s, c, Dead); }
    case WriteBackRoot(cap) => WriteBackTraces(s, a);
    case WriteBackEntry(cap, name) => WriteBackTraces(s, a);
    case PowerLoss(torn) => PowerLossTraces(s, torn);
  }

  lemma {:induction false} RunTraces(s: State, actions: seq<Action>)
    requires Inv(s) && Traces(s)
    ensures Inv(Run(s, actions)) && Traces(Run(s, actions))
    decreases |actions|
  {
    if actions != [] {
      NextInv(s, actions[0]);
      NextTraces(s, actions[0]);
      RunTraces(Next(s, actions[0]), actions[1..]);
    }
  }

  lemma ReachableTraces(actions: seq<Action>)
    ensures Inv(Run(INITIAL, actions)) && Traces(Run(INITIAL, actions))
  {
    InitialInv();
    RunTraces(INITIAL, actions);
  }

  // ----- what a replay leaves behind

  /** A refusal as a replay means that the call has left nothing behind, then and ever after. */
  lemma ReplayLeavesNothing(actions: seq<Action>, c: CallId)
    requires c in Run(INITIAL, actions).calls && Run(INITIAL, actions).calls[c].phase == ClaimRefused(Replay)
    ensures NoneOf(Run(INITIAL, actions).disk, c)
  {
    ReachableTraces(actions);
    assert Blank(Run(INITIAL, actions), c);
  }

  // ----- a claim that meets no failure

  /** No power loss, nobody kills the call, and none of its system calls fails. */
  predicate Smooth(actions: seq<Action>, c: CallId) {
    forall i :: 0 <= i < |actions| ==> SmoothStep(actions[i], c)
  }

  predicate SmoothStep(a: Action, c: CallId) {
    !a.PowerLoss? && a != Kill(c) && (a.Step? && a.c == c ==> a.io == Fine)
  }

  /** The call takes no step. */
  predicate Idle(actions: seq<Action>, c: CallId) {
    forall i :: 0 <= i < |actions| ==> SmoothStep(actions[i], c) && !(actions[i].Step? && actions[i].c == c)
  }

  /** The call has its directory and is on its way, or has returned success. */
  predicate Through(s: State, c: CallId) {
    c in s.calls
    && (c in s.won || s.calls[c].phase.SyncRoot? || (s.calls[c].phase.Publish? && s.calls[c].phase.job.ForClaim?))
  }

  /** How many of its eight system calls a claim has made. */
  function CallsMade(s: State, c: CallId): nat
    requires c in s.calls
  {
    if c in s.won then 8
    else match s.calls[c].phase
         case SyncRoot => 1
         case Publish(_, pub) =>
           (match pub
            case OpenTemp => 2
            case WriteTemp(_) => 3
            case SyncTemp(_) => 4
            case LinkFinal(_) => 5
            case UnlinkTemp(_) => 6
            case SyncDir(_) => 7)
         case _ => 0
  }

  lemma ThroughAdvances(s: State, c: CallId, newFile: FileId, junk: Content)
    requires Inv(s) && Traces(s) && Through(s, c) && c !in s.won && newFile !in s.disk.files
    ensures var s2 := Next(s, Step(c, Fine, newFile, junk));
            Through(s2, c) && CallsMade(s2, c) == CallsMade(s, c) + 1
  {
    assert CallOk(s.disk, s.won, c, s.calls[c]) && PhaseOk(s.disk, s.calls[c]);
    if s.calls[c].phase == Publish(ForClaim, OpenTemp) {
      assert Blank(s, c) && !Named(s.disk, s.calls[c].cap, Temp(c, false));
    }
  }

  lemma OwnStepStays(s: State, c: CallId, newFile: FileId, junk: Content)
    requires Inv(s) && Traces(s) && Through(s, c)
    ensures Through(Next(s, Step(c, Fine, newFile, junk)), c)
  {
    if c in s.won {
      NextExtends(s, Step(c, Fine, newFile, junk));
    } else if newFile !in s.disk.files {
      ThroughAdvances(s, c, newFile, junk);
    } else {
      assert CallOk(s.disk, s.won, c, s.calls[c]) && PhaseOk(s.disk, s.calls[c]);
      if s.calls[c].phase == Publish(ForClaim, OpenTemp) {
        assert Blank(s, c) && !Named(s.disk, s.calls[c].cap, Temp(c, false));
      }
    }
  }

  lemma OthersLeave(s: State, a: Action, c: CallId)
    requires c in s.calls && SmoothStep(a, c) && !(a.Step? && a.c == c) && !(a.StartComplete? && a.c == c)
    ensures c in Next(s, a).calls && Next(s, a).calls[c] == s.calls[c]
  {
  }

  lemma {:induction false} ThroughStays(s: State, c: CallId, actions: seq<Action>)
    requires Inv(s) && Traces(s) && Through(s, c) && Smooth(actions, c)
    ensures Through(Run(s, actions), c)
    decreases |actions|
  {
    if actions != [] {
      var a := actions[0];
      assert SmoothStep(a, c);
      NextInv(s, a);
      NextTraces(s, a);
      NextExtends(s, a);
      if a.Step? && a.c == c {
        OwnStepStays(s, c, a.newFile, a.junk);
      } else if c !in s.won && !(a.StartComplete? && a.c == c) {
        OthersLeave(s, a, c);
      }
      ThroughStays(Next(s, a), c, actions[1..]);
    }
  }

  /** A phase that takes no more steps, or whose call takes none, stays. */
  lemma {:induction false} PhaseStays(s: State, c: CallId, actions: seq<Action>)
    requires c in s.calls && Smooth(actions, c)
    requires s.calls[c].phase == ClaimRefused(Replay) || (s.calls[c].phase.Mkdir? && Idle(actions, c))
    ensures c in Run(s, actions).calls && Run(s, actions).calls[c] == s.calls[c]
    decreases |actions|
  {
    if actions != [] {
      var a := actions[0];
      assert SmoothStep(a, c);
      if !(a.Step? && a.c == c) && !(a.StartComplete? && a.c == c) { OthersLeave(s, a, c); }
      PhaseStays(Next(s, a), c, actions[1..]);
    }
  }

  /** Where a call may be after its claim has returned success. */
  predicate Past(p: Phase) {
    p.Open? || p.StatClaim? || p.ReadClaim? || ((p.Publish? || p.Cleanup?) && p.job.ForTerminal?)
    || p.Completed? || p.FailedClosed? || p.Dead?
  }

  ghost predicate Winners(s: State) {
    forall c :: c in s.won ==> c in s.calls && Past(s.calls[c].phase)
  }

  lemma PublishWinners(s: State, c: CallId, job: Job, pub: Pub, io: Io, newFile: FileId, junk: Content)
    requires Winners(s) && c in s.calls && s.calls[c].phase == Publish(job, pub)
    ensures Winners(DoPublish(s, c, job, pub, io, newFile, junk))
  {
  }

  lemma NextWinners(s: State, a: Action)
    requires Winners(s)
    ensures Winners(Next(s, a))
  {
    if a.Step? && a.c in s.calls && s.calls[a.c].phase.Publish? {
      var p := s.calls[a.c].phase;
      PublishWinners(s, a.c, p.job, p.pub, a.io, a.newFile, a.junk);
    }
  }

  lemma {:induction false} RunWinners(s: State, actions: seq<Action>)
    requires Winners(s)
    ensures Winners(Run(s, actions))
    decreases |actions|
  {
    if actions != [] {
      NextWinners(s, actions[0]);
      RunWinners(Next(s, actions[0]), actions[1..]);
    }
  }

  ghost predicate Sound(s: State) {
    Inv(s) && Traces(s) && Winners(s)
  }

  lemma NextSound(s: State, a: Action)
    requires Sound(s)
    ensures Sound(Next(s, a))
  {
    NextInv(s, a);
    NextTraces(s, a);
    NextWinners(s, a);
  }

  lemma RunSound(s: State, actions: seq<Action>)
    requires Sound(s)
    ensures Sound(Run(s, actions))
  {
    RunTraces(s, actions);
    RunWinners(s, actions);
  }

  lemma ReachableSound(actions: seq<Action>)
    ensures Sound(Run(INITIAL, actions))
  {
    ReachableTraces(actions);
    RunWinners(INITIAL, actions);
  }

  lemma RefusedEnds(s: State, c: CallId, after: seq<Action>)
    requires Sound(s) && c in s.calls && s.calls[c].phase == ClaimRefused(Replay) && Smooth(after, c)
    ensures var t := Run(s, after);
            c in t.calls && t.calls[c].phase == ClaimRefused(Replay) && NoneOf(t.disk, c) && c !in t.won
  {
    PhaseStays(s, c, after);
    RunSound(s, after);
    assert Blank(Run(s, after), c);
  }

  lemma AdmittedEnds(s: State, c: CallId, after: seq<Action>)
    requires Sound(s) && Through(s, c) && Smooth(after, c)
    ensures var t := Run(s, after);
            Through(t, c) && !t.calls[c].phase.ClaimRefused?
  {
    ThroughStays(s, c, after);
    RunSound(s, after);
  }

  lemma FirstStep(s: State, c: CallId, newFile: FileId, junk: Content)
    requires c in s.calls && s.calls[c].phase.Mkdir?
    ensures var s2 := Next(s, Step(c, Fine, newFile, junk));
            && (s.calls[c].cap in s.disk.root ==> c in s2.calls && s2.calls[c].phase == ClaimRefused(Replay))
            && (s.calls[c].cap !in s.disk.root ==> Through(s2, c))
  {
  }

  /** A claim that meets no failure is decided by its first step: among any other calls, it is
      refused exactly when the capability's directory is there already, and is then a replay that
      leaves nothing behind; otherwise nothing keeps it from its success. */
  lemma DecidedByTheDirectory(before: seq<Action>, c: CallId, cap: Cap, auth: Hash,
                              waiting: seq<Action>, newFile: FileId, junk: Content, after: seq<Action>)
    requires c !in Run(INITIAL, before).calls && Idle(waiting, c) && Smooth(after, c)
    ensures var s := Run(Next(Run(INITIAL, before), StartClaim(c, cap, auth)), waiting);
            var t := Run(Next(s, Step(c, Fine, newFile, junk)), after);
            && c in t.calls
            && (cap in s.disk.root <==> t.calls[c].phase == ClaimRefused(Replay))
            && (cap in s.disk.root ==> NoneOf(t.disk, c) && c !in t.won)
            && (cap !in s.disk.root ==> Through(t, c))
  {
    ReachableSound(before);
    var s0, start := Run(INITIAL, before), StartClaim(c, cap, auth);
    NextSound(s0, start);
    PhaseStays(Next(s0, start), c, waiting);
    RunSound(Next(s0, start), waiting);
    var s, step := Run(Next(s0, start), waiting), Step(c, Fine, newFile, junk);
    assert s.calls[c] == Call(cap, auth, Mkdir);
    FirstStep(s, c, newFile, junk);
    NextSound(s, step);
    if cap in s.disk.root {
      RefusedEnds(Next(s, step), c, after);
    } else {
      AdmittedEnds(Next(s, step), c, after);
    }
  }

  /** And each of its further system calls brings it one nearer to success, which is the eighth. */
  lemma EachStepAdvances(actions: seq<Action>, c: CallId, newFile: FileId, junk: Content)
    requires var s := Run(INITIAL, actions); Through(s, c) && c !in s.won && newFile !in s.disk.files
    ensures var s, t := Run(INITIAL, actions), Run(INITIAL, actions + [Step(c, Fine, newFile, junk)]);
            && Through(t, c) && CallsMade(t, c) == CallsMade(s, c) + 1 <= 8
            && (c in t.won <==> CallsMade(t, c) == 8)
  {
    ReachableTraces(actions);
    ThroughAdvances(Run(INITIAL, actions), c, newFile, junk);
    RunSnoc(INITIAL, actions, Step(c, Fine, newFile, junk));
  }
}
