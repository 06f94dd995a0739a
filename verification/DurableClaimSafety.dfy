/** Safety of the durable claim store over every run. */
module DurableClaimSafety {
  import opened Outcomes
  import opened DurableClaimStore

  // ----- the invariant

  predicate GoodClaimFile(file: File, cap: Cap) {
    file.synced && file.content.ClaimBody? && file.content.claim == MakeClaim(cap, file.content.claim.auth)
  }

  predicate GoodTerminalFile(file: File, claim: ClaimRecord) {
    && file.synced && file.content.TerminalBody?
    && file.content.record == MakeTerminal(claim, file.content.record.terminal)
  }

  /** Published names lead to complete, synced records; a name on the medium is never taken back. */
  predicate DirOk(d: Disk, cap: Cap)
    requires cap in d.root
  {
    var dir := d.root[cap];
    && (forall n :: n in dir.now ==> dir.now[n] in d.files)
    && (forall n :: n in dir.medium ==> dir.medium[n] in d.files)
    && (ClaimJson in dir.medium ==> ClaimJson in dir.now && dir.now[ClaimJson] == dir.medium[ClaimJson])
    && (TerminalJson in dir.medium ==>
          TerminalJson in dir.now && dir.now[TerminalJson] == dir.medium[TerminalJson])
    && (ClaimJson in dir.now ==> GoodClaimFile(d.files[dir.now[ClaimJson]], cap))
    && (TerminalJson in dir.now ==>
          && ClaimJson in dir.medium
          && GoodTerminalFile(d.files[dir.now[TerminalJson]], d.files[dir.now[ClaimJson]].content.claim))
  }

  ghost predicate DiskOk(d: Disk) {
    d.rootMedium <= d.root.Keys && forall cap :: cap in d.root ==> DirOk(d, cap)
  }

  /** The claim is on the medium, whole: no crash can take it away. */
  predicate DurablyClaimed(d: Disk, cap: Cap, auth: Hash) {
    && cap in d.root && cap in d.rootMedium
    && ClaimJson in d.root[cap].medium && d.root[cap].medium[ClaimJson] in d.files
    && d.files[d.root[cap].medium[ClaimJson]].synced
    && d.files[d.root[cap].medium[ClaimJson]].content == ClaimBody(MakeClaim(cap, auth))
  }

  predicate DurablyConsumed(d: Disk, cap: Cap, auth: Hash, t: Terminal) {
    && DurablyClaimed(d, cap, auth)
    && TerminalJson in d.root[cap].medium && d.root[cap].medium[TerminalJson] in d.files
    && d.files[d.root[cap].medium[TerminalJson]].synced
    && d.files[d.root[cap].medium[TerminalJson]].content
       == TerminalBody(MakeTerminal(MakeClaim(cap, auth), t))
  }

  /** The calls that may still write below a capability's directory. */
  predicate Owns(p: Phase) {
    p.SyncRoot? || p.Publish? || p.Cleanup? || p.Open? || p.StatClaim? || p.ReadClaim?
  }

  predicate PubOk(d: Disk, c: CallId, k: Call, job: Job, pub: Pub)
    requires k.cap in d.root
  {
    match pub
    case OpenTemp => true
    case WriteTemp(f) => f in d.files && d.files[f].owner == c && !d.files[f].synced
    case SyncTemp(f) => f in d.files && d.files[f] == File(Body(k, job), false, c)
    case LinkFinal(f) => f in d.files && d.files[f] == File(Body(k, job), true, c)
    case UnlinkTemp(f) => f in d.files && d.files[f] == File(Body(k, job), true, c)
                          && Target(job) in d.root[k.cap].now && d.root[k.cap].now[Target(job)] == f
    case SyncDir(f) => f in d.files && d.files[f] == File(Body(k, job), true, c)
                       && Target(job) in d.root[k.cap].now && d.root[k.cap].now[Target(job)] == f
  }

  predicate CallOk(d: Disk, won: set<CallId>, c: CallId, k: Call) {
    match k.phase
    case SyncRoot => k.cap in d.root
    case Publish(job, pub) =>
      k.cap in d.root && k.cap in d.rootMedium && (job.ForTerminal? ==> c in won) && PubOk(d, c, k, job, pub)
    case Cleanup(job, _) => k.cap in d.root && k.cap in d.rootMedium && (job.ForTerminal? ==> c in won)
    case Open => c in won
    case StatClaim(_) => c in won
    case ReadClaim(_) => c in won
    case LookClaim => k.cap in d.root
    case GetClaim => Exists(d, k.cap, ClaimJson)
    case LookTerminal(claim) => claim == MakeClaim(k.cap, k.auth) && Read(d, k.cap, ClaimJson) == Some(ClaimBody(claim))
    case GetTerminal(claim) => claim == MakeClaim(k.cap, k.auth) && Read(d, k.cap, ClaimJson) == Some(ClaimBody(claim))
                               && Exists(d, k.cap, TerminalJson)
    case _ => true
  }

  ghost predicate CallsOk(s: State) {
    forall c :: c in s.calls ==> CallOk(s.disk, s.won, c, s.calls[c])
  }

  /** The call may write below its capability's directory, or its claim has returned success. */
  predicate Holds(s: State, c: CallId) {
    c in s.calls && (c in s.won || Owns(s.calls[c].phase))
  }

  ghost predicate Exclusive(s: State) {
    forall c, d :: Holds(s, c) && Holds(s, d) && s.calls[c].cap == s.calls[d].cap ==> c == d
  }

  ghost predicate WinsOk(s: State) {
    && s.won <= s.calls.Keys
    && s.done.Keys <= s.won
    && (forall c :: c in s.won ==> DurablyClaimed(s.disk, s.calls[c].cap, s.calls[c].auth))
    && (forall c :: c in s.done ==> DurablyConsumed(s.disk, s.calls[c].cap, s.calls[c].auth, s.done[c]))
  }

  ghost predicate Inv(s: State) {
    WinsOk(s) && DiskOk(s.disk) && CallsOk(s) && Exclusive(s)
  }

  // ----- what a step of one call leaves alone

  /** `d2` keeps everything that other calls and past successes rely on in `d1`:
      directories and published names stay, the medium only gains published names,
      and no synced file and no file of another call changes. */
  predicate Keeps(d1: Disk, d2: Disk, c: CallId) {
    && d1.root.Keys <= d2.root.Keys && d1.rootMedium <= d2.rootMedium
    && (forall f :: f in d1.files ==> f in d2.files)
    && (forall f :: f in d1.files && (d1.files[f].synced || d1.files[f].owner != c) ==> d2.files[f] == d1.files[f])
    && (forall cap :: cap in d1.root ==> KeepsDir(d1.root[cap], d2.root[cap]))
  }

  predicate KeepsDir(a: Dir, b: Dir) {
    && (ClaimJson in a.now ==> ClaimJson in b.now && b.now[ClaimJson] == a.now[ClaimJson])
    && (TerminalJson in a.now ==> TerminalJson in b.now && b.now[TerminalJson] == a.now[TerminalJson])
    && (ClaimJson in a.medium ==> ClaimJson in b.medium && b.medium[ClaimJson] == a.medium[ClaimJson])
    && (TerminalJson in a.medium ==> TerminalJson in b.medium && b.medium[TerminalJson] == a.medium[TerminalJson])
  }

  lemma KeepsCall(d1: Disk, d2: Disk, won1: set<CallId>, won2: set<CallId>, c: CallId, o: CallId, k: Call)
    requires Keeps(d1, d2, c) && DiskOk(d1) && won1 <= won2 && o != c && CallOk(d1, won1, o, k)
    ensures CallOk(d2, won2, o, k)
  {
  }

  lemma KeepsWins(d1: Disk, d2: Disk, c: CallId, cap: Cap, auth: Hash)
    requires Keeps(d1, d2, c)
    ensures DurablyClaimed(d1, cap, auth) ==> DurablyClaimed(d2, cap, auth)
    ensures forall t :: DurablyConsumed(d1, cap, auth, t) ==> DurablyConsumed(d2, cap, auth, t)
  {
  }

  /** Holding a capability means that its directory exists. */
  lemma HeldExists(s: State, c: CallId)
    requires Inv(s) && Holds(s, c)
    ensures s.calls[c].cap in s.disk.root
  {
    assert CallOk(s.disk, s.won, c, s.calls[c]);
    if c in s.won {
      assert DurablyClaimed(s.disk, s.calls[c].cap, s.calls[c].auth);
    }
  }

  lemma StaysExclusive(s: State, c: CallId, p: Phase, s2: State)
    requires Inv(s) && c in s.calls
    requires s2.calls == s.calls[c := s.calls[c].(phase := p)] && s.won <= s2.won <= s.won + {c}
    requires Holds(s2, c) ==> Holds(s, c) || s.calls[c].cap !in s.disk.root
    ensures Exclusive(s2)
  {
    forall o, q | Holds(s2, o) && Holds(s2, q) && s2.calls[o].cap == s2.calls[q].cap ensures o == q {
      if o != c { assert Holds(s, o); HeldExists(s, o); }
      if q != c { assert Holds(s, q); HeldExists(s, q); }
    }
  }

  lemma CallsStayOk(s: State, c: CallId, d: Disk, p: Phase, s2: State)
    requires CallsOk(s) && DiskOk(s.disk) && c in s.calls && Keeps(s.disk, d, c)
    requires s2.calls == s.calls[c := s.calls[c].(phase := p)] && s2.disk == d && s.won <= s2.won
    requires CallOk(d, s2.won, c, s2.calls[c])
    ensures CallsOk(s2)
  {
    forall o | o in s2.calls ensures CallOk(s2.disk, s2.won, o, s2.calls[o]) {
      if o != c {
        assert CallOk(s.disk, s.won, o, s.calls[o]);
        KeepsCall(s.disk, d, s.won, s2.won, c, o, s.calls[o]);
      }
    }
  }

  lemma WinsStayOk(s: State, c: CallId, d: Disk, p: Phase)
    requires WinsOk(s) && c in s.calls && Keeps(s.disk, d, c)
    ensures WinsOk(Goto(s, c, d, p))
  {
    var s2 := Goto(s, c, d, p);
    forall o | o in s.won ensures DurablyClaimed(d, s2.calls[o].cap, s2.calls[o].auth) {
      KeepsWins(s.disk, d, c, s.calls[o].cap, s.calls[o].auth);
    }
    forall o | o in s.done ensures DurablyConsumed(d, s2.calls[o].cap, s2.calls[o].auth, s.done[o]) {
      KeepsWins(s.disk, d, c, s.calls[o].cap, s.calls[o].auth);
    }
  }

  /** A step of call `c` that keeps what others rely on, enters a consistent phase and does
      not take a right it did not have, preserves the invariant. */
  lemma StepKeepsInv(s: State, c: CallId, d: Disk, p: Phase)
    requires Inv(s) && c in s.calls
    requires Keeps(s.disk, d, c) && DiskOk(d)
    requires CallOk(d, s.won, c, s.calls[c].(phase := p))
    requires Owns(p) ==> Holds(s, c) || s.calls[c].cap !in s.disk.root
    ensures Inv(Goto(s, c, d, p))
  {
    var s2 := Goto(s, c, d, p);
    CallsStayOk(s, c, d, p, s2);
    WinsStayOk(s, c, d, p);
    StaysExclusive(s, c, p, s2);
  }

  // ----- every step keeps the invariant

  lemma MkdirInv(s: State, c: CallId, io: Io)
    requires Inv(s) && c in s.calls && s.calls[c].phase.Mkdir?
    ensures Inv(DoMkdir(s, c, io))
  {
    var cap := s.calls[c].cap;
    var s2 := DoMkdir(s, c, io);
    if cap !in s.disk.root {
      forall o | o in s2.disk.root ensures DirOk(s2.disk, o) {
        if o != cap { assert DirOk(s.disk, o); }
      }
    }
    StepKeepsInv(s, c, s2.disk, s2.calls[c].phase);
  }

  lemma SyncRootInv(s: State, c: CallId, io: Io)
    requires Inv(s) && c in s.calls && s.calls[c].phase.SyncRoot?
    ensures Inv(DoSyncRoot(s, c, io))
  {
    assert CallOk(s.disk, s.won, c, s.calls[c]);
    var s2 := DoSyncRoot(s, c, io);
    forall o | o in s2.disk.root ensures DirOk(s2.disk, o) {
      assert DirOk(s.disk, o);
    }
    StepKeepsInv(s, c, s2.disk, s2.calls[c].phase);
  }

  // the disk operations of a publication, one at a time

  lemma TempOpened(d: Disk, cap: Cap, temp: Name, f: FileId, c: CallId)
    requires DiskOk(d) && cap in d.root && temp.Temp? && f !in d.files
    ensures var d2 := Linked(d, cap, temp, f).(files := d.files[f := File(Unreadable, false, c)]);
            DiskOk(d2) && Keeps(d, d2, c)
  {
    var d2 := Linked(d, cap, temp, f).(files := d.files[f := File(Unreadable, false, c)]);
    forall o | o in d2.root ensures DirOk(d2, o) {
      assert DirOk(d, o);
    }
  }

  lemma FileChanged(d: Disk, f: FileId, file: File, c: CallId)
    requires DiskOk(d) && f in d.files && d.files[f].owner == c && !d.files[f].synced
    ensures var d2 := d.(files := d.files[f := file]); DiskOk(d2) && Keeps(d, d2, c)
  {
    var d2 := d.(files := d.files[f := file]);
    forall o | o in d2.root ensures DirOk(d2, o) {
      assert DirOk(d, o);
    }
  }

  lemma FinalLinked(d: Disk, c: CallId, k: Call, job: Job, f: FileId)
    requires DiskOk(d) && k.cap in d.root && Target(job) !in d.root[k.cap].now
    requires f in d.files && d.files[f] == File(Body(k, job), true, c)
    requires job.ForTerminal? ==> DurablyClaimed(d, k.cap, k.auth)
    ensures var d2 := Linked(d, k.cap, Target(job), f); DiskOk(d2) && Keeps(d, d2, c)
  {
    var d2 := Linked(d, k.cap, Target(job), f);
    forall o | o in d2.root ensures DirOk(d2, o) {
      assert DirOk(d, o);
    }
    assert DirOk(d, k.cap);
  }

  lemma TempUnlinked(d: Disk, cap: Cap, temp: Name, c: CallId)
    requires DiskOk(d) && cap in d.root && temp.Temp?
    ensures var d2 := Unlinked(d, cap, temp); DiskOk(d2) && Keeps(d, d2, c)
  {
    var d2 := Unlinked(d, cap, temp);
    forall o | o in d2.root ensures DirOk(d2, o) {
      assert DirOk(d, o);
    }
  }

  lemma DirSyncedOk(d: Disk, cap: Cap, c: CallId)
    requires DiskOk(d) && cap in d.root
    ensures DiskOk(DirSynced(d, cap)) && Keeps(d, DirSynced(d, cap), c)
  {
    var d2 := DirSynced(d, cap);
    assert DirOk(d, cap);
    forall o | o in d2.root ensures DirOk(d2, o) {
      assert DirOk(d, o);
    }
  }

  lemma EntryWrittenBackOk(d: Disk, cap: Cap, name: Name, c: CallId)
    requires DiskOk(d) && cap in d.root
    ensures DiskOk(EntryWrittenBack(d, cap, name)) && Keeps(d, EntryWrittenBack(d, cap, name), c)
  {
    var d2 := EntryWrittenBack(d, cap, name);
    assert DirOk(d, cap);
    forall o | o in d2.root ensures DirOk(d2, o) {
      assert DirOk(d, o);
    }
  }

  lemma UnchangedKept(d: Disk, c: CallId)
    ensures Keeps(d, d, c)
  {
  }

  /** What the synced directory makes durable. */
  lemma SyncedIsDurable(d: Disk, c: CallId, k: Call, job: Job, f: FileId)
    requires DiskOk(d) && k.cap in d.root && k.cap in d.rootMedium && PubOk(d, c, k, job, SyncDir(f))
    requires job.ForTerminal? ==> DurablyClaimed(d, k.cap, k.auth)
    ensures DurablyClaimed(DirSynced(d, k.cap), k.cap, k.auth)
    ensures job.ForTerminal? ==> DurablyConsumed(DirSynced(d, k.cap), k.cap, k.auth, job.terminal)
  {
    DirSyncedOk(d, k.cap, c);
    KeepsWins(d, DirSynced(d, k.cap), c, k.cap, k.auth);
  }

  lemma ReturnedWins(s: State, c: CallId, job: Job, d: Disk)
    requires WinsOk(s) && c in s.calls && Keeps(s.disk, d, c) && (job.ForTerminal? ==> c in s.won)
    requires DurablyClaimed(d, s.calls[c].cap, s.calls[c].auth)
    requires job.ForTerminal? ==> DurablyConsumed(d, s.calls[c].cap, s.calls[c].auth, job.terminal)
    ensures WinsOk(Returned(s, c, job, d))
  {
    WinsStayOk(s, c, d, if job.ForClaim? then Open else Completed(job.terminal));
  }

  /** The last step of a publication: the synced directory makes the record durable. */
  lemma ReturnedInv(s: State, c: CallId, job: Job, f: FileId)
    requires Inv(s) && c in s.calls && s.calls[c].phase == Publish(job, SyncDir(f))
    ensures Inv(Returned(s, c, job, DirSynced(s.disk, s.calls[c].cap)))
  {
    var k := s.calls[c];
    assert CallOk(s.disk, s.won, c, k) && Holds(s, c);
    var d := DirSynced(s.disk, k.cap);
    DirSyncedOk(s.disk, k.cap, c);
    SyncedIsDurable(s.disk, c, k, job, f);
    ReturnedWins(s, c, job, d);
    var s2 := Returned(s, c, job, d);
    CallsStayOk(s, c, d, s2.calls[c].phase, s2);
    StaysExclusive(s, c, s2.calls[c].phase, s2);
  }

  lemma OpenTempInv(s: State, c: CallId, job: Job, pub: Pub, io: Io, newFile: FileId, junk: Content)
    requires Inv(s) && c in s.calls && s.calls[c].phase == Publish(job, pub) && pub.OpenTemp?
    ensures Inv(DoPublish(s, c, job, pub, io, newFile, junk))
  {
    var k := s.calls[c];
    var s2 := DoPublish(s, c, job, pub, io, newFile, junk);
    assert CallOk(s.disk, s.won, c, k) && Holds(s, c);
    UnchangedKept(s.disk, c);
    if newFile !in s.disk.files { TempOpened(s.disk, k.cap, TempName(c, job), newFile, c); }
    if s2 != s { StepKeepsInv(s, c, s2.disk, s2.calls[c].phase); }
  }

  lemma FillTempInv(s: State, c: CallId, job: Job, pub: Pub, io: Io, newFile: FileId, junk: Content)
    requires Inv(s) && c in s.calls && s.calls[c].phase == Publish(job, pub) && (pub.WriteTemp? || pub.SyncTemp?)
    ensures Inv(DoPublish(s, c, job, pub, io, newFile, junk))
  {
    var k := s.calls[c];
    var s2 := DoPublish(s, c, job, pub, io, newFile, junk);
    assert CallOk(s.disk, s.won, c, k) && Holds(s, c);
    UnchangedKept(s.disk, c);
    var file := if pub.WriteTemp? then s2.disk.files[pub.f] else s.disk.files[pub.f].(synced := true);
    FileChanged(s.disk, pub.f, file, c);
    StepKeepsInv(s, c, s2.disk, s2.calls[c].phase);
  }

  lemma LinkFinalInv(s: State, c: CallId, job: Job, pub: Pub, io: Io, newFile: FileId, junk: Content)
    requires Inv(s) && c in s.calls && s.calls[c].phase == Publish(job, pub) && pub.LinkFinal?
    ensures Inv(DoPublish(s, c, job, pub, io, newFile, junk))
  {
    var k := s.calls[c];
    var s2 := DoPublish(s, c, job, pub, io, newFile, junk);
    assert CallOk(s.disk, s.won, c, k) && Holds(s, c);
    UnchangedKept(s.disk, c);
    if Target(job) !in s.disk.root[k.cap].now { FinalLinked(s.disk, c, k, job, pub.f); }
    StepKeepsInv(s, c, s2.disk, s2.calls[c].phase);
  }

  lemma UnlinkTempInv(s: State, c: CallId, job: Job, pub: Pub, io: Io, newFile: FileId, junk: Content)
    requires Inv(s) && c in s.calls && s.calls[c].phase == Publish(job, pub) && pub.UnlinkTemp?
    ensures Inv(DoPublish(s, c, job, pub, io, newFile, junk))
  {
    var k := s.calls[c];
    var s2 := DoPublish(s, c, job, pub, io, newFile, junk);
    assert CallOk(s.disk, s.won, c, k) && Holds(s, c);
    UnchangedKept(s.disk, c);
    TempUnlinked(s.disk, k.cap, TempName(c, job), c);
    StepKeepsInv(s, c, s2.disk, s2.calls[c].phase);
  }

  lemma SyncDirInv(s: State, c: CallId, job: Job, pub: Pub, io: Io, newFile: FileId, junk: Content)
    requires Inv(s) && c in s.calls && s.calls[c].phase == Publish(job, pub) && pub.SyncDir?
    ensures Inv(DoPublish(s, c, job, pub, io, newFile, junk))
  {
    var k := s.calls[c];
    assert CallOk(s.disk, s.won, c, k) && Holds(s, c);
    match io
    case Fine => ReturnedInv(s, c, job, pub.f);
    case FailsBefore => UnchangedKept(s.disk, c); StepKeepsInv(s, c, s.disk, Failed(job, IoFailed));
    case FailsAfter =>
      DirSyncedOk(s.disk, k.cap, c);
      StepKeepsInv(s, c, DirSynced(s.disk, k.cap), Failed(job, IoFailed));
  }

  lemma PublishInv(s: State, c: CallId, job: Job, pub: Pub, io: Io, newFile: FileId, junk: Content)
    requires Inv(s) && c in s.calls && s.calls[c].phase == Publish(job, pub)
    ensures Inv(DoPublish(s, c, job, pub, io, newFile, junk))
  {
    match pub
    case OpenTemp => OpenTempInv(s, c, job, pub, io, newFile, junk);
    case WriteTemp(f) => FillTempInv(s, c, job, pub, io, newFile, junk);
    case SyncTemp(f) => FillTempInv(s, c, job, pub, io, newFile, junk);
    case LinkFinal(f) => LinkFinalInv(s, c, job, pub, io, newFile, junk);
    case UnlinkTemp(f) => UnlinkTempInv(s, c, job, pub, io, newFile, junk);
    case SyncDir(f) => SyncDirInv(s, c, job, pub, io, newFile, junk);
  }

  lemma CleanupInv(s: State, c: CallId, job: Job, why: Error, io: Io)
    requires Inv(s) && c in s.calls && s.calls[c].phase == Cleanup(job, why)
    ensures Inv(DoCleanup(s, c, job, why, io))
  {
    assert CallOk(s.disk, s.won, c, s.calls[c]);
    UnchangedKept(s.disk, c);
    TempUnlinked(s.disk, s.calls[c].cap, TempName(c, job), c);
    var s2 := DoCleanup(s, c, job, why, io);
    StepKeepsInv(s, c, s2.disk, s2.calls[c].phase);
  }

  lemma FinalizingInv(s: State, c: CallId, t: Terminal, io: Io)
    requires Inv(s) && c in s.calls
    ensures s.calls[c].phase == StatClaim(t) ==> Inv(DoStatClaim(s, c, t, io))
    ensures s.calls[c].phase == ReadClaim(t) ==> Inv(DoReadClaim(s, c, t, io))
  {
    assert CallOk(s.disk, s.won, c, s.calls[c]);
    UnchangedKept(s.disk, c);
    if s.calls[c].phase == StatClaim(t) {
      StepKeepsInv(s, c, s.disk, DoStatClaim(s, c, t, io).calls[c].phase);
    }
    if s.calls[c].phase == ReadClaim(t) {
      assert DurablyClaimed(s.disk, s.calls[c].cap, s.calls[c].auth);
      StepKeepsInv(s, c, s.disk, DoReadClaim(s, c, t, io).calls[c].phase);
    }
  }

  lemma InspectInv(s: State, c: CallId, io: Io)
    requires Inv(s) && c in s.calls && Inspecting(s.calls[c].phase)
    ensures Inv(Goto(s, c, s.disk, DoInspect(s.disk, s.calls[c], io)))
  {
    var k := s.calls[c];
    assert CallOk(s.disk, s.won, c, k);
    UnchangedKept(s.disk, c);
    if k.cap in s.disk.root { assert DirOk(s.disk, k.cap); }
    StepKeepsInv(s, c, s.disk, DoInspect(s.disk, k, io));
  }

  lemma PowerLossDisk(d: Disk, torn: map<FileId, Content>)
    requires DiskOk(d)
    ensures DiskOk(AfterPowerLoss(d, torn))
  {
    var d2 := AfterPowerLoss(d, torn);
    forall o | o in d2.root ensures DirOk(d2, o) {
      assert DirOk(d, o);
    }
  }

  lemma PowerLossWins(s: State, torn: map<FileId, Content>)
    requires WinsOk(s)
    ensures WinsOk(Next(s, PowerLoss(torn)))
  {
    var s2 := Next(s, PowerLoss(torn));
    forall o | o in s.won ensures DurablyClaimed(s2.disk, s2.calls[o].cap, s2.calls[o].auth) {
      assert DurablyClaimed(s.disk, s.calls[o].cap, s.calls[o].auth);
    }
    forall o | o in s.done ensures DurablyConsumed(s2.disk, s2.calls[o].cap, s2.calls[o].auth, s2.done[o]) {
      assert DurablyConsumed(s.disk, s.calls[o].cap, s.calls[o].auth, s.done[o]);
    }
  }

  lemma PowerLossInv(s: State, torn: map<FileId, Content>)
    requires Inv(s)
    ensures Inv(Next(s, PowerLoss(torn)))
  {
    var s2 := Next(s, PowerLoss(torn));
    PowerLossDisk(s.disk, torn);
    PowerLossWins(s, torn);
    forall o, q | Holds(s2, o) && Holds(s2, q) && s2.calls[o].cap == s2.calls[q].cap ensures o == q {
      assert Holds(s, o) && Holds(s, q);
    }
  }

  lemma WriteBackInv(s: State, d: Disk)
    requires Inv(s) && DiskOk(d) && forall c :: Keeps(s.disk, d, c)
    ensures Inv(s.(disk := d))
  {
    var s2 := s.(disk := d);
    forall o | o in s2.calls ensures CallOk(d, s2.won, o, s2.calls[o]) {
      KeepsCall(s.disk, d, s.won, s.won, o + 1, o, s.calls[o]);
    }
    forall o | o in s.won ensures DurablyClaimed(d, s.calls[o].cap, s.calls[o].auth) {
      KeepsWins(s.disk, d, 0, s.calls[o].cap, s.calls[o].auth);
    }
    forall o | o in s.done ensures DurablyConsumed(d, s.calls[o].cap, s.calls[o].auth, s.done[o]) {
      KeepsWins(s.disk, d, 0, s.calls[o].cap, s.calls[o].auth);
    }
    forall o, q | Holds(s2, o) && Holds(s2, q) && s2.calls[o].cap == s2.calls[q].cap ensures o == q {
      assert Holds(s, o) && Holds(s, q);
    }
  }

  lemma StartInv(s: State, c: CallId, k: Call)
    requires Inv(s) && c !in s.calls && (k.phase.Mkdir? || k.phase.LookDir?)
    ensures Inv(s.(calls := s.calls[c := k]))
  {
    var s2 := s.(calls := s.calls[c := k]);
    forall o, q | Holds(s2, o) && Holds(s2, q) && s2.calls[o].cap == s2.calls[q].cap ensures o == q {
      assert Holds(s, o) && Holds(s, q);
    }
    forall o | o in s2.calls ensures CallOk(s2.disk, s2.won, o, s2.calls[o]) {
      if o != c { assert CallOk(s.disk, s.won, o, s.calls[o]); }
    }
    forall o | o in s2.won ensures DurablyClaimed(s2.disk, s2.calls[o].cap, s2.calls[o].auth) {
      assert o in s.won;
    }
    forall o | o in s2.done ensures DurablyConsumed(s2.disk, s2.calls[o].cap, s2.calls[o].auth, s2.done[o]) {
      assert o in s.done && o in s.won;
    }
  }

  lemma StepInv(s: State, c: CallId, io: Io, newFile: FileId, junk: Content)
    requires Inv(s) && c in s.calls
    ensures Inv(DoStep(s, c, io, newFile, junk))
  {
    if Inspecting(s.calls[c].phase) {
      InspectInv(s, c, io);
    } else {
      match s.calls[c].phase
      case Mkdir => MkdirInv(s, c, io);
      case SyncRoot => SyncRootInv(s, c, io);
      case Publish(job, pub) => PublishInv(s, c, job, pub, io, newFile, junk);
      case Cleanup(job, why) => CleanupInv(s, c, job, why, io);
      case StatClaim(t) => FinalizingInv(s, c, t, io);
      case ReadClaim(t) => FinalizingInv(s, c, t, io);
      case _ =>
    }
  }

  /** Every step of every kind keeps the invariant. */
  lemma NextInv(s: State, a: Action)
    requires Inv(s)
    ensures Inv(Next(s, a))
  {
    match a
    case StartClaim(c, cap, auth) => if c !in s.calls { StartInv(s, c, Call(cap, auth, Mkdir)); }
    case StartInspect(c, cap, auth) => if c !in s.calls { StartInv(s, c, Call(cap, auth, LookDir)); }
    case StartComplete(c, t) =>
      if c in s.calls && s.calls[c].phase == Open {
        assert CallOk(s.disk, s.won, c, s.calls[c]);
        UnchangedKept(s.disk, c);
        StepKeepsInv(s, c, s.disk, StatClaim(t));
      }
    case Step(c, io, newFile, junk) => if c in s.calls { StepInv(s, c, io, newFile, junk); }
    case Kill(c) =>
      if c in s.calls {
        UnchangedKept(s.disk, c);
        StepKeepsInv(s, c, s.disk, Dead);
      }
    case WriteBackRoot(cap) =>
      if cap in s.disk.root {
        var d := s.disk.(rootMedium := s.disk.rootMedium + {cap});
        forall o | o in d.root ensures DirOk(d, o) { assert DirOk(s.disk, o); }
        WriteBackInv(s, d);
      }
    case WriteBackEntry(cap, name) =>
      if cap in s.disk.root {
        var d := EntryWrittenBack(s.disk, cap, name);
        forall c ensures DiskOk(d) && Keeps(s.disk, d, c) { EntryWrittenBackOk(s.disk, cap, name, c); }
        WriteBackInv(s, d);
      }
    case PowerLoss(torn) => PowerLossInv(s, torn);
  }

  lemma {:induction false} RunInv(s: State, actions: seq<Action>)
    requires Inv(s)
    ensures Inv(Run(s, actions))
    decreases |actions|
  {
    if actions != [] {
      NextInv(s, actions[0]);
      RunInv(Next(s, actions[0]), actions[1..]);
    }
  }

  lemma InitialInv()
    ensures Inv(INITIAL)
  {
  }
}
