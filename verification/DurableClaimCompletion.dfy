/** Completing a claim: over every run, with any failures, the only thing that can go wrong is I/O. */
module DurableClaimCompletion {
  import opened Outcomes
  import opened DurableClaimStore
  import opened DurableClaimSafety

  /** A call that has its directory and has not linked a terminal record. */
  predicate Pending(p: Phase) {
    || p.SyncRoot? || p.Open? || p.StatClaim? || p.ReadClaim?
    || (p.Publish? && (p.job.ForClaim? || p.pub.OpenTemp? || p.pub.WriteTemp? || p.pub.SyncTemp? || p.pub.LinkFinal?))
  }

  predicate NoTerminal(d: Disk, cap: Cap) {
    cap in d.root && TerminalJson !in d.root[cap].now
  }

  /** While a call is pending there is no terminal record; completions fail only with an I/O error. */
  predicate Tidy(d: Disk, k: Call) {
    && (Pending(k.phase) ==> NoTerminal(d, k.cap))
    && (k.phase.Cleanup? && k.phase.job.ForTerminal? ==> k.phase.why == IoFailed)
    && (k.phase.FailedClosed? ==> k.phase.why == IoFailed)
  }

  ghost predicate AllTidy(s: State) {
    forall c :: c in s.calls ==> Tidy(s.disk, s.calls[c])
  }

  /** The step publishes no terminal record, except its own. */
  ghost predicate NoNewTerminal(d1: Disk, d2: Disk, own: Option<Cap>) {
    forall cap :: NoTerminal(d1, cap) ==> NoTerminal(d2, cap) || own == Some(cap)
  }

  lemma StepTidy(s: State, c: CallId, d: Disk, p: Phase, own: Option<Cap>)
    requires Exclusive(s) && AllTidy(s) && c in s.calls && NoNewTerminal(s.disk, d, own)
    requires own.Some? ==> own.value == s.calls[c].cap && Holds(s, c)
    requires Tidy(d, s.calls[c].(phase := p))
    ensures AllTidy(Goto(s, c, d, p))
  {
    var s2 := Goto(s, c, d, p);
    forall o | o in s2.calls ensures Tidy(s2.disk, s2.calls[o]) {
      if o != c {
        assert Tidy(s.disk, s.calls[o]);
        if Pending(s.calls[o].phase) { assert Holds(s, o); }
      }
    }
  }

  // ----- publishing

  /** What one step of a publication does to the terminal record. */
  lemma PublishFinishes(s: State, c: CallId, job: Job, pub: Pub, io: Io, newFile: FileId, junk: Content)
    requires c in s.calls
    ensures NoNewTerminal(s.disk, DoPublish(s, c, job, pub, io, newFile, junk).disk,
                     if job.ForTerminal? && pub.LinkFinal? then Some(s.calls[c].cap) else None)
  {
  }

  lemma PublishTidy(s: State, c: CallId, job: Job, pub: Pub, io: Io, newFile: FileId, junk: Content)
    requires Exclusive(s) && AllTidy(s) && c in s.calls && s.calls[c].phase == Publish(job, pub)
    requires CallOk(s.disk, s.won, c, s.calls[c])
    ensures AllTidy(DoPublish(s, c, job, pub, io, newFile, junk))
  {
    var s2 := DoPublish(s, c, job, pub, io, newFile, junk);
    var own := if job.ForTerminal? && pub.LinkFinal? then Some(s.calls[c].cap) else None;
    assert Tidy(s.disk, s.calls[c]) && Holds(s, c);
    PublishFinishes(s, c, job, pub, io, newFile, junk);
    PublishedTidy(s, c, job, pub, io, newFile, junk);
    StepTidy(s, c, s2.disk, s2.calls[c].phase, own);
    assert s2.calls == Goto(s, c, s2.disk, s2.calls[c].phase).calls;
  }

  lemma PublishedTidy(s: State, c: CallId, job: Job, pub: Pub, io: Io, newFile: FileId, junk: Content)
    requires c in s.calls && s.calls[c].phase == Publish(job, pub) && Tidy(s.disk, s.calls[c])
    requires CallOk(s.disk, s.won, c, s.calls[c])
    ensures var s2 := DoPublish(s, c, job, pub, io, newFile, junk); Tidy(s2.disk, s2.calls[c])
  {
  }

  // ----- the other steps

  /** A new directory has no records, since a terminal record needs a claim record. */
  lemma MkdirTidy(s: State, c: CallId, io: Io)
    requires Exclusive(s) && AllTidy(s) && c in s.calls && s.calls[c].phase.Mkdir?
    ensures AllTidy(DoMkdir(s, c, io))
  {
    var s2 := DoMkdir(s, c, io);
    StepTidy(s, c, s2.disk, s2.calls[c].phase, None);
  }

  lemma SyncRootTidy(s: State, c: CallId, io: Io)
    requires Exclusive(s) && AllTidy(s) && c in s.calls && s.calls[c].phase.SyncRoot?
    ensures AllTidy(DoSyncRoot(s, c, io))
  {
    var s2 := DoSyncRoot(s, c, io);
    assert Tidy(s.disk, s.calls[c]);
    StepTidy(s, c, s2.disk, s2.calls[c].phase, None);
  }

  lemma CleanupTidy(s: State, c: CallId, job: Job, why: Error, io: Io)
    requires Exclusive(s) && AllTidy(s) && c in s.calls && s.calls[c].phase == Cleanup(job, why)
    ensures AllTidy(DoCleanup(s, c, job, why, io))
  {
    var s2 := DoCleanup(s, c, job, why, io);
    assert Tidy(s.disk, s.calls[c]);
    StepTidy(s, c, s2.disk, s2.calls[c].phase, None);
  }

  /** The claim that a completion reads back is always there, whole and its own. */
  lemma OwnClaimReads(s: State, c: CallId)
    requires Inv(s) && c in s.won
    ensures c in s.calls && Exists(s.disk, s.calls[c].cap, ClaimJson)
    ensures Read(s.disk, s.calls[c].cap, ClaimJson) == Some(ClaimBody(MakeClaim(s.calls[c].cap, s.calls[c].auth)))
  {
    assert DurablyClaimed(s.disk, s.calls[c].cap, s.calls[c].auth);
    assert DirOk(s.disk, s.calls[c].cap);
  }

  lemma StatTidy(s: State, c: CallId, t: Terminal, io: Io)
    requires Inv(s) && AllTidy(s) && c in s.calls && s.calls[c].phase == StatClaim(t)
    ensures AllTidy(DoStatClaim(s, c, t, io))
  {
    assert Tidy(s.disk, s.calls[c]) && CallOk(s.disk, s.won, c, s.calls[c]);
    OwnClaimReads(s, c);
    StepTidy(s, c, s.disk, DoStatClaim(s, c, t, io).calls[c].phase, None);
  }

  lemma ReadTidy(s: State, c: CallId, t: Terminal, io: Io)
    requires Inv(s) && AllTidy(s) && c in s.calls && s.calls[c].phase == ReadClaim(t)
    ensures AllTidy(DoReadClaim(s, c, t, io))
  {
    assert Tidy(s.disk, s.calls[c]) && CallOk(s.disk, s.won, c, s.calls[c]);
    OwnClaimReads(s, c);
    StepTidy(s, c, s.disk, DoReadClaim(s, c, t, io).calls[c].phase, None);
  }

  lemma InspectTidy(s: State, c: CallId, io: Io)
    requires Exclusive(s) && AllTidy(s) && c in s.calls && Inspecting(s.calls[c].phase)
    ensures AllTidy(Goto(s, c, s.disk, DoInspect(s.disk, s.calls[c], io)))
  {
    StepTidy(s, c, s.disk, DoInspect(s.disk, s.calls[c], io), None);
  }

  lemma CallTidy(s: State, c: CallId, io: Io, newFile: FileId, junk: Content)
    requires Inv(s) && AllTidy(s) && c in s.calls
    ensures AllTidy(DoStep(s, c, io, newFile, junk))
  {
    assert CallOk(s.disk, s.won, c, s.calls[c]);
    if Inspecting(s.calls[c].phase) {
      InspectTidy(s, c, io);
    } else {
      match s.calls[c].phase
      case Mkdir => MkdirTidy(s, c, io);
      case SyncRoot => SyncRootTidy(s, c, io);
      case Publish(job, pub) => PublishTidy(s, c, job, pub, io, newFile, junk);
      case Cleanup(job, why) => CleanupTidy(s, c, job, why, io);
      case StatClaim(t) => StatTidy(s, c, t, io);
      case ReadClaim(t) => ReadTidy(s, c, t, io);
      case _ =>
    }
  }

  lemma PowerLossTidy(s: State, torn: map<FileId, Content>)
    requires AllTidy(s)
    ensures AllTidy(Next(s, PowerLoss(torn)))
  {
  }

  lemma NextTidy(s: State, a: Action)
    requires Inv(s) && AllTidy(s)
    ensures AllTidy(Next(s, a))
  {
    match a
    case StartComplete(c, t) =>
      if c in s.calls && s.calls[c].phase == Open {
        assert Tidy(s.disk, s.calls[c]);
        StepTidy(s, c, s.disk, StatClaim(t), None);
      }
    case Step(c, io, newFile, junk) => if c in s.calls { CallTidy(s, c, io, newFile, junk); }
    case Kill(c) => if c in s.calls { StepTidy(s, c, s.disk, Dead, None); }
    case PowerLoss(torn) => PowerLossTidy(s, torn);
    case _ =>
  }

  lemma {:induction false} RunTidy(s: State, actions: seq<Action>)
    requires Inv(s) && AllTidy(s)
    ensures AllTidy(Run(s, actions))
    decreases |actions|
  {
    if actions != [] {
      NextInv(s, actions[0]);
      NextTidy(s, actions[0]);
      RunTidy(Next(s, actions[0]), actions[1..]);
    }
  }

  /** Over every run, whatever fails and whenever power is lost: a completion that fails has met an
      I/O error. It never finds its claim gone, corrupt or another's, nor a terminal record before
      its own, so those branches of `complete` are never taken. */
  lemma CompletionFailsOnlyByIo(actions: seq<Action>, c: CallId)
    requires c in Run(INITIAL, actions).calls && Run(INITIAL, actions).calls[c].phase.FailedClosed?
    ensures Run(INITIAL, actions).calls[c].phase.why == IoFailed
  {
    InitialInv();
    RunTidy(INITIAL, actions);
    assert Tidy(Run(INITIAL, actions).disk, Run(INITIAL, actions).calls[c]);
  }

  // ----- a completion that meets no failure

  /** The call has not opened a temporary file for a terminal record. */
  predicate Unopened(p: Phase) {
    !(p.Completed? || p.FailedClosed? || p.Dead?)
    && ((p.Publish? || p.Cleanup?) && p.job.ForTerminal? ==> p.Publish? && p.pub.OpenTemp?)
  }

  /** The names of temporary files for terminal records are free until their calls open them. */
  ghost predicate TempsFree(s: State) {
    forall c, cap :: Named(s.disk, cap, Temp(c, true)) ==> c in s.calls && !Unopened(s.calls[c].phase)
  }

  /** All new temporary names for terminal records are the call's. */
  ghost predicate NamesOnly(d1: Disk, d2: Disk, c: CallId) {
    forall o, cap :: Named(d2, cap, Temp(o, true)) ==> o == c || Named(d1, cap, Temp(o, true))
  }

  lemma StepFree(s: State, c: CallId, d: Disk, p: Phase)
    requires TempsFree(s) && c in s.calls && NamesOnly(s.disk, d, c)
    requires Unopened(p) ==> Unopened(s.calls[c].phase)
    requires Unopened(p) ==> forall cap :: Named(d, cap, Temp(c, true)) ==> Named(s.disk, cap, Temp(c, true))
    ensures TempsFree(Goto(s, c, d, p))
  {
  }

  lemma PublishFree(s: State, c: CallId, job: Job, pub: Pub, io: Io, newFile: FileId, junk: Content)
    requires TempsFree(s) && c in s.calls && s.calls[c].phase == Publish(job, pub)
    ensures TempsFree(DoPublish(s, c, job, pub, io, newFile, junk))
  {
    var s2 := DoPublish(s, c, job, pub, io, newFile, junk);
    StepFree(s, c, s2.disk, s2.calls[c].phase);
    assert s2.calls == Goto(s, c, s2.disk, s2.calls[c].phase).calls;
  }

  lemma CallFree(s: State, c: CallId, io: Io, newFile: FileId, junk: Content)
    requires TempsFree(s) && c in s.calls
    ensures TempsFree(DoStep(s, c, io, newFile, junk))
  {
    var p, s2 := s.calls[c].phase, DoStep(s, c, io, newFile, junk);
    if p.Publish? {
      PublishFree(s, c, p.job, p.pub, io, newFile, junk);
    } else {
      StepFree(s, c, s2.disk, s2.calls[c].phase);
      assert s2.calls == Goto(s, c, s2.disk, s2.calls[c].phase).calls;
    }
  }

  lemma NextFree(s: State, a: Action)
    requires TempsFree(s)
    ensures TempsFree(Next(s, a))
  {
    if a.Step? && a.c in s.calls {
      CallFree(s, a.c, a.io, a.newFile, a.junk);
    } else {
      var t := Next(s, a);
      forall c, cap | Named(t.disk, cap, Temp(c, true)) ensures c in t.calls && !Unopened(t.calls[c].phase) {
        assert Named(s.disk, cap, Temp(c, true));
      }
    }
  }

  lemma {:induction false} RunFree(s: State, actions: seq<Action>)
    requires TempsFree(s)
    ensures TempsFree(Run(s, actions))
    decreases |actions|
  {
    if actions != [] {
      NextFree(s, actions[0]);
      RunFree(Next(s, actions[0]), actions[1..]);
    }
  }

  /** The call is completing with this outcome, or has done so. */
  predicate Completing(p: Phase, t: Terminal) {
    p == StatClaim(t) || p == ReadClaim(t) || (p.Publish? && p.job == ForTerminal(t)) || p == Completed(t)
  }

  /** How many of its eight system calls a completion has made. */
  function CompletionCalls(p: Phase): nat {
    match p
    case ReadClaim(_) => 1
    case Publish(_, pub) =>
      (match pub
       case OpenTemp => 2
       case WriteTemp(_) => 3
       case SyncTemp(_) => 4
       case LinkFinal(_) => 5
       case UnlinkTemp(_) => 6
       case SyncDir(_) => 7)
    case Completed(_) => 8
    case _ => 0
  }

  /** Each good system call of a completion brings it one nearer to success, which is the eighth. */
  lemma CompletionAdvances(actions: seq<Action>, c: CallId, t: Terminal, newFile: FileId, junk: Content)
    requires var s := Run(INITIAL, actions);
             c in s.calls && Completing(s.calls[c].phase, t) && !s.calls[c].phase.Completed? && newFile !in s.disk.files
    ensures var s, s2 := Run(INITIAL, actions), Run(INITIAL, actions + [Step(c, Fine, newFile, junk)]);
            && c in s2.calls && Completing(s2.calls[c].phase, t)
            && CompletionCalls(s2.calls[c].phase) == CompletionCalls(s.calls[c].phase) + 1 <= 8
            && (s2.calls[c].phase.Completed? ==> c in s2.done && s2.done[c] == t)
  {
    var s := Run(INITIAL, actions);
    InitialInv();
    RunInv(INITIAL, actions);
    RunTidy(INITIAL, actions);
    RunFree(INITIAL, actions);
    RunSplit(INITIAL, actions, [Step(c, Fine, newFile, junk)]);
    assert [Step(c, Fine, newFile, junk)][1..] == [];
    AdvancesHere(s, c, t, newFile, junk);
  }

  /** The two reads with which a completion begins. */
  lemma ReadsAdvance(s: State, c: CallId, t: Terminal, newFile: FileId, junk: Content)
    requires Inv(s) && c in s.calls && (s.calls[c].phase == StatClaim(t) || s.calls[c].phase == ReadClaim(t))
    ensures var s2 := Next(s, Step(c, Fine, newFile, junk));
            && c in s2.calls && Completing(s2.calls[c].phase, t) && !s2.calls[c].phase.Completed?
            && CompletionCalls(s2.calls[c].phase) == CompletionCalls(s.calls[c].phase) + 1
  {
    assert CallOk(s.disk, s.won, c, s.calls[c]);
    OwnClaimReads(s, c);
  }

  lemma PublishAdvances(s: State, c: CallId, t: Terminal, pub: Pub, newFile: FileId, junk: Content)
    requires c in s.calls && s.calls[c].phase == Publish(ForTerminal(t), pub) && newFile !in s.disk.files
    requires CallOk(s.disk, s.won, c, s.calls[c]) && Tidy(s.disk, s.calls[c])
    requires pub.OpenTemp? ==> !Named(s.disk, s.calls[c].cap, Temp(c, true))
    ensures var s2 := DoPublish(s, c, ForTerminal(t), pub, Fine, newFile, junk);
            && c in s2.calls && Completing(s2.calls[c].phase, t)
            && CompletionCalls(s2.calls[c].phase) == CompletionCalls(s.calls[c].phase) + 1
            && (s2.calls[c].phase.Completed? ==> c in s2.done && s2.done[c] == t)
  {
  }

  lemma AdvancesHere(s: State, c: CallId, t: Terminal, newFile: FileId, junk: Content)
    requires Inv(s) && AllTidy(s) && TempsFree(s) && c in s.calls
    requires Completing(s.calls[c].phase, t) && !s.calls[c].phase.Completed? && newFile !in s.disk.files
    ensures var s2 := Next(s, Step(c, Fine, newFile, junk));
            && c in s2.calls && Completing(s2.calls[c].phase, t)
            && CompletionCalls(s2.calls[c].phase) == CompletionCalls(s.calls[c].phase) + 1
            && (s2.calls[c].phase.Completed? ==> c in s2.done && s2.done[c] == t)
  {
    var k := s.calls[c];
    if k.phase.Publish? {
      assert CallOk(s.disk, s.won, c, k) && Tidy(s.disk, k);
      PublishAdvances(s, c, t, k.phase.pub, newFile, junk);
    } else {
      ReadsAdvance(s, c, t, newFile, junk);
    }
  }
}
