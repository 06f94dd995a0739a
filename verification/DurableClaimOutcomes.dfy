/** What callers asked for and what they are told: over every run, records, results and errors go back
    to the very calls and system calls that they speak of. */
module DurableClaimOutcomes {
  import opened Outcomes
  import opened DurableClaimStore
  import opened DurableClaimSafety
  import opened DurableClaimTheorems
  import opened DurableClaimProgress
  import opened DurableClaimCompletion
  import opened DurableClaimFailures

  // ----- what was asked

  /** At step `i` the call was made as a claim. */
  predicate AskedClaim(actions: seq<Action>, i: int, c: CallId, cap: Cap, auth: Hash) {
    0 <= i < |actions| && actions[i] == StartClaim(c, cap, auth) && c !in Run(INITIAL, actions[..i]).calls
  }

  predicate AskedInspect(actions: seq<Action>, i: int, c: CallId, cap: Cap, auth: Hash) {
    0 <= i < |actions| && actions[i] == StartInspect(c, cap, auth) && c !in Run(INITIAL, actions[..i]).calls
  }

  /** At step `i` the holder of the open claim asked for its completion with this outcome. */
  predicate AskedCompletion(actions: seq<Action>, i: int, c: CallId, t: Terminal) {
    && 0 <= i < |actions| && actions[i] == StartComplete(c, t)
    && c in Run(INITIAL, actions[..i]).calls && Run(INITIAL, actions[..i]).calls[c].phase == Open
  }

  ghost predicate Claimant(actions: seq<Action>, c: CallId, cap: Cap, auth: Hash) {
    exists i :: AskedClaim(actions, i, c, cap, auth)
  }

  ghost predicate Inspector(actions: seq<Action>, c: CallId, cap: Cap, auth: Hash) {
    exists i :: AskedInspect(actions, i, c, cap, auth)
  }

  ghost predicate Completer(actions: seq<Action>, c: CallId, t: Terminal) {
    exists i :: AskedCompletion(actions, i, c, t)
  }

  lemma LongerAsked(actions: seq<Action>, a: Action, c: CallId)
    ensures forall cap, auth :: Claimant(actions, c, cap, auth) ==> Claimant(actions + [a], c, cap, auth)
    ensures forall cap, auth :: Inspector(actions, c, cap, auth) ==> Inspector(actions + [a], c, cap, auth)
    ensures forall t :: Completer(actions, c, t) ==> Completer(actions + [a], c, t)
  {
    var more := actions + [a];
    forall cap, auth | Claimant(actions, c, cap, auth) ensures Claimant(more, c, cap, auth) {
      var i :| AskedClaim(actions, i, c, cap, auth);
      assert more[..i] == actions[..i] && AskedClaim(more, i, c, cap, auth);
    }
    forall cap, auth | Inspector(actions, c, cap, auth) ensures Inspector(more, c, cap, auth) {
      var i :| AskedInspect(actions, i, c, cap, auth);
      assert more[..i] == actions[..i] && AskedInspect(more, i, c, cap, auth);
    }
    forall t | Completer(actions, c, t) ensures Completer(more, c, t) {
      var i :| AskedCompletion(actions, i, c, t);
      assert more[..i] == actions[..i] && AskedCompletion(more, i, c, t);
    }
  }

  lemma AskedNow(actions: seq<Action>, a: Action)
    ensures a.StartClaim? && a.c !in Run(INITIAL, actions).calls ==> Claimant(actions + [a], a.c, a.cap, a.auth)
    ensures a.StartInspect? && a.c !in Run(INITIAL, actions).calls ==> Inspector(actions + [a], a.c, a.cap, a.auth)
    ensures a.StartComplete? && a.c in Run(INITIAL, actions).calls && Run(INITIAL, actions).calls[a.c].phase == Open ==>
              Completer(actions + [a], a.c, a.terminal)
  {
    var more, n := actions + [a], |actions|;
    assert more[..n] == actions && more[n] == a;
    if a.StartClaim? && a.c !in Run(INITIAL, actions).calls { assert AskedClaim(more, n, a.c, a.cap, a.auth); }
    if a.StartInspect? && a.c !in Run(INITIAL, actions).calls { assert AskedInspect(more, n, a.c, a.cap, a.auth); }
    if a.StartComplete? && a.c in Run(INITIAL, actions).calls && Run(INITIAL, actions).calls[a.c].phase == Open {
      assert AskedCompletion(more, n, a.c, a.terminal);
    }
  }

  // ----- what phases and results go back to

  predicate Looks(p: Phase) {
    Inspecting(p) || p.Inspected?
  }

  /** A phase of a claim and of what its handle is used for. */
  predicate Claims(p: Phase) {
    !Looks(p) && !p.Dead?
  }

  /** The outcome with which the call is being completed, or has been. */
  function Wanted(p: Phase): Option<Terminal> {
    match p
    case StatClaim(t) => Some(t)
    case ReadClaim(t) => Some(t)
    case Publish(job, _) => if job.ForTerminal? then Some(job.terminal) else None
    case Cleanup(job, _) => if job.ForTerminal? then Some(job.terminal) else None
    case Completed(t) => Some(t)
    case _ => None
  }

  ghost predicate CallHistory(actions: seq<Action>, s: State, c: CallId)
    requires c in s.calls
  {
    var k := s.calls[c];
    && (Looks(k.phase) ==> Inspector(actions, c, k.cap, k.auth))
    && (Claims(k.phase) || c in s.won ==> Claimant(actions, c, k.cap, k.auth))
    && (Wanted(k.phase).Some? ==> Completer(actions, c, Wanted(k.phase).value))
    && (c in s.done ==> Completer(actions, c, s.done[c]))
  }

  /** The call stays what it is, and takes over only what it was asked for. */
  predicate Descends(s: State, t: State, c: CallId)
    requires c in s.calls
  {
    && c in t.calls && t.calls[c].cap == s.calls[c].cap && t.calls[c].auth == s.calls[c].auth
    && (Looks(t.calls[c].phase) ==> Looks(s.calls[c].phase))
    && (Claims(t.calls[c].phase) ==> Claims(s.calls[c].phase))
    && (c in t.won ==> c in s.won || Claims(s.calls[c].phase))
    && (Wanted(t.calls[c].phase).Some? ==> Wanted(t.calls[c].phase) == Wanted(s.calls[c].phase))
    && (c in t.done ==> (c in s.done && t.done[c] == s.done[c]) || Wanted(s.calls[c].phase) == Some(t.done[c]))
  }

  /** A phase of a publication, or one that it leads to. */
  predicate Publishes(job: Job, p: Phase) {
    match p
    case Publish(j, _) => j == job
    case Cleanup(j, _) => j == job
    case ClaimRefused(_) => job.ForClaim?
    case Open => job.ForClaim?
    case FailedClosed(_) => job.ForTerminal?
    case Completed(t) => job == ForTerminal(t)
    case _ => false
  }

  lemma PublishPhase(s: State, c: CallId, job: Job, pub: Pub, io: Io, newFile: FileId, junk: Content)
    requires c in s.calls && s.calls[c].phase == Publish(job, pub)
    ensures var t := DoPublish(s, c, job, pub, io, newFile, junk); c in t.calls && Publishes(job, t.calls[c].phase)
  {
  }

  lemma PublishedIsClaim(job: Job, p: Phase)
    requires Publishes(job, p)
    ensures Claims(p) && (Wanted(p).Some? ==> job == ForTerminal(Wanted(p).value))
  {
  }

  lemma PublishResults(s: State, c: CallId, job: Job, pub: Pub, io: Io, newFile: FileId, junk: Content)
    requires c in s.calls && s.calls[c].phase == Publish(job, pub)
    ensures var t := DoPublish(s, c, job, pub, io, newFile, junk);
            c in t.done ==> (c in s.done && t.done[c] == s.done[c]) || job == ForTerminal(t.done[c])
  {
  }

  lemma PublishDescends(s: State, c: CallId, job: Job, pub: Pub, io: Io, newFile: FileId, junk: Content)
    requires c in s.calls && s.calls[c].phase == Publish(job, pub)
    ensures Descends(s, DoPublish(s, c, job, pub, io, newFile, junk), c)
  {
    PublishExtends(s, c, job, pub, io, newFile, junk);
    PublishPhase(s, c, job, pub, io, newFile, junk);
    PublishedIsClaim(job, DoPublish(s, c, job, pub, io, newFile, junk).calls[c].phase);
    PublishResults(s, c, job, pub, io, newFile, junk);
  }

  lemma OtherStepDescends(s: State, c: CallId, io: Io, newFile: FileId, junk: Content)
    requires c in s.calls && !s.calls[c].phase.Publish?
    ensures Descends(s, DoStep(s, c, io, newFile, junk), c)
  {
  }

  lemma StepDescends(s: State, c: CallId, io: Io, newFile: FileId, junk: Content)
    requires c in s.calls
    ensures Descends(s, DoStep(s, c, io, newFile, junk), c)
  {
    if s.calls[c].phase.Publish? {
      PublishDescends(s, c, s.calls[c].phase.job, s.calls[c].phase.pub, io, newFile, junk);
    } else {
      OtherStepDescends(s, c, io, newFile, junk);
    }
  }

  /** What a step leaves as it was, except its call's own. */
  predicate OthersSame(s: State, t: State, c: CallId, o: CallId) {
    o in s.calls && o != c ==>
      o in t.calls && t.calls[o] == s.calls[o] && (o in t.won ==> o in s.won)
      && (o in t.done ==> o in s.done && t.done[o] == s.done[o])
  }

  lemma PublishOthers(s: State, c: CallId, job: Job, pub: Pub, io: Io, newFile: FileId, junk: Content, o: CallId)
    requires c in s.calls
    ensures OthersSame(s, DoPublish(s, c, job, pub, io, newFile, junk), c, o)
  {
  }

  lemma StepOthers(s: State, c: CallId, io: Io, newFile: FileId, junk: Content, o: CallId)
    requires c in s.calls
    ensures OthersSame(s, DoStep(s, c, io, newFile, junk), c, o)
  {
    var p := s.calls[c].phase;
    if p.Publish? { PublishOthers(s, c, p.job, p.pub, io, newFile, junk, o); }
  }

  /** No step makes a call anything that it was not asked for. */
  lemma StepOrigin(s: State, a: Action, c: CallId)
    requires c in s.calls
    ensures Descends(s, Next(s, a), c)
            || (s.calls[c].phase == Open && a.StartComplete? && a.c == c && c in Next(s, a).calls
                && Next(s, a) == s.(calls := Next(s, a).calls)
                && Next(s, a).calls[c] == s.calls[c].(phase := Next(s, a).calls[c].phase)
                && Claims(Next(s, a).calls[c].phase) && Wanted(Next(s, a).calls[c].phase) == Some(a.terminal))
  {
    if a.Step? && a.c in s.calls {
      if a.c == c {
        StepDescends(s, c, a.io, a.newFile, a.junk);
      } else {
        StepOthers(s, a.c, a.io, a.newFile, a.junk, c);
      }
    }
  }

  /** A call comes into being by being asked. */
  lemma NewOrigin(s: State, a: Action, c: CallId)
    requires c !in s.calls && c in Next(s, a).calls && s.won <= s.calls.Keys && s.done.Keys <= s.calls.Keys
    ensures var t := Next(s, a);
            && c !in t.won && c !in t.done && Wanted(t.calls[c].phase).None?
            && (Claims(t.calls[c].phase) ==> a == StartClaim(c, t.calls[c].cap, t.calls[c].auth))
            && (Looks(t.calls[c].phase) ==> a == StartInspect(c, t.calls[c].cap, t.calls[c].auth))
            && !t.calls[c].phase.Dead?
  {
    StartTouchesNothing(s, a, c);
  }

  ghost predicate History(actions: seq<Action>, s: State) {
    forall c :: c in s.calls ==> CallHistory(actions, s, c)
  }

  lemma NextHistory(actions: seq<Action>, a: Action)
    requires History(actions, Run(INITIAL, actions))
    ensures History(actions + [a], Run(INITIAL, actions + [a]))
  {
    var s, t := Run(INITIAL, actions), Run(INITIAL, actions + [a]);
    RunSnoc(INITIAL, actions, a);
    AskedNow(actions, a);
    ReachableInv(actions);
    forall c | c in t.calls ensures CallHistory(actions + [a], t, c) {
      LongerAsked(actions, a, c);
      if c in s.calls {
        StepOrigin(s, a, c);
        assert CallHistory(actions, s, c);
      } else {
        NewOrigin(s, a, c);
      }
    }
  }

  lemma {:induction false} ReachableHistory(actions: seq<Action>)
    ensures History(actions, Run(INITIAL, actions))
    decreases |actions|
  {
    if actions != [] {
      var n := |actions| - 1;
      ReachableHistory(actions[..n]);
      NextHistory(actions[..n], actions[n]);
      assert actions == actions[..n] + [actions[n]];
    }
  }

  /** A claim that succeeded was asked for, with this capability and authorization; a completion that
      returned or succeeded was asked for by its claim's open handle, with this very outcome. */
  lemma ResultsWereAsked(actions: seq<Action>, c: CallId)
    requires c in Run(INITIAL, actions).calls
    ensures var s := Run(INITIAL, actions);
            var k := s.calls[c];
            && (c in s.won || k.phase == Open ==> exists i :: AskedClaim(actions, i, c, k.cap, k.auth))
            && (c in s.done ==> exists i :: AskedCompletion(actions, i, c, s.done[c]))
            && (k.phase.Completed? ==> exists i :: AskedCompletion(actions, i, c, k.phase.terminal))
            && (Inspecting(k.phase) || k.phase.Inspected? ==> exists i :: AskedInspect(actions, i, c, k.cap, k.auth))
  {
    ReachableHistory(actions);
    var s := Run(INITIAL, actions);
    var k := s.calls[c];
    assert CallHistory(actions, s, c);
    if c in s.won || k.phase == Open { assert Claimant(actions, c, k.cap, k.auth); }
    if c in s.done { assert Completer(actions, c, s.done[c]); }
    if k.phase.Completed? { assert Completer(actions, c, k.phase.terminal); }
    if Looks(k.phase) { assert Inspector(actions, c, k.cap, k.auth); }
  }

  /** What a call has been told is what has been counted as its success. */
  ghost predicate Told(s: State) {
    forall c :: c in s.calls && s.calls[c].phase.Completed? ==> c in s.done && s.done[c] == s.calls[c].phase.terminal
  }

  lemma PublishTold(s: State, c: CallId, job: Job, pub: Pub, io: Io, newFile: FileId, junk: Content)
    requires Told(s) && c in s.calls
    ensures Told(DoPublish(s, c, job, pub, io, newFile, junk))
  {
  }

  lemma NextTold(s: State, a: Action)
    requires Told(s)
    ensures Told(Next(s, a))
  {
    if a.Step? && a.c in s.calls && s.calls[a.c].phase.Publish? {
      var p := s.calls[a.c].phase;
      PublishTold(s, a.c, p.job, p.pub, a.io, a.newFile, a.junk);
    }
  }

  lemma {:induction false} ReachableTold(actions: seq<Action>)
    ensures Told(Run(INITIAL, actions))
    decreases |actions|
  {
    if actions != [] {
      var n := |actions| - 1;
      assert actions == actions[..n] + [actions[n]];
      RunSnoc(INITIAL, actions[..n], actions[n]);
      ReachableTold(actions[..n]);
      NextTold(Run(INITIAL, actions[..n]), actions[n]);
    }
  }

  /** Whoever has been told of a success can rely on it: an open claim's record is on the medium for good, and so
      is the terminal record of a completion that returned, with the outcome it was told. */
  lemma ToldIsDurable(actions: seq<Action>, more: seq<Action>, c: CallId)
    requires c in Run(INITIAL, actions).calls
    ensures var k, later := Run(INITIAL, actions).calls[c], Run(INITIAL, actions + more).disk;
            && (k.phase == Open ==> DurablyClaimed(later, k.cap, k.auth))
            && (k.phase.Completed? ==> DurablyConsumed(later, k.cap, k.auth, k.phase.terminal))
  {
    var s := Run(INITIAL, actions);
    ReachableInv(actions);
    ReachableTold(actions);
    assert CallOk(s.disk, s.won, c, s.calls[c]);
    if s.calls[c].phase == Open { ClaimSurvives(actions, more, c); }
    if s.calls[c].phase.Completed? { CompletionSurvives(actions, more, c); }
  }

  // ----- what records go back to

  /** The bytes are those of the record with which `c` claimed `cap` for `auth`. */
  ghost predicate ClaimSays(actions: seq<Action>, content: Content, cap: Cap, c: CallId, auth: Hash) {
    && content == ClaimBody(ClaimRecord(cap, auth, ClaimDigest(cap, auth)))
    && Claimant(actions, c, cap, auth)
  }

  /** The bytes are those of the record with which `c` completed its claim of `cap` with `t`. */
  ghost predicate TerminalSays(actions: seq<Action>, content: Content, cap: Cap, c: CallId, auth: Hash, t: Terminal) {
    && content == TerminalBody(TerminalRecord(cap, auth, ClaimDigest(cap, auth), t,
                                              TerminalDigest(cap, auth, ClaimDigest(cap, auth), t)))
    && Claimant(actions, c, cap, auth) && Completer(actions, c, t)
  }

  ghost predicate RecordSays(actions: seq<Action>, content: Content, cap: Cap, name: Name) {
    match name
    case ClaimJson => exists c, auth :: ClaimSays(actions, content, cap, c, auth)
    case TerminalJson => exists c, auth, t :: TerminalSays(actions, content, cap, c, auth, t)
    case Temp(_, _) => true
  }

  ghost predicate RecordsSay(actions: seq<Action>, d: Disk) {
    forall cap, name :: Exists(d, cap, name) && !name.Temp? ==>
      d.root[cap].now[name] in d.files && RecordSays(actions, d.files[d.root[cap].now[name]].content, cap, name)
  }

  lemma LongerSays(actions: seq<Action>, a: Action, content: Content, cap: Cap, name: Name)
    requires RecordSays(actions, content, cap, name)
    ensures RecordSays(actions + [a], content, cap, name)
  {
    match name
    case ClaimJson =>
      var c, auth :| ClaimSays(actions, content, cap, c, auth);
      LongerAsked(actions, a, c);
      assert ClaimSays(actions + [a], content, cap, c, auth);
    case TerminalJson =>
      var c, auth, t :| TerminalSays(actions, content, cap, c, auth, t);
      LongerAsked(actions, a, c);
      assert TerminalSays(actions + [a], content, cap, c, auth, t);
    case _ =>
  }

  /** The record that a call is about to link is the one it was asked for. */
  lemma LinkSays(actions: seq<Action>, a: Action, c: CallId, job: Job)
    requires LinksAt(Run(INITIAL, actions), a, c, job) && History(actions, Run(INITIAL, actions))
    ensures var s := Run(INITIAL, actions);
            var f := s.calls[c].phase.pub.f;
            && f in s.disk.files && s.disk.files[f].synced
            && RecordSays(actions, s.disk.files[f].content, s.calls[c].cap, Target(job))
  {
    var s := Run(INITIAL, actions);
    var k := s.calls[c];
    ReachableInv(actions);
    assert CallOk(s.disk, s.won, c, k) && CallHistory(actions, s, c);
    if job.ForClaim? {
      assert ClaimSays(actions, s.disk.files[k.phase.pub.f].content, k.cap, c, k.auth);
    } else {
      assert TerminalSays(actions, s.disk.files[k.phase.pub.f].content, k.cap, c, k.auth, job.terminal);
    }
  }

  lemma NextSays(actions: seq<Action>, a: Action, cap: Cap, name: Name)
    requires RecordsSay(actions, Run(INITIAL, actions).disk) && History(actions, Run(INITIAL, actions))
    requires Exists(Next(Run(INITIAL, actions), a).disk, cap, name) && !name.Temp?
    ensures var d := Next(Run(INITIAL, actions), a).disk;
            && d.root[cap].now[name] in d.files
            && RecordSays(actions + [a], d.files[d.root[cap].now[name]].content, cap, name)
  {
    var s := Run(INITIAL, actions);
    var d := Next(s, a).disk;
    ReachableInv(actions);
    FinalNames(s, a, cap, name);
    var f := d.root[cap].now[name];
    if SameEntry(s.disk, d, cap, name) {
      EntrySynced(s.disk, cap, name);
    } else {
      var job :| LinksAt(s, a, LinkerOf(a), job) && name == Target(job)
                 && cap == s.calls[LinkerOf(a)].cap && f == s.calls[LinkerOf(a)].phase.pub.f;
      LinkSays(actions, a, LinkerOf(a), job);
    }
    SyncedFilesStay(s, a, f);
    LongerSays(actions, a, s.disk.files[f].content, cap, name);
  }

  lemma {:induction false} ReachableSays(actions: seq<Action>)
    ensures RecordsSay(actions, Run(INITIAL, actions).disk)
    decreases |actions|
  {
    if actions != [] {
      var n := |actions| - 1;
      var init, a := actions[..n], actions[n];
      assert actions == init + [a];
      ReachableSays(init);
      ReachableHistory(init);
      RunSnoc(INITIAL, init, a);
      var d := Run(INITIAL, actions).disk;
      forall cap, name | Exists(d, cap, name) && !name.Temp?
        ensures d.root[cap].now[name] in d.files
                && RecordSays(actions, d.files[d.root[cap].now[name]].content, cap, name)
      {
        NextSays(init, a, cap, name);
      }
    }
  }

  /** Over every run, whatever fails and whenever power is lost: a claim record that can be read or is on
      the medium says exactly what the call that claimed was asked for, and a terminal record exactly what
      its claim's handle was asked to complete it with. */
  lemma RecordsSayWhatWasAsked(actions: seq<Action>, cap: Cap, name: Name)
    requires Named(Run(INITIAL, actions).disk, cap, name) && !name.Temp?
    ensures var d := Run(INITIAL, actions).disk;
            var dir := d.root[cap];
            && name in dir.now && dir.now[name] in d.files
            && (name in dir.medium ==> dir.medium[name] == dir.now[name])
            && (name == ClaimJson ==>
                  exists c, auth :: ClaimSays(actions, d.files[dir.now[name]].content, cap, c, auth))
            && (name == TerminalJson ==>
                  exists c, auth, t :: TerminalSays(actions, d.files[dir.now[name]].content, cap, c, auth, t))
  {
    ReachableInv(actions);
    ReachableSays(actions);
    var d := Run(INITIAL, actions).disk;
    assert DirOk(d, cap);
    assert RecordSays(actions, d.files[d.root[cap].now[name]].content, cap, name);
  }

  // ----- inspections

  /** The claim of the capability is this authorization's. */
  predicate ClaimedBy(d: Disk, cap: Cap, auth: Hash) {
    Read(d, cap, ClaimJson) == Some(ClaimBody(ClaimRecord(cap, auth, ClaimDigest(cap, auth))))
  }

  /** An outcome is reported as it stands in the terminal record of the inspection's own authorization. */
  lemma ReportedTerminal(d: Disk, won: set<CallId>, c: CallId, k: Call, io: Io, t: Terminal)
    requires CallOk(d, won, c, k) && Inspecting(k.phase) && DoInspect(d, k, io) == Inspected(Ok(Consumed(t)))
    ensures Exists(d, k.cap, TerminalJson)
    ensures var content := Read(d, k.cap, TerminalJson);
            && content.Some? && content.value.TerminalBody?
            && content.value.record.auth == k.auth && content.value.record.terminal == t
  {
  }

  lemma FinishesByReading(s: State, a: Action, c: CallId, r: Result<Observed, Error>)
    requires Finishes(s, a, c, r)
    ensures Inspecting(s.calls[c].phase) && DoInspect(s.disk, s.calls[c], a.io) == Inspected(r)
  {
  }

  lemma HolderSees(d: Disk, won: set<CallId>, c: CallId, k: Call, io: Io, o: Observed)
    requires CallOk(d, won, c, k) && Inspecting(k.phase) && DoInspect(d, k, io) == Inspected(Ok(o))
    requires o.Reserved? || o.Consumed?
    ensures ClaimedBy(d, k.cap, k.auth)
  {
  }

  lemma ReportedAsAsked(actions: seq<Action>, a: Action, c: CallId, t: Terminal)
    requires Finishes(Run(INITIAL, actions), a, c, Ok(Consumed(t)))
    ensures var k := Run(INITIAL, actions).calls[c];
            exists o :: Claimant(actions, o, k.cap, k.auth) && Completer(actions, o, t)
  {
    var s := Run(INITIAL, actions);
    var k := s.calls[c];
    ReachableInv(actions);
    assert CallOk(s.disk, s.won, c, k);
    FinishesByReading(s, a, c, Ok(Consumed(t)));
    ReportedTerminal(s.disk, s.won, c, k, a.io, t);
    RecordsSayWhatWasAsked(actions, k.cap, TerminalJson);
    var content := s.disk.files[s.disk.root[k.cap].now[TerminalJson]].content;
    var o, auth, u :| TerminalSays(actions, content, k.cap, o, auth, u);
    assert Claimant(actions, o, k.cap, k.auth) && Completer(actions, o, t);
  }

  /** Over every run: an inspection reports a claim, or its outcome, only to the authorization that holds
      it, and the outcome only as it was asked for. */
  lemma {:induction false} ReportedToTheHolder(actions: seq<Action>, a: Action, c: CallId, r: Result<Observed, Error>)
    requires Finishes(Run(INITIAL, actions), a, c, r) && r.Ok? && (r.value.Reserved? || r.value.Consumed?)
    ensures var s := Run(INITIAL, actions);
            var k := s.calls[c];
            && Inspector(actions, c, k.cap, k.auth) && ClaimedBy(s.disk, k.cap, k.auth)
            && (r.value.Consumed? ==>
                  exists o :: Claimant(actions, o, k.cap, k.auth) && Completer(actions, o, r.value.terminal))
  {
    var s := Run(INITIAL, actions);
    var k := s.calls[c];
    ReachableInv(actions);
    ReachableHistory(actions);
    assert CallHistory(actions, s, c) && CallOk(s.disk, s.won, c, k);
    FinishesByReading(s, a, c, r);
    HolderSees(s.disk, s.won, c, k, a.io, r.value);
    if r.value.Consumed? { ReportedAsAsked(actions, a, c, r.value.terminal); }
  }

  /** And any other authorization is refused: the good read of the claim ends an inspection with the binding
      error if and only if the claim is another's, and otherwise leads on. */
  lemma OthersAreRefused(actions: seq<Action>, a: Action, c: CallId)
    requires c in Run(INITIAL, actions).calls && Run(INITIAL, actions).calls[c].phase == GetClaim
    requires a.Step? && a.c == c && a.io == Fine
    ensures var s := Run(INITIAL, actions);
            var k, p := s.calls[c], Next(s, a).calls[c].phase;
            && (p == Inspected(Err(BindingMismatch)) <==> !ClaimedBy(s.disk, k.cap, k.auth))
            && (p == Inspected(Err(BindingMismatch)) <==> ClaimedByAnother(s.disk, k))
            && (p.LookTerminal? <==> ClaimedBy(s.disk, k.cap, k.auth))
  {
    ReachableInv(actions);
    var s := Run(INITIAL, actions);
    assert CallOk(s.disk, s.won, c, s.calls[c]) && DirOk(s.disk, s.calls[c].cap);
  }

  /** What an inspection that is left alone should answer. */
  function Answer(d: Disk, cap: Cap, auth: Hash): Result<Observed, Error> {
    match Abstract(d, cap)
    case Absent => Ok(Absent)
    case ReservedIncomplete => Ok(ReservedIncomplete)
    case o => if ClaimedBy(d, cap, auth) then Ok(o) else Err(BindingMismatch)
  }

  /** How many reads an inspection may still make. */
  function ReadsLeft(p: Phase): nat {
    match p
    case LookDir => 5
    case LookClaim => 4
    case GetClaim => 3
    case LookTerminal(_) => 2
    case GetTerminal(_) => 1
    case _ => 0
  }

  /** An inspection on a disk that answers so far as its earlier reads have seen. */
  predicate OnTheWay(d: Disk, k: Call) {
    match k.phase
    case LookDir => true
    case LookClaim => k.cap in d.root
    case GetClaim => Exists(d, k.cap, ClaimJson)
    case LookTerminal(claim) => claim == MakeClaim(k.cap, k.auth) && ClaimedBy(d, k.cap, k.auth)
    case GetTerminal(claim) =>
      claim == MakeClaim(k.cap, k.auth) && ClaimedBy(d, k.cap, k.auth) && Exists(d, k.cap, TerminalJson)
    case Inspected(r) => r == Answer(d, k.cap, k.auth)
    case _ => false
  }

  lemma GoodRead(s: State, a: Action, c: CallId)
    requires DiskOk(s.disk) && c in s.calls && OnTheWay(s.disk, s.calls[c]) && Inspecting(s.calls[c].phase)
    requires a.Step? && a.c == c && a.io == Fine
    ensures var t := Next(s, a);
            && t.disk == s.disk && c in t.calls
            && t.calls[c].cap == s.calls[c].cap && t.calls[c].auth == s.calls[c].auth
            && OnTheWay(t.disk, t.calls[c]) && ReadsLeft(t.calls[c].phase) < ReadsLeft(s.calls[c].phase)
  {
    if s.calls[c].cap in s.disk.root { assert DirOk(s.disk, s.calls[c].cap); }
  }

  /** The reads belong to the inspection, and all of them are good. */
  predicate GoodReads(steps: seq<Action>, c: CallId) {
    forall i :: 0 <= i < |steps| ==> steps[i].Step? && steps[i].c == c && steps[i].io == Fine
  }

  lemma {:induction false} GoodReadsAnswer(s: State, steps: seq<Action>, c: CallId)
    requires DiskOk(s.disk) && c in s.calls && OnTheWay(s.disk, s.calls[c]) && GoodReads(steps, c)
    requires ReadsLeft(s.calls[c].phase) <= |steps|
    ensures var t := Run(s, steps);
            && t.disk == s.disk && c in t.calls
            && t.calls[c].phase == Inspected(Answer(s.disk, s.calls[c].cap, s.calls[c].auth))
    decreases |steps|
  {
    if steps != [] {
      if Inspecting(s.calls[c].phase) { GoodRead(s, steps[0], c); }
      GoodReadsAnswer(Next(s, steps[0]), steps[1..], c);
    }
  }

  /** Left alone, an inspection whose reads are good answers after at most five of them: with the abstract
      state, except that a claim held by another authorization is not told. It changes nothing on the disk. */
  lemma QuietInspection(before: seq<Action>, c: CallId, cap: Cap, auth: Hash, steps: seq<Action>)
    requires c !in Run(INITIAL, before).calls && GoodReads(steps, c) && |steps| >= 5
    ensures var d, t := Run(INITIAL, before).disk, Run(INITIAL, before + [StartInspect(c, cap, auth)] + steps);
            && t.disk == d && c in t.calls && t.calls[c].cap == cap && t.calls[c].auth == auth
            && t.calls[c].phase == Inspected(Answer(d, cap, auth))
  {
    var start := StartInspect(c, cap, auth);
    ReachableInv(before);
    RunSnoc(INITIAL, before, start);
    RunSplit(INITIAL, before + [start], steps);
    GoodReadsAnswer(Run(INITIAL, before + [start]), steps, c);
    RunExtends(Run(INITIAL, before + [start]), steps);
  }

  lemma KnownAfter(actions: seq<Action>, i: nat, j: nat, c: CallId)
    requires i < j <= |actions| && c in Next(Run(INITIAL, actions[..i]), actions[i]).calls
    ensures c in Run(INITIAL, actions[..j]).calls
  {
    var init, more := actions[..i], actions[i + 1..j];
    assert actions[..j] == init + [actions[i]] + more;
    RunSnoc(INITIAL, init, actions[i]);
    RunSplit(INITIAL, init + [actions[i]], more);
    RunExtends(Run(INITIAL, init + [actions[i]]), more);
  }

  lemma AskedOnce(actions: seq<Action>, i: int, j: int, c: CallId, cap: Cap, auth: Hash, cap2: Cap, auth2: Hash)
    requires AskedInspect(actions, i, c, cap, auth)
    ensures !AskedClaim(actions, j, c, cap2, auth2)
  {
    if 0 <= i < j <= |actions| { KnownAfter(actions, i, j, c); }
    if AskedClaim(actions, j, c, cap2, auth2) && j < i { KnownAfter(actions, j, i, c); }
  }

  lemma InspectionStays(actions: seq<Action>, i: int, c: CallId, cap: Cap, auth: Hash)
    requires AskedInspect(actions, i, c, cap, auth)
    ensures var s := Run(INITIAL, actions);
            c !in s.won && (c in s.calls ==> Looks(s.calls[c].phase) || s.calls[c].phase.Dead?)
  {
    var s := Run(INITIAL, actions);
    ReachableHistory(actions);
    ReachableInv(actions);
    if c in s.calls {
      var k := s.calls[c];
      assert CallHistory(actions, s, c);
      forall j ensures !AskedClaim(actions, j, c, k.cap, k.auth) {
        AskedOnce(actions, i, j, c, cap, auth, k.cap, k.auth);
      }
      assert !Claimant(actions, c, k.cap, k.auth);
    }
  }

  lemma LookKeeps(s: State, a: Action, c: CallId)
    requires a.Step? && a.c == c && (c in s.calls ==> Looks(s.calls[c].phase) || s.calls[c].phase.Dead?)
    ensures var t := Next(s, a);
            && t.disk == s.disk && t.won == s.won && t.done == s.done
            && t.calls.Keys == s.calls.Keys && forall o :: o in s.calls && o != c ==> t.calls[o] == s.calls[o]
  {
  }

  /** No step of a call that was made as an inspection changes the disk, another call or a success. */
  lemma InspectionsOnlyRead(actions: seq<Action>, i: int, c: CallId, cap: Cap, auth: Hash, a: Action)
    requires AskedInspect(actions, i, c, cap, auth) && a.Step? && a.c == c
    ensures var s, t := Run(INITIAL, actions), Next(Run(INITIAL, actions), a);
            && c !in s.won && t.disk == s.disk && t.won == s.won && t.done == s.done
            && t.calls.Keys == s.calls.Keys && forall o :: o in s.calls && o != c ==> t.calls[o] == s.calls[o]
  {
    InspectionStays(actions, i, c, cap, auth);
    LookKeeps(Run(INITIAL, actions), a, c);
  }

  // ----- what errors go back to

  /** At step `i` a system call of the claim reported a failure. */
  predicate ClaimStepFailed(actions: seq<Action>, i: int, c: CallId) {
    && 0 <= i < |actions| && actions[i].Step? && actions[i].c == c && actions[i].io != Fine
    && var s := Run(INITIAL, actions[..i]);
       && c in s.calls
       && (s.calls[c].phase.Mkdir? || s.calls[c].phase.SyncRoot?
           || (s.calls[c].phase.Publish? && s.calls[c].phase.job.ForClaim?))
  }

  /** At step `i` a system call of the completion reported a failure. */
  predicate CompletionStepFailed(actions: seq<Action>, i: int, c: CallId) {
    && 0 <= i < |actions| && actions[i].Step? && actions[i].c == c && actions[i].io != Fine
    && var s := Run(INITIAL, actions[..i]);
       && c in s.calls
       && (s.calls[c].phase.StatClaim? || s.calls[c].phase.ReadClaim?
           || (s.calls[c].phase.Publish? && s.calls[c].phase.job.ForTerminal?))
  }

  /** At step `i` the claim tried to make the capability's directory, which was there. */
  predicate FoundDirectory(actions: seq<Action>, i: int, c: CallId) {
    && 0 <= i < |actions| && actions[i].Step? && actions[i].c == c && actions[i].io != FailsBefore
    && var s := Run(INITIAL, actions[..i]);
       c in s.calls && s.calls[c].phase.Mkdir? && s.calls[c].cap in s.disk.root
  }

  /** The error of a failed call, or of one that is about to fail, and whether the claim itself failed. */
  function ErrorOf(p: Phase): Option<(bool, Error)> {
    match p
    case ClaimRefused(why) => Some((true, why))
    case Cleanup(job, why) => Some((job.ForClaim?, why))
    case FailedClosed(why) => Some((false, why))
    case _ => None
  }

  ghost predicate Reason(actions: seq<Action>, c: CallId, e: (bool, Error)) {
    match e
    case (true, why) =>
      || (why == Replay && exists i :: FoundDirectory(actions, i, c))
      || (why == IoFailed && exists i :: ClaimStepFailed(actions, i, c))
    case (false, why) => why == IoFailed && exists i :: CompletionStepFailed(actions, i, c)
  }

  lemma LongerReason(actions: seq<Action>, a: Action, c: CallId, e: (bool, Error))
    requires Reason(actions, c, e)
    ensures Reason(actions + [a], c, e)
  {
    var more := actions + [a];
    if i :| FoundDirectory(actions, i, c) { assert more[..i] == actions[..i] && FoundDirectory(more, i, c); }
    if i :| ClaimStepFailed(actions, i, c) { assert more[..i] == actions[..i] && ClaimStepFailed(more, i, c); }
    if i :| CompletionStepFailed(actions, i, c) {
      assert more[..i] == actions[..i] && CompletionStepFailed(more, i, c);
    }
  }

  /** The failure of one of its own system calls, or a directory that was there, is what fails a call. */
  predicate FailsWith(d: Disk, k: Call, io: Io, e: (bool, Error)) {
    var p := k.phase;
    match e
    case (true, why) =>
      || (why == Replay && p.Mkdir? && io != FailsBefore && k.cap in d.root)
      || (why == IoFailed && io != Fine && (p.Mkdir? || p.SyncRoot? || (p.Publish? && p.job.ForClaim?)))
    case (false, why) =>
      why == IoFailed && io != Fine && (p.StatClaim? || p.ReadClaim? || (p.Publish? && p.job.ForTerminal?))
  }

  lemma PublishFails(s: State, c: CallId, job: Job, pub: Pub, io: Io, newFile: FileId, junk: Content)
    requires c in s.calls && s.calls[c].phase == Publish(job, pub)
    requires CallOk(s.disk, s.won, c, s.calls[c]) && PhaseOk(s.disk, s.calls[c]) && Tidy(s.disk, s.calls[c])
    requires pub.OpenTemp? ==> !Named(s.disk, s.calls[c].cap, TempName(c, job))
    ensures var t := DoPublish(s, c, job, pub, io, newFile, junk);
            && c in t.calls
            && (ErrorOf(t.calls[c].phase).Some? ==> FailsWith(s.disk, s.calls[c], io, ErrorOf(t.calls[c].phase).value))
  {
  }

  lemma OtherStepFails(s: State, c: CallId, io: Io, newFile: FileId, junk: Content)
    requires c in s.calls && !s.calls[c].phase.Publish? && !s.calls[c].phase.StatClaim? && !s.calls[c].phase.ReadClaim?
    ensures var e := ErrorOf(DoStep(s, c, io, newFile, junk).calls[c].phase);
            e.Some? ==> e == ErrorOf(s.calls[c].phase) || FailsWith(s.disk, s.calls[c], io, e.value)
  {
  }

  lemma FinalizingFails(s: State, c: CallId, io: Io, newFile: FileId, junk: Content)
    requires Inv(s) && c in s.calls && (s.calls[c].phase.StatClaim? || s.calls[c].phase.ReadClaim?)
    ensures var e := ErrorOf(DoStep(s, c, io, newFile, junk).calls[c].phase);
            e.Some? ==> FailsWith(s.disk, s.calls[c], io, e.value)
  {
    assert CallOk(s.disk, s.won, c, s.calls[c]);
    OwnClaimReads(s, c);
  }

  lemma StepFails(s: State, c: CallId, io: Io, newFile: FileId, junk: Content)
    requires Inv(s) && Traces(s) && AllTidy(s) && TempsFree(s) && c in s.calls
    ensures var t := DoStep(s, c, io, newFile, junk);
            && c in t.calls
            && var e := ErrorOf(t.calls[c].phase);
               e.Some? ==> e == ErrorOf(s.calls[c].phase) || FailsWith(s.disk, s.calls[c], io, e.value)
  {
    var k := s.calls[c];
    assert CallOk(s.disk, s.won, c, k) && PhaseOk(s.disk, k) && Tidy(s.disk, k);
    if k.phase.Publish? {
      if k.phase == Publish(ForClaim, OpenTemp) { assert Blank(s, c); }
      PublishFails(s, c, k.phase.job, k.phase.pub, io, newFile, junk);
    } else if k.phase.StatClaim? || k.phase.ReadClaim? {
      FinalizingFails(s, c, io, newFile, junk);
    } else {
      OtherStepFails(s, c, io, newFile, junk);
    }
  }

  /** No other action fails a call. */
  lemma OthersFailNothing(s: State, a: Action, c: CallId)
    requires c in Next(s, a).calls && !(a.Step? && a.c == c)
    ensures var e := ErrorOf(Next(s, a).calls[c].phase); e.Some? ==> c in s.calls && e == ErrorOf(s.calls[c].phase)
  {
    if c !in s.calls {
      StartTouchesNothing(s, a, c);
    } else if a.Step? && a.c in s.calls {
      StepOthers(s, a.c, a.io, a.newFile, a.junk, c);
    }
  }

  lemma NextFails(s: State, a: Action, c: CallId)
    requires Inv(s) && Traces(s) && AllTidy(s) && TempsFree(s) && c in Next(s, a).calls
    ensures var e := ErrorOf(Next(s, a).calls[c].phase);
            e.Some? ==>
              || (c in s.calls && e == ErrorOf(s.calls[c].phase))
              || (a.Step? && a.c == c && c in s.calls && FailsWith(s.disk, s.calls[c], a.io, e.value))
  {
    if a.Step? && a.c == c {
      if c in s.calls { StepFails(s, c, a.io, a.newFile, a.junk); }
    } else {
      OthersFailNothing(s, a, c);
    }
  }

  lemma ReachableTidy(actions: seq<Action>)
    ensures var s := Run(INITIAL, actions); Inv(s) && Traces(s) && AllTidy(s) && TempsFree(s)
  {
    ReachableAll(actions);
    RunFree(INITIAL, actions);
  }

  lemma NewReason(actions: seq<Action>, a: Action, c: CallId, e: (bool, Error))
    requires var s := Run(INITIAL, actions);
             a.Step? && a.c == c && c in s.calls && FailsWith(s.disk, s.calls[c], a.io, e)
    ensures Reason(actions + [a], c, e)
  {
    var more, n := actions + [a], |actions|;
    assert more[..n] == actions && more[n] == a;
    match e
    case (true, why) =>
      if why == Replay { assert FoundDirectory(more, n, c); } else { assert ClaimStepFailed(more, n, c); }
    case (false, why) => assert CompletionStepFailed(more, n, c);
  }

  lemma {:induction false} ReachableReasons(actions: seq<Action>, c: CallId)
    requires c in Run(INITIAL, actions).calls && ErrorOf(Run(INITIAL, actions).calls[c].phase).Some?
    ensures Reason(actions, c, ErrorOf(Run(INITIAL, actions).calls[c].phase).value)
    decreases |actions|
  {
    var n := |actions| - 1;
    var init, a := actions[..n], actions[n];
    assert actions == init + [a];
    RunSnoc(INITIAL, init, a);
    ReachableTidy(init);
    var s, e := Run(INITIAL, init), ErrorOf(Run(INITIAL, actions).calls[c].phase);
    NextFails(s, a, c);
    if c in s.calls && e == ErrorOf(s.calls[c].phase) {
      ReachableReasons(init, c);
      LongerReason(init, a, c, e.value);
    } else {
      NewReason(init, a, c, e.value);
    }
  }

  /** Over every run: a claim is refused as a replay only where it found its capability's directory, and fails
      otherwise only by a system call of its own that reported a failure; so does a completion. */
  lemma ErrorsHaveReasons(actions: seq<Action>, c: CallId)
    requires c in Run(INITIAL, actions).calls
    ensures var p := Run(INITIAL, actions).calls[c].phase;
            && (p == ClaimRefused(Replay) ==> exists i :: FoundDirectory(actions, i, c))
            && (p.ClaimRefused? && p.why != Replay ==> p.why == IoFailed && exists i :: ClaimStepFailed(actions, i, c))
            && (p.FailedClosed? ==> p.why == IoFailed && exists i :: CompletionStepFailed(actions, i, c))
  {
    if ErrorOf(Run(INITIAL, actions).calls[c].phase).Some? { ReachableReasons(actions, c); }
  }
}
