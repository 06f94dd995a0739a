/** What a call that failed or died may have recorded: exactly which ones may still turn out to be
    permanent, seen from the directory and seen from the run. */
module DurableClaimFailures {
  import opened Outcomes
  import opened DurableClaimStore
  import opened DurableClaimSafety
  import opened DurableClaimTheorems
  import opened DurableClaimProgress
  import opened DurableClaimCompletion

  /** The final name leads to the call's own whole record. */
  predicate OwnEntry(d: Disk, c: CallId, k: Call, job: Job) {
    && Exists(d, k.cap, Target(job))
    && var f := d.root[k.cap].now[Target(job)];
       f in d.files && d.files[f] == File(Body(k, job), true, c)
  }

  /** The call's own record is on the medium for good. */
  predicate Recorded(d: Disk, c: CallId, k: Call, job: Job) {
    match job
    case ForClaim =>
      DurablyClaimed(d, k.cap, k.auth) && d.files[d.root[k.cap].medium[ClaimJson]].owner == c
    case ForTerminal(t) =>
      DurablyConsumed(d, k.cap, k.auth, t) && d.files[d.root[k.cap].medium[TerminalJson]].owner == c
  }

  /** The call links its record: the system call that gives it its final name does not fail before. */
  predicate LinksAt(s: State, a: Action, c: CallId, job: Job) {
    && a.Step? && a.c == c && a.io != FailsBefore && c in s.calls
    && s.calls[c].phase.Publish? && s.calls[c].phase.job == job && s.calls[c].phase.pub.LinkFinal?
  }

  /** The call has failed or died. */
  predicate Halted(p: Phase) {
    p.ClaimRefused? || p.FailedClosed? || p.Dead?
  }

  // ----- final names

  predicate SameEntry(d1: Disk, d2: Disk, cap: Cap, name: Name)
    requires Exists(d2, cap, name)
  {
    Exists(d1, cap, name) && d1.root[cap].now[name] == d2.root[cap].now[name]
  }

  lemma PublishNames(s: State, c: CallId, job: Job, pub: Pub, io: Io, newFile: FileId, junk: Content,
                     cap: Cap, name: Name)
    requires c in s.calls && !name.Temp?
    requires Exists(DoPublish(s, c, job, pub, io, newFile, junk).disk, cap, name)
    ensures var d := DoPublish(s, c, job, pub, io, newFile, junk).disk;
            || SameEntry(s.disk, d, cap, name)
            || (pub.LinkFinal? && io != FailsBefore && cap == s.calls[c].cap && name == Target(job)
                && d.root[cap].now[name] == pub.f)
  {
  }

  lemma StepNames(s: State, c: CallId, io: Io, newFile: FileId, junk: Content, cap: Cap, name: Name)
    requires c in s.calls && !name.Temp? && Exists(DoStep(s, c, io, newFile, junk).disk, cap, name)
    ensures var d, p := DoStep(s, c, io, newFile, junk).disk, s.calls[c].phase;
            || SameEntry(s.disk, d, cap, name)
            || (p.Publish? && p.pub.LinkFinal? && io != FailsBefore && cap == s.calls[c].cap && name == Target(p.job)
                && d.root[cap].now[name] == p.pub.f)
  {
    var p := s.calls[c].phase;
    if p.Publish? { PublishNames(s, c, p.job, p.pub, io, newFile, junk, cap, name); }
  }

  /** A final name comes into being only by a link. */
  lemma FinalNames(s: State, a: Action, cap: Cap, name: Name)
    requires Inv(s) && !name.Temp? && Exists(Next(s, a).disk, cap, name)
    ensures || SameEntry(s.disk, Next(s, a).disk, cap, name)
            || (exists job :: && LinksAt(s, a, LinkerOf(a), job)
                              && cap == s.calls[LinkerOf(a)].cap && name == Target(job)
                              && Next(s, a).disk.root[cap].now[name] == s.calls[LinkerOf(a)].phase.pub.f)
  {
    if a.Step? && a.c in s.calls {
      StepNames(s, a.c, a.io, a.newFile, a.junk, cap, name);
      var p := s.calls[a.c].phase;
      assert p.Publish? && p.pub.LinkFinal? && a.io != FailsBefore ==> LinksAt(s, a, a.c, p.job);
    } else if a.PowerLoss? {
      assert DirOk(s.disk, cap);
    }
  }

  function LinkerOf(a: Action): CallId {
    if a.Step? then a.c else 0
  }

  lemma SyncedFilesStay(s: State, a: Action, f: FileId)
    requires Inv(s) && f in s.disk.files && s.disk.files[f].synced
    ensures f in Next(s, a).disk.files && Next(s, a).disk.files[f] == s.disk.files[f]
  {
    if a.Step? && a.c in s.calls { CallStepKeeps(s, a.c, a.io, a.newFile, a.junk); }
  }

  /** What is published is synced. */
  lemma EntrySynced(d: Disk, cap: Cap, name: Name)
    requires DiskOk(d) && Exists(d, cap, name) && !name.Temp?
    ensures d.root[cap].now[name] in d.files && d.files[d.root[cap].now[name]].synced
  {
    assert DirOk(d, cap);
  }

  // ----- own entries

  lemma SameBody(k: Call, job: Job, other: Job)
    requires Body(k, job) == Body(k, other)
    ensures job == other
  {
  }

  lemma OwnBack(s: State, a: Action, c: CallId, job: Job)
    requires Inv(s) && c in s.calls && OwnEntry(Next(s, a).disk, c, s.calls[c], job)
    ensures OwnEntry(s.disk, c, s.calls[c], job) || LinksAt(s, a, c, job)
  {
    var k, name, d := s.calls[c], Target(job), Next(s, a).disk;
    FinalNames(s, a, k.cap, name);
    if SameEntry(s.disk, d, k.cap, name) {
      EntrySynced(s.disk, k.cap, name);
      SyncedFilesStay(s, a, d.root[k.cap].now[name]);
    } else {
      var o := LinkerOf(a);
      var other :| && LinksAt(s, a, o, other) && name == Target(other)
                   && d.root[k.cap].now[name] == s.calls[o].phase.pub.f;
      assert CallOk(s.disk, s.won, o, s.calls[o]);
      SyncedFilesStay(s, a, s.calls[o].phase.pub.f);
      SameBody(k, job, other);
    }
  }

  lemma EntryStays(s: State, a: Action, cap: Cap, name: Name)
    requires Inv(s) && !a.PowerLoss? && Exists(s.disk, cap, name) && !name.Temp?
    ensures Exists(Next(s, a).disk, cap, name) && SameEntry(s.disk, Next(s, a).disk, cap, name)
  {
    if a.Step? && a.c in s.calls { CallStepKeeps(s, a.c, a.io, a.newFile, a.junk); }
  }

  lemma OwnStays(s: State, a: Action, c: CallId, job: Job)
    requires Inv(s) && !a.PowerLoss? && c in s.calls && OwnEntry(s.disk, c, s.calls[c], job)
    ensures OwnEntry(Next(s, a).disk, c, s.calls[c], job)
  {
    EntryStays(s, a, s.calls[c].cap, Target(job));
    SyncedFilesStay(s, a, s.disk.root[s.calls[c].cap].now[Target(job)]);
  }

  /** A link that does not fail before always takes effect. */
  lemma OwnMade(s: State, a: Action, c: CallId, job: Job)
    requires Inv(s) && Traces(s) && AllTidy(s) && LinksAt(s, a, c, job)
    ensures OwnEntry(Next(s, a).disk, c, s.calls[c], job)
    ensures Next(s, a).calls[c].phase == if a.io == Fine then Publish(job, UnlinkTemp(s.calls[c].phase.pub.f))
                                         else Cleanup(job, IoFailed)
  {
    assert CallOk(s.disk, s.won, c, s.calls[c]) && PhaseOk(s.disk, s.calls[c]) && Tidy(s.disk, s.calls[c]);
  }

  // ----- a halted call

  lemma HaltedStays(s: State, a: Action, c: CallId)
    requires c in s.calls && Halted(s.calls[c].phase)
    ensures c in Next(s, a).calls && Halted(Next(s, a).calls[c].phase)
    ensures Next(s, a).calls[c].cap == s.calls[c].cap && Next(s, a).calls[c].auth == s.calls[c].auth
  {
    NextExtends(s, a);
  }

  lemma {:induction false} NeverLinked(s: State, c: CallId, job: Job, more: seq<Action>)
    requires Inv(s) && c in s.calls && Halted(s.calls[c].phase) && !OwnEntry(s.disk, c, s.calls[c], job)
    ensures !OwnEntry(Run(s, more).disk, c, s.calls[c], job)
    decreases |more|
  {
    if more != [] {
      var t := Next(s, more[0]);
      NextInv(s, more[0]);
      HaltedStays(s, more[0], c);
      assert !OwnEntry(t.disk, c, s.calls[c], job) by {
        if OwnEntry(t.disk, c, s.calls[c], job) { OwnBack(s, more[0], c, job); }
      }
      NeverLinked(t, c, job, more[1..]);
    }
  }

  lemma RecordedIsOwn(d: Disk, c: CallId, k: Call, job: Job)
    requires DiskOk(d) && Recorded(d, c, k, job)
    ensures OwnEntry(d, c, k, job)
  {
    assert DirOk(d, k.cap);
  }

  /** The medium catches up with the directory. */
  function CatchUp(cap: Cap, name: Name): seq<Action> {
    [WriteBackRoot(cap), WriteBackEntry(cap, name)]
  }

  lemma CatchUpRun(s: State, cap: Cap, name: Name)
    requires cap in s.disk.root
    ensures Run(s, CatchUp(cap, name)).calls == s.calls
    ensures Run(s, CatchUp(cap, name)).disk
         == EntryWrittenBack(s.disk.(rootMedium := s.disk.rootMedium + {cap}), cap, name)
  {
    var first, second := WriteBackRoot(cap), WriteBackEntry(cap, name);
    assert CatchUp(cap, name) == [] + [first] + [second];
    RunSnoc(s, [], first);
    RunSnoc(s, [] + [first], second);
  }

  lemma CatchUpRecords(d: Disk, c: CallId, k: Call, job: Job)
    requires DiskOk(d) && OwnEntry(d, c, k, job)
    ensures Recorded(EntryWrittenBack(d.(rootMedium := d.rootMedium + {k.cap}), k.cap, Target(job)), c, k, job)
  {
    assert DirOk(d, k.cap);
  }

  /** The call is as it was, and its record is on the medium. */
  predicate RecordedSince(s: State, c: CallId, k: Call, job: Job) {
    c in s.calls && s.calls[c] == k && Recorded(s.disk, c, k, job)
  }

  /** A failed or dead call may yet turn out to be recorded exactly if its own link is in place: then the
      medium may catch up at any moment; otherwise nothing that follows ever records it. */
  lemma FailureLeavesOpen(actions: seq<Action>, c: CallId, job: Job)
    requires c in Run(INITIAL, actions).calls && Halted(Run(INITIAL, actions).calls[c].phase)
    ensures var s := Run(INITIAL, actions);
            var k := s.calls[c];
            && (OwnEntry(s.disk, c, k, job) ==> exists more :: RecordedSince(Run(INITIAL, actions + more), c, k, job))
            && (!OwnEntry(s.disk, c, k, job) ==> forall more :: !Recorded(Run(INITIAL, actions + more).disk, c, k, job))
  {
    ReachableInv(actions);
    var s := Run(INITIAL, actions);
    var k := s.calls[c];
    if OwnEntry(s.disk, c, k, job) {
      var more := CatchUp(k.cap, Target(job));
      RunSplit(INITIAL, actions, more);
      CatchUpRun(s, k.cap, Target(job));
      CatchUpRecords(s.disk, c, k, job);
      assert RecordedSince(Run(INITIAL, actions + more), c, k, job);
    } else {
      forall more ensures !Recorded(Run(INITIAL, actions + more).disk, c, k, job) {
        RunSplit(INITIAL, actions, more);
        NeverLinked(s, c, job, more);
        ReachableInv(actions + more);
        if Recorded(Run(INITIAL, actions + more).disk, c, k, job) {
          RecordedIsOwn(Run(INITIAL, actions + more).disk, c, k, job);
        }
      }
    }
  }

  // ----- seen from the run

  /** At step `i` of the run the call linked its record. */
  predicate LinkedAt(actions: seq<Action>, i: int, c: CallId, job: Job) {
    0 <= i < |actions| && LinksAt(Run(INITIAL, actions[..i]), actions[i], c, job)
  }

  lemma Longer(actions: seq<Action>, a: Action, i: int, c: CallId, job: Job)
    ensures i < |actions| ==> (LinkedAt(actions + [a], i, c, job) <==> LinkedAt(actions, i, c, job))
    ensures LinkedAt(actions + [a], |actions|, c, job) <==> LinksAt(Run(INITIAL, actions), a, c, job)
  {
    if 0 <= i < |actions| { assert (actions + [a])[..i] == actions[..i]; }
    assert (actions + [a])[..|actions|] == actions;
  }

  lemma LinkedIsCalled(actions: seq<Action>, i: int, c: CallId, job: Job)
    requires LinkedAt(actions, i, c, job)
    ensures c in Run(INITIAL, actions).calls
  {
    assert actions == actions[..i] + actions[i..];
    RunSplit(INITIAL, actions[..i], actions[i..]);
    RunExtends(Run(INITIAL, actions[..i]), actions[i..]);
  }

  lemma ReachableAll(actions: seq<Action>)
    ensures Inv(Run(INITIAL, actions)) && Traces(Run(INITIAL, actions)) && AllTidy(Run(INITIAL, actions))
  {
    ReachableTraces(actions);
    InitialInv();
    RunTidy(INITIAL, actions);
  }

  /** An unknown call has no entry. */
  lemma StrangerOwnsNothing(s: State, c: CallId, k: Call, job: Job)
    requires Traces(s) && c !in s.calls
    ensures !OwnEntry(s.disk, c, k, job)
  {
    assert Blank(s, c);
  }

  /** The link is in place only if the call took the step that links; and without a power loss, that
      step is enough. */
  lemma {:induction false} InPlaceIffLinked(actions: seq<Action>, c: CallId, job: Job)
    requires c in Run(INITIAL, actions).calls
    ensures var s := Run(INITIAL, actions);
            && (OwnEntry(s.disk, c, s.calls[c], job) ==> exists i :: LinkedAt(actions, i, c, job))
            && (NoPowerLoss(actions) && (exists i :: LinkedAt(actions, i, c, job)) ==>
                  OwnEntry(s.disk, c, s.calls[c], job))
    decreases |actions|
  {
    if actions != [] {
      var n := |actions| - 1;
      var init, a := actions[..n], actions[n];
      assert actions == init + [a];
      if c in Run(INITIAL, init).calls {
        InPlaceIffLinked(init, c, job);
        KnownStep(init, a, c, job);
      } else {
        FirstStepOf(init, a, c, job);
      }
    }
  }

  /** A call comes into being by its start, which touches no disk. */
  lemma StartTouchesNothing(s: State, a: Action, c: CallId)
    requires c !in s.calls && c in Next(s, a).calls
    ensures a.StartClaim? || a.StartInspect?
    ensures Next(s, a).disk == s.disk
  {
    if a.Step? && a.c in s.calls && s.calls[a.c].phase.Publish? {
      var p := s.calls[a.c].phase;
      PublishAddsNoCall(s, a.c, p.job, p.pub, a.io, a.newFile, a.junk);
    }
  }

  lemma PublishAddsNoCall(s: State, c: CallId, job: Job, pub: Pub, io: Io, newFile: FileId, junk: Content)
    requires c in s.calls
    ensures DoPublish(s, c, job, pub, io, newFile, junk).calls.Keys == s.calls.Keys
  {
  }

  lemma NotLinkedBefore(init: seq<Action>, a: Action, i: int, c: CallId, job: Job)
    requires c !in Run(INITIAL, init).calls
    ensures !LinkedAt(init + [a], i, c, job)
  {
    Longer(init, a, i, c, job);
    if LinkedAt(init + [a], i, c, job) && i < |init| { LinkedIsCalled(init, i, c, job); }
  }

  lemma FirstStepOf(init: seq<Action>, a: Action, c: CallId, job: Job)
    requires c !in Run(INITIAL, init).calls && c in Run(INITIAL, init + [a]).calls
    ensures var s := Run(INITIAL, init + [a]); !OwnEntry(s.disk, c, s.calls[c], job)
    ensures forall i :: !LinkedAt(init + [a], i, c, job)
  {
    RunSnoc(INITIAL, init, a);
    StartTouchesNothing(Run(INITIAL, init), a, c);
    ReachableTraces(init);
    StrangerOwnsNothing(Run(INITIAL, init), c, Run(INITIAL, init + [a]).calls[c], job);
    forall i ensures !LinkedAt(init + [a], i, c, job) {
      NotLinkedBefore(init, a, i, c, job);
    }
  }

  lemma KnownStep(init: seq<Action>, a: Action, c: CallId, job: Job)
    requires c in Run(INITIAL, init).calls && c in Run(INITIAL, init + [a]).calls
    requires var s := Run(INITIAL, init);
             && (OwnEntry(s.disk, c, s.calls[c], job) ==> exists i :: LinkedAt(init, i, c, job))
             && (NoPowerLoss(init) && (exists i :: LinkedAt(init, i, c, job)) ==> OwnEntry(s.disk, c, s.calls[c], job))
    ensures var s := Run(INITIAL, init + [a]);
            && (OwnEntry(s.disk, c, s.calls[c], job) ==> exists i :: LinkedAt(init + [a], i, c, job))
            && (NoPowerLoss(init + [a]) && (exists i :: LinkedAt(init + [a], i, c, job)) ==>
                  OwnEntry(s.disk, c, s.calls[c], job))
  {
    var s, t := Run(INITIAL, init), Run(INITIAL, init + [a]);
    RunSnoc(INITIAL, init, a);
    ReachableAll(init);
    NextExtends(s, a);
    if OwnEntry(t.disk, c, t.calls[c], job) {
      OwnBack(s, a, c, job);
      if LinksAt(s, a, c, job) {
        Longer(init, a, |init|, c, job);
      } else {
        var i :| LinkedAt(init, i, c, job);
        Longer(init, a, i, c, job);
      }
    }
    if i :| NoPowerLoss(init + [a]) && LinkedAt(init + [a], i, c, job) {
      Longer(init, a, i, c, job);
      assert NoPowerLoss(init) && !a.PowerLoss? by {
        assert (init + [a])[|init|] == a;
        forall j | 0 <= j < |init| ensures !init[j].PowerLoss? { assert (init + [a])[j] == init[j]; }
      }
      if i < |init| { OwnStays(s, a, c, job); } else { OwnMade(s, a, c, job); }
    }
  }

  /** So without a power loss, a failed or dead call may yet be recorded exactly if the system call that
      links its record did not fail before taking effect. */
  lemma OpenIffLinked(actions: seq<Action>, c: CallId, job: Job)
    requires c in Run(INITIAL, actions).calls && Halted(Run(INITIAL, actions).calls[c].phase) && NoPowerLoss(actions)
    ensures (exists more :: Recorded(Run(INITIAL, actions + more).disk, c, Run(INITIAL, actions).calls[c], job))
        <==> exists i :: LinkedAt(actions, i, c, job)
  {
    InPlaceIffLinked(actions, c, job);
    FailureLeavesOpen(actions, c, job);
    var s := Run(INITIAL, actions);
    if OwnEntry(s.disk, c, s.calls[c], job) {
      var more :| RecordedSince(Run(INITIAL, actions + more), c, s.calls[c], job);
      assert Recorded(Run(INITIAL, actions + more).disk, c, s.calls[c], job);
    }
  }

  // ----- a failed completion that is recorded

  lemma {:induction false} Above(names: set<nat>) returns (n: nat)
    ensures forall x :: x in names ==> x < n
    decreases names
  {
    if names == {} {
      n := 0;
    } else {
      var x :| x in names;
      var m := Above(names - {x});
      n := if x < m then m else x + 1;
      forall y | y in names ensures y < n { assert y == x || y in names - {x}; }
    }
  }

  /** A completion can be brought to its `n`-th system call. */
  lemma {:induction false} LoneCompletionReaches(cap: Cap, auth: Hash, t: Terminal, n: nat)
    returns (actions: seq<Action>)
    requires n <= 5
    ensures var s := Run(INITIAL, actions);
            && 0 in s.calls && s.calls[0].cap == cap && s.calls[0].auth == auth
            && Completing(s.calls[0].phase, t) && CompletionCalls(s.calls[0].phase) == n
    decreases n
  {
    if n == 0 {
      var before := LoneClaimReaches(cap, auth, 7);
      RunSnoc(INITIAL, before, FINE);
      RunSnoc(INITIAL, before + [FINE], StartComplete(0, t));
      actions := before + [FINE] + [StartComplete(0, t)];
    } else {
      var before := LoneCompletionReaches(cap, auth, t, n - 1);
      var f := Above(Run(INITIAL, before).disk.files.Keys);
      CompletionAdvances(before, 0, t, f, Unreadable);
      RunExtends(Run(INITIAL, before), [Step(0, Fine, f, Unreadable)]);
      RunSplit(INITIAL, before, [Step(0, Fine, f, Unreadable)]);
      actions := before + [Step(0, Fine, f, Unreadable)];
    }
  }

  /** The completion of call 0 returned an error, and yet its terminal record is on the medium. */
  predicate CompletionMayBeDurable(s: State, cap: Cap, auth: Hash, t: Terminal) {
    && 0 in s.calls && s.calls[0] == Call(cap, auth, FailedClosed(IoFailed)) && 0 !in s.done
    && DurablyConsumed(s.disk, cap, auth, t)
  }

  lemma CleanupEnds(s: State, job: Job)
    requires 0 in s.calls && s.calls[0].phase == Cleanup(job, IoFailed)
    ensures Next(s, FINE).calls == s.calls[0 := s.calls[0].(phase := Failed(job, IoFailed))]
  {
  }

  /** The link takes effect and reports a failure; cleaning up ends the call. */
  lemma LateLinkFailure(before: seq<Action>, job: Job) returns (actions: seq<Action>)
    requires LinksAt(Run(INITIAL, before), Step(0, FailsAfter, 0, Unreadable), 0, job)
    ensures var s, k := Run(INITIAL, actions), Run(INITIAL, before).calls[0];
            && 0 in s.calls && s.calls[0] == k.(phase := Failed(job, IoFailed)) && OwnEntry(s.disk, 0, k, job)
  {
    var late := Step(0, FailsAfter, 0, Unreadable);
    var s := Run(INITIAL, before);
    ReachableAll(before);
    OwnMade(s, late, 0, job);
    NextExtends(s, late);
    var t := Next(s, late);
    NextInv(s, late);
    OwnStays(t, FINE, 0, job);
    CleanupEnds(t, job);
    RunSnoc(INITIAL, before, late);
    RunSnoc(INITIAL, before + [late], FINE);
    actions := before + [late] + [FINE];
  }

  /** A completion that returned an error may still have recorded the outcome for good. */
  lemma FailedCompletionMayBeDurable(cap: Cap, auth: Hash, t: Terminal)
    ensures exists actions :: CompletionMayBeDurable(Run(INITIAL, actions), cap, auth, t)
  {
    var before := LoneCompletionReaches(cap, auth, t, 5);
    var actions := LateLinkFailure(before, ForTerminal(t));
    FailureLeavesOpen(actions, 0, ForTerminal(t));
    var k := Run(INITIAL, actions).calls[0];
    var more :| RecordedSince(Run(INITIAL, actions + more), 0, k, ForTerminal(t));
    RunKeepsResults(INITIAL, actions + more);
    assert CompletionMayBeDurable(Run(INITIAL, actions + more), cap, auth, t);
  }
}
