/** Where a record comes from: over every run, each says what its handle was opened for and what was
    reported for it, with the two instants that the clock gave. */
module ExecutionRecorderHistory {
  import opened Outcomes
  import opened ExecutionRecorder

  // ----- what happened to a handle

  /** At step `i` the handle was opened for the binding, at the instant `t`. */
  predicate BeganAt(actions: seq<Action>, i: int, id: HandleId, b: Binding, t: int) {
    && 0 <= i < |actions| && actions[i] == Begin(id, b, Some(t))
    && id !in Run(INITIAL, actions[..i]).handles && b.issuedAt <= t < b.expiresAt
  }

  predicate ReservedAt(actions: seq<Action>, i: int, id: HandleId) {
    && 0 <= i < |actions| && actions[i] == Reserve(id)
    && id in Run(INITIAL, actions[..i]).handles && Run(INITIAL, actions[..i]).handles[id].state == Open
  }

  /** At step `i` this was reported for the handle, and the clock gave the instant `t`. */
  predicate FinishedAt(actions: seq<Action>, i: int, id: HandleId, o: Outcome, t: int) {
    && 0 <= i < |actions| && actions[i] == Finish(id, o, Some(t))
    && id in Run(INITIAL, actions[..i]).handles && Run(INITIAL, actions[..i]).handles[id].state == Completing
  }

  ghost predicate Began(actions: seq<Action>, id: HandleId, b: Binding, t: int) {
    exists i :: BeganAt(actions, i, id, b, t)
  }

  ghost predicate Reserved(actions: seq<Action>, id: HandleId, b: Binding, t: int) {
    exists i, j :: i < j && BeganAt(actions, i, id, b, t) && ReservedAt(actions, j, id)
  }

  /** Opened, reserved and finished, in this order. */
  ghost predicate Finished(actions: seq<Action>, id: HandleId, b: Binding, t: int, o: Outcome, now: int) {
    exists i, j, k :: && i < j < k && BeganAt(actions, i, id, b, t) && ReservedAt(actions, j, id)
                      && FinishedAt(actions, k, id, o, now)
  }

  // ----- what a record says

  /** A reported success or error with an effect is recorded as such, with the effect's digest; a reported
      unknown without effect as unknown; and anything else as an invalid outcome. */
  predicate SaysReported(p: Payload, o: Outcome) {
    if o.Fields? && (o.status == Some("success") || o.status == Some("error")) && o.effect.Committable? then
      p.status == o.status.value && p.effect == Some(OfEffect(o.effect.text)) && p.diagnostic == None
    else
      && p.status == "unknown" && p.effect == None
      && p.diagnostic == Some(if o == Fields(Some("unknown"), NoEffect) then "POMRX_EXEC_DIAG_EXECUTION_UNKNOWN"
                              else "POMRX_EXEC_DIAG_OUTCOME_INVALID")
  }

  predicate SaysBinding(p: Payload, b: Binding) {
    && p.profile == b.profile && p.run == b.run && p.capability == b.capability && p.authorization == OfBinding(b)
    && p.action == b.action && p.context == b.context
  }

  /** The record is right about the binding, the report and the two instants, and carries its own hash. */
  predicate Says(e: Evidence, b: Binding, t: int, o: Outcome, now: int) {
    && SaysBinding(e.payload, b) && e.payload.startedAt == t && e.payload.recordedAt == now
    && SaysReported(e.payload, o) && e.hash == OfPayload(e.payload)
  }

  lemma BuiltSays(h: Handle, o: Outcome, now: int)
    ensures Says(Built(h, Concluded(o), now), h.binding, h.startedAt, o, now)
  {
  }

  // ----- over every run

  ghost predicate RecordGoesBack(actions: seq<Action>, s: State, id: HandleId, e: Evidence) {
    id in s.handles
    && exists o, now :: && Finished(actions, id, s.handles[id].binding, s.handles[id].startedAt, o, now)
                        && Says(e, s.handles[id].binding, s.handles[id].startedAt, o, now)
  }

  ghost predicate History(actions: seq<Action>, s: State) {
    && (forall id :: id in s.handles ==> Began(actions, id, s.handles[id].binding, s.handles[id].startedAt))
    && (forall id :: id in s.handles && s.handles[id].state == Completing ==>
          Reserved(actions, id, s.handles[id].binding, s.handles[id].startedAt))
    && (forall k :: 0 <= k < |s.emitted| ==> RecordGoesBack(actions, s, s.emitted[k].0, s.emitted[k].1))
  }

  lemma {:induction false} RunSnoc(s: State, actions: seq<Action>, a: Action)
    ensures Run(s, actions + [a]) == Next(Run(s, actions), a)
    decreases |actions|
  {
    if actions == [] {
      assert [a][1..] == [] && actions + [a] == [a];
    } else {
      assert (actions + [a])[1..] == actions[1..] + [a];
      RunSnoc(Next(s, actions[0]), actions[1..], a);
    }
  }

  lemma Longer(actions: seq<Action>, a: Action, id: HandleId, b: Binding, t: int)
    ensures Began(actions, id, b, t) ==> Began(actions + [a], id, b, t)
    ensures Reserved(actions, id, b, t) ==> Reserved(actions + [a], id, b, t)
    ensures forall o, now :: Finished(actions, id, b, t, o, now) ==> Finished(actions + [a], id, b, t, o, now)
  {
    var more := actions + [a];
    assert forall i :: 0 <= i < |actions| ==> more[..i] == actions[..i];
    if i :| BeganAt(actions, i, id, b, t) { assert BeganAt(more, i, id, b, t); }
    if i, j :| i < j && BeganAt(actions, i, id, b, t) && ReservedAt(actions, j, id) {
      assert BeganAt(more, i, id, b, t) && ReservedAt(more, j, id);
    }
    forall o, now | Finished(actions, id, b, t, o, now) ensures Finished(more, id, b, t, o, now) {
      var i, j, k :| && i < j < k && BeganAt(actions, i, id, b, t) && ReservedAt(actions, j, id)
                     && FinishedAt(actions, k, id, o, now);
      assert BeganAt(more, i, id, b, t) && ReservedAt(more, j, id) && FinishedAt(more, k, id, o, now);
    }
  }

  lemma StepKeeps(s: State, a: Action, id: HandleId)
    requires id in s.handles
    ensures var t := Next(s, a);
            && id in t.handles && t.handles[id].binding == s.handles[id].binding
            && t.handles[id].startedAt == s.handles[id].startedAt
            && (t.handles[id].state == Completing ==>
                  s.handles[id].state == Completing || (a == Reserve(id) && s.handles[id].state == Open))
  {
  }

  lemma StepOpens(s: State, a: Action, id: HandleId)
    requires id !in s.handles && id in Next(s, a).handles
    ensures var h := Next(s, a).handles[id];
            && a == Begin(id, h.binding, Some(h.startedAt)) && h.state == Open
            && h.binding.issuedAt <= h.startedAt < h.binding.expiresAt
  {
  }

  lemma StepEmits(s: State, a: Action)
    requires Next(s, a).emitted != s.emitted
    ensures a.Finish? && a.handle in s.handles && s.handles[a.handle].state == Completing && a.reading.Some?
    ensures var e := Built(s.handles[a.handle], Concluded(a.outcome), a.reading.value);
            Next(s, a).emitted == s.emitted + [(a.handle, e)]
  {
  }

  lemma HandleHistory(actions: seq<Action>, a: Action, id: HandleId)
    requires History(actions, Run(INITIAL, actions)) && id in Next(Run(INITIAL, actions), a).handles
    ensures var h := Next(Run(INITIAL, actions), a).handles[id];
            && Began(actions + [a], id, h.binding, h.startedAt)
            && (h.state == Completing ==> Reserved(actions + [a], id, h.binding, h.startedAt))
  {
    var s, more, n := Run(INITIAL, actions), actions + [a], |actions|;
    var h := Next(s, a).handles[id];
    assert more[..n] == actions && more[n] == a;
    Longer(actions, a, id, h.binding, h.startedAt);
    if id in s.handles {
      StepKeeps(s, a, id);
      if h.state == Completing && s.handles[id].state != Completing {
        var i :| BeganAt(actions, i, id, h.binding, h.startedAt);
        assert more[..i] == actions[..i] && BeganAt(more, i, id, h.binding, h.startedAt);
        assert ReservedAt(more, n, id);
      }
    } else {
      StepOpens(s, a, id);
      assert BeganAt(more, n, id, h.binding, h.startedAt);
    }
  }

  lemma EmittedGoesBack(actions: seq<Action>, a: Action)
    requires History(actions, Run(INITIAL, actions))
    requires Next(Run(INITIAL, actions), a).emitted != Run(INITIAL, actions).emitted
    ensures var s, t := Run(INITIAL, actions), Next(Run(INITIAL, actions), a);
            && |t.emitted| == |s.emitted| + 1 && t.emitted[..|s.emitted|] == s.emitted
            && RecordGoesBack(actions + [a], t, t.emitted[|s.emitted|].0, t.emitted[|s.emitted|].1)
  {
    var s, more, n := Run(INITIAL, actions), actions + [a], |actions|;
    StepEmits(s, a);
    var id, now := a.handle, a.reading.value;
    var h := s.handles[id];
    StepKeeps(s, a, id);
    BuiltSays(h, a.outcome, now);
    assert forall i :: 0 <= i <= n ==> more[..i] == actions[..i];
    assert actions[..n] == actions && more[n] == a;
    var i, j :| i < j && BeganAt(actions, i, id, h.binding, h.startedAt) && ReservedAt(actions, j, id);
    assert BeganAt(more, i, id, h.binding, h.startedAt) && ReservedAt(more, j, id);
    assert FinishedAt(more, n, id, a.outcome, now);
    assert Finished(more, id, h.binding, h.startedAt, a.outcome, now);
  }

  lemma OlderGoesBack(actions: seq<Action>, a: Action, id: HandleId, e: Evidence)
    requires RecordGoesBack(actions, Run(INITIAL, actions), id, e)
    ensures RecordGoesBack(actions + [a], Next(Run(INITIAL, actions), a), id, e)
  {
    var h := Run(INITIAL, actions).handles[id];
    var o, now :| Finished(actions, id, h.binding, h.startedAt, o, now) && Says(e, h.binding, h.startedAt, o, now);
    StepKeeps(Run(INITIAL, actions), a, id);
    Longer(actions, a, id, h.binding, h.startedAt);
    assert Finished(actions + [a], id, h.binding, h.startedAt, o, now);
  }

  lemma OldersGoBack(actions: seq<Action>, a: Action)
    requires History(actions, Run(INITIAL, actions))
    ensures var s, t := Run(INITIAL, actions), Next(Run(INITIAL, actions), a);
            forall k :: 0 <= k < |s.emitted| ==> RecordGoesBack(actions + [a], t, s.emitted[k].0, s.emitted[k].1)
  {
    var s := Run(INITIAL, actions);
    forall k | 0 <= k < |s.emitted|
      ensures RecordGoesBack(actions + [a], Next(s, a), s.emitted[k].0, s.emitted[k].1)
    {
      OlderGoesBack(actions, a, s.emitted[k].0, s.emitted[k].1);
    }
  }

  lemma AllGoBack(actions: seq<Action>, a: Action)
    requires History(actions, Run(INITIAL, actions))
    ensures var t := Next(Run(INITIAL, actions), a);
            forall k :: 0 <= k < |t.emitted| ==> RecordGoesBack(actions + [a], t, t.emitted[k].0, t.emitted[k].1)
  {
    var s, t := Run(INITIAL, actions), Next(Run(INITIAL, actions), a);
    OldersGoBack(actions, a);
    if t.emitted != s.emitted { EmittedGoesBack(actions, a); }
    forall k | 0 <= k < |t.emitted| ensures RecordGoesBack(actions + [a], t, t.emitted[k].0, t.emitted[k].1) {
      if k < |s.emitted| { assert t.emitted[k] == s.emitted[k]; }
    }
  }

  lemma {:induction false} ReachableHistory(actions: seq<Action>)
    ensures History(actions, Run(INITIAL, actions))
    decreases |actions|
  {
    if actions != [] {
      var n := |actions| - 1;
      var init, a := actions[..n], actions[n];
      assert actions == init + [a];
      ReachableHistory(init);
      RunSnoc(INITIAL, init, a);
      var t := Run(INITIAL, actions);
      forall id | id in t.handles
        ensures Began(actions, id, t.handles[id].binding, t.handles[id].startedAt)
        ensures t.handles[id].state == Completing ==>
                  Reserved(actions, id, t.handles[id].binding, t.handles[id].startedAt)
      {
        HandleHistory(init, a, id);
      }
      AllGoBack(init, a);
    }
  }

  /** Every record that was ever handed out goes back to the opening, the reservation and the completion of its
      handle, in this order, and says exactly what the handle was opened for, what was reported and when. */
  lemma RecordsGoBack(actions: seq<Action>, k: nat)
    requires k < |Run(INITIAL, actions).emitted|
    ensures var (id, e) := Run(INITIAL, actions).emitted[k];
            exists b, t, o, now :: Finished(actions, id, b, t, o, now) && Says(e, b, t, o, now)
  {
    ReachableHistory(actions);
    var s := Run(INITIAL, actions);
    var (id, e) := s.emitted[k];
    assert RecordGoesBack(actions, s, id, e);
    var o, now :| && Finished(actions, id, s.handles[id].binding, s.handles[id].startedAt, o, now)
                  && Says(e, s.handles[id].binding, s.handles[id].startedAt, o, now);
  }
}
