/** What the gate's callers are told: every outcome, and every state of a capability, has exactly one cause. */
module SingleUseGateOutcomes {
  import opened Outcomes
  import opened SingleUseGate
  import opened SingleUseGateSafety

  // ----- why a call ends

  predicate StartsNow(s: State, a: Action, c: CallId) {
    a.Start? && a.call == c && c !in s.calls
  }

  /** The clock answers a call that waits for it. */
  predicate ClockAnswers(s: State, a: Action, c: CallId) {
    a.ClockReturns? && a.call == c && c in s.calls && (s.calls[c].stage.FirstClock? || s.calls[c].stage.SecondClock?)
  }

  /** The clock answers with an instant that is not before one that it has given. */
  predicate Samples(s: State, a: Action, c: CallId) {
    ClockAnswers(s, a, c) && a.reading.Instant? && (s.high.None? || a.reading.ms >= s.high.value)
  }

  predicate ObserverAnswers(s: State, a: Action, c: CallId) {
    a.ObserverReturns? && a.call == c && c in s.calls && s.calls[c].stage.Observer?
  }

  predicate DownstreamAnswers(s: State, a: Action, c: CallId) {
    a.DownstreamReturns? && a.call == c && c in s.calls && s.calls[c].stage.Downstream?
  }

  /** The step is why the call ends with this outcome. */
  predicate Cause(s: State, a: Action, c: CallId, o: Outcome) {
    match o
    case CapabilityRequired => StartsNow(s, a, c) && a.cap !in s.caps
    case Stale => StartsNow(s, a, c) && a.cap in s.caps && s.caps[a.cap].state != Available
    case TimeInvalid => ClockAnswers(s, a, c) && a.reading == BadReading
    case TimeRollback => ClockAnswers(s, a, c) && a.reading.Instant? && s.high.Some? && a.reading.ms < s.high.value
    case NotYetValid => Samples(s, a, c) && a.reading.ms < s.calls[c].binding.issuedAt
    case Expired => Samples(s, a, c) && a.reading.ms >= s.calls[c].binding.expiresAt
    case ObserverFailed => ObserverAnswers(s, a, c) && a.reply.None?
    case BindingMismatch =>
      && ObserverAnswers(s, a, c) && a.reply.Some?
      && var b, o := s.calls[c].binding, a.reply.value;
         b.profile != o.profile || b.action != o.action || b.context != o.context
    case Returned => DownstreamAnswers(s, a, c) && a.success
    case DownstreamFailed => DownstreamAnswers(s, a, c) && !a.success
    case StaleInside => false
  }

  predicate EndsNow(s: State, a: Action, c: CallId, o: Outcome) {
    && c in Next(s, a).calls && Next(s, a).calls[c].stage == Ended(o)
    && (c in s.calls ==> !s.calls[c].stage.Ended?)
  }

  lemma ClockEnds(s: State, c: CallId, reading: Reading, o: Outcome)
    requires Inv(s) && c in s.calls && (s.calls[c].stage.FirstClock? || s.calls[c].stage.SecondClock?)
    ensures OnClock(s, c, reading).calls[c].stage == Ended(o) <==> Cause(s, ClockReturns(c, reading), c, o)
  {
    assert CallOk(s, s.calls[c]) && CapOk(s.caps[s.calls[c].cap]);
  }

  lemma StartEnds(s: State, c: CallId, cap: CapId, d: CallId, o: Outcome)
    ensures EndsNow(s, Start(c, cap), d, o) <==> Cause(s, Start(c, cap), d, o)
  {
  }

  lemma ObserverEnds(s: State, c: CallId, reply: Option<Observed>, d: CallId, o: Outcome)
    requires Inv(s)
    ensures EndsNow(s, ObserverReturns(c, reply), d, o) <==> Cause(s, ObserverReturns(c, reply), d, o)
  {
    if c in s.calls { assert CallOk(s, s.calls[c]); }
  }

  lemma DownstreamEnds(s: State, c: CallId, success: bool, d: CallId, o: Outcome)
    requires Inv(s)
    ensures EndsNow(s, DownstreamReturns(c, success), d, o) <==> Cause(s, DownstreamReturns(c, success), d, o)
  {
    if c in s.calls { assert CallOk(s, s.calls[c]); }
  }

  lemma ClockLeavesOthers(s: State, c: CallId, reading: Reading, d: CallId)
    requires c in s.calls && (s.calls[c].stage.FirstClock? || s.calls[c].stage.SecondClock?) && d != c
    ensures d in OnClock(s, c, reading).calls <==> d in s.calls
    ensures d in s.calls ==> OnClock(s, c, reading).calls[d] == s.calls[d]
    ensures c in OnClock(s, c, reading).calls
  {
  }

  lemma EndsHere(s: State, a: Action, c: CallId, o: Outcome)
    requires Inv(s)
    ensures EndsNow(s, a, c, o) <==> Cause(s, a, c, o)
  {
    match a
    case Issue(_, _, _) =>
    case Start(d, cap) => StartEnds(s, d, cap, c, o);
    case ClockReturns(d, reading) =>
      if ClockAnswers(s, a, d) {
        if c == d { ClockEnds(s, d, reading, o); } else { ClockLeavesOthers(s, d, reading, c); }
      }
    case ObserverReturns(d, reply) => ObserverEnds(s, d, reply, c, o);
    case DownstreamReturns(d, success) => DownstreamEnds(s, d, success, c, o);
  }

  /** In every run, a step ends a call with an outcome if and only if it is that outcome's cause. */
  lemma EndsExactly(actions: seq<Action>, a: Action, c: CallId, o: Outcome)
    ensures EndsNow(Run(INITIAL, actions), a, c, o) <==> Cause(Run(INITIAL, actions), a, c, o)
  {
    ReachableInv(actions);
    EndsHere(Run(INITIAL, actions), a, c, o);
  }

  predicate CauseAt(actions: seq<Action>, i: int, c: CallId, o: Outcome) {
    0 <= i < |actions| && Cause(Run(INITIAL, actions[..i]), actions[i], c, o)
  }

  lemma Snoc(actions: seq<Action>)
    requires actions != []
    ensures var n := |actions| - 1;
            actions == actions[..n] + [actions[n]]
            && Run(INITIAL, actions) == Next(Run(INITIAL, actions[..n]), actions[n])
  {
    var n := |actions| - 1;
    assert actions == actions[..n] + [actions[n]];
    RunSplit(INITIAL, actions[..n], [actions[n]]);
    assert [actions[n]][1..] == [];
  }

  lemma EndedStays(s: State, a: Action, c: CallId)
    requires c in s.calls && s.calls[c].stage.Ended?
    ensures c in Next(s, a).calls && Next(s, a).calls[c] == s.calls[c]
  {
  }

  predicate HasEnded(s: State, c: CallId, o: Outcome) {
    c in s.calls && s.calls[c].stage == Ended(o)
  }

  lemma EndedStep(s: State, a: Action, c: CallId, o: Outcome)
    ensures HasEnded(Next(s, a), c, o) <==> HasEnded(s, c, o) || EndsNow(s, a, c, o)
  {
    if c in s.calls && s.calls[c].stage.Ended? { EndedStays(s, a, c); }
  }

  /** A call has ended with an outcome if and only if the outcome's cause has happened to it. */
  lemma {:induction false} EndedIffCaused(actions: seq<Action>, c: CallId, o: Outcome)
    ensures HasEnded(Run(INITIAL, actions), c, o) <==> exists i :: CauseAt(actions, i, c, o)
    decreases |actions|
  {
    if actions != [] {
      var n := |actions| - 1;
      var init, a := actions[..n], actions[n];
      var s := Run(INITIAL, init);
      Snoc(actions);
      EndedIffCaused(init, c, o);
      EndsExactly(init, a, c, o);
      EndedStep(s, a, c, o);
      assert CauseAt(actions, n, c, o) <==> Cause(s, a, c, o);
      assert forall i :: 0 <= i < n ==> actions[..i] == init[..i];
      if i :| CauseAt(init, i, c, o) { assert CauseAt(actions, i, c, o); }
      if i :| CauseAt(actions, i, c, o) { assert i < n ==> CauseAt(init, i, c, o); }
    }
  }

  // ----- what a capability's state tells

  /** The call has had the capability to itself: it was not refused at its start. */
  predicate Uses(s: State, c: CallId, cap: CapId) {
    && c in s.calls && s.calls[c].cap == cap
    && s.calls[c].stage != Ended(CapabilityRequired) && s.calls[c].stage != Ended(Stale)
  }

  /** The state in which a call at this stage has its capability. */
  function Shown(stage: Stage): CapState {
    match stage
    case Downstream => Consuming
    case Ended(Returned) => ConsumedSuccess
    case Ended(DownstreamFailed) => ConsumedError
    case Ended(_) => Rejected
    case _ => Validating
  }

  ghost predicate Used(s: State, cap: CapId) {
    exists c :: Uses(s, c, cap)
  }

  /** A capability is available until a call uses it; only one ever does, and the state is that call's. */
  ghost predicate OneUse(s: State) {
    && (forall c, d, cap :: Uses(s, c, cap) && Uses(s, d, cap) ==> c == d)
    && (forall c, cap :: Uses(s, c, cap) ==> cap in s.caps && s.caps[cap].state == Shown(s.calls[c].stage))
    && (forall cap :: cap in s.caps && s.caps[cap].state != Available ==> Used(s, cap))
  }

  /** A call takes its capability along to its next stage. */
  lemma Moves(s: State, t: State, c: CallId, cap: CapId)
    requires OneUse(s) && cap in s.caps && (if c in s.calls then Uses(s, c, cap) else s.caps[cap].state == Available)
    requires Uses(t, c, cap) && t.calls == s.calls[c := t.calls[c]]
    requires t.caps.Keys == s.caps.Keys && t.caps[cap].state == Shown(t.calls[c].stage)
    requires forall x :: x in s.caps && x != cap ==> t.caps[x] == s.caps[x]
    ensures OneUse(t)
  {
    forall d, x | Uses(t, d, x) && d != c ensures Uses(s, d, x) && x != cap {
      assert Uses(s, d, x);
    }
    forall x | x in t.caps && t.caps[x].state != Available ensures Used(t, x) {
      if x == cap {
        assert Uses(t, c, x);
      } else {
        assert Used(s, x);
        var d :| Uses(s, d, x);
        assert Uses(t, d, x);
      }
    }
  }

  /** No use begins or moves. */
  lemma NoMove(s: State, t: State)
    requires OneUse(s)
    requires forall c, cap :: Uses(t, c, cap) <==> Uses(s, c, cap)
    requires forall c, cap :: Uses(s, c, cap) && Uses(t, c, cap) ==> t.calls[c].stage == s.calls[c].stage
    requires forall cap :: cap in s.caps ==> cap in t.caps && t.caps[cap].state == s.caps[cap].state
    requires forall cap :: cap in t.caps && cap !in s.caps ==> t.caps[cap].state == Available
    ensures OneUse(t)
  {
    forall cap | cap in t.caps && t.caps[cap].state != Available ensures Used(t, cap) {
      assert Used(s, cap);
      var c :| Uses(s, c, cap);
      assert Uses(t, c, cap);
    }
  }

  lemma StartUse(s: State, c: CallId, cap: CapId)
    requires OneUse(s) && c !in s.calls
    ensures OneUse(OnStart(s, c, cap))
  {
    var t := OnStart(s, c, cap);
    if cap in s.caps && s.caps[cap].state == Available {
      Moves(s, t, c, cap);
    } else {
      NoMove(s, t);
    }
  }

  lemma ClockUse(s: State, c: CallId, reading: Reading)
    requires Inv(s) && OneUse(s) && ClockAnswers(s, ClockReturns(c, reading), c)
    ensures OneUse(OnClock(s, c, reading))
  {
    assert CallOk(s, s.calls[c]);
    assert Uses(s, c, s.calls[c].cap);
    Moves(s, OnClock(s, c, reading), c, s.calls[c].cap);
  }

  lemma ObserverUse(s: State, c: CallId, reply: Option<Observed>)
    requires Inv(s) && OneUse(s) && ObserverAnswers(s, ObserverReturns(c, reply), c)
    ensures OneUse(OnObserver(s, c, reply))
  {
    assert CallOk(s, s.calls[c]);
    assert Uses(s, c, s.calls[c].cap);
    Moves(s, OnObserver(s, c, reply), c, s.calls[c].cap);
  }

  lemma DownstreamUse(s: State, c: CallId, success: bool)
    requires Inv(s) && OneUse(s) && DownstreamAnswers(s, DownstreamReturns(c, success), c)
    ensures OneUse(OnDownstream(s, c, success))
  {
    assert CallOk(s, s.calls[c]);
    assert Uses(s, c, s.calls[c].cap);
    Moves(s, OnDownstream(s, c, success), c, s.calls[c].cap);
  }

  lemma NextUse(s: State, a: Action)
    requires Inv(s) && OneUse(s)
    ensures OneUse(Next(s, a))
  {
    match a
    case Issue(_, _, _) => NoMove(s, Next(s, a));
    case Start(c, cap) => if c !in s.calls { StartUse(s, c, cap); }
    case ClockReturns(c, reading) => if ClockAnswers(s, a, c) { ClockUse(s, c, reading); }
    case ObserverReturns(c, reply) => if ObserverAnswers(s, a, c) { ObserverUse(s, c, reply); }
    case DownstreamReturns(c, success) => if DownstreamAnswers(s, a, c) { DownstreamUse(s, c, success); }
  }

  lemma {:induction false} ReachableUse(actions: seq<Action>)
    ensures OneUse(Run(INITIAL, actions))
    decreases |actions|
  {
    if actions != [] {
      var n := |actions| - 1;
      Snoc(actions);
      ReachableUse(actions[..n]);
      ReachableInv(actions[..n]);
      NextUse(Run(INITIAL, actions[..n]), actions[n]);
    }
  }

  /** The downstream of the capability's call has returned, with this result. */
  predicate DownstreamReturned(actions: seq<Action>, i: int, c: CallId, cap: CapId, success: bool) {
    && 0 <= i < |actions| && actions[i] == DownstreamReturns(c, success)
    && var s := Run(INITIAL, actions[..i]);
       c in s.calls && s.calls[c].stage == Downstream && s.calls[c].cap == cap
  }

  lemma {:induction false} CapStays(s: State, actions: seq<Action>, c: CallId)
    requires c in s.calls
    ensures c in Run(s, actions).calls && Run(s, actions).calls[c].cap == s.calls[c].cap
    decreases |actions|
  {
    if actions != [] {
      CapKept(s, actions[0], c);
      CapStays(Next(s, actions[0]), actions[1..], c);
    }
  }

  lemma CapKept(s: State, a: Action, c: CallId)
    requires c in s.calls
    ensures c in Next(s, a).calls && Next(s, a).calls[c].cap == s.calls[c].cap
  {
  }

  lemma ReturnedAt(actions: seq<Action>, c: CallId, o: Outcome) returns (i: int)
    requires HasEnded(Run(INITIAL, actions), c, o) && (o == Returned || o == DownstreamFailed)
    ensures DownstreamReturned(actions, i, c, Run(INITIAL, actions).calls[c].cap, o == Returned)
  {
    EndedIffCaused(actions, c, o);
    i :| CauseAt(actions, i, c, o);
    assert actions == actions[..i] + actions[i..];
    RunSplit(INITIAL, actions[..i], actions[i..]);
    CapStays(Run(INITIAL, actions[..i]), actions[i..], c);
  }

  /** Over every run: a capability is available exactly as long as no call uses it. Afterwards exactly one call
      does, for good, and the state tells how far it has come: rejected if it was refused after its start,
      consumed with success if its downstream returned, consumed with an error if its downstream failed. */
  lemma CapabilityTells(actions: seq<Action>, cap: CapId)
    requires cap in Run(INITIAL, actions).caps
    ensures var s := Run(INITIAL, actions);
            var st := s.caps[cap].state;
            && (st == Available <==> forall c :: !Uses(s, c, cap))
            && (forall c, d :: Uses(s, c, cap) && Uses(s, d, cap) ==> c == d)
            && (forall c :: Uses(s, c, cap) ==> st == Shown(s.calls[c].stage))
            && (st == ConsumedSuccess ==> exists c, i :: DownstreamReturned(actions, i, c, cap, true))
            && (st == ConsumedError ==> exists c, i :: DownstreamReturned(actions, i, c, cap, false))
  {
    ReachableUse(actions);
    var s := Run(INITIAL, actions);
    var st := s.caps[cap].state;
    if st != Available {
      assert Used(s, cap);
      var c :| Uses(s, c, cap);
      if st == ConsumedSuccess { var _ := ReturnedAt(actions, c, Returned); }
      if st == ConsumedError { var _ := ReturnedAt(actions, c, DownstreamFailed); }
    }
  }

  // ----- where bindings and the mark come from

  predicate IssuedAt(actions: seq<Action>, i: int, cap: CapId, b: Binding, until: int) {
    && 0 <= i < |actions| && actions[i] == Issue(cap, b, until) && cap !in Run(INITIAL, actions[..i]).caps
  }

  predicate MarkedAt(actions: seq<Action>, i: int, t: int) {
    0 <= i < |actions| && actions[i].ClockReturns? && actions[i].reading == Instant(t)
  }

  ghost predicate Origins(actions: seq<Action>, s: State) {
    && (forall cap :: cap in s.caps ==>
          exists i :: IssuedAt(actions, i, cap, s.caps[cap].binding, s.caps[cap].witnessUntil))
    && (s.high.Some? ==> exists i :: MarkedAt(actions, i, s.high.value))
  }

  lemma NewCaps(s: State, a: Action, cap: CapId)
    requires cap in Next(s, a).caps
    ensures if cap in s.caps
            then && Next(s, a).caps[cap].binding == s.caps[cap].binding
                 && Next(s, a).caps[cap].witnessUntil == s.caps[cap].witnessUntil
            else a == Issue(cap, Next(s, a).caps[cap].binding, Next(s, a).caps[cap].witnessUntil)
  {
  }

  lemma NewMark(s: State, a: Action)
    ensures Next(s, a).high == s.high
            || (a.ClockReturns? && a.reading.Instant? && Next(s, a).high == Some(a.reading.ms))
  {
  }

  /** Every capability carries the binding and the witness expiry it was issued with, whose lifetime is from a
      second to five minutes and ends no later than the witness's; and the mark is an instant that the clock gave. */
  lemma {:induction false} BindingsWereIssued(actions: seq<Action>)
    ensures Origins(actions, Run(INITIAL, actions))
    ensures forall cap :: cap in Run(INITIAL, actions).caps ==>
              var r := Run(INITIAL, actions).caps[cap];
              1_000 <= r.binding.expiresAt - r.binding.issuedAt <= 300_000 && r.binding.expiresAt <= r.witnessUntil
    decreases |actions|
  {
    ReachableInv(actions);
    var t := Run(INITIAL, actions);
    forall cap | cap in t.caps ensures CapOk(t.caps[cap]) {}
    if actions != [] {
      var n := |actions| - 1;
      var init, a := actions[..n], actions[n];
      var s := Run(INITIAL, init);
      Snoc(actions);
      BindingsWereIssued(init);
      assert forall i :: 0 <= i < n ==> actions[..i] == init[..i];
      forall cap | cap in t.caps
        ensures exists i :: IssuedAt(actions, i, cap, t.caps[cap].binding, t.caps[cap].witnessUntil)
      {
        NewCaps(s, a, cap);
        if cap in s.caps {
          var i :| IssuedAt(init, i, cap, s.caps[cap].binding, s.caps[cap].witnessUntil);
          assert IssuedAt(actions, i, cap, t.caps[cap].binding, t.caps[cap].witnessUntil);
        } else {
          assert IssuedAt(actions, n, cap, t.caps[cap].binding, t.caps[cap].witnessUntil);
        }
      }
      NewMark(s, a);
      if t.high != s.high {
        assert MarkedAt(actions, n, t.high.value);
      } else if t.high.Some? {
        var i :| MarkedAt(init, i, s.high.value);
        assert MarkedAt(actions, i, t.high.value);
      }
    }
  }
}
