/** The single-use gate: asynchronous `consume` calls over shared capability records and a
    shared clock high-water mark.

    A call is cut where other code can run: at the clock callback (which may re-enter the
    gate), at the observer and at the downstream. Between two cuts it is atomic. */
module SingleUseGate {
  import opened Outcomes

  type CapId = nat
  type CallId = nat

  const MIN_LIFETIME_MS := 1_000
  const MAX_LIFETIME_MS := 300_000

  // ----- authorizations

  datatype Binding = Binding(profile: string, action: string, context: string, issuedAt: int, expiresAt: int)

  /** The lifetime rule of a binding and the witness rule of an authorization. */
  predicate Authorizable(b: Binding, witnessUntil: int) {
    && MIN_LIFETIME_MS <= b.expiresAt - b.issuedAt <= MAX_LIFETIME_MS
    && b.expiresAt <= witnessUntil
  }

  // ----- capability records and calls

  datatype CapState = Available | Validating | Consuming | Rejected | ConsumedSuccess | ConsumedError

  /** `witnessUntil` is the witness expiry the authorization was issued under. */
  datatype CapRecord = CapRecord(state: CapState, binding: Binding, witnessUntil: int)

  datatype Observed = Observed(profile: string, action: string, context: string, prepared: nat)

  predicate Matches(b: Binding, o: Observed) {
    b.profile == o.profile && b.action == o.action && b.context == o.context
  }

  datatype Outcome =
    | CapabilityRequired | Stale | TimeInvalid | TimeRollback | NotYetValid | Expired
    | ObserverFailed | BindingMismatch | DownstreamFailed | Returned
    | StaleInside                        // reject, begin or complete found an unexpected state

  /** What a call is waiting for. */
  datatype Stage =
    | FirstClock
    | Observer(t1: int)
    | SecondClock(t1: int, observed: Observed)
    | Downstream
    | Ended(outcome: Outcome)

  datatype Call = Call(cap: CapId, binding: Binding, stage: Stage)

  /** One downstream execution: which call, on what snapshot, and its two clock samples. */
  datatype Sent = Sent(call: CallId, cap: CapId, observed: Observed, t1: int, t2: int)

  datatype State = State(caps: map<CapId, CapRecord>, high: Option<int>, calls: map<CallId, Call>, sent: seq<Sent>)

  const INITIAL := State(map[], None, map[], [])

  /** What a clock callback gives back: an instant, or a failure, a promise or a bad text. */
  datatype Reading = Instant(ms: int) | BadReading

  /** `Reply` is `None` when the observer fails or returns something malformed. */
  datatype Action =
    | Issue(cap: CapId, binding: Binding, witnessUntil: int)
    | Start(call: CallId, cap: CapId)
    | ClockReturns(call: CallId, reading: Reading)
    | ObserverReturns(call: CallId, reply: Option<Observed>)
    | DownstreamReturns(call: CallId, success: bool)

  // ----- transitions

  function SetCap(s: State, cap: CapId, st: CapState): State
    requires cap in s.caps
  {
    s.(caps := s.caps[cap := s.caps[cap].(state := st)])
  }

  function SetStage(s: State, c: CallId, stage: Stage): State
    requires c in s.calls
  {
    s.(calls := s.calls[c := s.calls[c].(stage := stage)])
  }

  function Refused(s: State, c: CallId, why: Outcome): State
    requires c in s.calls
  {
    var cap := s.calls[c].cap;
    if cap !in s.caps || s.caps[cap].state != Validating then SetStage(s, c, Ended(StaleInside))
    else SetStage(SetCap(s, cap, Rejected), c, Ended(why))
  }

  /** The new high-water mark, or why the sample is refused. */
  function Sampled(s: State, reading: Reading): Result<int, Outcome> {
    match reading
    case BadReading => Err(TimeInvalid)
    case Instant(ms) => if s.high.Some? && ms < s.high.value then Err(TimeRollback) else Ok(ms)
  }

  function Inactive(b: Binding, now: int): Option<Outcome> {
    if now < b.issuedAt then Some(NotYetValid) else if now >= b.expiresAt then Some(Expired) else None
  }

  function Forwarded(s: State, c: CallId, t1: int, t2: int, observed: Observed): State
    requires c in s.calls
  {
    var cap := s.calls[c].cap;
    if cap !in s.caps || s.caps[cap].state != Validating then SetStage(s, c, Ended(StaleInside))
    else SetStage(SetCap(s, cap, Consuming), c, Downstream).(sent := s.sent + [Sent(c, cap, observed, t1, t2)])
  }

  function OnClock(s: State, c: CallId, reading: Reading): State
    requires c in s.calls && (s.calls[c].stage.FirstClock? || s.calls[c].stage.SecondClock?)
  {
    match Sampled(s, reading)
    case Err(e) => Refused(s, c, e)
    case Ok(now) =>
      var s1 := s.(high := Some(now));
      match Inactive(s.calls[c].binding, now)
      case Some(e) => Refused(s1, c, e)
      case None =>
        match s.calls[c].stage
        case SecondClock(t1, observed) => Forwarded(s1, c, t1, now, observed)
        case _ => SetStage(s1, c, Observer(now))
  }

  function OnObserver(s: State, c: CallId, reply: Option<Observed>): State
    requires c in s.calls && s.calls[c].stage.Observer?
  {
    match reply
    case None => Refused(s, c, ObserverFailed)
    case Some(o) =>
      if !Matches(s.calls[c].binding, o) then Refused(s, c, BindingMismatch)
      else SetStage(s, c, SecondClock(s.calls[c].stage.t1, o))
  }

  function OnDownstream(s: State, c: CallId, success: bool): State
    requires c in s.calls && s.calls[c].stage.Downstream?
  {
    var cap := s.calls[c].cap;
    if cap !in s.caps || s.caps[cap].state != Consuming then SetStage(s, c, Ended(StaleInside))
    else SetStage(SetCap(s, cap, if success then ConsumedSuccess else ConsumedError), c,
                  Ended(if success then Returned else DownstreamFailed))
  }

  function OnStart(s: State, c: CallId, cap: CapId): State {
    var dummy := Binding("", "", "", 0, 0);
    if cap !in s.caps then s.(calls := s.calls[c := Call(cap, dummy, Ended(CapabilityRequired))])
    else if s.caps[cap].state != Available then
      s.(calls := s.calls[c := Call(cap, s.caps[cap].binding, Ended(Stale))])
    else SetCap(s, cap, Validating).(calls := s.calls[c := Call(cap, s.caps[cap].binding, FirstClock)])
  }

  /** One step of the gate; an action that is not possible changes nothing. */
  function Next(s: State, a: Action): State {
    match a
    case Issue(cap, binding, until) =>
      if cap in s.caps || !Authorizable(binding, until) then s
      else s.(caps := s.caps[cap := CapRecord(Available, binding, until)])
    case Start(c, cap) => if c in s.calls then s else OnStart(s, c, cap)
    case ClockReturns(c, reading) =>
      if c in s.calls && (s.calls[c].stage.FirstClock? || s.calls[c].stage.SecondClock?)
      then OnClock(s, c, reading) else s
    case ObserverReturns(c, reply) =>
      if c in s.calls && s.calls[c].stage.Observer? then OnObserver(s, c, reply) else s
    case DownstreamReturns(c, success) =>
      if c in s.calls && s.calls[c].stage.Downstream? then OnDownstream(s, c, success) else s
  }

  function Run(s: State, actions: seq<Action>): State
    decreases |actions|
  {
    if actions == [] then s else Run(Next(s, actions[0]), actions[1..])
  }

  lemma {:induction false} RunSplit(s: State, a: seq<Action>, b: seq<Action>)
    ensures Run(s, a + b) == Run(Run(s, a), b)
    decreases |a|
  {
    if a == [] {
      assert a + b == b;
    } else {
      assert (a + b)[1..] == a[1..] + b;
      RunSplit(Next(s, a[0]), a[1..], b);
    }
  }

  // ----- the gate object

  class Gate {
    var caps: map<CapId, CapRecord>
    var lastTrustedTimeMs: Option<int>
    var calls: map<CallId, Call>
    var sent: seq<Sent>

    constructor ()
      ensures Snapshot() == INITIAL
    {
      caps, lastTrustedTimeMs, calls, sent := map[], None, map[], [];
    }

    ghost function Snapshot(): State
      reads this
    {
      State(caps, lastTrustedTimeMs, calls, sent)
    }

    method IssueAuthorization(cap: CapId, binding: Binding, witnessUntil: int) returns (ok: bool)
      requires cap !in caps
      modifies this
      ensures Snapshot() == Next(old(Snapshot()), Issue(cap, binding, witnessUntil))
      ensures ok <==> && 1_000 <= binding.expiresAt - binding.issuedAt <= 300_000
                      && binding.expiresAt <= witnessUntil
    {
      var lifetime := binding.expiresAt - binding.issuedAt;
      if lifetime < MIN_LIFETIME_MS || lifetime > MAX_LIFETIME_MS { return false; }
      if binding.expiresAt > witnessUntil { return false; }
      caps := caps[cap := CapRecord(Available, binding, witnessUntil)];
      return true;
    }

    method SampleGateClock(reading: Reading) returns (r: Result<int, Outcome>)
      modifies this
      ensures r == match reading
                   case BadReading => Err(TimeInvalid)
                   case Instant(ms) =>
                     if old(lastTrustedTimeMs).Some? && ms < old(lastTrustedTimeMs).value then Err(TimeRollback)
                     else Ok(ms)
      ensures Snapshot() == old(Snapshot()).(high := if r.Ok? then Some(r.value) else old(lastTrustedTimeMs))
    {
      if reading.BadReading? { return Err(TimeInvalid); }
      var now := reading.ms;
      if lastTrustedTimeMs.Some? && now < lastTrustedTimeMs.value { return Err(TimeRollback); }
      lastTrustedTimeMs := Some(now);
      return Ok(now);
    }

    method End(c: CallId, outcome: Outcome)
      requires c in calls
      modifies this
      ensures Snapshot() == SetStage(old(Snapshot()), c, Ended(outcome))
    {
      calls := calls[c := calls[c].(stage := Ended(outcome))];
    }

    method RejectCapability(c: CallId, why: Outcome)
      requires c in calls
      modifies this
      ensures Snapshot() == Refused(old(Snapshot()), c, why)
    {
      var cap := calls[c].cap;
      if cap !in caps || caps[cap].state != Validating {
        End(c, StaleInside);
        return;
      }
      caps := caps[cap := caps[cap].(state := Rejected)];
      End(c, why);
    }

    /** The part of `consume` before the first clock callback returns. */
    method Consume(c: CallId, cap: CapId)
      requires c !in calls
      modifies this
      ensures Snapshot() == Next(old(Snapshot()), Start(c, cap))
    {
      if cap !in caps {
        calls := calls[c := Call(cap, Binding("", "", "", 0, 0), Ended(CapabilityRequired))];
      } else if caps[cap].state != Available {
        calls := calls[c := Call(cap, caps[cap].binding, Ended(Stale))];
      } else {
        caps := caps[cap := caps[cap].(state := Validating)];
        calls := calls[c := Call(cap, caps[cap].binding, FirstClock)];
      }
    }

    method AfterClock(c: CallId, reading: Reading)
      requires c in calls && (calls[c].stage.FirstClock? || calls[c].stage.SecondClock?)
      modifies this
      ensures Snapshot() == Next(old(Snapshot()), ClockReturns(c, reading))
    {
      var sample := SampleGateClock(reading);
      if sample.Err? {
        RejectCapability(c, sample.error);
        return;
      }
      var now, binding := sample.value, calls[c].binding;
      if now < binding.issuedAt {
        RejectCapability(c, NotYetValid);
      } else if now >= binding.expiresAt {
        RejectCapability(c, Expired);
      } else if calls[c].stage.FirstClock? {
        calls := calls[c := calls[c].(stage := Observer(now))];
      } else {
        BeginConsumption(c, now);
      }
    }

    method BeginConsumption(c: CallId, now: int)
      requires c in calls && calls[c].stage.SecondClock?
      modifies this
      ensures var st := old(calls[c].stage);
              Snapshot() == Forwarded(old(Snapshot()), c, st.t1, now, st.observed)
    {
      var cap, st := calls[c].cap, calls[c].stage;
      if cap !in caps || caps[cap].state != Validating {
        End(c, StaleInside);
        return;
      }
      caps := caps[cap := caps[cap].(state := Consuming)];
      calls := calls[c := calls[c].(stage := Downstream)];
      sent := sent + [Sent(c, cap, st.observed, st.t1, now)];
    }

    method AfterObserver(c: CallId, reply: Option<Observed>)
      requires c in calls && calls[c].stage.Observer?
      modifies this
      ensures Snapshot() == Next(old(Snapshot()), ObserverReturns(c, reply))
    {
      if reply.None? {
        RejectCapability(c, ObserverFailed);
      } else if !Matches(calls[c].binding, reply.value) {
        RejectCapability(c, BindingMismatch);
      } else {
        calls := calls[c := calls[c].(stage := SecondClock(calls[c].stage.t1, reply.value))];
      }
    }

    /** `completeConsumption` and the end of the call. */
    method AfterDownstream(c: CallId, success: bool)
      requires c in calls && calls[c].stage.Downstream?
      modifies this
      ensures Snapshot() == Next(old(Snapshot()), DownstreamReturns(c, success))
    {
      var cap := calls[c].cap;
      if cap !in caps || caps[cap].state != Consuming {
        End(c, StaleInside);
        return;
      }
      caps := caps[cap := caps[cap].(state := if success then ConsumedSuccess else ConsumedError)];
      End(c, if success then Returned else DownstreamFailed);
    }
  }
}

/** What the gate guarantees over every interleaving and re-entry. */
module SingleUseGateSafety {
  import opened Outcomes
  import opened SingleUseGate

  predicate Waiting(stage: Stage) {
    stage.FirstClock? || stage.Observer? || stage.SecondClock?
  }

  predicate Live(stage: Stage) {
    Waiting(stage) || stage.Downstream?
  }

  predicate LiveCall(s: State, c: CallId) {
    c in s.calls && Live(s.calls[c].stage)
  }

  predicate ActiveAt(b: Binding, t: int) {
    b.issuedAt <= t < b.expiresAt
  }

  /** `t` was a sample of the gate's clock. */
  predicate Passed(high: Option<int>, t: int) {
    high.Some? && t <= high.value
  }

  predicate CallOk(s: State, k: Call) {
    && k.stage != Ended(StaleInside)
    && (Live(k.stage) ==>
          && k.cap in s.caps && s.caps[k.cap].binding == k.binding
          && s.caps[k.cap].state == (if k.stage.Downstream? then Consuming else Validating))
    && (k.stage.Observer? ==> ActiveAt(k.binding, k.stage.t1) && Passed(s.high, k.stage.t1))
    && (k.stage.SecondClock? ==> && ActiveAt(k.binding, k.stage.t1) && Passed(s.high, k.stage.t1)
                                 && Matches(k.binding, k.stage.observed))
  }

  predicate Terminal(st: CapState) {
    st.Rejected? || st.ConsumedSuccess? || st.ConsumedError?
  }

  predicate CapOk(r: CapRecord) {
    Authorizable(r.binding, r.witnessUntil)
  }

  predicate SentOk(s: State, e: Sent) {
    && e.cap in s.caps
    && (s.caps[e.cap].state.Consuming? || s.caps[e.cap].state.ConsumedSuccess? || s.caps[e.cap].state.ConsumedError?)
    && Matches(s.caps[e.cap].binding, e.observed)
    && s.caps[e.cap].binding.issuedAt <= e.t1 <= e.t2 < s.caps[e.cap].binding.expiresAt
  }

  ghost predicate Owned(s: State, cap: CapId) {
    exists c :: LiveCall(s, c) && s.calls[c].cap == cap
  }

  ghost predicate CallsOk(s: State) {
    forall c :: c in s.calls ==> CallOk(s, s.calls[c])
  }

  /** No two live calls work on the same capability, and none that is being worked on lacks one. */
  ghost predicate Ownership(s: State) {
    && (forall c, d :: LiveCall(s, c) && LiveCall(s, d) && s.calls[c].cap == s.calls[d].cap ==> c == d)
    && (forall cap :: cap in s.caps && (s.caps[cap].state.Validating? || s.caps[cap].state.Consuming?) ==>
          Owned(s, cap))
  }

  ghost predicate SentAll(s: State) {
    && (forall i :: 0 <= i < |s.sent| ==> SentOk(s, s.sent[i]))
    && (forall i, j :: 0 <= i < j < |s.sent| ==> s.sent[i].cap != s.sent[j].cap)
  }

  ghost predicate CapsOk(s: State) {
    forall cap :: cap in s.caps ==> CapOk(s.caps[cap])
  }

  ghost predicate Inv(s: State) {
    CapsOk(s) && CallsOk(s) && Ownership(s) && SentAll(s)
  }

  predicate HighGrows(a: Option<int>, b: Option<int>) {
    a.Some? ==> b.Some? && a.value <= b.value
  }

  // ----- every step keeps the invariant

  /** The state after a live call moves to `stage` and its capability to `st`. */
  function Moved(s: State, c: CallId, st: CapState, stage: Stage): State
    requires c in s.calls && s.calls[c].cap in s.caps
  {
    SetStage(SetCap(s, s.calls[c].cap, st), c, stage)
  }

  lemma MovedInv(s: State, c: CallId, st: CapState, stage: Stage)
    requires Inv(s) && c in s.calls && Live(s.calls[c].stage)
    requires s.calls[c].cap in s.caps
    requires CallOk(Moved(s, c, st, stage), s.calls[c].(stage := stage))
    requires Live(stage) <==> (st.Validating? || st.Consuming?)
    requires s.caps[s.calls[c].cap].state.Consuming? ==> st.Consuming? || st.ConsumedSuccess? || st.ConsumedError?
    ensures Inv(Moved(s, c, st, stage))
  {
    var cap, s2 := s.calls[c].cap, Moved(s, c, st, stage);
    assert CallOk(s, s.calls[c]);
    forall d | d in s2.calls ensures CallOk(s2, s2.calls[d]) {
      if d != c { assert CallOk(s, s.calls[d]); }
    }
    forall x | x in s2.caps && (s2.caps[x].state.Validating? || s2.caps[x].state.Consuming?) ensures Owned(s2, x) {
      if x == cap {
        assert LiveCall(s2, c) && s2.calls[c].cap == cap;
      } else {
        assert Owned(s, x);
        var d :| LiveCall(s, d) && s.calls[d].cap == x;
        assert LiveCall(s2, d) && s2.calls[d].cap == x;
      }
    }
    forall i | 0 <= i < |s2.sent| ensures SentOk(s2, s2.sent[i]) {
      assert SentOk(s, s.sent[i]);
    }
    forall d, e | LiveCall(s2, d) && LiveCall(s2, e) && s2.calls[d].cap == s2.calls[e].cap ensures d == e {
      assert LiveCall(s, d) && LiveCall(s, e);
    }
  }

  /** Ownership depends only on the calls and on which capabilities are being worked on. */
  lemma SameCallsOwn(s: State, s2: State)
    requires Ownership(s) && s2.calls == s.calls
    requires forall x :: x in s2.caps && (s2.caps[x].state.Validating? || s2.caps[x].state.Consuming?) ==>
               x in s.caps && s.caps[x].state == s2.caps[x].state
    ensures Ownership(s2)
  {
    forall x | x in s2.caps && (s2.caps[x].state.Validating? || s2.caps[x].state.Consuming?) ensures Owned(s2, x) {
      assert Owned(s, x);
      var d :| LiveCall(s, d) && s.calls[d].cap == x;
      assert LiveCall(s2, d) && s2.calls[d].cap == x;
    }
    forall d, e | LiveCall(s2, d) && LiveCall(s2, e) && s2.calls[d].cap == s2.calls[e].cap ensures d == e {
      assert LiveCall(s, d) && LiveCall(s, e);
    }
  }

  lemma HighInv(s: State, high: Option<int>)
    requires Inv(s) && HighGrows(s.high, high)
    ensures Inv(s.(high := high))
  {
    var s2 := s.(high := high);
    forall d | d in s2.calls ensures CallOk(s2, s2.calls[d]) {
      assert CallOk(s, s.calls[d]);
    }
    SameCallsOwn(s, s2);
    forall i | 0 <= i < |s2.sent| ensures SentOk(s2, s2.sent[i]) {
      assert SentOk(s, s.sent[i]);
    }
  }

  lemma SameCap(s: State, c: CallId, stage: Stage)
    requires c in s.calls && s.calls[c].cap in s.caps
    ensures SetStage(s, c, stage) == Moved(s, c, s.caps[s.calls[c].cap].state, stage)
  {
    assert SetCap(s, s.calls[c].cap, s.caps[s.calls[c].cap].state).caps == s.caps;
  }

  /** A refusal always finds the capability being validated. */
  lemma RefusedInv(s: State, c: CallId, why: Outcome)
    requires Inv(s) && c in s.calls && Waiting(s.calls[c].stage) && why != StaleInside
    ensures Inv(Refused(s, c, why))
    ensures Refused(s, c, why).calls[c].stage == Ended(why)
  {
    assert CallOk(s, s.calls[c]);
    MovedInv(s, c, Rejected, Ended(why));
  }

  lemma ForwardedInv(s: State, c: CallId, t1: int, t2: int, o: Observed)
    requires Inv(s) && c in s.calls && s.calls[c].stage == SecondClock(t1, o) && t1 <= t2
    requires ActiveAt(s.calls[c].binding, t2)
    ensures Inv(Forwarded(s, c, t1, t2, o))
  {
    assert CallOk(s, s.calls[c]);
    var cap := s.calls[c].cap;
    MovedInv(s, c, Consuming, Downstream);
    var s1, s2 := Moved(s, c, Consuming, Downstream), Forwarded(s, c, t1, t2, o);
    assert s2 == s1.(sent := s.sent + [Sent(c, cap, o, t1, t2)]);
    forall d | d in s2.calls ensures CallOk(s2, s2.calls[d]) { assert CallOk(s1, s1.calls[d]); }
    SameCallsOwn(s1, s2);
    forall i | 0 <= i < |s2.sent| ensures SentOk(s2, s2.sent[i]) {
      if i < |s.sent| { assert SentOk(s1, s1.sent[i]); }
    }
    forall i, j | 0 <= i < j < |s2.sent| ensures s2.sent[i].cap != s2.sent[j].cap {
      assert SentOk(s, s.sent[i]);
    }
  }

  lemma ClockInv(s: State, c: CallId, reading: Reading)
    requires Inv(s) && c in s.calls && (s.calls[c].stage.FirstClock? || s.calls[c].stage.SecondClock?)
    ensures Inv(OnClock(s, c, reading))
  {
    assert CallOk(s, s.calls[c]);
    match Sampled(s, reading)
    case Err(e) => RefusedInv(s, c, e);
    case Ok(now) =>
      var s1 := s.(high := Some(now));
      HighInv(s, Some(now));
      match Inactive(s.calls[c].binding, now) {
        case Some(e) => RefusedInv(s1, c, e);
        case None =>
          match s.calls[c].stage {
            case SecondClock(t1, o) => ForwardedInv(s1, c, t1, now, o);
            case _ =>
              SameCap(s1, c, Observer(now));
              MovedInv(s1, c, Validating, Observer(now));
          }
      }
  }

  lemma ObserverInv(s: State, c: CallId, reply: Option<Observed>)
    requires Inv(s) && c in s.calls && s.calls[c].stage.Observer?
    ensures Inv(OnObserver(s, c, reply))
  {
    assert CallOk(s, s.calls[c]);
    match reply
    case None => RefusedInv(s, c, ObserverFailed);
    case Some(o) =>
      if !Matches(s.calls[c].binding, o) {
        RefusedInv(s, c, BindingMismatch);
      } else {
        SameCap(s, c, SecondClock(s.calls[c].stage.t1, o));
        MovedInv(s, c, Validating, SecondClock(s.calls[c].stage.t1, o));
      }
  }

  lemma DownstreamInv(s: State, c: CallId, success: bool)
    requires Inv(s) && c in s.calls && s.calls[c].stage.Downstream?
    ensures Inv(OnDownstream(s, c, success))
  {
    assert CallOk(s, s.calls[c]);
    MovedInv(s, c, if success then ConsumedSuccess else ConsumedError,
             Ended(if success then Returned else DownstreamFailed));
  }

  lemma StartOwns(s: State, c: CallId, cap: CapId)
    requires Inv(s) && c !in s.calls
    ensures Ownership(OnStart(s, c, cap))
  {
    var s2 := OnStart(s, c, cap);
    forall x | x in s2.caps && (s2.caps[x].state.Validating? || s2.caps[x].state.Consuming?) ensures Owned(s2, x) {
      if x in s.caps && s.caps[x].state == s2.caps[x].state {
        assert Owned(s, x);
        var d :| LiveCall(s, d) && s.calls[d].cap == x;
        assert LiveCall(s2, d) && s2.calls[d].cap == x;
      } else {
        assert LiveCall(s2, c) && s2.calls[c].cap == x;
      }
    }
    forall d, e | LiveCall(s2, d) && LiveCall(s2, e) && s2.calls[d].cap == s2.calls[e].cap ensures d == e {
      if d != c { assert LiveCall(s, d) && CallOk(s, s.calls[d]); }
      if e != c { assert LiveCall(s, e) && CallOk(s, s.calls[e]); }
    }
  }

  lemma StartCalls(s: State, c: CallId, cap: CapId)
    requires CapsOk(s) && CallsOk(s) && c !in s.calls
    ensures CapsOk(OnStart(s, c, cap)) && CallsOk(OnStart(s, c, cap))
  {
    var s2 := OnStart(s, c, cap);
    forall d | d in s2.calls ensures CallOk(s2, s2.calls[d]) {
      if d != c { assert CallOk(s, s.calls[d]); }
    }
  }

  lemma StartSent(s: State, c: CallId, cap: CapId)
    requires SentAll(s)
    ensures SentAll(OnStart(s, c, cap))
  {
    var s2 := OnStart(s, c, cap);
    forall i | 0 <= i < |s2.sent| ensures SentOk(s2, s2.sent[i]) {
      assert SentOk(s, s.sent[i]);
    }
  }

  lemma StartInv(s: State, c: CallId, cap: CapId)
    requires Inv(s) && c !in s.calls
    ensures Inv(OnStart(s, c, cap))
  {
    StartOwns(s, c, cap);
    StartCalls(s, c, cap);
    StartSent(s, c, cap);
  }

  lemma IssueInv(s: State, cap: CapId, r: CapRecord)
    requires Inv(s) && cap !in s.caps && CapOk(r) && r.state.Available?
    ensures Inv(s.(caps := s.caps[cap := r]))
  {
    var s2 := s.(caps := s.caps[cap := r]);
    forall d | d in s2.calls ensures CallOk(s2, s2.calls[d]) {
      assert CallOk(s, s.calls[d]);
    }
    SameCallsOwn(s, s2);
    forall i | 0 <= i < |s2.sent| ensures SentOk(s2, s2.sent[i]) {
      assert SentOk(s, s.sent[i]);
    }
  }

  lemma NextInv(s: State, a: Action)
    requires Inv(s)
    ensures Inv(Next(s, a))
  {
    match a
    case Issue(cap, binding, until) =>
      if cap !in s.caps && Authorizable(binding, until) { IssueInv(s, cap, CapRecord(Available, binding, until)); }
    case Start(c, cap) => if c !in s.calls { StartInv(s, c, cap); }
    case ClockReturns(c, reading) =>
      if c in s.calls && (s.calls[c].stage.FirstClock? || s.calls[c].stage.SecondClock?) { ClockInv(s, c, reading); }
    case ObserverReturns(c, reply) =>
      if c in s.calls && s.calls[c].stage.Observer? { ObserverInv(s, c, reply); }
    case DownstreamReturns(c, success) =>
      if c in s.calls && s.calls[c].stage.Downstream? { DownstreamInv(s, c, success); }
  }

  lemma {:induction false} RunInv(s: State, actions: seq<Action>)
    requires Inv(s)
    ensures Inv(Run(s, actions))
    decreases |actions|
  {
    if actions != [] {
      NextInv(s, actions[0]);
      RunInv(Next(s, actions[0]), actions[1..]);
    }
  }

  lemma ReachableInv(actions: seq<Action>)
    ensures Inv(Run(INITIAL, actions))
  {
    RunInv(INITIAL, actions);
  }

  // ----- what callers can rely on

  /** Each capability reaches the downstream at most once. */
  lemma AtMostOnce(actions: seq<Action>, i: nat, j: nat)
    requires i < |Run(INITIAL, actions).sent| && j < |Run(INITIAL, actions).sent|
    requires Run(INITIAL, actions).sent[i].cap == Run(INITIAL, actions).sent[j].cap
    ensures i == j
  {
    ReachableInv(actions);
  }

  /** A capability that is being validated or consumed is owned by exactly one live call. */
  lemma ExactlyOneOwner(actions: seq<Action>, cap: CapId) returns (c: CallId)
    requires var s := Run(INITIAL, actions);
             cap in s.caps && (s.caps[cap].state.Validating? || s.caps[cap].state.Consuming?)
    ensures var s := Run(INITIAL, actions);
            && LiveCall(s, c) && s.calls[c].cap == cap
            && forall d :: LiveCall(s, d) && s.calls[d].cap == cap ==> d == c
  {
    ReachableInv(actions);
    var s := Run(INITIAL, actions);
    assert Owned(s, cap);
    c :| LiveCall(s, c) && s.calls[c].cap == cap;
  }

  /** The branches of reject, begin and complete for an unexpected state are never taken. */
  lemma StaleBranchesUnreachable(actions: seq<Action>, c: CallId)
    requires c in Run(INITIAL, actions).calls
    ensures Run(INITIAL, actions).calls[c].stage != Ended(StaleInside)
  {
    ReachableInv(actions);
    assert CallOk(Run(INITIAL, actions), Run(INITIAL, actions).calls[c]);
  }

  /** Every downstream execution carries the snapshot of an observation that matches the
      authorization, and both of its clock samples lie inside the authorized window. */
  lemma SentExactly(actions: seq<Action>, i: nat)
    requires i < |Run(INITIAL, actions).sent|
    ensures var s := Run(INITIAL, actions);
            var e := s.sent[i];
            && e.cap in s.caps
            && var b := s.caps[e.cap].binding;
               && b.profile == e.observed.profile && b.action == e.observed.action && b.context == e.observed.context
               && b.issuedAt <= e.t1 <= e.t2 < b.expiresAt <= s.caps[e.cap].witnessUntil
               && e.t2 - e.t1 < 300_000
  {
    ReachableInv(actions);
    var s := Run(INITIAL, actions);
    assert SentOk(s, s.sent[i]) && CapOk(s.caps[s.sent[i].cap]);
  }

  // ----- what never goes back

  /** Terminal states stay, capabilities keep their authorization, the high-water mark never
      falls, and downstream executions are only ever added. */
  ghost predicate Advances(s: State, t: State) {
    && HighGrows(s.high, t.high)
    && s.sent <= t.sent
    && forall cap :: cap in s.caps ==>
         && cap in t.caps && t.caps[cap].binding == s.caps[cap].binding
         && t.caps[cap].witnessUntil == s.caps[cap].witnessUntil
         && (Terminal(s.caps[cap].state) ==> t.caps[cap].state == s.caps[cap].state)
         && (s.caps[cap].state.Consuming? ==> !t.caps[cap].state.Available? && !t.caps[cap].state.Validating?
                                              && !t.caps[cap].state.Rejected?)
  }

  lemma RefusedAdvances(s: State, c: CallId, why: Outcome)
    requires c in s.calls
    ensures Advances(s, Refused(s, c, why))
  {
  }

  lemma ForwardedAdvances(s: State, c: CallId, t1: int, t2: int, o: Observed)
    requires c in s.calls
    ensures Advances(s, Forwarded(s, c, t1, t2, o))
  {
  }

  lemma ClockAdvances(s: State, c: CallId, reading: Reading)
    requires c in s.calls && (s.calls[c].stage.FirstClock? || s.calls[c].stage.SecondClock?)
    ensures Advances(s, OnClock(s, c, reading))
  {
    match Sampled(s, reading)
    case Err(e) => RefusedAdvances(s, c, e);
    case Ok(now) =>
      var s1 := s.(high := Some(now));
      match Inactive(s.calls[c].binding, now)
      case Some(e) => RefusedAdvances(s1, c, e);
      case None =>
        if s.calls[c].stage.SecondClock? {
          ForwardedAdvances(s1, c, s.calls[c].stage.t1, now, s.calls[c].stage.observed);
        }
  }

  lemma NextAdvances(s: State, a: Action)
    ensures Advances(s, Next(s, a))
  {
    match a
    case ClockReturns(c, reading) =>
      if c in s.calls && (s.calls[c].stage.FirstClock? || s.calls[c].stage.SecondClock?) {
        ClockAdvances(s, c, reading);
      }
    case ObserverReturns(c, reply) =>
      if c in s.calls && s.calls[c].stage.Observer? {
        RefusedAdvances(s, c, ObserverFailed);
        RefusedAdvances(s, c, BindingMismatch);
      }
    case _ =>
  }

  lemma {:induction false} RunAdvances(s: State, actions: seq<Action>)
    ensures Advances(s, Run(s, actions))
    decreases |actions|
  {
    if actions != [] {
      NextAdvances(s, actions[0]);
      RunAdvances(Next(s, actions[0]), actions[1..]);
    }
  }

  /** Over every continuation of every run. */
  lemma NeverGoesBack(actions: seq<Action>, more: seq<Action>)
    ensures Advances(Run(INITIAL, actions), Run(INITIAL, actions + more))
  {
    RunSplit(INITIAL, actions, more);
    RunAdvances(Run(INITIAL, actions), more);
  }
}
