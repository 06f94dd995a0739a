/** Where a downstream execution comes from, and exactly when a call gets there. */
module SingleUseGateHistory {
  import opened Outcomes
  import opened SingleUseGate
  import opened SingleUseGateSafety

  // ----- provenance

  predicate StartedAt(actions: seq<Action>, i: int, c: CallId, cap: CapId) {
    0 <= i < |actions| && actions[i] == Start(c, cap)
  }

  predicate SampledAt(actions: seq<Action>, i: int, c: CallId, t: int) {
    0 <= i < |actions| && actions[i] == ClockReturns(c, Instant(t))
  }

  predicate ObservedAt(actions: seq<Action>, i: int, c: CallId, o: Observed) {
    0 <= i < |actions| && actions[i] == ObserverReturns(c, Some(o))
  }

  ghost predicate Began(actions: seq<Action>, c: CallId, cap: CapId) {
    exists g :: StartedAt(actions, g, c, cap)
  }

  ghost predicate Timed(actions: seq<Action>, c: CallId, cap: CapId, t1: int) {
    exists g, h :: g < h && StartedAt(actions, g, c, cap) && SampledAt(actions, h, c, t1)
  }

  ghost predicate Seen(actions: seq<Action>, c: CallId, cap: CapId, t1: int, o: Observed) {
    exists g, h, i :: && g < h < i && StartedAt(actions, g, c, cap)
                      && SampledAt(actions, h, c, t1) && ObservedAt(actions, i, c, o)
  }

  /** The execution's own call started on its capability, sampled the clock, got this observation and
      sampled the clock again, in this order. */
  ghost predicate ComesFrom(actions: seq<Action>, e: Sent) {
    exists g, h, i, j :: g < h < i < j && StartedAt(actions, g, e.call, e.cap) && SampledAt(actions, h, e.call, e.t1)
                         && ObservedAt(actions, i, e.call, e.observed) && SampledAt(actions, j, e.call, e.t2)
  }

  ghost predicate CallHistory(actions: seq<Action>, c: CallId, k: Call) {
    match k.stage
    case FirstClock => Began(actions, c, k.cap)
    case Observer(t1) => Timed(actions, c, k.cap, t1)
    case SecondClock(t1, o) => Seen(actions, c, k.cap, t1, o)
    case _ => true
  }

  ghost predicate History(actions: seq<Action>, s: State) {
    && (forall c :: c in s.calls ==> CallHistory(actions, c, s.calls[c]))
    && (forall i :: 0 <= i < |s.sent| ==> ComesFrom(actions, s.sent[i]))
  }

  lemma LongerAt(actions: seq<Action>, a: Action)
    ensures forall i, c, cap :: StartedAt(actions, i, c, cap) ==> StartedAt(actions + [a], i, c, cap)
    ensures forall i, c, t :: SampledAt(actions, i, c, t) ==> SampledAt(actions + [a], i, c, t)
    ensures forall i, c, o :: ObservedAt(actions, i, c, o) ==> ObservedAt(actions + [a], i, c, o)
  {
  }

  lemma LongerCall(actions: seq<Action>, a: Action, c: CallId, k: Call)
    requires CallHistory(actions, c, k)
    ensures CallHistory(actions + [a], c, k)
  {
    LongerAt(actions, a);
    var more := actions + [a];
    match k.stage
    case FirstClock =>
      var g :| StartedAt(actions, g, c, k.cap);
      assert StartedAt(more, g, c, k.cap);
    case Observer(t1) =>
      var g, h :| g < h && StartedAt(actions, g, c, k.cap) && SampledAt(actions, h, c, t1);
      assert StartedAt(more, g, c, k.cap) && SampledAt(more, h, c, t1);
    case SecondClock(t1, o) =>
      var g, h, i :| && g < h < i && StartedAt(actions, g, c, k.cap)
                     && SampledAt(actions, h, c, t1) && ObservedAt(actions, i, c, o);
      assert StartedAt(more, g, c, k.cap) && SampledAt(more, h, c, t1) && ObservedAt(more, i, c, o);
    case _ =>
  }

  lemma LongerSent(actions: seq<Action>, a: Action, e: Sent)
    requires ComesFrom(actions, e)
    ensures ComesFrom(actions + [a], e)
  {
    LongerAt(actions, a);
    var g, h, i, j :| g < h < i < j && StartedAt(actions, g, e.call, e.cap) && SampledAt(actions, h, e.call, e.t1)
                      && ObservedAt(actions, i, e.call, e.observed) && SampledAt(actions, j, e.call, e.t2);
    var more := actions + [a];
    assert StartedAt(more, g, e.call, e.cap) && SampledAt(more, h, e.call, e.t1)
           && ObservedAt(more, i, e.call, e.observed) && SampledAt(more, j, e.call, e.t2);
  }

  /** The call that the action belongs to has the history its new stage asks for. */
  lemma OwnHistory(actions: seq<Action>, s: State, a: Action, c: CallId)
    requires History(actions, s) && c in Next(s, a).calls && (c in s.calls ==> Next(s, a).calls[c] != s.calls[c])
    ensures CallHistory(actions + [a], c, Next(s, a).calls[c])
  {
    var more, n, k := actions + [a], |actions|, Next(s, a).calls[c];
    LongerAt(actions, a);
    match k.stage
    case FirstClock => assert StartedAt(more, n, c, k.cap);
    case Observer(t1) =>
      assert CallHistory(actions, c, s.calls[c]);
      var g :| StartedAt(actions, g, c, k.cap);
      assert StartedAt(more, g, c, k.cap) && SampledAt(more, n, c, t1);
    case SecondClock(t1, o) =>
      assert CallHistory(actions, c, s.calls[c]);
      var g, h :| g < h && StartedAt(actions, g, c, k.cap) && SampledAt(actions, h, c, t1);
      assert StartedAt(more, g, c, k.cap) && SampledAt(more, h, c, t1) && ObservedAt(more, n, c, o);
    case _ =>
  }

  lemma NewlySent(actions: seq<Action>, s: State, a: Action)
    requires History(actions, s) && Next(s, a).sent != s.sent
    ensures Next(s, a).sent == s.sent + [Next(s, a).sent[|s.sent|]]
    ensures ComesFrom(actions + [a], Next(s, a).sent[|s.sent|])
  {
    var more, e := actions + [a], Next(s, a).sent[|s.sent|];
    var k := s.calls[a.call];
    LongerAt(actions, a);
    assert CallHistory(actions, a.call, k);
    var g, h, i :| g < h < i && StartedAt(actions, g, a.call, k.cap) && SampledAt(actions, h, a.call, k.stage.t1)
                   && ObservedAt(actions, i, a.call, k.stage.observed);
    assert StartedAt(more, g, e.call, e.cap) && SampledAt(more, h, e.call, e.t1)
           && ObservedAt(more, i, e.call, e.observed) && SampledAt(more, |actions|, e.call, e.t2);
  }

  lemma NextHistory(actions: seq<Action>, s: State, a: Action)
    requires History(actions, s)
    ensures History(actions + [a], Next(s, a))
  {
    var t := Next(s, a);
    forall c | c in t.calls ensures CallHistory(actions + [a], c, t.calls[c]) {
      if c in s.calls && t.calls[c] == s.calls[c] {
        LongerCall(actions, a, c, s.calls[c]);
      } else {
        OwnHistory(actions, s, a, c);
      }
    }
    forall i | 0 <= i < |s.sent| ensures ComesFrom(actions + [a], s.sent[i]) {
      LongerSent(actions, a, s.sent[i]);
    }
    if t.sent != s.sent { NewlySent(actions, s, a); }
  }

  lemma {:induction false} RunHistory(actions: seq<Action>)
    ensures History(actions, Run(INITIAL, actions))
    decreases |actions|
  {
    if actions != [] {
      var n := |actions| - 1;
      var init, a := actions[..n], actions[n];
      RunHistory(init);
      NextHistory(init, Run(INITIAL, init), a);
      assert actions == init + [a];
      RunSplit(INITIAL, init, [a]);
      assert [a][1..] == [];
    }
  }

  /** Every downstream execution carries the very observation that its own call received between its
      two clock samples, after that call was started on this capability. */
  lemma SentProvenance(actions: seq<Action>, i: nat)
    requires i < |Run(INITIAL, actions).sent|
    ensures ComesFrom(actions, Run(INITIAL, actions).sent[i])
  {
    RunHistory(actions);
  }

  // ----- exactly when a call is forwarded

  /** None of the actions belongs to the call. */
  predicate Others(actions: seq<Action>, c: CallId) {
    forall i :: 0 <= i < |actions| ==> !Concerns(actions[i], c)
  }

  predicate Concerns(a: Action, c: CallId) {
    match a
    case Issue(_, _, _) => false
    case Start(d, _) => d == c
    case ClockReturns(d, _) => d == c
    case ObserverReturns(d, _) => d == c
    case DownstreamReturns(d, _) => d == c
  }

  lemma {:induction false} OthersLeave(s: State, actions: seq<Action>, c: CallId)
    requires c in s.calls && Others(actions, c)
    ensures c in Run(s, actions).calls && Run(s, actions).calls[c] == s.calls[c]
    decreases |actions|
  {
    if actions != [] {
      assert !Concerns(actions[0], c);
      OthersLeave(Next(s, actions[0]), actions[1..], c);
    }
  }

  /** The reading is an instant, not before the high-water mark, inside the authorized window. */
  predicate Timely(s: State, b: Binding, r: Reading) {
    r.Instant? && (s.high.Some? ==> s.high.value <= r.ms) && ActiveAt(b, r.ms)
  }

  lemma StartDecides(s: State, c: CallId, cap: CapId)
    requires Inv(s) && c !in s.calls
    ensures var t := Next(s, Start(c, cap));
            && c in t.calls && t.calls[c].cap == cap
            && (cap in s.caps && s.caps[cap].state == Available ==>
                  t.calls[c] == Call(cap, s.caps[cap].binding, FirstClock))
            && (!(cap in s.caps && s.caps[cap].state == Available) ==> t.calls[c].stage.Ended?)
  {
  }

  lemma FirstClockDecides(s: State, c: CallId, r: Reading)
    requires Inv(s) && c in s.calls && s.calls[c].stage.FirstClock?
    ensures var t := Next(s, ClockReturns(c, r));
            && c in t.calls && t.calls[c].cap == s.calls[c].cap && t.calls[c].binding == s.calls[c].binding
            && (if Timely(s, s.calls[c].binding, r) then t.calls[c].stage == Observer(r.ms)
                else t.calls[c].stage.Ended?)
  {
    assert CallOk(s, s.calls[c]);
  }

  lemma ObserverDecides(s: State, c: CallId, reply: Option<Observed>)
    requires Inv(s) && c in s.calls && s.calls[c].stage.Observer?
    ensures var t := Next(s, ObserverReturns(c, reply));
            && c in t.calls && t.calls[c].cap == s.calls[c].cap && t.calls[c].binding == s.calls[c].binding
            && (if reply.Some? && Matches(s.calls[c].binding, reply.value)
                then t.calls[c].stage == SecondClock(s.calls[c].stage.t1, reply.value) else t.calls[c].stage.Ended?)
  {
    assert CallOk(s, s.calls[c]);
  }

  /** The second sample decides: the call is forwarded, with exactly this execution added, if and only
      if the reading is timely. The capability cannot be found not yet valid any more. */
  lemma SecondClockDecides(s: State, c: CallId, r: Reading)
    requires Inv(s) && c in s.calls && s.calls[c].stage.SecondClock?
    ensures var t, k := Next(s, ClockReturns(c, r)), s.calls[c];
            && c in t.calls && k.cap in t.caps
            && (if Timely(s, k.binding, r)
                then && t.calls[c].stage == Downstream && t.caps[k.cap].state == Consuming
                     && t.sent == s.sent + [Sent(c, k.cap, k.stage.observed, k.stage.t1, r.ms)]
                else && t.calls[c].stage.Ended? && t.calls[c].stage.outcome in {TimeInvalid, TimeRollback, Expired}
                     && t.caps[k.cap].state == Rejected && t.sent == s.sent)
  {
    assert CallOk(s, s.calls[c]);
  }

  /** What happens to one call, between whose cuts anything else may happen. */
  datatype Course = Course(
    before: seq<Action>, c: CallId, cap: CapId, a: seq<Action>, first: Reading, b: seq<Action>,
    reply: Option<Observed>, d: seq<Action>, second: Reading)
  {
    predicate Proper() {
      c !in Begun().calls && Others(a, c) && Others(b, c) && Others(d, c)
    }

    function Begun(): State { Run(INITIAL, before) }
    function AtFirst(): State { Run(Next(Begun(), Start(c, cap)), a) }
    function AtObserver(): State { Run(Next(AtFirst(), ClockReturns(c, first)), b) }
    function AtSecond(): State { Run(Next(AtObserver(), ObserverReturns(c, reply)), d) }
    function Finally(): State { Next(AtSecond(), ClockReturns(c, second)) }

    /** The capability was available, both samples were timely when they were taken, and the
        observation matches. */
    predicate Deserves() {
      && cap in Begun().caps && Begun().caps[cap].state == Available
      && var binding := Begun().caps[cap].binding;
         && Timely(AtFirst(), binding, first)
         && reply.Some? && Matches(binding, reply.value)
         && Timely(AtSecond(), binding, second)
    }
  }

  lemma CourseInv(x: Course)
    ensures Inv(x.Begun()) && Inv(x.AtFirst()) && Inv(x.AtObserver()) && Inv(x.AtSecond())
  {
    ReachableInv(x.before);
    NextInv(x.Begun(), Start(x.c, x.cap));
    RunInv(Next(x.Begun(), Start(x.c, x.cap)), x.a);
    NextInv(x.AtFirst(), ClockReturns(x.c, x.first));
    RunInv(Next(x.AtFirst(), ClockReturns(x.c, x.first)), x.b);
    NextInv(x.AtObserver(), ObserverReturns(x.c, x.reply));
    RunInv(Next(x.AtObserver(), ObserverReturns(x.c, x.reply)), x.d);
  }

  lemma CourseStart(x: Course)
    requires x.Proper()
    ensures x.c in x.AtFirst().calls && x.AtFirst().calls[x.c].cap == x.cap
    ensures if x.cap in x.Begun().caps && x.Begun().caps[x.cap].state == Available
            then x.AtFirst().calls[x.c] == Call(x.cap, x.Begun().caps[x.cap].binding, FirstClock)
            else x.AtFirst().calls[x.c].stage.Ended?
  {
    CourseInv(x);
    StartDecides(x.Begun(), x.c, x.cap);
    OthersLeave(Next(x.Begun(), Start(x.c, x.cap)), x.a, x.c);
  }

  lemma CourseFirst(x: Course)
    requires x.Proper()
    ensures x.c in x.AtFirst().calls && x.c in x.AtObserver().calls
    ensures var k, l := x.AtFirst().calls[x.c], x.AtObserver().calls[x.c];
            if k.stage.FirstClock? && Timely(x.AtFirst(), k.binding, x.first)
            then l == k.(stage := Observer(x.first.ms)) else k.stage.FirstClock? || k.stage.Ended? ==> l.stage.Ended?
  {
    CourseInv(x);
    CourseStart(x);
    var s := x.AtFirst();
    if s.calls[x.c].stage.FirstClock? { FirstClockDecides(s, x.c, x.first); }
    OthersLeave(Next(s, ClockReturns(x.c, x.first)), x.b, x.c);
  }

  lemma CourseObserver(x: Course)
    requires x.Proper()
    ensures x.c in x.AtObserver().calls && x.c in x.AtSecond().calls
    ensures var k, l := x.AtObserver().calls[x.c], x.AtSecond().calls[x.c];
            if k.stage.Observer? && x.reply.Some? && Matches(k.binding, x.reply.value)
            then l == k.(stage := SecondClock(k.stage.t1, x.reply.value))
            else k.stage.Observer? || k.stage.Ended? ==> l.stage.Ended?
  {
    CourseInv(x);
    CourseFirst(x);
    var s := x.AtObserver();
    if s.calls[x.c].stage.Observer? { ObserverDecides(s, x.c, x.reply); }
    OthersLeave(Next(s, ObserverReturns(x.c, x.reply)), x.d, x.c);
  }

  /** Among any other calls, a call is forwarded if and only if its capability was available, both of
      its samples were timely when they were taken, and the observation matches; and what is forwarded
      is that observation with those samples. */
  lemma ForwardedIffDeserved(x: Course)
    requires x.Proper()
    ensures x.c in x.Finally().calls
    ensures x.Finally().calls[x.c].stage == Downstream <==> x.Deserves()
    ensures x.Deserves() ==>
              x.Finally().sent == x.AtSecond().sent + [Sent(x.c, x.cap, x.reply.value, x.first.ms, x.second.ms)]
    ensures !x.Deserves() ==> x.Finally().calls[x.c].stage.Ended? && x.Finally().sent == x.AtSecond().sent
  {
    CourseInv(x);
    CourseStart(x);
    CourseFirst(x);
    CourseObserver(x);
    var s := x.AtSecond();
    if s.calls[x.c].stage.SecondClock? { SecondClockDecides(s, x.c, x.second); }
  }
}
