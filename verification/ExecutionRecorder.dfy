/** The execution evidence recorder: handles opened once per authorization, each completed once.

    A completion is cut between reserving its handle and sampling the clock, because the clock
    callback may call the recorder again. */
module ExecutionRecorder {
  import opened Outcomes

  type HandleId = nat

  const MAX_LOCAL_AUTHORIZATIONS := 1_000
  const MIN_LIFETIME_MS := 1_000
  const MAX_LIFETIME_MS := 300_000

  datatype Binding = Binding(
    profile: string, run: string, capability: string, action: string, context: string, issuedAt: int, expiresAt: int)

  /** A digest is known by what was hashed, under its own domain. */
  datatype Digest = OfBinding(binding: Binding) | OfEffect(text: string) | OfPayload(payload: Payload)

  datatype Payload = Payload(
    profile: string, run: string, capability: string, authorization: Digest, action: string, context: string,
    status: string, effect: Option<Digest>, startedAt: int, recordedAt: int, diagnostic: Option<string>)

  datatype Evidence = Evidence(payload: Payload, hash: Digest)

  predicate IsHash(s: string) {
    |s| == 64 && forall i :: 0 <= i < |s| ==> '0' <= s[i] <= '9' || 'a' <= s[i] <= 'f'
  }

  predicate IsDiagnostic(s: string) {
    3 <= |s| <= 96 && forall i :: 0 <= i < |s| ==> 'A' <= s[i] <= 'Z' || '0' <= s[i] <= '9' || s[i] == '_'
  }

  /** The part of the binding's validation that the recorder depends on. */
  predicate ValidBinding(b: Binding) {
    IsHash(b.action) && IsHash(b.context) && MIN_LIFETIME_MS <= b.expiresAt - b.issuedAt <= MAX_LIFETIME_MS
  }

  predicate IsStatus(s: string) {
    s == "success" || s == "error" || s == "unknown"
  }

  /** `validateEvidence`. */
  predicate Validates(e: Evidence) {
    var p := e.payload;
    && IsStatus(p.status) && IsHash(p.action) && IsHash(p.context)
    && !(p.status == "unknown" && p.effect.Some?)
    && !(p.status != "unknown" && p.effect.None?)
    && (p.diagnostic.Some? ==> IsDiagnostic(p.diagnostic.value))
    && p.recordedAt >= p.startedAt
  }

  // ----- outcomes

  datatype Effect = NoEffect | Committable(text: string) | Uncommittable

  /** What a caller reports: something that is not plain data, an object with the wrong fields, or
      a status (`None` when it is not a string) with an effect. */
  datatype Outcome = NotPlainData | WrongFields | Fields(status: Option<string>, effect: Effect)

  datatype Conclusion = Conclusion(status: string, effect: Option<Digest>, diagnostic: Option<string>)

  const OUTCOME_INVALID := Conclusion("unknown", None, Some("POMRX_EXEC_DIAG_OUTCOME_INVALID"))
  const EXECUTION_UNKNOWN := Conclusion("unknown", None, Some("POMRX_EXEC_DIAG_EXECUTION_UNKNOWN"))

  function Concluded(o: Outcome): Conclusion {
    match o
    case NotPlainData => OUTCOME_INVALID
    case WrongFields => OUTCOME_INVALID
    case Fields(status, effect) =>
      if status.None? || !IsStatus(status.value) then OUTCOME_INVALID
      else if status.value == "unknown" then if effect.NoEffect? then EXECUTION_UNKNOWN else OUTCOME_INVALID
      else match effect
           case NoEffect => OUTCOME_INVALID
           case Uncommittable => OUTCOME_INVALID
           case Committable(text) => Conclusion(status.value, Some(OfEffect(text)), None)
  }

  // ----- the recorder

  datatype HandleState = Open | Completing | Recorded | Failed

  datatype Handle = Handle(state: HandleState, binding: Binding, startedAt: int, evidence: Option<Evidence>)

  /** `emitted` lists the records handed out, with their handles. */
  datatype State = State(
    last: Option<int>, handles: map<HandleId, Handle>, used: set<Digest>, emitted: seq<(HandleId, Evidence)>)

  const INITIAL := State(None, map[], {}, [])

  /** `None` when the clock throws, is not synchronous or gives no instant. */
  type Reading = Option<int>

  datatype Action =
    | Begin(handle: HandleId, binding: Binding, reading: Reading)
    | Reserve(handle: HandleId)
    | Finish(handle: HandleId, outcome: Outcome, reading: Reading)

  predicate ClockOk(s: State, reading: Reading) {
    reading.Some? && (s.last.Some? ==> s.last.value <= reading.value)
  }

  function Built(h: Handle, c: Conclusion, now: int): Evidence {
    var p := Payload(h.binding.profile, h.binding.run, h.binding.capability, OfBinding(h.binding),
                     h.binding.action, h.binding.context, c.status, c.effect, h.startedAt, now, c.diagnostic);
    Evidence(p, OfPayload(p))
  }

  /** A new handle. */
  function Opened(s: State, id: HandleId, b: Binding, now: int): State {
    s.(used := s.used + {OfBinding(b)}, handles := s.handles[id := Handle(Open, b, now, None)])
  }

  function OnBegin(s: State, id: HandleId, b: Binding, reading: Reading): State {
    if id in s.handles || !ValidBinding(b) || !ClockOk(s, reading) then s
    else
      var now := reading.value;
      var s1 := s.(last := Some(now));
      if now < b.issuedAt || now >= b.expiresAt
         || OfBinding(b) in s.used || |s.used| >= MAX_LOCAL_AUTHORIZATIONS then s1
      else Opened(s1, id, b, now)
  }

  function OnFinish(s: State, id: HandleId, o: Outcome, reading: Reading): State
    requires id in s.handles
  {
    var h := s.handles[id];
    if !ClockOk(s, reading) then s.(handles := s.handles[id := h.(state := Failed)])
    else
      var s1 := s.(last := Some(reading.value));
      var e := Built(h, Concluded(o), reading.value);
      if !Validates(e) then s1.(handles := s.handles[id := h.(state := Failed)])
      else s1.(handles := s.handles[id := h.(state := Recorded, evidence := Some(e))], emitted := s.emitted + [(id, e)])
  }

  /** One step; a call on a foreign or stale handle changes nothing. */
  function Next(s: State, a: Action): State {
    match a
    case Begin(id, b, reading) => OnBegin(s, id, b, reading)
    case Reserve(id) =>
      if id !in s.handles || !s.handles[id].state.Open? then s
      else s.(handles := s.handles[id := s.handles[id].(state := Completing)])
    case Finish(id, o, reading) =>
      if id !in s.handles || !s.handles[id].state.Completing? then s else OnFinish(s, id, o, reading)
  }

  function Run(s: State, actions: seq<Action>): State
    decreases |actions|
  {
    if actions == [] then s else Run(Next(s, actions[0]), actions[1..])
  }

  // ----- what every step keeps

  /** A record says what its handle was opened for, and started and ended in order. */
  ghost predicate SoundRecord(h: Handle, e: Evidence, last: int) {
    && h.startedAt <= e.payload.recordedAt <= last && Validates(e)
    && exists o :: e == Built(h, Concluded(o), e.payload.recordedAt)
  }

  ghost predicate SoundHandle(s: State, h: Handle) {
    && ValidBinding(h.binding) && OfBinding(h.binding) in s.used
    && h.binding.issuedAt <= h.startedAt < h.binding.expiresAt
    && s.last.Some? && h.startedAt <= s.last.value
    && (h.state.Recorded? <==> h.evidence.Some?)
    && (h.evidence.Some? ==> SoundRecord(h, h.evidence.value, s.last.value))
  }

  ghost predicate SoundHandles(s: State) {
    forall id :: id in s.handles ==> SoundHandle(s, s.handles[id])
  }

  /** No two handles were opened for the same authorization. */
  ghost predicate Separate(s: State) {
    forall i, j :: i in s.handles && j in s.handles && i != j ==> s.handles[i].binding != s.handles[j].binding
  }

  ghost predicate Emissions(s: State) {
    && (forall k :: 0 <= k < |s.emitted| ==>
          s.emitted[k].0 in s.handles && s.handles[s.emitted[k].0].evidence == Some(s.emitted[k].1))
    && (forall j, k :: 0 <= j < k < |s.emitted| ==> s.emitted[j].0 != s.emitted[k].0)
  }

  ghost predicate Inv(s: State) {
    && SoundHandles(s) && Separate(s) && Emissions(s)
    && |s.handles| == |s.used| <= MAX_LOCAL_AUTHORIZATIONS
  }

  /** Whatever is reported, the conclusion is one that validation accepts, and it is known exactly
      when it carries an effect and no diagnostic. */
  lemma ConclusionShape(o: Outcome)
    ensures var c := Concluded(o);
            && IsStatus(c.status)
            && (c.status != "unknown" <==> c.effect.Some?) && (c.effect.Some? <==> c.diagnostic.None?)
            && (c.diagnostic.Some? ==> IsDiagnostic(c.diagnostic.value))
  {
  }

  /** The record built for a sound handle always passes validation. */
  lemma BuiltValidates(h: Handle, o: Outcome, now: int)
    requires ValidBinding(h.binding) && h.startedAt <= now
    ensures Validates(Built(h, Concluded(o), now))
  {
    ConclusionShape(o);
  }

  /** So the validation inside `buildEvidence` never fails: a completion fails exactly when the
      clock does, and otherwise hands out a record. */
  lemma FailsOnlyByTheClock(s: State, id: HandleId, o: Outcome, reading: Reading)
    requires Inv(s) && id in s.handles && s.handles[id].state.Completing?
    ensures var s2 := Next(s, Finish(id, o, reading));
            && (s2.handles[id].state == Failed <==> !ClockOk(s, reading))
            && (s2.handles[id].state == Recorded <==> ClockOk(s, reading))
            && (ClockOk(s, reading) ==>
                  s2.emitted == s.emitted + [(id, Built(s.handles[id], Concluded(o), reading.value))])
  {
    if ClockOk(s, reading) { BuiltValidates(s.handles[id], o, reading.value); }
  }

  lemma LaterSound(s: State, now: int, h: Handle)
    requires SoundHandle(s, h) && s.last.value <= now
    ensures SoundHandle(s.(last := Some(now)), h)
  {
    if h.evidence.Some? {
      var e := h.evidence.value;
      var o :| e == Built(h, Concluded(o), e.payload.recordedAt);
    }
  }

  /** Replacing one handle by a sound one with the same binding. */
  lemma UpdateKeeps(s: State, id: HandleId, h: Handle)
    requires Inv(s) && id in s.handles && SoundHandle(s, h) && h.binding == s.handles[id].binding
    requires h.evidence == s.handles[id].evidence
    ensures Inv(s.(handles := s.handles[id := h]))
  {
    var s2 := s.(handles := s.handles[id := h]);
    SameSize(s.handles, id, h);
    forall i | i in s2.handles ensures SoundHandle(s2, s2.handles[i]) {
      assert i != id ==> SoundHandle(s, s.handles[i]);
    }
    UpdateEmissions(s, id, h);
  }

  lemma UpdateEmissions(s: State, id: HandleId, h: Handle)
    requires Emissions(s) && id in s.handles && h.evidence == s.handles[id].evidence
    ensures Emissions(s.(handles := s.handles[id := h]))
  {
  }

  lemma SameSize(m: map<HandleId, Handle>, id: HandleId, h: Handle)
    ensures id in m ==> |m[id := h]| == |m|
    ensures id !in m ==> |m[id := h]| == |m| + 1
  {
    assert m[id := h].Keys == m.Keys + {id};
    assert |m[id := h]| == |m[id := h].Keys| && |m| == |m.Keys|;
  }

  lemma TickKeeps(s: State, now: int)
    requires Inv(s) && (s.last.Some? ==> s.last.value <= now)
    ensures Inv(s.(last := Some(now)))
  {
    forall id | id in s.handles ensures SoundHandle(s.(last := Some(now)), s.handles[id]) {
      LaterSound(s, now, s.handles[id]);
    }
  }

  lemma OpenedSound(s: State, id: HandleId, b: Binding, now: int)
    requires SoundHandles(s) && s.last == Some(now) && ValidBinding(b) && b.issuedAt <= now < b.expiresAt
    ensures SoundHandles(Opened(s, id, b, now))
  {
    var s2 := Opened(s, id, b, now);
    forall i | i in s2.handles ensures SoundHandle(s2, s2.handles[i]) {
      if i != id { assert SoundHandle(s, s.handles[i]); }
    }
  }

  /** An authorization that was never used has no handle yet. */
  lemma OpenedSeparate(s: State, id: HandleId, b: Binding, now: int)
    requires SoundHandles(s) && Separate(s) && OfBinding(b) !in s.used
    ensures Separate(Opened(s, id, b, now))
  {
    var s2 := Opened(s, id, b, now);
    forall i, j | i in s2.handles && j in s2.handles && i != j
      ensures s2.handles[i].binding != s2.handles[j].binding
    {
      if i != id { assert SoundHandle(s, s.handles[i]); }
      if j != id { assert SoundHandle(s, s.handles[j]); }
    }
  }

  lemma OpenedEmissions(s: State, id: HandleId, b: Binding, now: int)
    requires Emissions(s) && id !in s.handles
    ensures Emissions(Opened(s, id, b, now))
  {
  }

  lemma OpenKeeps(s: State, id: HandleId, b: Binding, now: int)
    requires Inv(s) && s.last == Some(now) && id !in s.handles && ValidBinding(b)
    requires b.issuedAt <= now < b.expiresAt && OfBinding(b) !in s.used && |s.used| < MAX_LOCAL_AUTHORIZATIONS
    ensures Inv(Opened(s, id, b, now))
  {
    OpenedSound(s, id, b, now);
    OpenedSeparate(s, id, b, now);
    OpenedEmissions(s, id, b, now);
    SameSize(s.handles, id, Handle(Open, b, now, None));
  }

  lemma BeginKeeps(s: State, id: HandleId, b: Binding, reading: Reading)
    requires Inv(s)
    ensures Inv(OnBegin(s, id, b, reading))
  {
    var s2 := OnBegin(s, id, b, reading);
    if s2 != s {
      var s1 := s.(last := reading);
      TickKeeps(s, reading.value);
      if s2 != s1 { OpenKeeps(s1, id, b, reading.value); }
    }
  }

  lemma RecordKeeps(s: State, id: HandleId, o: Outcome, now: int)
    requires Inv(s) && id in s.handles && s.handles[id].evidence.None? && s.last == Some(now)
    ensures var e := Built(s.handles[id], Concluded(o), now);
            Inv(s.(handles := s.handles[id := s.handles[id].(state := Recorded, evidence := Some(e))],
                   emitted := s.emitted + [(id, e)]))
  {
    var h := s.handles[id];
    var e := Built(h, Concluded(o), now);
    var h2 := h.(state := Recorded, evidence := Some(e));
    assert SoundHandle(s, h);
    BuiltValidates(h, o, now);
    assert e == Built(h2, Concluded(o), e.payload.recordedAt);
    assert SoundHandle(s, h2);
    SameSize(s.handles, id, h2);
    EmitKeeps(s, id, h2, e);
  }

  /** The handle's first record joins those handed out. */
  lemma EmitKeeps(s: State, id: HandleId, h: Handle, e: Evidence)
    requires SoundHandles(s) && Separate(s) && Emissions(s) && id in s.handles && s.handles[id].evidence.None?
    requires SoundHandle(s, h) && h.binding == s.handles[id].binding && h.evidence == Some(e)
    ensures var s2 := s.(handles := s.handles[id := h], emitted := s.emitted + [(id, e)]);
            SoundHandles(s2) && Separate(s2) && Emissions(s2)
  {
    var s2 := s.(handles := s.handles[id := h], emitted := s.emitted + [(id, e)]);
    forall k | 0 <= k < |s.emitted| ensures s.emitted[k].0 != id {
      assert s.handles[s.emitted[k].0].evidence == Some(s.emitted[k].1);
    }
    forall i | i in s2.handles ensures SoundHandle(s2, s2.handles[i]) {
      assert i != id ==> SoundHandle(s, s.handles[i]);
    }
  }

  lemma FinishKeeps(s: State, id: HandleId, o: Outcome, reading: Reading)
    requires Inv(s) && id in s.handles && s.handles[id].state.Completing?
    ensures Inv(OnFinish(s, id, o, reading))
  {
    var h := s.handles[id];
    assert SoundHandle(s, h);
    if !ClockOk(s, reading) {
      UpdateKeeps(s, id, h.(state := Failed));
    } else {
      TickKeeps(s, reading.value);
      BuiltValidates(h, o, reading.value);
      RecordKeeps(s.(last := reading), id, o, reading.value);
    }
  }

  lemma NextKeeps(s: State, a: Action)
    requires Inv(s)
    ensures Inv(Next(s, a))
  {
    match a
    case Begin(id, b, reading) => BeginKeeps(s, id, b, reading);
    case Reserve(id) =>
      if id in s.handles && s.handles[id].state.Open? {
        assert SoundHandle(s, s.handles[id]);
        UpdateKeeps(s, id, s.handles[id].(state := Completing));
      }
    case Finish(id, o, reading) =>
      if id in s.handles && s.handles[id].state.Completing? { FinishKeeps(s, id, o, reading); }
  }

  lemma {:induction false} RunKeeps(s: State, actions: seq<Action>)
    requires Inv(s)
    ensures Inv(Run(s, actions))
    decreases |actions|
  {
    if actions != [] {
      NextKeeps(s, actions[0]);
      RunKeeps(Next(s, actions[0]), actions[1..]);
    }
  }

  // ----- over every run

  /** At most a thousand handles, no two for one authorization, each started inside its window. */
  lemma HandlesBounded(actions: seq<Action>)
    ensures var s := Run(INITIAL, actions);
            && |s.handles| <= MAX_LOCAL_AUTHORIZATIONS
            && (forall i, j :: i in s.handles && j in s.handles && s.handles[i].binding == s.handles[j].binding ==>
                  i == j)
            && (forall i :: i in s.handles ==>
                  s.handles[i].binding.issuedAt <= s.handles[i].startedAt < s.handles[i].binding.expiresAt)
  {
    RunKeeps(INITIAL, actions);
    var s := Run(INITIAL, actions);
    forall i | i in s.handles
      ensures s.handles[i].binding.issuedAt <= s.handles[i].startedAt < s.handles[i].binding.expiresAt
    {
      assert SoundHandle(s, s.handles[i]);
    }
  }

  /** Every record handed out is its handle's only one, says what the handle was opened for, began
      inside the window, was recorded no earlier, is known exactly when it has an effect and no
      diagnostic, hashes to its own hash and passes validation. */
  lemma RecordsSound(actions: seq<Action>, k: nat)
    requires k < |Run(INITIAL, actions).emitted|
    ensures var s := Run(INITIAL, actions);
            var (id, e) := s.emitted[k];
            && id in s.handles && s.handles[id].state == Recorded
            && (forall j :: 0 <= j < |s.emitted| && s.emitted[j].0 == id ==> j == k)
            && e.payload.authorization == OfBinding(s.handles[id].binding)
            && e.payload.action == s.handles[id].binding.action && e.payload.context == s.handles[id].binding.context
            && s.handles[id].binding.issuedAt <= e.payload.startedAt < s.handles[id].binding.expiresAt
            && e.payload.startedAt <= e.payload.recordedAt
            && (e.payload.status != "unknown" <==> e.payload.effect.Some?)
            && (e.payload.effect.Some? <==> e.payload.diagnostic.None?)
            && e.hash == OfPayload(e.payload) && Validates(e)
  {
    RunKeeps(INITIAL, actions);
    var s := Run(INITIAL, actions);
    var (id, e) := s.emitted[k];
    assert s.handles[id].evidence == Some(e);
    assert SoundHandle(s, s.handles[id]);
    assert SoundRecord(s.handles[id], e, s.last.value);
    var o :| e == Built(s.handles[id], Concluded(o), e.payload.recordedAt);
    ConclusionShape(o);
  }

  predicate Settled(h: Handle) {
    h.state == Recorded || h.state == Failed
  }

  lemma SettledStep(s: State, a: Action, id: HandleId)
    requires id in s.handles && Settled(s.handles[id])
    ensures id in Next(s, a).handles && Next(s, a).handles[id] == s.handles[id]
  {
  }

  lemma LastGrows(s: State, a: Action)
    ensures s.last.Some? ==> Next(s, a).last.Some? && s.last.value <= Next(s, a).last.value
  {
  }

  /** A finished handle never changes again, and the clock's high-water mark never falls. */
  lemma {:induction false} SettledForever(s: State, actions: seq<Action>, id: HandleId)
    requires id in s.handles && Settled(s.handles[id])
    ensures id in Run(s, actions).handles && Run(s, actions).handles[id] == s.handles[id]
    ensures s.last.Some? ==> Run(s, actions).last.Some? && s.last.value <= Run(s, actions).last.value
    decreases |actions|
  {
    if actions != [] {
      SettledStep(s, actions[0], id);
      LastGrows(s, actions[0]);
      SettledForever(Next(s, actions[0]), actions[1..], id);
    }
  }

  /** An authorization that was opened is refused for good. */
  lemma {:induction false} UsedForever(s: State, actions: seq<Action>, b: Binding)
    requires Inv(s) && OfBinding(b) in s.used
    ensures OfBinding(b) in Run(s, actions).used
    ensures forall i :: i in Run(s, actions).handles && i !in s.handles ==> Run(s, actions).handles[i].binding != b
    decreases |actions|
  {
    if actions != [] {
      var s1 := Next(s, actions[0]);
      NextKeeps(s, actions[0]);
      UsedForever(s1, actions[1..], b);
      forall i | i in Run(s1, actions[1..]).handles && i !in s.handles
        ensures Run(s1, actions[1..]).handles[i].binding != b
      {
        if i in s1.handles { BindingStays(s1, actions[1..], i); }
      }
    }
  }

  lemma {:induction false} BindingStays(s: State, actions: seq<Action>, id: HandleId)
    requires id in s.handles
    ensures id in Run(s, actions).handles
    ensures Run(s, actions).handles[id].binding == s.handles[id].binding
    decreases |actions|
  {
    if actions != [] { BindingStays(Next(s, actions[0]), actions[1..], id); }
  }

  // ----- the recorder object

  class Recorder {
    var last: Option<int>
    var handles: map<HandleId, Handle>
    var used: set<Digest>
    ghost var emitted: seq<(HandleId, Evidence)>

    ghost function Snapshot(): State
      reads this
    {
      State(last, handles, used, emitted)
    }

    constructor ()
      ensures Snapshot() == INITIAL
    {
      last, handles, used, emitted := None, map[], {}, [];
    }

    method SampleTrustedClock(reading: Reading) returns (now: Option<int>)
      modifies this`last
      ensures now == if reading.Some? && (old(last).Some? ==> old(last).value <= reading.value) then reading else None
      ensures last == if now.Some? then now else old(last)
    {
      if reading.None? || (last.Some? && reading.value < last.value) { return None; }
      last := reading;
      return reading;
    }

    /** `None` stands for every refusal. */
    method BeginRecording(id: HandleId, binding: Binding, reading: Reading) returns (handle: Option<HandleId>)
      requires Inv(Snapshot()) && id !in handles
      modifies this
      ensures Snapshot() == Next(old(Snapshot()), Begin(id, binding, reading)) && Inv(Snapshot())
      ensures handle.Some? <==> id in handles
      ensures handle.Some? <==> old(&& IsHash(binding.action) && IsHash(binding.context)
                                    && 1_000 <= binding.expiresAt - binding.issuedAt <= 300_000
                                    && reading.Some? && (last.Some? ==> last.value <= reading.value)
                                    && binding.issuedAt <= reading.value < binding.expiresAt
                                    && OfBinding(binding) !in used && |handles| < MAX_LOCAL_AUTHORIZATIONS)
    {
      NextKeeps(Snapshot(), Begin(id, binding, reading));
      if !ValidBinding(binding) { return None; }
      var now := SampleTrustedClock(reading);
      if now.None? || now.value < binding.issuedAt || now.value >= binding.expiresAt { return None; }
      if OfBinding(binding) in used { return None; }
      if |used| >= MAX_LOCAL_AUTHORIZATIONS { return None; }
      used := used + {OfBinding(binding)};
      handles := handles[id := Handle(Open, binding, now.value, None)];
      return Some(id);
    }

    method ReserveHandle(id: HandleId) returns (ok: bool)
      requires Inv(Snapshot())
      modifies this
      ensures Snapshot() == Next(old(Snapshot()), Reserve(id)) && Inv(Snapshot())
      ensures ok <==> id in old(handles) && old(handles)[id].state.Open?
      ensures ok ==> handles[id].state == Completing
    {
      NextKeeps(Snapshot(), Reserve(id));
      if id !in handles || handles[id].state != Open { return false; }
      handles := handles[id := handles[id].(state := Completing)];
      return true;
    }

    /** What follows the reservation, once the clock has answered. */
    method FinishRecording(id: HandleId, outcome: Outcome, reading: Reading) returns (evidence: Option<Evidence>)
      requires Inv(Snapshot()) && id in handles && handles[id].state == Completing
      modifies this
      ensures Snapshot() == Next(old(Snapshot()), Finish(id, outcome, reading)) && Inv(Snapshot())
      ensures evidence.Some? <==> reading.Some? && (old(last).Some? ==> old(last).value <= reading.value)
      ensures evidence.Some? ==> handles[id].evidence == evidence && Validates(evidence.value)
      ensures evidence.None? ==> handles[id].state == Failed
    {
      NextKeeps(Snapshot(), Finish(id, outcome, reading));
      FailsOnlyByTheClock(Snapshot(), id, outcome, reading);
      assert SoundHandle(Snapshot(), handles[id]);
      var h, c := handles[id], Concluded(outcome);
      var now := SampleTrustedClock(reading);
      if now.None? {
        handles := handles[id := h.(state := Failed)];
        return None;
      }
      BuiltValidates(h, outcome, now.value);
      var e := Built(h, c, now.value);
      assert Validates(e);
      handles := handles[id := h.(state := Recorded, evidence := Some(e))];
      emitted := emitted + [(id, e)];
      return Some(e);
    }
  }
}
