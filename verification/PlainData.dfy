/** Bounded capture of object graphs (`captureReferencePlainData`): a recursive copy with one
    shared node budget and a depth limit, over a heap that may share objects or contain cycles. */
module PlainData {
  import opened Outcomes

  // ----- the caller's objects

  type Ref = nat

  datatype JsValue =
    | JsNull
    | JsBool(b: bool)
    | JsInteger(n: int)
    | JsString(s: string)
    | JsRef(r: Ref)
    | JsFraction                     // any other number: a fraction, an infinity, not-a-number
    | JsOther                        // undefined, a function, a symbol, a bigint

  /** An own property: an enumerable data property, another kind of property, or none at all. */
  datatype Slot = Data(value: JsValue) | Special | Missing

  datatype Property = Property(key: string, slot: Slot)

  /** `plain` covers the tests on proxies, prototypes and symbol keys. */
  datatype HeapObject =
    | ArrayObject(plain: bool, slots: seq<Slot>, extraNames: nat)
    | PlainObject(plain: bool, properties: seq<Property>)

  type Heap = map<Ref, HeapObject>

  // ----- captured data

  datatype Snapshot =
    | Null
    | Bool(b: bool)
    | Integer(n: int)
    | Text(s: string)
    | Items(items: seq<Snapshot>)
    | Fields(fields: seq<Field>)

  datatype Field = Field(key: string, value: Snapshot)

  datatype Refusal =
    | DepthExceeded | NodesExceeded | TextTooLong | BadNumber | BadType | NotPlain | BadArray | BadKey | BadProperty

  const MAX_DEPTH := 8
  const MAX_NODES := 1_000
  const MAX_STRING_LENGTH := 16_384
  const MAX_KEY_LENGTH := 128
  const MAX_ARRAY_LENGTH := 1_000
  const MAX_SAFE_INTEGER := 9_007_199_254_740_991

  predicate KeyChar(c: char) {
    'A' <= c <= 'Z' || 'a' <= c <= 'z' || '0' <= c <= '9' || c in "_.:/-"
  }

  predicate SafeKey(key: string) {
    && 1 <= |key| <= MAX_KEY_LENGTH
    && (forall i :: 0 <= i < |key| ==> KeyChar(key[i]))
    && key !in ["__proto__", "constructor", "prototype"]
  }

  predicate SafeInteger(n: int) {
    -MAX_SAFE_INTEGER <= n <= MAX_SAFE_INTEGER
  }

  // ----- the unfolding of a value

  predicate ArrayOk(o: HeapObject) {
    o.ArrayObject? && o.plain && o.extraNames == 0 && |o.slots| <= MAX_ARRAY_LENGTH
  }

  predicate ObjectOk(o: HeapObject) {
    o.PlainObject? && o.plain
  }

  /** `t` is the tree that `v` unfolds to: every object passes its own checks, and shared
      objects are copied at each place they occur. */
  predicate Unfolds(heap: Heap, v: JsValue, t: Snapshot)
    decreases t, 0
  {
    match t
    case Null => v.JsNull?
    case Bool(b) => v == JsBool(b)
    case Integer(n) => v == JsInteger(n) && SafeInteger(n)
    case Text(s) => v == JsString(s) && |s| <= MAX_STRING_LENGTH
    case Items(ts) =>
      && v.JsRef? && v.r in heap && ArrayOk(heap[v.r]) && |heap[v.r].slots| == |ts|
      && forall i :: 0 <= i < |ts| ==> UnfoldsSlot(heap, heap[v.r].slots[i], ts[i])
    case Fields(fs) =>
      && v.JsRef? && v.r in heap && ObjectOk(heap[v.r]) && |heap[v.r].properties| == |fs|
      && forall i :: 0 <= i < |fs| ==> UnfoldsProperty(heap, heap[v.r].properties[i], fs[i])
  }

  predicate UnfoldsSlot(heap: Heap, slot: Slot, t: Snapshot)
    decreases t, 1
  {
    slot.Data? && Unfolds(heap, slot.value, t)
  }

  predicate UnfoldsProperty(heap: Heap, p: Property, f: Field)
    decreases f
  {
    p.key == f.key && SafeKey(p.key) && p.slot.Data? && Unfolds(heap, p.slot.value, f.value)
  }

  /** The number of nodes of a tree. */
  function Size(t: Snapshot): (n: nat)
    ensures n > 0
    decreases t
  {
    match t
    case Items(ts) => 1 + SizeOfItems(ts)
    case Fields(fs) => 1 + SizeOfFields(fs)
    case _ => 1
  }

  function SizeOfItems(ts: seq<Snapshot>): (n: nat)
    ensures n >= |ts|
    decreases ts
  {
    if ts == [] then 0 else SizeOfItems(ts[..|ts| - 1]) + Size(ts[|ts| - 1])
  }

  function SizeOfFields(fs: seq<Field>): (n: nat)
    ensures n >= |fs|
    decreases fs
  {
    if fs == [] then 0 else SizeOfFields(fs[..|fs| - 1]) + Size(fs[|fs| - 1].value)
  }

  predicate DepthWithin(t: Snapshot, d: int)
    decreases t
  {
    && d >= 0
    && match t
       case Items(ts) => forall i :: 0 <= i < |ts| ==> DepthWithin(ts[i], d - 1)
       case Fields(fs) => forall i :: 0 <= i < |fs| ==> DepthWithin(fs[i].value, d - 1)
       case _ => true
  }

  lemma {:induction false} SizeOfItemsGrows(ts: seq<Snapshot>, k: nat)
    requires k < |ts|
    ensures SizeOfItems(ts[..k]) + Size(ts[k]) <= SizeOfItems(ts)
    decreases |ts|
  {
    var init := ts[..|ts| - 1];
    if k < |init| {
      SizeOfItemsGrows(init, k);
      assert init[..k] == ts[..k];
    }
  }

  lemma {:induction false} SizeOfFieldsGrows(fs: seq<Field>, k: nat)
    requires k < |fs|
    ensures SizeOfFields(fs[..k]) + Size(fs[k].value) <= SizeOfFields(fs)
    decreases |fs|
  {
    var init := fs[..|fs| - 1];
    if k < |init| {
      SizeOfFieldsGrows(init, k);
      assert init[..k] == fs[..k];
    }
  }

  /** A value has at most one unfolding. */
  lemma {:induction false} UnfoldingUnique(heap: Heap, v: JsValue, t: Snapshot, u: Snapshot)
    requires Unfolds(heap, v, t) && Unfolds(heap, v, u)
    ensures t == u
    decreases t
  {
    match t
    case Items(ts) =>
      forall i | 0 <= i < |ts| ensures ts[i] == u.items[i] {
        assert UnfoldsSlot(heap, heap[v.r].slots[i], ts[i]) && UnfoldsSlot(heap, heap[v.r].slots[i], u.items[i]);
        UnfoldingUnique(heap, heap[v.r].slots[i].value, ts[i], u.items[i]);
      }
    case Fields(fs) =>
      forall i | 0 <= i < |fs| ensures fs[i] == u.fields[i] {
        var p := heap[v.r].properties[i];
        assert UnfoldsProperty(heap, p, fs[i]) && UnfoldsProperty(heap, p, u.fields[i]);
        UnfoldingUnique(heap, p.slot.value, fs[i].value, u.fields[i].value);
      }
    case _ =>
  }

  /** The value found by following element or property positions. */
  function Follow(heap: Heap, v: JsValue, path: seq<nat>): Option<JsValue>
    decreases |path|
  {
    if path == [] then Some(v)
    else if !v.JsRef? || v.r !in heap then None
    else
      var o := heap[v.r];
      var slot := match o
                  case ArrayObject(_, slots, _) => if path[0] < |slots| then slots[path[0]] else Missing
                  case PlainObject(_, ps) => if path[0] < |ps| then ps[path[0]].slot else Missing;
      if slot.Data? then Follow(heap, slot.value, path[1..]) else None
  }

  // ----- why a value is refused

  /** What is wrong with the value itself. */
  predicate Faulty(heap: Heap, w: JsValue, e: Refusal) {
    match e
    case TextTooLong => w.JsString? && |w.s| > 16_384
    case BadNumber => w.JsFraction? || (w.JsInteger? && (w.n < -9_007_199_254_740_991 || w.n > 9_007_199_254_740_991))
    case BadType => w.JsOther? || (w.JsRef? && w.r !in heap)
    case NotPlain => w.JsRef? && w.r in heap && !heap[w.r].plain
    case BadArray =>
      && w.JsRef? && w.r in heap && heap[w.r].ArrayObject?
      && var o := heap[w.r];
         |o.slots| > 1_000 || o.extraNames > 0 || exists i :: 0 <= i < |o.slots| && !o.slots[i].Data?
    case BadKey =>
      && w.JsRef? && w.r in heap && heap[w.r].PlainObject?
      && var ps := heap[w.r].properties;
         exists i :: 0 <= i < |ps| && BadName(ps[i].key)
    case BadProperty =>
      && w.JsRef? && w.r in heap && heap[w.r].PlainObject?
      && var ps := heap[w.r].properties;
         exists i :: 0 <= i < |ps| && !ps[i].slot.Data?
    case _ => false
  }

  predicate BadName(key: string) {
    || key == "" || |key| > 128 || key == "__proto__" || key == "constructor" || key == "prototype"
    || exists i :: 0 <= i < |key| && !('A' <= key[i] <= 'Z' || 'a' <= key[i] <= 'z' || '0' <= key[i] <= '9'
                                       || key[i] == '_' || key[i] == '.' || key[i] == ':' || key[i] == '/'
                                       || key[i] == '-')
  }

  predicate FaultyAt(heap: Heap, v: JsValue, path: seq<nat>, d: int, e: Refusal) {
    |path| <= d && Follow(heap, v, path).Some? && Faulty(heap, Follow(heap, v, path).value, e)
  }

  /** The reason that a refusal names is there: the value reaches deeper than `d`, no tree that it unfolds to has
      at most `nodes` nodes, or something in it, at most `d` below it, is at fault. */
  ghost predicate Blamed(heap: Heap, v: JsValue, d: int, nodes: int, e: Refusal) {
    match e
    case DepthExceeded => exists path :: |path| == d + 1 && Follow(heap, v, path).Some?
    case NodesExceeded => forall t :: Unfolds(heap, v, t) ==> Size(t) > nodes
    case _ => exists path :: FaultyAt(heap, v, path, d, e)
  }

  lemma BlamedHere(heap: Heap, v: JsValue, d: int, nodes: int, e: Refusal)
    requires d >= 0 && Faulty(heap, v, e)
    ensures Blamed(heap, v, d, nodes, e)
  {
    assert FaultyAt(heap, v, [], d, e);
  }

  lemma FollowThrough(heap: Heap, r: Ref, i: nat, path: seq<nat>)
    requires r in heap
    requires heap[r].ArrayObject? ==> i < |heap[r].slots| && heap[r].slots[i].Data?
    requires heap[r].PlainObject? ==> i < |heap[r].properties| && heap[r].properties[i].slot.Data?
    ensures var child := if heap[r].ArrayObject? then heap[r].slots[i].value else heap[r].properties[i].slot.value;
            Follow(heap, JsRef(r), [i] + path) == Follow(heap, child, path)
  {
    assert ([i] + path)[1..] == path;
  }

  /** What is wrong below a child is wrong below its parent. */
  lemma BlamedBelow(heap: Heap, r: Ref, i: nat, child: JsValue, d: int, nodes: int, left: int, e: Refusal)
    requires r in heap && !e.NodesExceeded?
    requires heap[r].ArrayObject? ==> i < |heap[r].slots| && heap[r].slots[i] == Data(child)
    requires heap[r].PlainObject? ==> i < |heap[r].properties| && heap[r].properties[i].slot == Data(child)
    requires Blamed(heap, child, d - 1, left, e)
    ensures Blamed(heap, JsRef(r), d, nodes, e)
  {
    if e.DepthExceeded? {
      var path :| |path| == d && Follow(heap, child, path).Some?;
      FollowThrough(heap, r, i, path);
      assert |[i] + path| == d + 1;
    } else {
      var path :| FaultyAt(heap, child, path, d - 1, e);
      FollowThrough(heap, r, i, path);
      assert FaultyAt(heap, JsRef(r), [i] + path, d, e);
    }
  }

  // ----- capture

  class Budget {
    var remaining: int

    constructor (nodes: int)
      ensures remaining == nodes
    {
      remaining := nodes;
    }
  }

  /** Nothing that the value could be captured as fits in the depth and the budget. */
  ghost predicate Unfit(heap: Heap, v: JsValue, d: int, nodes: int) {
    forall t :: Unfolds(heap, v, t) ==> !DepthWithin(t, d) || Size(t) > nodes
  }

  /** The value cannot be captured, for the reason named. */
  ghost predicate Refused(heap: Heap, v: JsValue, d: int, nodes: int, e: Refusal) {
    Unfit(heap, v, d, nodes) && Blamed(heap, v, d, nodes, e)
  }

  method CaptureValue(heap: Heap, v: JsValue, depth: nat, budget: Budget) returns (r: Result<Snapshot, Refusal>)
    requires depth <= MAX_DEPTH + 1
    modifies budget
    ensures r.Ok? ==> && Unfolds(heap, v, r.value) && DepthWithin(r.value, MAX_DEPTH - depth)
                      && budget.remaining == old(budget.remaining) - Size(r.value) >= 0
    ensures r.Err? ==> Refused(heap, v, MAX_DEPTH - depth, old(budget.remaining), r.error)
    decreases MAX_DEPTH + 1 - depth, 2
  {
    if depth > MAX_DEPTH {
      assert Follow(heap, v, []).Some?;
      return Err(DepthExceeded);
    }
    if budget.remaining <= 0 { return Err(NodesExceeded); }
    budget.remaining := budget.remaining - 1;
    match v
    case JsNull => return Ok(Null);
    case JsBool(b) => return Ok(Bool(b));
    case JsString(s) =>
      if |s| > MAX_STRING_LENGTH {
        BlamedHere(heap, v, MAX_DEPTH - depth, old(budget.remaining), TextTooLong);
        return Err(TextTooLong);
      }
      return Ok(Text(s));
    case JsInteger(n) =>
      if !SafeInteger(n) {
        BlamedHere(heap, v, MAX_DEPTH - depth, old(budget.remaining), BadNumber);
        return Err(BadNumber);
      }
      return Ok(Integer(n));
    case JsFraction =>
      BlamedHere(heap, v, MAX_DEPTH - depth, old(budget.remaining), BadNumber);
      return Err(BadNumber);
    case JsOther =>
      BlamedHere(heap, v, MAX_DEPTH - depth, old(budget.remaining), BadType);
      return Err(BadType);
    case JsRef(ref) =>
      if ref !in heap {
        BlamedHere(heap, v, MAX_DEPTH - depth, old(budget.remaining), BadType);
        return Err(BadType);
      }
      if heap[ref].ArrayObject? {
        r := CaptureArray(heap, ref, depth, budget);
      } else {
        r := CaptureObject(heap, ref, depth, budget);
      }
  }

  /** If element `k` cannot be captured with what the elements before it leave, the array cannot. */
  lemma UnfitElement(heap: Heap, r: Ref, captured: seq<Snapshot>, d: int, nodes: int)
    requires r in heap && heap[r].ArrayObject? && |captured| < |heap[r].slots|
    requires forall k :: 0 <= k < |captured| ==> UnfoldsSlot(heap, heap[r].slots[k], captured[k])
    requires var s := heap[r].slots[|captured|];
             s.Data? ==> Unfit(heap, s.value, d - 1, nodes - 1 - SizeOfItems(captured))
    ensures Unfit(heap, JsRef(r), d, nodes)
  {
    var i := |captured|;
    forall t | Unfolds(heap, JsRef(r), t) ensures !DepthWithin(t, d) || Size(t) > nodes {
      var ts := t.items;
      assert UnfoldsSlot(heap, heap[r].slots[i], ts[i]);
      ItemsBefore(heap, r, captured, ts);
      SizeOfItemsGrows(ts, i);
    }
  }

  method CaptureArray(heap: Heap, ref: Ref, depth: nat, budget: Budget) returns (r: Result<Snapshot, Refusal>)
    requires depth <= MAX_DEPTH && ref in heap && heap[ref].ArrayObject? && budget.remaining >= 0
    modifies budget
    ensures r.Ok? ==> && Unfolds(heap, JsRef(ref), r.value) && DepthWithin(r.value, MAX_DEPTH - depth)
                      && budget.remaining == old(budget.remaining) + 1 - Size(r.value) >= 0
    ensures r.Err? ==> Refused(heap, JsRef(ref), MAX_DEPTH - depth, old(budget.remaining) + 1, r.error)
    decreases MAX_DEPTH + 1 - depth, 1
  {
    var o := heap[ref];
    ArrayRefused(heap, ref, MAX_DEPTH - depth, budget.remaining + 1);
    if !o.plain { return Err(NotPlain); }
    var length := |o.slots|;
    if length > MAX_ARRAY_LENGTH { return Err(BadArray); }
    if length > budget.remaining { return Err(NodesExceeded); }
    if PresentSlots(o.slots) + o.extraNames != length { return Err(BadArray); }
    var output: seq<Snapshot> := [];
    for index := 0 to length
      invariant |output| == index && ItemsSoFar(heap, ref, output, MAX_DEPTH - depth)
      invariant budget.remaining == old(budget.remaining) - SizeOfItems(output) >= 0
    {
      var captured := CaptureElement(heap, ref, index, output, depth, budget);
      if captured.Err? { return captured; }
      output := output + [captured.value];
    }
    ItemsUnfold(heap, ref, output, MAX_DEPTH - depth);
    return Ok(Items(output));
  }

  /** The elements captured so far unfold and stay within the depth. */
  predicate ItemsSoFar(heap: Heap, r: Ref, ts: seq<Snapshot>, d: int)
    requires r in heap && heap[r].ArrayObject?
  {
    && |ts| <= |heap[r].slots|
    && forall k :: 0 <= k < |ts| ==> UnfoldsSlot(heap, heap[r].slots[k], ts[k]) && DepthWithin(ts[k], d - 1)
  }

  lemma ItemAdded(heap: Heap, r: Ref, ts: seq<Snapshot>, t: Snapshot, d: int)
    requires r in heap && heap[r].ArrayObject? && |ts| < |heap[r].slots| && ItemsSoFar(heap, r, ts, d)
    requires UnfoldsSlot(heap, heap[r].slots[|ts|], t) && DepthWithin(t, d - 1)
    ensures ItemsSoFar(heap, r, ts + [t], d) && SizeOfItems(ts + [t]) == SizeOfItems(ts) + Size(t)
  {
    assert (ts + [t])[..|ts|] == ts;
  }

  /** One turn of the loop over the elements. */
  method CaptureElement(heap: Heap, ref: Ref, index: nat, ghost output: seq<Snapshot>, depth: nat, budget: Budget)
    returns (r: Result<Snapshot, Refusal>)
    requires depth <= MAX_DEPTH && ref in heap && heap[ref].ArrayObject? && budget.remaining >= 0
    requires index == |output| < |heap[ref].slots| && ItemsSoFar(heap, ref, output, MAX_DEPTH - depth)
    modifies budget
    ensures r.Ok? ==> && ItemsSoFar(heap, ref, output + [r.value], MAX_DEPTH - depth)
                      && budget.remaining == old(budget.remaining) - Size(r.value) >= 0
                      && SizeOfItems(output + [r.value]) == SizeOfItems(output) + Size(r.value)
    ensures r.Err? ==> Refused(heap, JsRef(ref), MAX_DEPTH - depth,
                               old(budget.remaining) + 1 + SizeOfItems(output), r.error)
    decreases MAX_DEPTH + 1 - depth, 0
  {
    ghost var d, left := MAX_DEPTH - depth, budget.remaining;
    ghost var nodes := left + 1 + SizeOfItems(output);
    assert MAX_DEPTH - (depth + 1) == d - 1 && nodes - 1 - SizeOfItems(output) == left;
    var slot := heap[ref].slots[index];
    if !slot.Data? {
      ElementRefused(heap, ref, output, d, nodes, BadArray);
      return Err(BadArray);
    }
    r := CaptureValue(heap, slot.value, depth + 1, budget);
    if r.Ok? {
      ItemAdded(heap, ref, output, r.value, d);
    } else {
      ElementRefused(heap, ref, output, d, nodes, r.error);
    }
  }

  /** The number of indexes that are own properties. */
  function PresentSlots(slots: seq<Slot>): nat {
    if slots == [] then 0
    else (if slots[0].Missing? then 0 else 1) + PresentSlots(slots[1..])
  }

  lemma {:induction false} AllPresent(slots: seq<Slot>)
    requires forall i :: 0 <= i < |slots| ==> slots[i].Data?
    ensures PresentSlots(slots) == |slots|
    decreases |slots|
  {
    if slots != [] {
      AllPresent(slots[1..]);
    }
  }

  lemma NotDense(heap: Heap, r: Ref)
    requires r in heap && heap[r].ArrayObject?
    requires PresentSlots(heap[r].slots) + heap[r].extraNames != |heap[r].slots|
    ensures forall t :: !Unfolds(heap, JsRef(r), t)
  {
    forall t ensures !Unfolds(heap, JsRef(r), t) {
      if Unfolds(heap, JsRef(r), t) {
        forall i | 0 <= i < |heap[r].slots| ensures heap[r].slots[i].Data? {
          assert UnfoldsSlot(heap, heap[r].slots[i], t.items[i]);
        }
        AllPresent(heap[r].slots);
      }
    }
  }

  lemma ArrayFault(heap: Heap, r: Ref, d: int, nodes: int)
    requires r in heap && heap[r].ArrayObject? && d >= 0
    requires |heap[r].slots| > MAX_ARRAY_LENGTH
             || PresentSlots(heap[r].slots) + heap[r].extraNames != |heap[r].slots|
    ensures Refused(heap, JsRef(r), d, nodes, BadArray)
  {
    var o := heap[r];
    if PresentSlots(o.slots) + o.extraNames != |o.slots| { NotDense(heap, r); }
    if forall i :: 0 <= i < |o.slots| ==> o.slots[i].Data? { AllPresent(o.slots); }
    BlamedHere(heap, JsRef(r), d, nodes, BadArray);
  }

  lemma NotPlainRefused(heap: Heap, r: Ref, d: int, nodes: int)
    requires r in heap && d >= 0 && !heap[r].plain
    ensures Refused(heap, JsRef(r), d, nodes, NotPlain)
  {
    BlamedHere(heap, JsRef(r), d, nodes, NotPlain);
  }

  /** What the checks before the loop refuse cannot be captured, for the reason they name. */
  lemma ArrayRefused(heap: Heap, r: Ref, d: int, nodes: int)
    requires r in heap && heap[r].ArrayObject? && d >= 0
    ensures var o, v := heap[r], JsRef(r);
            && (!o.plain ==> Refused(heap, v, d, nodes, NotPlain))
            && (|o.slots| > MAX_ARRAY_LENGTH || PresentSlots(o.slots) + o.extraNames != |o.slots| ==>
                  Refused(heap, v, d, nodes, BadArray))
            && (|o.slots| > nodes - 1 ==> Refused(heap, v, d, nodes, NodesExceeded))
  {
    var o := heap[r];
    if !o.plain { NotPlainRefused(heap, r, d, nodes); }
    if |o.slots| > MAX_ARRAY_LENGTH || PresentSlots(o.slots) + o.extraNames != |o.slots| {
      ArrayFault(heap, r, d, nodes);
    }
  }

  /** If element `k` cannot be captured with what the elements before it leave, neither can the array. */
  lemma ElementRefused(heap: Heap, r: Ref, captured: seq<Snapshot>, d: int, nodes: int, e: Refusal)
    requires r in heap && heap[r].ArrayObject? && |captured| < |heap[r].slots| && d >= 0
    requires forall k :: 0 <= k < |captured| ==> UnfoldsSlot(heap, heap[r].slots[k], captured[k])
    requires var s := heap[r].slots[|captured|];
             if s.Data? then Refused(heap, s.value, d - 1, nodes - 1 - SizeOfItems(captured), e) else e == BadArray
    ensures Refused(heap, JsRef(r), d, nodes, e)
  {
    UnfitElement(heap, r, captured, d, nodes);
    if heap[r].slots[|captured|].Data? {
      BlamedElement(heap, r, captured, d, nodes, e);
    } else {
      BlamedHere(heap, JsRef(r), d, nodes, e);
    }
  }

  /** The reason for refusing an element is one for refusing the array. */
  lemma BlamedElement(heap: Heap, r: Ref, captured: seq<Snapshot>, d: int, nodes: int, e: Refusal)
    requires r in heap && heap[r].ArrayObject? && |captured| < |heap[r].slots| && heap[r].slots[|captured|].Data?
    requires forall k :: 0 <= k < |captured| ==> UnfoldsSlot(heap, heap[r].slots[k], captured[k])
    requires Blamed(heap, heap[r].slots[|captured|].value, d - 1, nodes - 1 - SizeOfItems(captured), e)
    ensures Blamed(heap, JsRef(r), d, nodes, e)
  {
    var i := |captured|;
    if e.NodesExceeded? {
      forall t | Unfolds(heap, JsRef(r), t) ensures Size(t) > nodes {
        assert UnfoldsSlot(heap, heap[r].slots[i], t.items[i]);
        ItemsBefore(heap, r, captured, t.items);
        SizeOfItemsGrows(t.items, i);
      }
    } else {
      BlamedBelow(heap, r, i, heap[r].slots[i].value, d, nodes, nodes - 1 - SizeOfItems(captured), e);
    }
  }

  /** The elements captured so far are those of every unfolding. */
  lemma ItemsBefore(heap: Heap, r: Ref, captured: seq<Snapshot>, ts: seq<Snapshot>)
    requires r in heap && heap[r].ArrayObject? && |captured| <= |heap[r].slots|
    requires forall k :: 0 <= k < |captured| ==> UnfoldsSlot(heap, heap[r].slots[k], captured[k])
    requires Unfolds(heap, JsRef(r), Items(ts))
    ensures |captured| <= |ts| && ts[..|captured|] == captured
  {
    forall k | 0 <= k < |captured| ensures ts[k] == captured[k] {
      assert UnfoldsSlot(heap, heap[r].slots[k], ts[k]) && UnfoldsSlot(heap, heap[r].slots[k], captured[k]);
      UnfoldingUnique(heap, heap[r].slots[k].value, ts[k], captured[k]);
    }
  }

  lemma FieldsBefore(heap: Heap, r: Ref, captured: seq<Field>, fs: seq<Field>)
    requires r in heap && heap[r].PlainObject? && |captured| <= |heap[r].properties|
    requires forall k :: 0 <= k < |captured| ==> UnfoldsProperty(heap, heap[r].properties[k], captured[k])
    requires Unfolds(heap, JsRef(r), Fields(fs))
    ensures |captured| <= |fs| && fs[..|captured|] == captured
  {
    forall k | 0 <= k < |captured| ensures fs[k] == captured[k] {
      var p := heap[r].properties[k];
      assert UnfoldsProperty(heap, p, fs[k]) && UnfoldsProperty(heap, p, captured[k]);
      UnfoldingUnique(heap, p.slot.value, fs[k].value, captured[k].value);
    }
  }

  lemma BlamedField(heap: Heap, r: Ref, captured: seq<Field>, d: int, nodes: int, e: Refusal)
    requires r in heap && heap[r].PlainObject? && |captured| < |heap[r].properties|
    requires heap[r].properties[|captured|].slot.Data?
    requires forall k :: 0 <= k < |captured| ==> UnfoldsProperty(heap, heap[r].properties[k], captured[k])
    requires Blamed(heap, heap[r].properties[|captured|].slot.value, d - 1, nodes - 1 - SizeOfFields(captured), e)
    ensures Blamed(heap, JsRef(r), d, nodes, e)
  {
    var i := |captured|;
    if e.NodesExceeded? {
      forall t | Unfolds(heap, JsRef(r), t) ensures Size(t) > nodes {
        assert UnfoldsProperty(heap, heap[r].properties[i], t.fields[i]);
        FieldsBefore(heap, r, captured, t.fields);
        SizeOfFieldsGrows(t.fields, i);
      }
    } else {
      BlamedBelow(heap, r, i, heap[r].properties[i].slot.value, d, nodes, nodes - 1 - SizeOfFields(captured), e);
    }
  }

  /** If every slot holds data, the names that were counted leave no room for others. */
  lemma ItemsUnfold(heap: Heap, r: Ref, ts: seq<Snapshot>, d: int)
    requires r in heap && heap[r].ArrayObject? && heap[r].plain && |heap[r].slots| == |ts| <= MAX_ARRAY_LENGTH
    requires PresentSlots(heap[r].slots) + heap[r].extraNames == |ts| && d >= 0
    requires ItemsSoFar(heap, r, ts, d)
    ensures Unfolds(heap, JsRef(r), Items(ts)) && DepthWithin(Items(ts), d)
  {
    AllPresent(heap[r].slots);
  }

  lemma UnfitProperty(heap: Heap, r: Ref, captured: seq<Field>, d: int, nodes: int)
    requires r in heap && heap[r].PlainObject? && |captured| < |heap[r].properties|
    requires forall k :: 0 <= k < |captured| ==> UnfoldsProperty(heap, heap[r].properties[k], captured[k])
    requires var p := heap[r].properties[|captured|];
             SafeKey(p.key) && p.slot.Data? ==>
               Unfit(heap, p.slot.value, d - 1, nodes - 1 - SizeOfFields(captured))
    ensures Unfit(heap, JsRef(r), d, nodes)
  {
    var i := |captured|;
    forall t | Unfolds(heap, JsRef(r), t) ensures !DepthWithin(t, d) || Size(t) > nodes {
      var fs := t.fields;
      assert UnfoldsProperty(heap, heap[r].properties[i], fs[i]);
      FieldsBefore(heap, r, captured, fs);
      SizeOfFieldsGrows(fs, i);
    }
  }

  lemma PropertyFault(heap: Heap, r: Ref, i: nat, d: int, nodes: int)
    requires r in heap && heap[r].PlainObject? && i < |heap[r].properties| && d >= 0
    ensures var p := heap[r].properties[i];
            && (!SafeKey(p.key) ==> Blamed(heap, JsRef(r), d, nodes, BadKey))
            && (!p.slot.Data? ==> Blamed(heap, JsRef(r), d, nodes, BadProperty))
  {
    var p := heap[r].properties[i];
    if !SafeKey(p.key) {
      assert BadName(p.key);
      BlamedHere(heap, JsRef(r), d, nodes, BadKey);
    }
    if !p.slot.Data? { BlamedHere(heap, JsRef(r), d, nodes, BadProperty); }
  }

  lemma ObjectRefused(heap: Heap, r: Ref, d: int, nodes: int)
    requires r in heap && heap[r].PlainObject? && d >= 0
    ensures !heap[r].plain ==> Refused(heap, JsRef(r), d, nodes, NotPlain)
    ensures |heap[r].properties| > nodes - 1 ==> Refused(heap, JsRef(r), d, nodes, NodesExceeded)
  {
    if !heap[r].plain { NotPlainRefused(heap, r, d, nodes); }
  }

  lemma PropertyRefused(heap: Heap, r: Ref, captured: seq<Field>, d: int, nodes: int, e: Refusal)
    requires r in heap && heap[r].PlainObject? && |captured| < |heap[r].properties| && d >= 0
    requires forall k :: 0 <= k < |captured| ==> UnfoldsProperty(heap, heap[r].properties[k], captured[k])
    requires var p := heap[r].properties[|captured|];
             if !SafeKey(p.key) then e == BadKey
             else if !p.slot.Data? then e == BadProperty
             else Refused(heap, p.slot.value, d - 1, nodes - 1 - SizeOfFields(captured), e)
    ensures Refused(heap, JsRef(r), d, nodes, e)
  {
    var p := heap[r].properties[|captured|];
    UnfitProperty(heap, r, captured, d, nodes);
    if SafeKey(p.key) && p.slot.Data? {
      BlamedField(heap, r, captured, d, nodes, e);
    } else {
      PropertyFault(heap, r, |captured|, d, nodes);
    }
  }

  method CaptureObject(heap: Heap, ref: Ref, depth: nat, budget: Budget) returns (r: Result<Snapshot, Refusal>)
    requires depth <= MAX_DEPTH && ref in heap && heap[ref].PlainObject? && budget.remaining >= 0
    modifies budget
    ensures r.Ok? ==> && Unfolds(heap, JsRef(ref), r.value) && DepthWithin(r.value, MAX_DEPTH - depth)
                      && budget.remaining == old(budget.remaining) + 1 - Size(r.value) >= 0
    ensures r.Err? ==> Refused(heap, JsRef(ref), MAX_DEPTH - depth, old(budget.remaining) + 1, r.error)
    decreases MAX_DEPTH + 1 - depth, 1
  {
    var o := heap[ref];
    ObjectRefused(heap, ref, MAX_DEPTH - depth, budget.remaining + 1);
    if !o.plain { return Err(NotPlain); }
    if |o.properties| > budget.remaining { return Err(NodesExceeded); }
    var output: seq<Field> := [];
    for index := 0 to |o.properties|
      invariant |output| == index && FieldsSoFar(heap, ref, output, MAX_DEPTH - depth)
      invariant budget.remaining == old(budget.remaining) - SizeOfFields(output) >= 0
    {
      var captured := CaptureProperty(heap, ref, index, output, depth, budget);
      if captured.Err? { return captured; }
      output := output + [Field(o.properties[index].key, captured.value)];
    }
    FieldsUnfold(heap, ref, output, MAX_DEPTH - depth);
    return Ok(Fields(output));
  }

  predicate FieldsSoFar(heap: Heap, r: Ref, fs: seq<Field>, d: int)
    requires r in heap && heap[r].PlainObject?
  {
    && |fs| <= |heap[r].properties|
    && forall k :: 0 <= k < |fs| ==>
         UnfoldsProperty(heap, heap[r].properties[k], fs[k]) && DepthWithin(fs[k].value, d - 1)
  }

  lemma FieldAdded(heap: Heap, r: Ref, fs: seq<Field>, f: Field, d: int)
    requires r in heap && heap[r].PlainObject? && |fs| < |heap[r].properties| && FieldsSoFar(heap, r, fs, d)
    requires UnfoldsProperty(heap, heap[r].properties[|fs|], f) && DepthWithin(f.value, d - 1)
    ensures FieldsSoFar(heap, r, fs + [f], d) && SizeOfFields(fs + [f]) == SizeOfFields(fs) + Size(f.value)
  {
    assert (fs + [f])[..|fs|] == fs;
  }

  lemma FieldsUnfold(heap: Heap, r: Ref, fs: seq<Field>, d: int)
    requires r in heap && heap[r].PlainObject? && heap[r].plain && |heap[r].properties| == |fs| && d >= 0
    requires FieldsSoFar(heap, r, fs, d)
    ensures Unfolds(heap, JsRef(r), Fields(fs)) && DepthWithin(Fields(fs), d)
  {
  }

  /** One turn of the loop over the properties. */
  method CaptureProperty(heap: Heap, ref: Ref, index: nat, ghost output: seq<Field>, depth: nat, budget: Budget)
    returns (r: Result<Snapshot, Refusal>)
    requires depth <= MAX_DEPTH && ref in heap && heap[ref].PlainObject? && budget.remaining >= 0
    requires index == |output| < |heap[ref].properties| && FieldsSoFar(heap, ref, output, MAX_DEPTH - depth)
    modifies budget
    ensures r.Ok? ==> && var f := Field(heap[ref].properties[index].key, r.value);
                         && FieldsSoFar(heap, ref, output + [f], MAX_DEPTH - depth)
                         && budget.remaining == old(budget.remaining) - Size(r.value) >= 0
                         && SizeOfFields(output + [f]) == SizeOfFields(output) + Size(r.value)
    ensures r.Err? ==> Refused(heap, JsRef(ref), MAX_DEPTH - depth,
                               old(budget.remaining) + 1 + SizeOfFields(output), r.error)
    decreases MAX_DEPTH + 1 - depth, 0
  {
    ghost var d, left := MAX_DEPTH - depth, budget.remaining;
    ghost var nodes := left + 1 + SizeOfFields(output);
    assert MAX_DEPTH - (depth + 1) == d - 1 && nodes - 1 - SizeOfFields(output) == left;
    var p := heap[ref].properties[index];
    if !SafeKey(p.key) || !p.slot.Data? {
      r := Err(if SafeKey(p.key) then BadProperty else BadKey);
      PropertyRefused(heap, ref, output, d, nodes, r.error);
      return;
    }
    r := CaptureValue(heap, p.slot.value, depth + 1, budget);
    if r.Ok? {
      FieldAdded(heap, ref, output, Field(p.key, r.value), d);
    } else {
      PropertyRefused(heap, ref, output, d, nodes, r.error);
    }
  }

  /** The value can be captured as `t`. */
  predicate CapturesAs(heap: Heap, v: JsValue, t: Snapshot) {
    Unfolds(heap, v, t) && DepthWithin(t, MAX_DEPTH) && Size(t) <= MAX_NODES
  }

  /** On any heap the capture ends, and accepts exactly the values whose unfolding exists, is at
      most 8 deep and has at most 1,000 nodes; the result is that unfolding. A refusal names a reason
      that is there. */
  method Capture(heap: Heap, v: JsValue) returns (r: Result<Snapshot, Refusal>)
    ensures r.Ok? <==> exists t :: CapturesAs(heap, v, t)
    ensures r.Ok? ==> CapturesAs(heap, v, r.value)
    ensures r.Err? ==> Blamed(heap, v, 8, 1_000, r.error)
  {
    var budget := new Budget(MAX_NODES);
    r := CaptureValue(heap, v, 0, budget);
    if r.Ok? {
      assert CapturesAs(heap, v, r.value);
    } else {
      assert Unfit(heap, v, MAX_DEPTH, MAX_NODES);
    }
  }

  // ----- cycles

  lemma {:induction false} FollowUnfolds(heap: Heap, v: JsValue, t: Snapshot, path: seq<nat>) returns (u: Snapshot)
    requires Unfolds(heap, v, t) && Follow(heap, v, path).Some?
    ensures Unfolds(heap, Follow(heap, v, path).value, u) && Size(u) + |path| <= Size(t)
    decreases |path|
  {
    if path == [] {
      return t;
    }
    var i := path[0];
    if t.Items? {
      assert UnfoldsSlot(heap, heap[v.r].slots[i], t.items[i]);
      u := FollowUnfolds(heap, heap[v.r].slots[i].value, t.items[i], path[1..]);
      SizeOfItemsGrows(t.items, i);
    } else {
      assert UnfoldsProperty(heap, heap[v.r].properties[i], t.fields[i]);
      u := FollowUnfolds(heap, heap[v.r].properties[i].slot.value, t.fields[i].value, path[1..]);
      SizeOfFieldsGrows(t.fields, i);
    }
  }

  /** A value from which a cycle can be reached, however deep, has no unfolding, and is therefore
      refused: following `path` leads to a value that contains itself along `cycle`. */
  lemma CyclesAreRefused(heap: Heap, v: JsValue, path: seq<nat>, cycle: seq<nat>)
    requires Follow(heap, v, path).Some? && cycle != []
    requires var w := Follow(heap, v, path).value; Follow(heap, w, cycle) == Some(w)
    ensures forall t :: !Unfolds(heap, v, t)
  {
    var w := Follow(heap, v, path).value;
    forall t ensures !Unfolds(heap, v, t) {
      if Unfolds(heap, v, t) {
        var u := FollowUnfolds(heap, v, t, path);
        var again := FollowUnfolds(heap, w, u, cycle);
        UnfoldingUnique(heap, w, u, again);
      }
    }
  }

  // ----- a captured value recaptures to itself

  predicate Grows(a: Heap, b: Heap) {
    forall r :: r in a ==> r in b && b[r] == a[r]
  }

  lemma {:induction false} UnfoldsGrows(a: Heap, b: Heap, v: JsValue, t: Snapshot)
    requires Grows(a, b) && Unfolds(a, v, t)
    ensures Unfolds(b, v, t)
    decreases t
  {
    match t
    case Items(ts) =>
      forall i | 0 <= i < |ts| ensures UnfoldsSlot(b, a[v.r].slots[i], ts[i]) {
        assert UnfoldsSlot(a, a[v.r].slots[i], ts[i]);
        UnfoldsGrows(a, b, a[v.r].slots[i].value, ts[i]);
      }
    case Fields(fs) =>
      forall i | 0 <= i < |fs| ensures UnfoldsProperty(b, a[v.r].properties[i], fs[i]) {
        assert UnfoldsProperty(a, a[v.r].properties[i], fs[i]);
        UnfoldsGrows(a, b, a[v.r].properties[i].slot.value, fs[i].value);
      }
    case _ =>
  }

  /** A stretch of heap with all references below `next`, and the values stored in it. */
  datatype Stored = Stored(heap: Heap, next: Ref, values: seq<JsValue>)

  predicate Below(heap: Heap, next: Ref) {
    forall r :: r in heap ==> r < next
  }

  /** The frozen copy of a snapshot: each list and record a new plain object. */
  function Store(heap: Heap, next: Ref, t: Snapshot): Stored
    decreases t
  {
    match t
    case Null => Stored(heap, next, [JsNull])
    case Bool(b) => Stored(heap, next, [JsBool(b)])
    case Integer(n) => Stored(heap, next, [JsInteger(n)])
    case Text(s) => Stored(heap, next, [JsString(s)])
    case Items(ts) =>
      var st := StoreItems(heap, next, ts);
      var slots := seq(|st.values|, i requires 0 <= i < |st.values| => Data(st.values[i]));
      Stored(st.heap[st.next := ArrayObject(true, slots, 0)], st.next + 1, [JsRef(st.next)])
    case Fields(fs) =>
      var st := StoreFields(heap, next, fs);
      var ps := seq(|st.values|, i requires 0 <= i < |st.values| =>
                  Property(if i < |fs| then fs[i].key else "", Data(st.values[i])));
      Stored(st.heap[st.next := PlainObject(true, ps)], st.next + 1, [JsRef(st.next)])
  }

  function StoreItems(heap: Heap, next: Ref, ts: seq<Snapshot>): Stored
    decreases ts
  {
    if ts == [] then Stored(heap, next, [])
    else
      var init := StoreItems(heap, next, ts[..|ts| - 1]);
      var last := Store(init.heap, init.next, ts[|ts| - 1]);
      Stored(last.heap, last.next, init.values + last.values)
  }

  function StoreFields(heap: Heap, next: Ref, fs: seq<Field>): Stored
    decreases fs
  {
    if fs == [] then Stored(heap, next, [])
    else
      var init := StoreFields(heap, next, fs[..|fs| - 1]);
      var last := Store(init.heap, init.next, fs[|fs| - 1].value);
      Stored(last.heap, last.next, init.values + last.values)
  }

  ghost predicate StoredOk(heap: Heap, next: Ref, st: Stored) {
    Grows(heap, st.heap) && Below(st.heap, st.next) && next <= st.next
  }

  /** The snapshot passes the checks of its nodes, because some value unfolds to it. */
  ghost predicate Captured(t: Snapshot) {
    exists heap, v :: Unfolds(heap, v, t)
  }

  lemma CapturedItem(ts: seq<Snapshot>, i: nat)
    requires Captured(Items(ts)) && i < |ts|
    ensures Captured(ts[i]) && |ts| <= MAX_ARRAY_LENGTH
  {
    var heap: Heap, v: JsValue :| Unfolds(heap, v, Items(ts));
    assert UnfoldsSlot(heap, heap[v.r].slots[i], ts[i]);
    assert Unfolds(heap, heap[v.r].slots[i].value, ts[i]);
  }

  lemma CapturedField(fs: seq<Field>, i: nat)
    requires Captured(Fields(fs)) && i < |fs|
    ensures Captured(fs[i].value) && SafeKey(fs[i].key)
  {
    var heap: Heap, v: JsValue :| Unfolds(heap, v, Fields(fs));
    assert UnfoldsProperty(heap, heap[v.r].properties[i], fs[i]);
    assert Unfolds(heap, heap[v.r].properties[i].slot.value, fs[i].value);
  }

  lemma ArrayStored(heap: Heap, next: Ref, ts: seq<Snapshot>)
    requires var st := StoreItems(heap, next, ts);
             && StoredOk(heap, next, st) && |st.values| == |ts| <= MAX_ARRAY_LENGTH
             && forall i :: 0 <= i < |ts| ==> Unfolds(st.heap, st.values[i], ts[i])
    ensures var done := Store(heap, next, Items(ts));
            StoredOk(heap, next, done) && |done.values| == 1 && Unfolds(done.heap, done.values[0], Items(ts))
  {
    var st, done := StoreItems(heap, next, ts), Store(heap, next, Items(ts));
    assert Grows(st.heap, done.heap);
    forall i | 0 <= i < |ts| ensures UnfoldsSlot(done.heap, Data(st.values[i]), ts[i]) {
      UnfoldsGrows(st.heap, done.heap, st.values[i], ts[i]);
    }
  }

  lemma ObjectStored(heap: Heap, next: Ref, fs: seq<Field>)
    requires forall i :: 0 <= i < |fs| ==> SafeKey(fs[i].key)
    requires var st := StoreFields(heap, next, fs);
             && StoredOk(heap, next, st) && |st.values| == |fs|
             && forall i :: 0 <= i < |fs| ==> Unfolds(st.heap, st.values[i], fs[i].value)
    ensures var done := Store(heap, next, Fields(fs));
            StoredOk(heap, next, done) && |done.values| == 1 && Unfolds(done.heap, done.values[0], Fields(fs))
  {
    var st, done := StoreFields(heap, next, fs), Store(heap, next, Fields(fs));
    assert Grows(st.heap, done.heap);
    forall i | 0 <= i < |fs| ensures UnfoldsProperty(done.heap, Property(fs[i].key, Data(st.values[i])), fs[i]) {
      UnfoldsGrows(st.heap, done.heap, st.values[i], fs[i].value);
    }
  }

  lemma {:induction false} StoreUnfolds(heap: Heap, next: Ref, t: Snapshot)
    requires Below(heap, next) && Captured(t)
    ensures var st := Store(heap, next, t);
            StoredOk(heap, next, st) && |st.values| == 1 && Unfolds(st.heap, st.values[0], t)
    decreases t
  {
    match t
    case Items(ts) =>
      forall i | 0 <= i < |ts| ensures Captured(ts[i]) { CapturedItem(ts, i); }
      StoreItemsUnfolds(heap, next, ts);
      if ts != [] { CapturedItem(ts, 0); }
      ArrayStored(heap, next, ts);
    case Fields(fs) =>
      forall i | 0 <= i < |fs| ensures Captured(fs[i].value) { CapturedField(fs, i); }
      StoreFieldsUnfolds(heap, next, fs);
      forall i | 0 <= i < |fs| ensures SafeKey(fs[i].key) { CapturedField(fs, i); }
      ObjectStored(heap, next, fs);
    case _ =>
      var h: Heap, v: JsValue :| Unfolds(h, v, t);
  }

  lemma {:induction false} StoreItemsUnfolds(heap: Heap, next: Ref, ts: seq<Snapshot>)
    requires Below(heap, next) && forall i :: 0 <= i < |ts| ==> Captured(ts[i])
    ensures var st := StoreItems(heap, next, ts);
            && StoredOk(heap, next, st) && |st.values| == |ts|
            && forall i :: 0 <= i < |ts| ==> Unfolds(st.heap, st.values[i], ts[i])
    decreases ts
  {
    if ts != [] {
      var n := |ts| - 1;
      StoreItemsUnfolds(heap, next, ts[..n]);
      var init := StoreItems(heap, next, ts[..n]);
      StoreUnfolds(init.heap, init.next, ts[n]);
      var st := StoreItems(heap, next, ts);
      forall i | 0 <= i < n ensures Unfolds(st.heap, st.values[i], ts[i]) {
        assert ts[..n][i] == ts[i];
        UnfoldsGrows(init.heap, st.heap, init.values[i], ts[i]);
      }
    }
  }

  lemma {:induction false} StoreFieldsUnfolds(heap: Heap, next: Ref, fs: seq<Field>)
    requires Below(heap, next) && forall i :: 0 <= i < |fs| ==> Captured(fs[i].value)
    ensures var st := StoreFields(heap, next, fs);
            && StoredOk(heap, next, st) && |st.values| == |fs|
            && forall i :: 0 <= i < |fs| ==> Unfolds(st.heap, st.values[i], fs[i].value)
    decreases fs
  {
    if fs != [] {
      var n := |fs| - 1;
      StoreFieldsUnfolds(heap, next, fs[..n]);
      var init := StoreFields(heap, next, fs[..n]);
      StoreUnfolds(init.heap, init.next, fs[n].value);
      var st := StoreFields(heap, next, fs);
      forall i | 0 <= i < n ensures Unfolds(st.heap, st.values[i], fs[i].value) {
        assert fs[..n][i] == fs[i];
        UnfoldsGrows(init.heap, st.heap, init.values[i], fs[i].value);
      }
    }
  }

  /** Capturing the frozen copy of a captured value gives the same value again. */
  lemma RecapturesToItself(heap: Heap, v: JsValue, t: Snapshot)
    requires CapturesAs(heap, v, t)
    ensures var st := Store(map[], 0, t);
            && |st.values| == 1 && CapturesAs(st.heap, st.values[0], t)
            && forall u :: CapturesAs(st.heap, st.values[0], u) ==> u == t
  {
    StoreUnfolds(map[], 0, t);
    var st := Store(map[], 0, t);
    forall u | CapturesAs(st.heap, st.values[0], u) ensures u == t {
      UnfoldingUnique(st.heap, st.values[0], u, t);
    }
  }
}
