/** What canonical text says about payloads: equality up to NFC and key order, the fixed point,
    and the safety checks of `canonicalize_payload`. */
module CanonicalPayload {
  import opened Outcomes
  import opened Sorting
  import opened CanonicalText
  import opened CanonicalDecoder

  // ----- equality up to NFC and key order

  /** No object repeats a key, at any depth; a Python dictionary cannot. */
  predicate WellFormed(v: Value)
    decreases v
  {
    match v
    case List(items) => forall i :: 0 <= i < |items| ==> WellFormed(items[i])
    case Dict(entries) =>
      && (forall i, j :: 0 <= i < j < |entries| ==> entries[i].key != entries[j].key)
      && (forall i :: 0 <= i < |entries| ==> WellFormed(entries[i].value))
    case _ => true
  }

  /** The same payload: strings equal after NFC, lists element by element,
      dictionaries as finite maps. */
  ghost predicate Same(nfc: Nfc, v: Value, w: Value)
    decreases v
  {
    match (v, w)
    case (Str(s), Str(t)) => nfc(s) == nfc(t)
    case (List(a), List(b)) => |a| == |b| && forall i :: 0 <= i < |a| ==> Same(nfc, a[i], b[i])
    case (Dict(a), Dict(b)) =>
      && (forall i :: 0 <= i < |a| ==> HasSame(nfc, a[i], b))
      && (forall j :: 0 <= j < |b| ==> HasKey(a, b[j].key))
    case (Str(_), _) => false
    case (List(_), _) => false
    case (Dict(_), _) => false
    case _ => v == w
  }

  ghost predicate HasSame(nfc: Nfc, e: Entry, b: seq<Entry>)
    decreases e
  {
    exists j :: 0 <= j < |b| && b[j].key == e.key && Same(nfc, e.value, b[j].value)
  }

  predicate HasKey(entries: seq<Entry>, key: string) {
    exists i :: 0 <= i < |entries| && entries[i].key == key
  }

  lemma {:induction false} NormItemsAt(nfc: Nfc, items: seq<Value>)
    ensures |NormItems(nfc, items)| == |items|
    ensures forall i :: 0 <= i < |items| ==> NormItems(nfc, items)[i] == Norm(nfc, items[i])
    decreases |items|
  {
    if items != [] {
      NormItemsAt(nfc, items[1..]);
    }
  }

  lemma {:induction false} NormEntriesAt(nfc: Nfc, entries: seq<Entry>)
    ensures |NormEntries(nfc, entries)| == |entries|
    ensures forall i :: 0 <= i < |entries| ==>
              NormEntries(nfc, entries)[i] == Entry(entries[i].key, Norm(nfc, entries[i].value))
    decreases |entries|
  {
    if entries != [] {
      NormEntriesAt(nfc, entries[1..]);
    }
  }

  lemma EntryLePreorder()
    ensures TotalPreorder(EntryLe)
  {
    forall x: Entry, y: Entry ensures EntryLe(x, y) || EntryLe(y, x) {
      StringLeTotal(x.key, y.key);
    }
    forall x: Entry, y: Entry, z: Entry | EntryLe(x, y) && EntryLe(y, z) ensures EntryLe(x, z) {
      StringLeTransitive(x.key, y.key, z.key);
    }
  }

  predicate DistinctKeys(entries: seq<Entry>) {
    forall i, j :: 0 <= i < j < |entries| ==> entries[i].key != entries[j].key
  }

  /** Sorting by key gives the same list exactly for arrangements of the same entries. */
  lemma SortedAlike(a: seq<Entry>, b: seq<Entry>)
    requires DistinctKeys(a)
    ensures Sort(a, EntryLe) == Sort(b, EntryLe) <==> multiset(a) == multiset(b)
  {
    EntryLePreorder();
    SortPermutes(a, EntryLe);
    SortPermutes(b, EntryLe);
    if multiset(a) == multiset(b) {
      SortSorts(a, EntryLe);
      SortSorts(b, EntryLe);
      var s := Sort(a, EntryLe);
      forall i, j | 0 <= i < |s| && 0 <= j < |s| && EntryLe(s[i], s[j]) && EntryLe(s[j], s[i]) ensures s[i] == s[j] {
        StringLeAntisymmetric(s[i].key, s[j].key);
        assert s[i] in multiset(a) && s[j] in multiset(a);
      }
      SortedUnique(s, Sort(b, EntryLe), EntryLe);
    }
  }

  /** Two values have the same normal form exactly when they are the same payload. */
  lemma {:induction false} NormIffSame(nfc: Nfc, v: Value, w: Value)
    requires WellFormed(v) && WellFormed(w)
    ensures Norm(nfc, v) == Norm(nfc, w) <==> Same(nfc, v, w)
    decreases v
  {
    match (v, w)
    case (List(a), List(b)) =>
      NormItemsAt(nfc, a);
      NormItemsAt(nfc, b);
      if |a| == |b| {
        forall i | 0 <= i < |a| ensures Norm(nfc, a[i]) == Norm(nfc, b[i]) <==> Same(nfc, a[i], b[i]) {
          NormIffSame(nfc, a[i], b[i]);
        }
        assert Same(nfc, v, w) ==> NormItems(nfc, a) == NormItems(nfc, b);
        if NormItems(nfc, a) == NormItems(nfc, b) {
          forall i | 0 <= i < |a| ensures Same(nfc, a[i], b[i]) {
            assert NormItems(nfc, a)[i] == NormItems(nfc, b)[i];
          }
        }
      }
    case (Dict(a), Dict(b)) =>
      forall i, j | 0 <= i < |a| && 0 <= j < |b| ensures Agree(nfc, a[i].value, b[j].value) {
        NormIffSame(nfc, a[i].value, b[j].value);
      }
      NormEntriesAt(nfc, a);
      NormEntriesAt(nfc, b);
      SortedAlike(NormEntries(nfc, a), NormEntries(nfc, b));
      if Norm(nfc, v) == Norm(nfc, w) {
        SameEntries(nfc, a, b);
      }
      if Same(nfc, v, w) {
        EqualEntries(nfc, a, b);
      }
    case _ =>
  }

  ghost predicate Agree(nfc: Nfc, v: Value, w: Value) {
    Norm(nfc, v) == Norm(nfc, w) <==> Same(nfc, v, w)
  }

  lemma SameEntries(nfc: Nfc, a: seq<Entry>, b: seq<Entry>)
    requires multiset(NormEntries(nfc, a)) == multiset(NormEntries(nfc, b))
    requires forall i, j :: 0 <= i < |a| && 0 <= j < |b| ==> Agree(nfc, a[i].value, b[j].value)
    ensures Same(nfc, Dict(a), Dict(b))
  {
    forall i | 0 <= i < |a| ensures HasSame(nfc, a[i], b) {
      var j := MatchingEntry(nfc, a, b, i);
      assert Agree(nfc, a[i].value, b[j].value);
    }
    forall j | 0 <= j < |b| ensures HasKey(a, b[j].key) {
      var i := MatchingEntry(nfc, b, a, j);
    }
  }

  lemma MatchingEntry(nfc: Nfc, a: seq<Entry>, b: seq<Entry>, i: nat) returns (j: nat)
    requires multiset(NormEntries(nfc, a)) == multiset(NormEntries(nfc, b)) && i < |a|
    ensures j < |b| && b[j].key == a[i].key && Norm(nfc, a[i].value) == Norm(nfc, b[j].value)
  {
    NormEntriesAt(nfc, a);
    NormEntriesAt(nfc, b);
    var p, q := NormEntries(nfc, a), NormEntries(nfc, b);
    assert p[i] in multiset(q);
    j :| 0 <= j < |q| && q[j] == p[i];
  }

  lemma EqualEntries(nfc: Nfc, a: seq<Entry>, b: seq<Entry>)
    requires DistinctKeys(a) && DistinctKeys(b) && Same(nfc, Dict(a), Dict(b))
    requires forall i, j :: 0 <= i < |a| && 0 <= j < |b| ==> Agree(nfc, a[i].value, b[j].value)
    ensures multiset(NormEntries(nfc, a)) == multiset(NormEntries(nfc, b))
  {
    NormEntriesAt(nfc, a);
    NormEntriesAt(nfc, b);
    var p, q := NormEntries(nfc, a), NormEntries(nfc, b);
    forall i | 0 <= i < |a| ensures p[i] in q {
      var j := EqualEntry(nfc, a, b, i);
      assert q[j] == p[i];
    }
    forall j | 0 <= j < |b| ensures q[j] in p {
      assert HasKey(a, b[j].key);
      var i :| 0 <= i < |a| && a[i].key == b[j].key;
      var l := EqualEntry(nfc, a, b, i);
      assert l == j && q[j] == p[i];
    }
    DistinctSameElements(p, q);
  }

  lemma EqualEntry(nfc: Nfc, a: seq<Entry>, b: seq<Entry>, i: nat) returns (j: nat)
    requires Same(nfc, Dict(a), Dict(b)) && i < |a|
    requires forall j :: 0 <= j < |b| ==> Agree(nfc, a[i].value, b[j].value)
    ensures j < |b| && b[j].key == a[i].key && Norm(nfc, a[i].value) == Norm(nfc, b[j].value)
  {
    assert HasSame(nfc, a[i], b);
    j :| 0 <= j < |b| && b[j].key == a[i].key && Same(nfc, a[i].value, b[j].value);
    assert Agree(nfc, a[i].value, b[j].value);
  }

  /** Two payloads print alike exactly when they are equal up to NFC and key order. */
  lemma PrintAlikeIffSame(nfc: Nfc, v: Value, w: Value)
    requires WellFormed(v) && WellFormed(w)
    ensures Print(nfc, v) == Print(nfc, w) <==> Same(nfc, v, w)
  {
    PrintAlikeIffNorm(nfc, v, w);
    NormIffSame(nfc, v, w);
  }

  // ----- the canonical form is a fixed point

  ghost predicate Idempotent(nfc: Nfc) {
    forall s :: nfc(nfc(s)) == nfc(s)
  }

  lemma {:induction false} SortOfSorted<T(!new)>(s: seq<T>, le: (T, T) -> bool)
    requires SortedBy(s, le)
    ensures Sort(s, le) == s
    decreases |s|
  {
    if s != [] {
      SortOfSorted(s[1..], le);
      assert s == [s[0]] + s[1..];
    }
  }

  lemma {:induction false} NormOfNorm(nfc: Nfc, v: Value)
    requires Idempotent(nfc)
    ensures Norm(nfc, Norm(nfc, v)) == Norm(nfc, v)
    decreases v
  {
    match v
    case List(items) =>
      forall i | 0 <= i < |items| ensures Norm(nfc, Norm(nfc, items[i])) == Norm(nfc, items[i]) {
        NormOfNorm(nfc, items[i]);
      }
      NormItemsAt(nfc, items);
      NormItemsAt(nfc, NormItems(nfc, items));
      assert NormItems(nfc, NormItems(nfc, items)) == NormItems(nfc, items);
    case Dict(entries) =>
      forall i | 0 <= i < |entries|
        ensures Norm(nfc, Norm(nfc, entries[i].value)) == Norm(nfc, entries[i].value)
      {
        NormOfNorm(nfc, entries[i].value);
      }
      SortedEntriesFixed(nfc, entries);
    case _ =>
  }

  lemma SortedEntriesFixed(nfc: Nfc, entries: seq<Entry>)
    requires forall i :: 0 <= i < |entries| ==>
               Norm(nfc, Norm(nfc, entries[i].value)) == Norm(nfc, entries[i].value)
    ensures var s := Sort(NormEntries(nfc, entries), EntryLe);
            Sort(NormEntries(nfc, s), EntryLe) == s
  {
    var p := NormEntries(nfc, entries);
    var s := Sort(p, EntryLe);
    SortPermutes(p, EntryLe);
    forall i | 0 <= i < |s| ensures Norm(nfc, s[i].value) == s[i].value {
      assert s[i] in multiset(p);
      NormalEntry(nfc, entries, s[i]);
    }
    NormalEntriesFixed(nfc, s);
    EntryLePreorder();
    SortSorts(p, EntryLe);
    SortOfSorted(s, EntryLe);
  }

  lemma NormalEntry(nfc: Nfc, entries: seq<Entry>, e: Entry)
    requires forall i :: 0 <= i < |entries| ==>
               Norm(nfc, Norm(nfc, entries[i].value)) == Norm(nfc, entries[i].value)
    requires e in NormEntries(nfc, entries)
    ensures Norm(nfc, e.value) == e.value
  {
    NormEntriesAt(nfc, entries);
    var j :| 0 <= j < |entries| && NormEntries(nfc, entries)[j] == e;
  }

  lemma NormalEntriesFixed(nfc: Nfc, s: seq<Entry>)
    requires forall i :: 0 <= i < |s| ==> Norm(nfc, s[i].value) == s[i].value
    ensures NormEntries(nfc, s) == s
  {
    NormEntriesAt(nfc, s);
  }

  /** Decoding canonical text and printing again gives the same text. */
  lemma CanonicalTextIsFixed(nfc: Nfc, v: Value)
    requires Idempotent(nfc)
    ensures Decode(Print(nfc, v)).Parsed?
    ensures Print(nfc, Decode(Print(nfc, v)).value) == Print(nfc, v)
  {
    assert Print(nfc, v) + "" == Print(nfc, v);
    PrintedTextDecodes(nfc, v, "");
    NormOfNorm(nfc, v);
    PrintIsTextOfNorm(nfc, v);
    PrintIsTextOfNorm(nfc, Norm(nfc, v));
  }

  // ----- the safety checks

  const MAX_DEPTH := 8
  const MAX_NODES := 1_000
  const MAX_STRING_LENGTH := 2_048
  const MAX_CANONICAL_BYTES := 16 * 1024
  const MAX_SAFE_INTEGER := 9_007_199_254_740_991

  const SENSITIVE_KEYS: set<string> := {
    "apikey", "apisecret", "accesskey", "accesssecret", "accesstoken", "refreshtoken", "password", "secret",
    "privatekey", "seedphrase", "mnemonic", "email", "phone", "walletaddress", "balance", "accountbalance",
    "accountid", "userid", "position", "positions"
  }

  predicate KeyChar(c: char) {
    'A' <= c <= 'Z' || 'a' <= c <= 'z' || '0' <= c <= '9' || c in "_.-"
  }

  /** Lower case, letters and digits only; on key characters NFKC changes nothing. */
  function Plain(key: string): string {
    if key == "" then ""
    else
      var c := key[0];
      (if 'A' <= c <= 'Z' then [c + 32 as char] else if c in "_.-" then "" else [c]) + Plain(key[1..])
  }

  predicate SafeKey(key: string) {
    1 <= |key| <= 64 && (forall i :: 0 <= i < |key| ==> KeyChar(key[i])) && Plain(key) !in SENSITIVE_KEYS
  }

  /** Every node passes its own checks. */
  predicate Safe(v: Value)
    decreases v
  {
    match v
    case Str(s) => |s| <= MAX_STRING_LENGTH
    case Int(n) => -MAX_SAFE_INTEGER <= n <= MAX_SAFE_INTEGER
    case List(items) => forall i :: 0 <= i < |items| ==> Safe(items[i])
    case Dict(entries) => forall i :: 0 <= i < |entries| ==> SafeKey(entries[i].key) && Safe(entries[i].value)
    case _ => true
  }

  // the size of a value

  function Nodes(v: Value): (n: nat)
    ensures n > 0
    decreases v
  {
    match v
    case List(items) => 1 + NodesOfItems(items)
    case Dict(entries) => 1 + NodesOfEntries(entries)
    case _ => 1
  }

  function NodesOfItems(items: seq<Value>): nat
    decreases items
  {
    if items == [] then 0 else NodesOfItems(items[..|items| - 1]) + Nodes(items[|items| - 1])
  }

  function NodesOfEntries(entries: seq<Entry>): nat
    decreases entries
  {
    if entries == [] then 0 else NodesOfEntries(entries[..|entries| - 1]) + Nodes(entries[|entries| - 1].value)
  }

  /** No path from the root is longer than `d`. */
  predicate DepthWithin(v: Value, d: int)
    decreases v
  {
    && d >= 0
    && match v
       case List(items) => forall i :: 0 <= i < |items| ==> DepthWithin(items[i], d - 1)
       case Dict(entries) => forall i :: 0 <= i < |entries| ==> DepthWithin(entries[i].value, d - 1)
       case _ => true
  }

  lemma {:induction false} NodesOfItemsGrow(items: seq<Value>, k: nat)
    requires k < |items|
    ensures NodesOfItems(items[..k]) + Nodes(items[k]) <= NodesOfItems(items)
    decreases |items|
  {
    var init := items[..|items| - 1];
    if k < |init| {
      NodesOfItemsGrow(init, k);
      assert init[..k] == items[..k];
    }
  }

  lemma {:induction false} NodesOfEntriesGrow(entries: seq<Entry>, k: nat)
    requires k < |entries|
    ensures NodesOfEntries(entries[..k]) + Nodes(entries[k].value) <= NodesOfEntries(entries)
    decreases |entries|
  {
    var init := entries[..|entries| - 1];
    if k < |init| {
      NodesOfEntriesGrow(init, k);
      assert init[..k] == entries[..k];
    }
  }

  /** The walk over the payload, which spends one shared budget. It accepts exactly the
      values that pass the checks of every node, the depth limit and the budget. */
  method Validate(v: Value, depth: nat, budget: array<int>) returns (ok: bool)
    requires budget.Length == 1
    modifies budget
    ensures ok <==> Safe(v) && DepthWithin(v, MAX_DEPTH - depth) && Nodes(v) <= old(budget[0])
    ensures ok ==> budget[0] == old(budget[0]) - Nodes(v)
    decreases v
  {
    if depth > MAX_DEPTH || budget[0] <= 0 { return false; }
    budget[0] := budget[0] - 1;
    match v
    case Str(s) => return |s| <= MAX_STRING_LENGTH;
    case Int(n) => return -MAX_SAFE_INTEGER <= n <= MAX_SAFE_INTEGER;
    case List(items) => ok := ValidateItems(items, depth, budget);
    case Dict(entries) => ok := ValidateEntries(entries, depth, budget);
    case _ => return true;
  }

  method ValidateItems(items: seq<Value>, depth: nat, budget: array<int>) returns (ok: bool)
    requires budget.Length == 1 && budget[0] >= 0
    modifies budget
    ensures ok <==> && (forall k :: 0 <= k < |items| ==> Safe(items[k]))
                    && (forall k :: 0 <= k < |items| ==> DepthWithin(items[k], MAX_DEPTH - depth - 1))
                    && NodesOfItems(items) <= old(budget[0])
    ensures ok ==> budget[0] == old(budget[0]) - NodesOfItems(items)
    decreases items
  {
    for i := 0 to |items|
      invariant forall k :: 0 <= k < i ==> Safe(items[k])
      invariant forall k :: 0 <= k < i ==> DepthWithin(items[k], MAX_DEPTH - depth - 1)
      invariant budget[0] == old(budget[0]) - NodesOfItems(items[..i]) && budget[0] >= 0
    {
      NodesOfItemsGrow(items, i);
      assert items[..i + 1][..i] == items[..i];
      var nested := Validate(items[i], depth + 1, budget);
      if !nested { return false; }
    }
    assert items[..|items|] == items;
    return true;
  }

  predicate EntryPasses(e: Entry, depth: int) {
    SafeKey(e.key) && Safe(e.value) && DepthWithin(e.value, depth)
  }

  predicate EntriesPass(entries: seq<Entry>, depth: int, nodes: int) {
    && (forall k :: 0 <= k < |entries| ==> EntryPasses(entries[k], depth))
    && NodesOfEntries(entries) <= nodes
  }

  lemma EntryFails(entries: seq<Entry>, i: nat, depth: int, nodes: int)
    requires i < |entries|
    requires !EntryPasses(entries[i], depth) || NodesOfEntries(entries[..i]) + Nodes(entries[i].value) > nodes
    ensures !EntriesPass(entries, depth, nodes)
  {
    NodesOfEntriesGrow(entries, i);
  }

  lemma EntryAdds(entries: seq<Entry>, i: nat)
    requires i < |entries|
    ensures NodesOfEntries(entries[..i + 1]) == NodesOfEntries(entries[..i]) + Nodes(entries[i].value)
  {
    assert entries[..i + 1][..i] == entries[..i];
  }

  method ValidateEntries(entries: seq<Entry>, depth: nat, budget: array<int>) returns (ok: bool)
    requires budget.Length == 1 && budget[0] >= 0
    modifies budget
    ensures ok <==> EntriesPass(entries, MAX_DEPTH - depth - 1, old(budget[0]))
    ensures ok ==> budget[0] == old(budget[0]) - NodesOfEntries(entries)
    decreases entries
  {
    for i := 0 to |entries|
      invariant forall k :: 0 <= k < i ==> EntryPasses(entries[k], MAX_DEPTH - depth - 1)
      invariant budget[0] == old(budget[0]) - NodesOfEntries(entries[..i]) && budget[0] >= 0
    {
      if !SafeKey(entries[i].key) {
        EntryFails(entries, i, MAX_DEPTH - depth - 1, old(budget[0]));
        return false;
      }
      var nested := Validate(entries[i].value, depth + 1, budget);
      if !nested {
        EntryFails(entries, i, MAX_DEPTH - depth - 1, old(budget[0]));
        return false;
      }
      EntryAdds(entries, i);
    }
    assert entries[..|entries|] == entries;
    return true;
  }

  function Utf8Length(s: string): nat {
    if s == "" then 0
    else
      var c := s[0] as int;
      (if c < 0x80 then 1 else if c < 0x800 then 2 else if c < 0x10000 then 3 else 4) + Utf8Length(s[1..])
  }

  predicate Acceptable(nfc: Nfc, payload: Value) {
    && payload.Dict? && Safe(payload) && DepthWithin(payload, MAX_DEPTH) && Nodes(payload) <= MAX_NODES
    && Utf8Length(Print(nfc, payload)) <= MAX_CANONICAL_BYTES
  }

  method CanonicalizePayload(nfc: Nfc, payload: Value) returns (r: Option<string>)
    ensures r == if Acceptable(nfc, payload) then Some(Print(nfc, payload)) else None
  {
    if !payload.Dict? { return None; }
    var budget := new int[1](_ => MAX_NODES);
    var safe := Validate(payload, 0, budget);
    if !safe { return None; }
    var canonical := Print(nfc, payload);
    if Utf8Length(canonical) > MAX_CANONICAL_BYTES { return None; }
    return Some(canonical);
  }
}
