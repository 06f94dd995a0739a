/** Which text the canonical one is, said without the printer: its keys ascend, and it is the shortest
    spelling of its value. */
module CanonicalShape {
  import opened Outcomes
  import opened Sorting
  import opened CanonicalText
  import opened CanonicalDecoder
  import opened CanonicalPayload

  // ----- the order of the keys

  /** In every object, at any depth, each key comes before those behind it. */
  ghost predicate KeysAscend(v: Value)
    decreases v
  {
    match v
    case List(items) => forall i :: 0 <= i < |items| ==> KeysAscend(items[i])
    case Dict(entries) =>
      && (forall i, j :: 0 <= i < j < |entries| ==> Before(entries[i].key, entries[j].key))
      && (forall i :: 0 <= i < |entries| ==> KeysAscend(entries[i].value))
    case _ => true
  }

  lemma {:induction false} NormAscends(nfc: Nfc, v: Value)
    requires WellFormed(v)
    ensures KeysAscend(Norm(nfc, v))
    decreases v
  {
    match v
    case List(items) =>
      NormItemsAt(nfc, items);
      forall i | 0 <= i < |items| ensures KeysAscend(NormItems(nfc, items)[i]) { NormAscends(nfc, items[i]); }
    case Dict(entries) =>
      forall i | 0 <= i < |entries| ensures KeysAscend(Norm(nfc, entries[i].value)) {
        NormAscends(nfc, entries[i].value);
      }
      SortedEntriesAscend(nfc, entries);
    case _ =>
  }

  lemma SortedEntriesAscend(nfc: Nfc, entries: seq<Entry>)
    requires DistinctKeys(entries) && forall i :: 0 <= i < |entries| ==> KeysAscend(Norm(nfc, entries[i].value))
    ensures KeysAscend(Dict(Sort(NormEntries(nfc, entries), EntryLe)))
  {
    var p := NormEntries(nfc, entries);
    var s := Sort(p, EntryLe);
    NormEntriesAt(nfc, entries);
    SortPermutes(p, EntryLe);
    EntryLePreorder();
    SortSorts(p, EntryLe);
    forall i | 0 <= i < |s| ensures KeysAscend(s[i].value) {
      assert s[i] in multiset(p);
      var k :| 0 <= k < |p| && p[k] == s[i];
    }
    forall i, j | 0 <= i < j < |s| ensures Before(s[i].key, s[j].key) {
      assert EntryLe(s[i], s[j]);
      StringLeMeans(s[i].key, s[j].key);
      SortedKeysDiffer(p, s, i, j);
    }
  }

  lemma SortedKeysDiffer(p: seq<Entry>, s: seq<Entry>, i: nat, j: nat)
    requires multiset(p) == multiset(s) && DistinctKeys(p) && i < j < |s|
    ensures s[i].key != s[j].key
  {
    var keys := (e: Entry) => e.key;
    if Repeats(s, keys) { RepeatsPermute(s, p, keys); }
    assert keys(s[i]) != keys(s[j]);
  }

  /** The text that is printed for a payload is, for any reader, one whose keys strictly ascend in every
      object at any depth. */
  lemma PrintedKeysAscend(nfc: Nfc, v: Value)
    requires WellFormed(v)
    ensures Decode(Print(nfc, v)).Parsed? && Decode(Print(nfc, v)).rest == ""
    ensures KeysAscend(Decode(Print(nfc, v)).value)
  {
    assert Print(nfc, v) + "" == Print(nfc, v);
    PrintedTextDecodes(nfc, v, "");
    NormAscends(nfc, v);
  }

  // ----- spellings

  /** `head` is `text`, except that it may have capital letters for `text`'s small hexadecimal digits. */
  predicate CaseOnly(head: string, text: string) {
    |head| == |text| && forall i :: 0 <= i < |text| ==> head[i] == text[i] || Capital(head[i], text[i])
  }

  predicate Capital(c: char, d: char) {
    'a' <= d <= 'f' && c as int == d as int - 32
  }

  /** `text` is the better spelling of the two, or they are the same. */
  predicate NoBetter(head: string, text: string) {
    |head| > |text| || CaseOnly(head, text)
  }

  lemma NoBetterJoin(a: string, x: string, b: string, y: string)
    requires NoBetter(a, x) && NoBetter(b, y)
    ensures NoBetter(a + b, x + y)
  {
    if |a + b| <= |x + y| {
      forall i | 0 <= i < |x + y| ensures (a + b)[i] == (x + y)[i] || Capital((a + b)[i], (x + y)[i]) {
        if i < |x| { assert a[i] == x[i] || Capital(a[i], x[i]); }
      }
    }
  }

  lemma NoBetterSame(t: string)
    ensures NoBetter(t, t)
  {
  }

  /** `t` is read up to `rest`, and what is read is no better than `text`. */
  predicate Spells(t: string, rest: string, text: string) {
    |rest| <= |t| && t[|t| - |rest|..] == rest && NoBetter(t[..|t| - |rest|], text)
  }

  lemma SpellsJoin(t: string, more: string, rest: string, x: string, y: string)
    requires Spells(t, more, x) && Spells(more, rest, y)
    ensures Spells(t, rest, x + y)
  {
    var a, b := t[..|t| - |more|], more[..|more| - |rest|];
    NoBetterJoin(a, x, b, y);
    assert t == a + more && more == b + rest;
    assert t[..|t| - |rest|] == a + b;
  }

  lemma SpellsLetter(t: string)
    requires t != ""
    ensures Spells(t, t[1..], [t[0]])
  {
    assert t[..1] == [t[0]];
  }

  // strings

  lemma HexSpelled(c: char, n: nat)
    requires HexValue(c) == Some(n) && n < 16
    ensures c == HexDigit(n) || Capital(c, HexDigit(n))
  {
  }

  lemma CharSpelled(t: string)
    requires DecodeChar(t).Parsed?
    ensures Spells(t, DecodeChar(t).rest, EscapeChar(DecodeChar(t).value))
  {
    var c, rest := DecodeChar(t).value, DecodeChar(t).rest;
    if t[0] != '\\' {
      assert t[..1] == [c];
    } else if t[1] == 'u' {
      UnicodeSpelled(t);
    } else {
      assert t[..2] == ['\\', t[1]];
    }
  }

  lemma UnicodeSpelled(t: string)
    requires |t| >= 6 && t[0] == '\\' && t[1] == 'u' && DecodeChar(t).Parsed?
    ensures Spells(t, t[6..], EscapeChar(DecodeChar(t).value))
  {
    var c, e := DecodeChar(t).value, EscapeChar(DecodeChar(t).value);
    if |e| == 6 {
      var h := t[2..];
      assert HexValue(h[0]).Some? && HexValue(h[1]).Some? && HexValue(h[2]).Some? && HexValue(h[3]).Some?;
      assert HexValue(h[0]).value == 0 && HexValue(h[1]).value == 0;
      HexSpelled(h[2], c as int / 16);
      HexSpelled(h[3], c as int % 16);
      assert h[0] == '0' && h[1] == '0';
      assert t[..6] == ['\\', 'u', h[0], h[1], h[2], h[3]];
    }
  }

  lemma {:induction false} StringSpelled(t: string)
    requires DecodeString(t).Parsed?
    ensures Spells(t, DecodeString(t).rest, Escape(DecodeString(t).value) + "\"")
    decreases |t|
  {
    if t != "" && t[0] == '\"' {
      assert t[..1] == "\"";
    } else {
      var c, more := DecodeChar(t).value, DecodeChar(t).rest;
      var s := DecodeString(more).value;
      CharSpelled(t);
      StringSpelled(more);
      SpellsJoin(t, more, DecodeString(t).rest, EscapeChar(c), Escape(s) + "\"");
      assert ([c] + s)[1..] == s;
      assert Escape([c] + s) + "\"" == EscapeChar(c) + (Escape(s) + "\"");
    }
  }

  lemma QuotedSpelled(t: string)
    requires t != "" && t[0] == '\"' && DecodeString(t[1..]).Parsed?
    ensures Spells(t, DecodeString(t[1..]).rest, Quote(DecodeString(t[1..]).value))
  {
    var s := DecodeString(t[1..]).value;
    SpellsLetter(t);
    StringSpelled(t[1..]);
    SpellsJoin(t, t[1..], DecodeString(t[1..]).rest, "\"", Escape(s) + "\"");
    assert Quote(s) == "\"" + (Escape(s) + "\"");
  }

  // numbers

  predicate AllDigits(t: string) {
    forall i :: 0 <= i < |t| ==> IsDigit(t[i])
  }

  /** The number that the digits make of `acc`. */
  function ReadOnto(acc: nat, t: string): nat
    requires AllDigits(t)
  {
    if t == "" then acc else 10 * ReadOnto(acc, t[..|t| - 1]) + (t[|t| - 1] as int - '0' as int)
  }

  lemma {:induction false} ReadFirst(acc: nat, c: char, t: string)
    requires AllDigits([c] + t)
    ensures IsDigit(c) && AllDigits(t)
    ensures ReadOnto(acc, [c] + t) == ReadOnto(10 * acc + (c as int - '0' as int), t)
    decreases |t|
  {
    var all := [c] + t;
    assert all[0] == c;
    forall i | 0 <= i < |t| ensures IsDigit(t[i]) { assert all[i + 1] == t[i]; }
    if t == "" {
      assert all[..0] == "";
    } else {
      assert all[..|all| - 1] == [c] + t[..|t| - 1];
      ReadFirst(acc, c, t[..|t| - 1]);
    }
  }

  lemma {:induction false} DigitsRead(t: string, acc: nat) returns (head: string)
    ensures AllDigits(head) && t == head + DecodeDigits(t, acc).rest
    ensures DecodeDigits(t, acc).value == ReadOnto(acc, head)
    ensures t != "" && IsDigit(t[0]) ==> head != ""
    decreases |t|
  {
    if t != "" && IsDigit(t[0]) {
      var more := DigitsRead(t[1..], 10 * acc + (t[0] as int - '0' as int));
      head := [t[0]] + more;
      ReadFirst(acc, t[0], more);
    } else {
      head := "";
    }
  }

  lemma {:induction false} DigitsNoBetter(head: string)
    requires head != "" && AllDigits(head)
    ensures NoBetter(head, Digits(ReadOnto(0, head)))
    decreases |head|
  {
    var init, d := head[..|head| - 1], head[|head| - 1] as int - '0' as int;
    assert head == init + [Digit(d)];
    if init == "" {
      assert head == [Digit(d)];
    } else {
      var m := ReadOnto(0, init);
      var n := 10 * m + d;
      DigitsNoBetter(init);
      if n >= 10 {
        assert n / 10 == m && n % 10 == d;
        NoBetterSame([Digit(d)]);
        NoBetterJoin(init, Digits(m), [Digit(d)], [Digit(d)]);
      }
    }
  }

  lemma DigitsSpelled(t: string)
    requires t != "" && IsDigit(t[0])
    ensures Spells(t, DecodeDigits(t, 0).rest, Digits(DecodeDigits(t, 0).value))
  {
    var head := DigitsRead(t, 0);
    DigitsNoBetter(head);
    var rest := DecodeDigits(t, 0).rest;
    assert t[..|t| - |rest|] == head && t[|t| - |rest|..] == rest;
  }

  lemma NegativeSpelled(t: string)
    requires t != "" && IsDigit(t[0])
    ensures Spells("-" + t, DecodeDigits(t, 0).rest, Decimal(-(DecodeDigits(t, 0).value as int)))
  {
    var n, rest := DecodeDigits(t, 0).value, DecodeDigits(t, 0).rest;
    DigitsSpelled(t);
    SpellsLetter("-" + t);
    assert ("-" + t)[1..] == t;
    SpellsJoin("-" + t, t, rest, "-", Digits(n));
    if n == 0 {
      assert |"-" + t| - |rest| > 1;
    }
  }

  lemma NaturalSpelled(t: string)
    requires t != "" && IsDigit(t[0])
    ensures Decode(t).Parsed? && Spells(t, Decode(t).rest, Text(Decode(t).value))
  {
    DecodeNatural(t);
    DigitsSpelled(t);
  }

  lemma MinusSpelled(t: string)
    requires t != "" && IsDigit(t[0])
    ensures Decode("-" + t).Parsed? && Spells("-" + t, Decode("-" + t).rest, Text(Decode("-" + t).value))
  {
    DecodeNegative(t);
    NegativeSpelled(t);
  }

  // values

  lemma KeywordSpelled(t: string)
    requires "null" <= t || "true" <= t || "false" <= t
    ensures Decode(t).Parsed? && Spells(t, Decode(t).rest, Text(Decode(t).value))
  {
    if "null" <= t {
      assert t[..4] == "null";
    } else if "true" <= t {
      assert t[..4] == "true";
    } else {
      assert t[..5] == "false";
    }
  }

  /** Whatever text is read as a value is no better than the value's own text. */
  lemma {:induction false} ValueSpelled(t: string)
    requires Decode(t).Parsed?
    ensures Spells(t, Decode(t).rest, Text(Decode(t).value))
    decreases |t|, 1
  {
    if "null" <= t || "true" <= t || "false" <= t {
      KeywordSpelled(t);
    } else if t[0] == '\"' {
      QuotedSpelled(t);
    } else if t[0] == '[' {
      ListSpelled(t);
    } else if t[0] == '{' {
      DictSpelled(t);
    } else if IsDigit(t[0]) {
      NaturalSpelled(t);
    } else {
      assert t == "-" + t[1..];
      MinusSpelled(t[1..]);
    }
  }

  lemma ListRead(t: string)
    requires t != "" && t[0] == '[' && Decode(t).Parsed?
    ensures "[]" <= t ==> Decode(t) == Parsed(List([]), t[2..])
    ensures !("[]" <= t) ==> DecodeItems(t[1..]).Parsed?
                             && Decode(t) == Parsed(List(DecodeItems(t[1..]).value), DecodeItems(t[1..]).rest)
  {
    NotKeyword(t);
  }

  lemma DictRead(t: string)
    requires t != "" && t[0] == '{' && Decode(t).Parsed?
    ensures "{}" <= t ==> Decode(t) == Parsed(Dict([]), t[2..])
    ensures !("{}" <= t) ==> DecodeEntries(t[1..]).Parsed?
                             && Decode(t) == Parsed(Dict(DecodeEntries(t[1..]).value), DecodeEntries(t[1..]).rest)
  {
    NotKeyword(t);
  }

  lemma {:induction false} ListSpelled(t: string)
    requires t != "" && t[0] == '[' && Decode(t).Parsed?
    ensures Spells(t, Decode(t).rest, Text(Decode(t).value))
    decreases |t|, 0
  {
    ListRead(t);
    if "[]" <= t {
      assert t[..2] == "[]";
    } else {
      var items := DecodeItems(t[1..]).value;
      SpellsLetter(t);
      ItemsSpelled(t[1..]);
      SpellsJoin(t, t[1..], Decode(t).rest, "[", JoinTexts(TextItems(items)) + "]");
      assert Text(List(items)) == "[" + (JoinTexts(TextItems(items)) + "]");
    }
  }

  lemma {:induction false} DictSpelled(t: string)
    requires t != "" && t[0] == '{' && Decode(t).Parsed?
    ensures Spells(t, Decode(t).rest, Text(Decode(t).value))
    decreases |t|, 0
  {
    DictRead(t);
    if "{}" <= t {
      assert t[..2] == "{}";
    } else {
      var entries := DecodeEntries(t[1..]).value;
      SpellsLetter(t);
      EntriesSpelled(t[1..]);
      SpellsJoin(t, t[1..], Decode(t).rest, "{", JoinPairs(TextEntries(entries)) + "}");
      assert Text(Dict(entries)) == "{" + (JoinPairs(TextEntries(entries)) + "}");
    }
  }

  lemma JoinMore(v: Value, vs: seq<Value>)
    requires vs != []
    ensures JoinTexts(TextItems([v] + vs)) + "]" == Text(v) + ("," + (JoinTexts(TextItems(vs)) + "]"))
    ensures JoinTexts(TextItems([v])) + "]" == Text(v) + "]"
  {
    assert ([v] + vs)[1..] == vs;
    assert TextItems([v] + vs)[1..] == TextItems(vs);
  }

  lemma {:induction false} ItemsSpelled(t: string)
    requires DecodeItems(t).Parsed?
    ensures DecodeItems(t).value != []
    ensures Spells(t, DecodeItems(t).rest, JoinTexts(TextItems(DecodeItems(t).value)) + "]")
    decreases |t|, 2
  {
    var v, more := Decode(t).value, Decode(t).rest;
    ValueSpelled(t);
    SpellsLetter(more);
    JoinMore(v, [v]);
    if more[0] == ']' {
      SpellsJoin(t, more, more[1..], Text(v), "]");
    } else {
      var vs, rest := DecodeItems(more[1..]).value, DecodeItems(more[1..]).rest;
      ItemsSpelled(more[1..]);
      JoinMore(v, vs);
      SpellsJoin(more, more[1..], rest, ",", JoinTexts(TextItems(vs)) + "]");
      SpellsJoin(t, more, rest, Text(v), "," + (JoinTexts(TextItems(vs)) + "]"));
    }
  }

  lemma {:induction false} EntrySpelled(t: string)
    requires DecodeEntry(t).Parsed?
    ensures var e := DecodeEntry(t).value; Spells(t, DecodeEntry(t).rest, PairText(Pair(e.key, Text(e.value))))
    decreases |t|, 2
  {
    var key, more := DecodeString(t[1..]).value, DecodeString(t[1..]).rest;
    var v, rest := Decode(more[1..]).value, Decode(more[1..]).rest;
    QuotedSpelled(t);
    SpellsLetter(more);
    ValueSpelled(more[1..]);
    SpellsJoin(more, more[1..], rest, ":", Text(v));
    SpellsJoin(t, more, rest, Quote(key), ":" + Text(v));
    assert PairText(Pair(key, Text(v))) == Quote(key) + (":" + Text(v));
  }

  lemma JoinMorePairs(e: Entry, es: seq<Entry>)
    requires es != []
    ensures var p := PairText(Pair(e.key, Text(e.value)));
            && JoinPairs(TextEntries([e] + es)) + "}" == p + ("," + (JoinPairs(TextEntries(es)) + "}"))
            && JoinPairs(TextEntries([e])) + "}" == p + "}"
  {
    assert ([e] + es)[1..] == es;
    assert TextEntries([e] + es)[1..] == TextEntries(es);
  }

  lemma {:induction false} EntriesSpelled(t: string)
    requires DecodeEntries(t).Parsed?
    ensures DecodeEntries(t).value != []
    ensures Spells(t, DecodeEntries(t).rest, JoinPairs(TextEntries(DecodeEntries(t).value)) + "}")
    decreases |t|, 3
  {
    var e, more := DecodeEntry(t).value, DecodeEntry(t).rest;
    EntrySpelled(t);
    SpellsLetter(more);
    JoinMorePairs(e, [e]);
    var p := PairText(Pair(e.key, Text(e.value)));
    if more[0] == '}' {
      SpellsJoin(t, more, more[1..], p, "}");
    } else {
      var es, rest := DecodeEntries(more[1..]).value, DecodeEntries(more[1..]).rest;
      EntriesSpelled(more[1..]);
      JoinMorePairs(e, es);
      SpellsJoin(more, more[1..], rest, ",", JoinPairs(TextEntries(es)) + "}");
      SpellsJoin(t, more, rest, p, "," + (JoinPairs(TextEntries(es)) + "}"));
    }
  }

  /** Among all texts that are read as the same value, the canonical one is the shortest, and any other of
      its length differs from it only by capital hexadecimal digits. */
  lemma CanonicalIsShortest(nfc: Nfc, v: Value, t: string)
    requires Decode(t) == Decode(Print(nfc, v))
    ensures |t| > |Print(nfc, v)| || CaseOnly(t, Print(nfc, v))
  {
    assert Print(nfc, v) + "" == Print(nfc, v);
    PrintedTextDecodes(nfc, v, "");
    PrintIsTextOfNorm(nfc, v);
    ValueSpelled(t);
    assert t[..|t| - 0] == t;
  }

  // ----- sensitive keys

  /** `d` is a small letter or digit, and `c` is the same, or its capital. */
  predicate SameLetter(c: char, d: char) {
    ('a' <= d <= 'z' || '0' <= d <= '9') && (c == d || ('A' <= c <= 'Z' && d as int == c as int + 32))
  }

  /** `key` is `plain` in other dress: with capitals, and with points, hyphens and underscores put in. */
  predicate Dressed(key: string, plain: string) {
    if key == "" then plain == ""
    else
      || ((key[0] == '.' || key[0] == '-' || key[0] == '_') && Dressed(key[1..], plain))
      || (plain != "" && SameLetter(key[0], plain[0]) && Dressed(key[1..], plain[1..]))
  }

  lemma {:induction false} PlainIsUndressed(key: string, plain: string)
    requires forall i :: 0 <= i < |key| ==> KeyChar(key[i])
    ensures Plain(key) == plain <==> Dressed(key, plain)
    decreases |key|
  {
    if key != "" {
      assert KeyChar(key[0]);
      if key[0] in "_.-" {
        PlainIsUndressed(key[1..], plain);
      } else {
        PlainFirst(key);
        if plain != "" {
          PlainIsUndressed(key[1..], plain[1..]);
          assert plain == [plain[0]] + plain[1..];
        }
      }
    }
  }

  lemma PlainFirst(key: string)
    requires key != "" && KeyChar(key[0]) && key[0] !in "_.-"
    ensures Plain(key) != "" && Plain(key)[1..] == Plain(key[1..])
    ensures forall d :: SameLetter(key[0], d) <==> d == Plain(key)[0]
  {
  }

  /** A key is refused exactly if it is empty, too long, has another character, or is one of the sensitive
      words in some dress. */
  lemma SensitiveInAnyDress(key: string)
    ensures SafeKey(key) <==>
              && 1 <= |key| <= 64 && (forall i :: 0 <= i < |key| ==> KeyChar(key[i]))
              && forall w :: w in SENSITIVE_KEYS ==> !Dressed(key, w)
  {
    if forall i :: 0 <= i < |key| ==> KeyChar(key[i]) {
      forall w | w in SENSITIVE_KEYS ensures Plain(key) == w <==> Dressed(key, w) {
        PlainIsUndressed(key, w);
      }
    }
  }
}
