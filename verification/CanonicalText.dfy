/** The canonical text of payloads: a compact JSON printer with sorted keys and strings in
    NFC, and a decoder that undoes it. Unicode normalization is a parameter. */
module CanonicalText {
  import opened Sorting

  datatype Value =
    | Null
    | Bool(b: bool)
    | Int(n: int)
    | Str(s: string)
    | List(items: seq<Value>)
    | Dict(entries: seq<Entry>)      // in insertion order, keys pairwise different

  datatype Entry = Entry(key: string, value: Value)

  type Nfc = string -> string

  // ----- strings (section 7 of RFC 8259)

  function HexDigit(n: nat): char
    requires n < 16
  {
    "0123456789abcdef"[n]
  }

  function EscapeChar(c: char): string {
    if c == '\"' then "\\\""
    else if c == '\\' then "\\\\"
    else if c == '\n' then "\\n"
    else if c == '\r' then "\\r"
    else if c == '\t' then "\\t"
    else if c as int == 8 then "\\b"
    else if c as int == 12 then "\\f"
    else if c as int < 32 then "\\u00" + [HexDigit(c as int / 16), HexDigit(c as int % 16)]
    else [c]
  }

  function Escape(s: string): string {
    if s == "" then "" else EscapeChar(s[0]) + Escape(s[1..])
  }

  function Quote(s: string): string {
    "\"" + Escape(s) + "\""
  }

  // ----- numbers

  function Digit(n: nat): char
    requires n < 10
  {
    "0123456789"[n]
  }

  function Digits(n: nat): string {
    if n < 10 then [Digit(n)] else Digits(n / 10) + [Digit(n % 10)]
  }

  function Decimal(n: int): string {
    if n < 0 then "-" + Digits(-n) else Digits(n)
  }

  // ----- the printer

  datatype Pair = Pair(key: string, text: string)

  predicate PairLe(a: Pair, b: Pair) {
    StringLe(a.key, b.key)
  }

  function JoinTexts(texts: seq<string>): string {
    if texts == [] then "" else if |texts| == 1 then texts[0] else texts[0] + "," + JoinTexts(texts[1..])
  }

  function PairText(p: Pair): string {
    Quote(p.key) + ":" + p.text
  }

  function JoinPairs(pairs: seq<Pair>): string {
    if pairs == [] then ""
    else if |pairs| == 1 then PairText(pairs[0])
    else PairText(pairs[0]) + "," + JoinPairs(pairs[1..])
  }

  function Print(nfc: Nfc, v: Value): string
    decreases v
  {
    match v
    case Null => "null"
    case Bool(b) => if b then "true" else "false"
    case Int(n) => Decimal(n)
    case Str(s) => Quote(nfc(s))
    case List(items) => "[" + JoinTexts(PrintItems(nfc, items)) + "]"
    case Dict(entries) => "{" + JoinPairs(Sort(PrintEntries(nfc, entries), PairLe)) + "}"
  }

  function PrintItems(nfc: Nfc, items: seq<Value>): seq<string>
    decreases items
  {
    if items == [] then [] else [Print(nfc, items[0])] + PrintItems(nfc, items[1..])
  }

  function PrintEntries(nfc: Nfc, entries: seq<Entry>): seq<Pair>
    decreases entries
  {
    if entries == [] then []
    else [Pair(entries[0].key, Print(nfc, entries[0].value))] + PrintEntries(nfc, entries[1..])
  }

  // ----- normal forms

  predicate EntryLe(a: Entry, b: Entry) {
    StringLe(a.key, b.key)
  }

  function Norm(nfc: Nfc, v: Value): Value
    decreases v
  {
    match v
    case Str(s) => Str(nfc(s))
    case List(items) => List(NormItems(nfc, items))
    case Dict(entries) => Dict(Sort(NormEntries(nfc, entries), EntryLe))
    case _ => v
  }

  function NormItems(nfc: Nfc, items: seq<Value>): seq<Value>
    decreases items
  {
    if items == [] then [] else [Norm(nfc, items[0])] + NormItems(nfc, items[1..])
  }

  function NormEntries(nfc: Nfc, entries: seq<Entry>): seq<Entry>
    decreases entries
  {
    if entries == [] then []
    else [Entry(entries[0].key, Norm(nfc, entries[0].value))] + NormEntries(nfc, entries[1..])
  }

  // ----- the text of a value as it stands: no sorting and no normalization

  function Text(v: Value): string
    decreases v
  {
    match v
    case Null => "null"
    case Bool(b) => if b then "true" else "false"
    case Int(n) => Decimal(n)
    case Str(s) => Quote(s)
    case List(items) => "[" + JoinTexts(TextItems(items)) + "]"
    case Dict(entries) => "{" + JoinPairs(TextEntries(entries)) + "}"
  }

  function TextItems(items: seq<Value>): seq<string>
    decreases items
  {
    if items == [] then [] else [Text(items[0])] + TextItems(items[1..])
  }

  function TextEntries(entries: seq<Entry>): seq<Pair>
    decreases entries
  {
    if entries == [] then [] else [Pair(entries[0].key, Text(entries[0].value))] + TextEntries(entries[1..])
  }

  // ----- the printer prints the normal form

  lemma {:induction false} InsertTextEntries(e: Entry, entries: seq<Entry>)
    ensures TextEntries(Insert(e, entries, EntryLe))
         == Insert(Pair(e.key, Text(e.value)), TextEntries(entries), PairLe)
    decreases |entries|
  {
    if entries != [] {
      assert TextEntries(entries)[1..] == TextEntries(entries[1..]);
      if EntryLe(e, entries[0]) {
        assert ([e] + entries)[1..] == entries;
      } else {
        InsertTextEntries(e, entries[1..]);
        var rest := Insert(e, entries[1..], EntryLe);
        assert ([entries[0]] + rest)[1..] == rest;
      }
    } else {
      assert [e][1..] == [];
    }
  }

  lemma {:induction false} SortTextEntries(entries: seq<Entry>)
    ensures TextEntries(Sort(entries, EntryLe)) == Sort(TextEntries(entries), PairLe)
    decreases |entries|
  {
    if entries != [] {
      assert TextEntries(entries)[1..] == TextEntries(entries[1..]);
      SortTextEntries(entries[1..]);
      InsertTextEntries(entries[0], Sort(entries[1..], EntryLe));
    }
  }

  lemma {:induction false} PrintIsTextOfNorm(nfc: Nfc, v: Value)
    ensures Print(nfc, v) == Text(Norm(nfc, v))
    decreases v
  {
    match v
    case List(items) => PrintItemsAreTexts(nfc, items);
    case Dict(entries) =>
      PrintEntriesAreTexts(nfc, entries);
      SortTextEntries(NormEntries(nfc, entries));
    case _ =>
  }

  lemma {:induction false} PrintItemsAreTexts(nfc: Nfc, items: seq<Value>)
    ensures PrintItems(nfc, items) == TextItems(NormItems(nfc, items))
    decreases items
  {
    if items != [] {
      PrintIsTextOfNorm(nfc, items[0]);
      PrintItemsAreTexts(nfc, items[1..]);
      assert NormItems(nfc, items)[1..] == NormItems(nfc, items[1..]);
    }
  }

  lemma {:induction false} PrintEntriesAreTexts(nfc: Nfc, entries: seq<Entry>)
    ensures PrintEntries(nfc, entries) == TextEntries(NormEntries(nfc, entries))
    decreases entries
  {
    if entries != [] {
      PrintIsTextOfNorm(nfc, entries[0].value);
      PrintEntriesAreTexts(nfc, entries[1..]);
      assert NormEntries(nfc, entries)[1..] == NormEntries(nfc, entries[1..]);
    }
  }
}

/** A decoder for compact JSON text, and the proof that it undoes the printer. */
module CanonicalDecoder {
  import opened Outcomes
  import opened CanonicalText

  // ----- decoding

  function HexValue(c: char): Option<nat> {
    if '0' <= c <= '9' then Some(c as int - '0' as int)
    else if 'a' <= c <= 'f' then Some(c as int - 'a' as int + 10)
    else if 'A' <= c <= 'F' then Some(c as int - 'A' as int + 10)
    else None
  }

  function Hex4(t: string): Option<nat>
    requires |t| >= 4
  {
    match (HexValue(t[0]), HexValue(t[1]), HexValue(t[2]), HexValue(t[3]))
    case (Some(a), Some(b), Some(c), Some(d)) => Some(4096 * a + 256 * b + 16 * c + d)
    case _ => None
  }

  datatype Parsed<T> = Bad | Parsed(value: T, rest: string)

  /** One character of a string, escaped or not. */
  function DecodeChar(t: string): (r: Parsed<char>)
    ensures r.Parsed? ==> |r.rest| < |t|
  {
    if t == "" || t[0] == '\"' || t[0] as int < 32 then Bad
    else if t[0] != '\\' then Parsed(t[0], t[1..])
    else if |t| < 2 then Bad
    else if t[1] == 'u' then
      if |t| < 6 then Bad
      else match Hex4(t[2..])
           case Some(n) => if n < 0xD800 || 0xE000 <= n < 0x10000 then Parsed(n as char, t[6..]) else Bad
           case None => Bad
    else if t[1] in "\"\\/" then Parsed(t[1], t[2..])
    else if t[1] == 'b' then Parsed(8 as char, t[2..])
    else if t[1] == 'f' then Parsed(12 as char, t[2..])
    else if t[1] == 'n' then Parsed('\n', t[2..])
    else if t[1] == 'r' then Parsed('\r', t[2..])
    else if t[1] == 't' then Parsed('\t', t[2..])
    else Bad
  }

  /** The characters of a string and its closing quote. */
  function DecodeString(t: string): (r: Parsed<string>)
    ensures r.Parsed? ==> |r.rest| < |t|
    decreases |t|
  {
    if t != "" && t[0] == '\"' then Parsed("", t[1..])
    else match DecodeChar(t)
         case Bad => Bad
         case Parsed(c, more) =>
           match DecodeString(more)
           case Bad => Bad
           case Parsed(s, rest) => Parsed([c] + s, rest)
  }

  predicate IsDigit(c: char) {
    '0' <= c <= '9'
  }

  /** The digits at the start of the text, read onto `acc`. */
  function DecodeDigits(t: string, acc: nat): (r: Parsed<nat>)
    ensures r.Parsed? && |r.rest| <= |t|
    decreases |t|
  {
    if t != "" && IsDigit(t[0]) then DecodeDigits(t[1..], 10 * acc + (t[0] as int - '0' as int))
    else Parsed(acc, t)
  }

  function Decode(t: string): (r: Parsed<Value>)
    ensures r.Parsed? ==> |r.rest| < |t|
    decreases |t|, 0
  {
    if "null" <= t then Parsed(Null, t[4..])
    else if "true" <= t then Parsed(Bool(true), t[4..])
    else if "false" <= t then Parsed(Bool(false), t[5..])
    else if t == "" then Bad
    else if t[0] == '\"' then
      match DecodeString(t[1..])
      case Bad => Bad
      case Parsed(s, rest) => Parsed(Str(s), rest)
    else if t[0] == '[' then
      if |t| > 1 && t[1] == ']' then Parsed(List([]), t[2..])
      else match DecodeItems(t[1..])
           case Bad => Bad
           case Parsed(items, rest) => Parsed(List(items), rest)
    else if t[0] == '{' then
      if |t| > 1 && t[1] == '}' then Parsed(Dict([]), t[2..])
      else match DecodeEntries(t[1..])
           case Bad => Bad
           case Parsed(entries, rest) => Parsed(Dict(entries), rest)
    else if IsDigit(t[0]) then
      var d := DecodeDigits(t[1..], t[0] as int - '0' as int);
      Parsed(Int(d.value), d.rest)
    else if t[0] == '-' && |t| > 1 && IsDigit(t[1]) then
      var d := DecodeDigits(t[1..], 0);
      var magnitude: int := d.value;
      Parsed(Int(-magnitude), d.rest)
    else Bad
  }

  function DecodeItems(t: string): (r: Parsed<seq<Value>>)
    ensures r.Parsed? ==> |r.rest| < |t|
    decreases |t|, 1
  {
    match Decode(t)
    case Bad => Bad
    case Parsed(v, more) =>
      if more == "" then Bad
      else if more[0] == ']' then Parsed([v], more[1..])
      else if more[0] != ',' then Bad
      else match DecodeItems(more[1..])
           case Bad => Bad
           case Parsed(vs, rest) => Parsed([v] + vs, rest)
  }

  function DecodeEntry(t: string): (r: Parsed<Entry>)
    ensures r.Parsed? ==> |r.rest| < |t|
    decreases |t|, 1
  {
    if t == "" || t[0] != '\"' then Bad
    else match DecodeString(t[1..])
         case Bad => Bad
         case Parsed(key, more) =>
           if more == "" || more[0] != ':' then Bad
           else match Decode(more[1..])
                case Bad => Bad
                case Parsed(v, rest) => Parsed(Entry(key, v), rest)
  }

  function DecodeEntries(t: string): (r: Parsed<seq<Entry>>)
    ensures r.Parsed? ==> |r.rest| < |t|
    decreases |t|, 2
  {
    match DecodeEntry(t)
    case Bad => Bad
    case Parsed(e, more) =>
      if more == "" then Bad
      else if more[0] == '}' then Parsed([e], more[1..])
      else if more[0] != ',' then Bad
      else match DecodeEntries(more[1..])
           case Bad => Bad
           case Parsed(es, rest) => Parsed([e] + es, rest)
  }

  // ----- strings decode to themselves

  lemma DecodeEscapedChar(c: char, rest: string)
    ensures DecodeChar(EscapeChar(c) + rest) == Parsed(c, rest)
    ensures EscapeChar(c)[0] != '\"'
  {
    var e := EscapeChar(c);
    var t := e + rest;
    if c as int < 32 && |e| == 6 {
      assert t[2..][..4] == e[2..];
      assert HexValue('0') == Some(0);
      assert HexValue(HexDigit(c as int / 16)) == Some(c as int / 16);
      assert HexValue(HexDigit(c as int % 16)) == Some(c as int % 16);
      assert t[6..] == rest;
    } else if |e| == 2 {
      assert t[2..] == rest;
    } else {
      assert t[1..] == rest;
    }
  }

  lemma {:induction false} DecodeEscaped(s: string, rest: string)
    ensures DecodeString(Escape(s) + "\"" + rest) == Parsed(s, rest)
    decreases |s|
  {
    if s == "" {
      assert Escape(s) + "\"" + rest == "\"" + rest;
    } else {
      var more := Escape(s[1..]) + "\"" + rest;
      assert Escape(s) + "\"" + rest == EscapeChar(s[0]) + more;
      DecodeEscapedChar(s[0], more);
      DecodeEscaped(s[1..], rest);
      assert [s[0]] + s[1..] == s;
    }
  }

  // ----- numbers decode to themselves

  predicate Delimited(rest: string) {
    rest == "" || !IsDigit(rest[0])
  }

  lemma DecodeDigit(k: nat, rest: string, acc: nat)
    requires k < 10
    ensures DecodeDigits([Digit(k)] + rest, acc) == DecodeDigits(rest, 10 * acc + k)
  {
    assert ([Digit(k)] + rest)[1..] == rest;
  }

  lemma DigitsSplit(n: nat, rest: string)
    requires n >= 10
    ensures Digits(n) + rest == Digits(n / 10) + ([Digit(n % 10)] + rest)
    ensures Digits(n)[0] == Digits(n / 10)[0]
  {
  }

  lemma {:induction false} DecodePrintedDigits(n: nat, rest: string)
    ensures IsDigit(Digits(n)[0])
    ensures DecodeDigits(Digits(n) + rest, 0) == DecodeDigits(rest, n)
    decreases n
  {
    if n < 10 {
      DecodeDigit(n, rest, 0);
    } else {
      DigitsSplit(n, rest);
      DecodePrintedDigits(n / 10, [Digit(n % 10)] + rest);
      DecodeDigit(n % 10, rest, n / 10);
      assert 10 * (n / 10) + n % 10 == n;
    }
  }

  /** Only a keyword starts with a keyword's first letter. */
  lemma NotKeyword(t: string)
    requires t != "" && t[0] !in "ntf"
    ensures !("null" <= t) && !("true" <= t) && !("false" <= t)
  {
  }

  /** A text that starts with a digit decodes as the number it starts with. */
  lemma DecodeNatural(t: string)
    requires t != "" && IsDigit(t[0])
    ensures Decode(t) == Parsed(Int(DecodeDigits(t, 0).value), DecodeDigits(t, 0).rest)
  {
    NotKeyword(t);
  }

  lemma DecodeNegative(t: string)
    requires t != "" && IsDigit(t[0])
    ensures Decode("-" + t) == Parsed(Int(-(DecodeDigits(t, 0).value as int)), DecodeDigits(t, 0).rest)
  {
    NotKeyword("-" + t);
    assert ("-" + t)[1..] == t;
  }

  lemma DecodeDecimal(n: int, rest: string)
    requires Delimited(rest)
    ensures Decode(Decimal(n) + rest) == Parsed(Int(n), rest)
  {
    var size := if n < 0 then -n else n;
    DecodePrintedDigits(size, rest);
    if n < 0 {
      DecodeNegative(Digits(size) + rest);
      assert Decimal(n) + rest == "-" + (Digits(size) + rest);
    } else {
      DecodeNatural(Digits(size) + rest);
    }
  }

  // ----- values decode to themselves

  lemma DecodeQuoted(s: string, rest: string)
    ensures Decode(Quote(s) + rest) == Parsed(Str(s), rest)
  {
    var t := Quote(s) + rest;
    assert t[1..] == Escape(s) + "\"" + rest;
    DecodeEscaped(s, rest);
    NotKeyword(t);
  }

  /** The first character of a text starts a value. */
  lemma TextStarts(v: Value)
    ensures Text(v) != "" && Text(v)[0] !in "]},:"
  {
    if v.Int? {
      DecodePrintedDigits(if v.n < 0 then -v.n else v.n, "");
    }
  }

  lemma DecodeKeyword(v: Value, rest: string)
    requires v.Null? || v.Bool?
    ensures Decode(Text(v) + rest) == Parsed(v, rest)
  {
    var t := Text(v) + rest;
    match v
    case Null => assert t[..4] == "null" && t[4..] == rest;
    case Bool(b) =>
      if b {
        assert t[..4] == "true" && t[4..] == rest;
      } else {
        assert t[..5] == "false" && t[5..] == rest;
      }
  }

  lemma DecodeOpened(body: string)
    requires body != ""
    ensures body[0] != ']' && DecodeItems(body).Parsed? ==>
              Decode("[" + body) == Parsed(List(DecodeItems(body).value), DecodeItems(body).rest)
    ensures body[0] != '}' && DecodeEntries(body).Parsed? ==>
              Decode("{" + body) == Parsed(Dict(DecodeEntries(body).value), DecodeEntries(body).rest)
  {
    NotKeyword("[" + body);
    NotKeyword("{" + body);
    assert ("[" + body)[1..] == body && ("{" + body)[1..] == body;
  }

  lemma DecodeEmpty(rest: string)
    ensures Decode("[]" + rest) == Parsed(List([]), rest)
    ensures Decode("{}" + rest) == Parsed(Dict([]), rest)
  {
    NotKeyword("[]" + rest);
    NotKeyword("{}" + rest);
    assert ("[]" + rest)[2..] == rest && ("{}" + rest)[2..] == rest;
  }

  /** The text of a value, followed by anything that does not continue a number, decodes to it. */
  lemma {:induction false} DecodeText(v: Value, rest: string)
    requires Delimited(rest)
    ensures Decode(Text(v) + rest) == Parsed(v, rest)
    decreases v, 0
  {
    match v
    case Null => DecodeKeyword(v, rest);
    case Bool(b) => DecodeKeyword(v, rest);
    case Int(n) => DecodeDecimal(n, rest);
    case Str(s) => DecodeQuoted(s, rest);
    case List(items) =>
      if items == [] {
        DecodeEmpty(rest);
        assert Text(v) == "[]";
      } else {
        DecodeTextItems(items, rest);
        JoinTextsStart(items);
        DecodeList(items, rest);
      }
    case Dict(entries) =>
      if entries == [] {
        DecodeEmpty(rest);
        assert Text(v) == "{}";
      } else {
        DecodeTextEntries(entries, rest);
        DecodeDict(entries, rest);
      }
  }

  lemma DecodeList(items: seq<Value>, rest: string)
    requires items != []
    requires DecodeItems(JoinTexts(TextItems(items)) + "]" + rest) == Parsed(items, rest)
    ensures Decode(Text(List(items)) + rest) == Parsed(List(items), rest)
  {
    TextStarts(items[0]);
    JoinTextsStart(items);
    DecodeOpened(JoinTexts(TextItems(items)) + "]" + rest);
    ListOnto(JoinTexts(TextItems(items)), rest);
  }

  lemma ListOnto(body: string, rest: string)
    ensures "[" + body + "]" + rest == "[" + (body + "]" + rest)
  {
  }

  lemma DecodeDict(entries: seq<Entry>, rest: string)
    requires entries != []
    requires DecodeEntries(JoinPairs(TextEntries(entries)) + ("}" + rest)) == Parsed(entries, rest)
    ensures Decode(Text(Dict(entries)) + rest) == Parsed(Dict(entries), rest)
  {
    JoinPairsStart(entries);
    DecodeOpened(JoinPairs(TextEntries(entries)) + ("}" + rest));
    DictOnto(JoinPairs(TextEntries(entries)), rest);
  }

  lemma JoinPairsStart(entries: seq<Entry>)
    requires entries != []
    ensures JoinPairs(TextEntries(entries)) != "" && JoinPairs(TextEntries(entries))[0] == '\"'
  {
    assert TextEntries(entries)[0].key == entries[0].key;
  }

  lemma DictOnto(body: string, rest: string)
    ensures "{" + body + "}" + rest == "{" + (body + ("}" + rest))
  {
  }

  lemma JoinTextsStart(items: seq<Value>)
    requires items != []
    ensures JoinTexts(TextItems(items)) != "" && Text(items[0]) != ""
    ensures JoinTexts(TextItems(items))[0] == Text(items[0])[0]
  {
    TextStarts(items[0]);
  }

  lemma {:induction false} DecodeTextItems(items: seq<Value>, rest: string)
    requires items != []
    ensures DecodeItems(JoinTexts(TextItems(items)) + "]" + rest) == Parsed(items, rest)
    decreases items
  {
    var t := JoinTexts(TextItems(items)) + "]" + rest;
    if |items| == 1 {
      var more := "]" + rest;
      assert t == Text(items[0]) + more;
      DecodeText(items[0], more);
      assert more[1..] == rest && [items[0]] == items;
    } else {
      var others := JoinTexts(TextItems(items[1..])) + "]" + rest;
      var more := "," + others;
      assert TextItems(items)[1..] == TextItems(items[1..]);
      assert t == Text(items[0]) + more;
      DecodeText(items[0], more);
      assert more[1..] == others;
      DecodeTextItems(items[1..], rest);
      assert [items[0]] + items[1..] == items;
    }
  }

  lemma PairTextOnto(key: string, text: string, rest: string)
    ensures PairText(Pair(key, text)) + rest == "\"" + (Escape(key) + "\"" + (":" + (text + rest)))
  {
  }

  lemma DecodePair(key: string, text: string, rest: string)
    ensures Decode(text + rest).Parsed? ==>
              DecodeEntry(PairText(Pair(key, text)) + rest)
              == Parsed(Entry(key, Decode(text + rest).value), Decode(text + rest).rest)
  {
    var after := ":" + (text + rest);
    var body := Escape(key) + "\"" + after;
    PairTextOnto(key, text, rest);
    assert ("\"" + body)[1..] == body;
    DecodeEscaped(key, after);
    assert after[1..] == text + rest;
  }

  lemma {:induction false} DecodeTextEntry(e: Entry, rest: string)
    requires Delimited(rest)
    ensures DecodeEntry(PairText(Pair(e.key, Text(e.value))) + rest) == Parsed(e, rest)
    decreases e
  {
    DecodeText(e.value, rest);
    DecodePair(e.key, Text(e.value), rest);
  }

  lemma JoinPairsOnto(p: Pair, pairs: seq<Pair>, tail: string)
    ensures JoinPairs([p] + pairs) + tail
         == PairText(p) + (if pairs == [] then tail else "," + (JoinPairs(pairs) + tail))
  {
    assert ([p] + pairs)[1..] == pairs;
  }

  lemma DecodeEntriesStep(e: Entry, t: string, others: string, rest: string)
    ensures DecodeEntry(t) == Parsed(e, "}" + rest) ==> DecodeEntries(t) == Parsed([e], rest)
    ensures DecodeEntry(t) == Parsed(e, "," + others) && DecodeEntries(others).Parsed? ==>
              DecodeEntries(t) == Parsed([e] + DecodeEntries(others).value, DecodeEntries(others).rest)
  {
    assert ("}" + rest)[1..] == rest && ("," + others)[1..] == others;
  }

  lemma {:induction false} DecodeTextEntries(entries: seq<Entry>, rest: string)
    requires entries != []
    ensures DecodeEntries(JoinPairs(TextEntries(entries)) + ("}" + rest)) == Parsed(entries, rest)
    decreases entries
  {
    var e, es := entries[0], entries[1..];
    var tail := "}" + rest;
    JoinPairsOnto(Pair(e.key, Text(e.value)), TextEntries(es), tail);
    var t := JoinPairs(TextEntries(entries)) + tail;
    if es == [] {
      DecodeTextEntry(e, tail);
      DecodeEntriesStep(e, t, "", rest);
      assert [e] == entries;
    } else {
      var others := JoinPairs(TextEntries(es)) + tail;
      DecodeTextEntry(e, "," + others);
      DecodeTextEntries(es, rest);
      DecodeEntriesStep(e, t, others, rest);
      assert [e] + es == entries;
    }
  }

  // ----- what the printed text determines

  /** The printed text, followed by anything that does not continue a number, decodes to the
      normal form of the value: strings in NFC, keys in order. */
  lemma PrintedTextDecodes(nfc: Nfc, v: Value, rest: string)
    requires Delimited(rest)
    ensures Decode(Print(nfc, v) + rest) == Parsed(Norm(nfc, v), rest)
  {
    PrintIsTextOfNorm(nfc, v);
    DecodeText(Norm(nfc, v), rest);
  }

  /** Two values print alike exactly when they have the same normal form. */
  lemma PrintAlikeIffNorm(nfc: Nfc, v: Value, w: Value)
    ensures Print(nfc, v) == Print(nfc, w) <==> Norm(nfc, v) == Norm(nfc, w)
  {
    PrintIsTextOfNorm(nfc, v);
    PrintIsTextOfNorm(nfc, w);
    PrintedTextDecodes(nfc, v, "");
    PrintedTextDecodes(nfc, w, "");
    assert Print(nfc, v) + "" == Print(nfc, v) && Print(nfc, w) + "" == Print(nfc, w);
  }
}
