/** The duplicate-key scanner is exact on JSON texts: for every value written with any white
    space and any escape spelling it reads the whole text, and refuses it exactly when some
    object, at any depth, repeats a key after decoding. */
module KeyScannerExact {
  import opened Outcomes
  import opened KeyScanner

  // ----- JSON values with the spelling of their text

  /** One code unit of a string and how it is written. */
  datatype Piece = Direct(c: nat) | Short(letter: nat) | Hex(a: nat, b: nat, c: nat, d: nat)

  /** `gap` is the white space of an empty array or object. */
  datatype Json =
    | Scalar(text: Text)
    | String(pieces: seq<Piece>)
    | Array(gap: Text, items: seq<Element>)
    | Object(gap: Text, members: seq<Member>)

  /** A value with the white space around it. */
  datatype Element = Element(before: Text, value: Json, after: Text)

  datatype Member = Member(before: Text, key: seq<Piece>, after: Text, element: Element)

  predicate Blank(t: Text) {
    forall i :: 0 <= i < |t| ==> IsWhitespace(t[i])
  }

  predicate PieceOk(p: Piece) {
    match p
    case Direct(c) => c >= 32 && c != QUOTE && c != BACKSLASH
    case Short(letter) => ShortEscape(letter).Some?
    case Hex(a, b, c, d) => HexValue(a).Some? && HexValue(b).Some? && HexValue(c).Some? && HexValue(d).Some?
  }

  function OrZero(n: Option<nat>): nat {
    match n
    case Some(v) => v
    case None => 0
  }

  function PieceValue(p: Piece): nat {
    match p
    case Direct(c) => c
    case Short(letter) => OrZero(ShortEscape(letter))
    case Hex(a, b, c, d) =>
      4096 * OrZero(HexValue(a)) + 256 * OrZero(HexValue(b)) + 16 * OrZero(HexValue(c)) + OrZero(HexValue(d))
  }

  predicate PiecesOk(ps: seq<Piece>) {
    forall i :: 0 <= i < |ps| ==> PieceOk(ps[i])
  }

  /** The string that the pieces spell. */
  function Decoded(ps: seq<Piece>): Text {
    if ps == [] then [] else [PieceValue(ps[0])] + Decoded(ps[1..])
  }

  predicate ScalarText(t: Text) {
    && t != [] && t[0] !in [QUOTE, OPEN_BRACKET, OPEN_BRACE]
    && forall i :: 0 <= i < |t| ==> !EndsScalar(t[i])
  }

  predicate JsonOk(v: Json)
    decreases v
  {
    match v
    case Scalar(t) => ScalarText(t)
    case String(ps) => PiecesOk(ps)
    case Array(gap, items) => Blank(gap) && forall i :: 0 <= i < |items| ==> ElementOk(items[i])
    case Object(gap, ms) => Blank(gap) && forall i :: 0 <= i < |ms| ==> MemberOk(ms[i])
  }

  predicate ElementOk(e: Element)
    decreases e
  {
    Blank(e.before) && JsonOk(e.value) && Blank(e.after)
  }

  predicate MemberOk(m: Member)
    decreases m
  {
    Blank(m.before) && PiecesOk(m.key) && Blank(m.after) && ElementOk(m.element)
  }

  // ----- the text of a value, followed by `k`

  function PieceText(p: Piece): Text {
    match p
    case Direct(c) => [c]
    case Short(letter) => [BACKSLASH, letter]
    case Hex(a, b, c, d) => [BACKSLASH, LETTER_U, a, b, c, d]
  }

  function PiecesText(ps: seq<Piece>): Text {
    if ps == [] then [] else PieceText(ps[0]) + PiecesText(ps[1..])
  }

  function QuotedOnto(ps: seq<Piece>, k: Text): Text {
    [QUOTE] + (PiecesText(ps) + ([QUOTE] + k))
  }

  function JsonOnto(v: Json, k: Text): Text
    decreases v
  {
    match v
    case Scalar(t) => t + k
    case String(ps) => QuotedOnto(ps, k)
    case Array(gap, items) =>
      [OPEN_BRACKET] + if items == [] then gap + ([CLOSE_BRACKET] + k) else ItemsOnto(items, k)
    case Object(gap, ms) =>
      [OPEN_BRACE] + if ms == [] then gap + ([CLOSE_BRACE] + k) else MembersOnto(ms, k)
  }

  function ElementOnto(e: Element, k: Text): Text
    decreases e
  {
    e.before + JsonOnto(e.value, e.after + k)
  }

  function ItemsOnto(items: seq<Element>, k: Text): Text
    requires items != []
    decreases items
  {
    ElementOnto(items[0], if |items| == 1 then [CLOSE_BRACKET] + k else [COMMA] + ItemsOnto(items[1..], k))
  }

  function MembersOnto(ms: seq<Member>, k: Text): Text
    requires ms != []
    decreases ms
  {
    MemberOnto(ms[0], if |ms| == 1 then [CLOSE_BRACE] + k else [COMMA] + MembersOnto(ms[1..], k))
  }

  function MemberOnto(m: Member, k: Text): Text
    decreases m
  {
    m.before + QuotedOnto(m.key, m.after + ([COLON] + ElementOnto(m.element, k)))
  }

  // ----- no object repeats a key

  predicate NoRepeats(v: Json)
    decreases v
  {
    match v
    case Array(_, items) => forall i :: 0 <= i < |items| ==> NoRepeats(items[i].value)
    case Object(_, ms) =>
      && (forall i, j :: 0 <= i < j < |ms| ==>
            Decoded(ms[i].key) != Decoded(ms[j].key))
      && (forall i :: 0 <= i < |ms| ==> NoRepeats(ms[i].element.value))
    case _ => true
  }

  // ----- white space and strings

  lemma {:induction false} SkipBlank(w: Text, k: Text)
    requires Blank(w)
    ensures SkipWhitespace(w + k) == SkipWhitespace(k)
    decreases |w|
  {
    if w == [] {
      assert w + k == k;
    } else {
      assert (w + k)[1..] == w[1..] + k;
      SkipBlank(w[1..], k);
    }
  }

  lemma {:induction false} SkipTwice(t: Text)
    ensures SkipWhitespace(SkipWhitespace(t)) == SkipWhitespace(t)
    decreases |t|
  {
    if t != [] && IsWhitespace(t[0]) {
      SkipTwice(t[1..]);
    }
  }

  lemma LiteralDirect(c: nat, k: Text)
    requires c != QUOTE && c != BACKSLASH && LiteralLength(k).Some?
    ensures LiteralLength([c] + k) == Some(1 + LiteralLength(k).value)
  {
    assert ([c] + k)[1..] == k;
  }

  lemma LiteralEscape(c: nat, k: Text)
    requires LiteralLength(k).Some?
    ensures LiteralLength([BACKSLASH, c] + k) == Some(2 + LiteralLength(k).value)
  {
    assert ([BACKSLASH, c] + k)[2..] == k;
  }

  lemma LiteralTwo(a: nat, b: nat, k: Text)
    requires HexValue(a).Some? && HexValue(b).Some? && LiteralLength(k).Some?
    ensures LiteralLength([a, b] + k) == Some(2 + LiteralLength(k).value)
  {
    LiteralDirect(b, k);
    LiteralDirect(a, [b] + k);
    assert [a, b] + k == [a] + ([b] + k);
  }

  lemma LiteralHex(a: nat, b: nat, c: nat, d: nat, k: Text)
    requires LiteralLength(k).Some? && PieceOk(Hex(a, b, c, d))
    ensures LiteralLength([BACKSLASH, LETTER_U, a, b, c, d] + k) == Some(6 + LiteralLength(k).value)
  {
    var low := [c, d] + k;
    var high := [a, b] + low;
    LiteralTwo(c, d, k);
    LiteralTwo(a, b, low);
    LiteralEscape(LETTER_U, high);
    HexConcat(a, b, c, d, k);
  }

  lemma HexConcat(a: nat, b: nat, c: nat, d: nat, k: Text)
    ensures [BACKSLASH, LETTER_U, a, b, c, d] + k == [BACKSLASH, LETTER_U] + ([a, b] + ([c, d] + k))
  {
  }

  lemma LiteralPiece(p: Piece, k: Text)
    requires PieceOk(p) && LiteralLength(k).Some?
    ensures LiteralLength(PieceText(p) + k) == Some(|PieceText(p)| + LiteralLength(k).value)
  {
    match p
    case Direct(c) => LiteralDirect(c, k); assert PieceText(p) == [c];
    case Short(letter) => LiteralEscape(letter, k); assert PieceText(p) == [BACKSLASH, letter];
    case Hex(a, b, c, d) => LiteralHex(a, b, c, d, k); assert PieceText(p) == [BACKSLASH, LETTER_U, a, b, c, d];
  }

  lemma ParsePiece(p: Piece, k: Text)
    requires PieceOk(p)
    ensures ParseBody(PieceText(p) + k) == Prepend(PieceValue(p), ParseBody(k))
  {
    var t := PieceText(p) + k;
    match p
    case Direct(c) => assert t[1..] == k;
    case Short(letter) => assert t[2..] == k;
    case Hex(a, b, c, d) => assert t[6..] == k;
  }

  lemma PiecesSplit(ps: seq<Piece>, t: Text)
    requires ps != []
    ensures PiecesText(ps) + t == PieceText(ps[0]) + (PiecesText(ps[1..]) + t)
    ensures |PiecesText(ps)| == |PieceText(ps[0])| + |PiecesText(ps[1..])|
  {
  }

  lemma {:induction false} LiteralOfPieces(ps: seq<Piece>, k: Text)
    requires PiecesOk(ps)
    ensures LiteralLength(PiecesText(ps) + ([QUOTE] + k)) == Some(|PiecesText(ps)| + 1)
    decreases |ps|
  {
    if ps == [] {
      assert PiecesText(ps) + ([QUOTE] + k) == [QUOTE] + k;
    } else {
      var rest := PiecesText(ps[1..]) + ([QUOTE] + k);
      LiteralOfPieces(ps[1..], k);
      LiteralPiece(ps[0], rest);
      PiecesSplit(ps, [QUOTE] + k);
    }
  }

  lemma {:induction false} ParsePieces(ps: seq<Piece>)
    requires PiecesOk(ps)
    ensures ParseBody(PiecesText(ps) + [QUOTE]) == Some(Decoded(ps))
    decreases |ps|
  {
    if ps == [] {
      assert PiecesText(ps) + [QUOTE] == [QUOTE];
    } else {
      var rest := PiecesText(ps[1..]) + [QUOTE];
      ParsePieces(ps[1..]);
      ParsePiece(ps[0], rest);
      assert PiecesText(ps) + [QUOTE] == PieceText(ps[0]) + rest;
    }
  }

  lemma QuotedParts(p: Text, k: Text)
    ensures var t, n := [QUOTE] + (p + ([QUOTE] + k)), |p| + 1;
            t[1..] == p + ([QUOTE] + k) && t[1..n + 1] == p + [QUOTE] && t[n + 1..] == k
  {
  }

  lemma ScanQuoted(ps: seq<Piece>, k: Text)
    requires PiecesOk(ps)
    ensures Starts(QuotedOnto(ps, k), QUOTE)
    ensures ScanString(QuotedOnto(ps, k)) == Ok(Key(Decoded(ps), k))
  {
    LiteralOfPieces(ps, k);
    ParsePieces(ps);
    QuotedParts(PiecesText(ps), k);
  }

  // ----- scalars

  /** What may follow a value: the end of the text, white space or a structural character. */
  predicate Delimited(k: Text) {
    k == [] || EndsScalar(k[0])
  }

  lemma {:induction false} ScalarEnds(t: Text, k: Text)
    requires (forall i :: 0 <= i < |t| ==> !EndsScalar(t[i])) && Delimited(k)
    ensures ScalarLength(t + k) == |t|
    decreases |t|
  {
    if t == [] {
      assert t + k == k;
    } else {
      assert (t + k)[1..] == t[1..] + k;
      ScalarEnds(t[1..], k);
    }
  }

  lemma JsonStarts(v: Json, k: Text)
    requires JsonOk(v)
    ensures JsonOnto(v, k) != []
    ensures !IsWhitespace(JsonOnto(v, k)[0]) && JsonOnto(v, k)[0] !in [CLOSE_BRACKET, CLOSE_BRACE, COMMA]
    ensures SkipWhitespace(JsonOnto(v, k)) == JsonOnto(v, k)
  {
    if v.Scalar? {
      assert !EndsScalar(v.text[0]);
    }
  }

  // ----- values

  function Verdict(clean: bool, k: Text): Result<Text, Error> {
    if clean then Ok(k) else Err(DuplicateKey)
  }

  lemma AfterIsDelimited(w: Text, c: nat, k: Text)
    requires Blank(w) && EndsScalar(c)
    ensures Delimited(w + ([c] + k)) && SkipWhitespace(w + ([c] + k)) == SkipWhitespace([c] + k)
    ensures !IsWhitespace(c) ==> SkipWhitespace(w + ([c] + k)) == [c] + k
  {
    SkipBlank(w, [c] + k);
  }

  lemma {:induction false} ValueExact(w: Text, v: Json, k: Text)
    requires Blank(w) && JsonOk(v) && Delimited(k)
    ensures ScanValue(w + JsonOnto(v, k)) == Verdict(NoRepeats(v), k)
    decreases v, 1
  {
    var t := JsonOnto(v, k);
    SkipBlank(w, t);
    JsonStarts(v, k);
    match v
    case Scalar(s) =>
      ScalarEnds(s, k);
      assert t[|s|..] == k;
    case String(ps) => ScanQuoted(ps, k);
    case Array(gap, items) =>
      var body := if items == [] then gap + ([CLOSE_BRACKET] + k) else ItemsOnto(items, k);
      assert t[1..] == body;
      ArrayExact(v, k);
    case Object(gap, ms) =>
      var body := if ms == [] then gap + ([CLOSE_BRACE] + k) else MembersOnto(ms, k);
      assert t[1..] == body;
      ObjectExact(v, k);
  }

  lemma {:induction false} ArrayExact(v: Json, k: Text)
    requires v.Array? && JsonOk(v)
    ensures v.items == [] ==> ScanArray(v.gap + ([CLOSE_BRACKET] + k)) == Ok(k)
    ensures v.items != [] ==> ScanArray(ItemsOnto(v.items, k)) == Verdict(NoRepeats(v), k)
    decreases v, 0
  {
    if v.items == [] {
      SkipBlank(v.gap, [CLOSE_BRACKET] + k);
      assert ([CLOSE_BRACKET] + k)[1..] == k;
    } else {
      var t := ItemsOnto(v.items, k);
      var e := v.items[0];
      assert ElementOk(e);
      var more := if |v.items| == 1 then [CLOSE_BRACKET] + k else [COMMA] + ItemsOnto(v.items[1..], k);
      JsonStarts(e.value, e.after + more);
      SkipBlank(e.before, JsonOnto(e.value, e.after + more));
      ScanElementsSkips(t);
      ItemsExact(v.items, k);
    }
  }

  lemma ScanElementsSkips(t: Text)
    ensures ScanElements(SkipWhitespace(t)) == ScanElements(t)
  {
    SkipTwice(t);
  }

  predicate ItemsClean(items: seq<Element>) {
    forall i :: 0 <= i < |items| ==> NoRepeats(items[i].value)
  }

  lemma {:induction false} ItemsExact(items: seq<Element>, k: Text)
    requires items != [] && forall i :: 0 <= i < |items| ==> ElementOk(items[i])
    ensures ScanElements(ItemsOnto(items, k)) == Verdict(ItemsClean(items), k)
    decreases items
  {
    var e := items[0];
    assert ElementOk(e);
    if |items| == 1 {
      AfterIsDelimited(e.after, CLOSE_BRACKET, k);
      ValueExact(e.before, e.value, e.after + ([CLOSE_BRACKET] + k));
      assert ([CLOSE_BRACKET] + k)[1..] == k;
    } else {
      var rest := ItemsOnto(items[1..], k);
      AfterIsDelimited(e.after, COMMA, rest);
      ValueExact(e.before, e.value, e.after + ([COMMA] + rest));
      assert ([COMMA] + rest)[1..] == rest;
      ItemsExact(items[1..], k);
      ItemsCleanSplit(items);
    }
    assert ItemsOnto(items, k) != [];
  }

  lemma ItemsCleanSplit(items: seq<Element>)
    requires items != []
    ensures ItemsClean(items) <==> NoRepeats(items[0].value) && ItemsClean(items[1..])
  {
    if ItemsClean(items[1..]) && NoRepeats(items[0].value) {
      forall i | 0 <= i < |items| ensures NoRepeats(items[i].value) {
        if i > 0 { assert items[i] == items[1..][i - 1]; }
      }
    }
  }

  // ----- objects

  /** What the member loop finds out, member by member. */
  predicate MembersClean(ms: seq<Member>, seen: set<Text>)
    decreases |ms|
  {
    ms == []
    || (KeyOf(ms[0]) !in seen && NoRepeats(ms[0].element.value) && MembersClean(ms[1..], seen + {KeyOf(ms[0])}))
  }

  function KeyOf(m: Member): Text {
    Decoded(m.key)
  }

  /** The loop's findings are the absence of repeated keys. */
  lemma {:induction false} MembersCleanMeaning(ms: seq<Member>, seen: set<Text>)
    ensures MembersClean(ms, seen)
        <==> && (forall i :: 0 <= i < |ms| ==> KeyOf(ms[i]) !in seen)
             && (forall i, j :: 0 <= i < j < |ms| ==> KeyOf(ms[i]) != KeyOf(ms[j]))
             && (forall i :: 0 <= i < |ms| ==> NoRepeats(ms[i].element.value))
    decreases |ms|
  {
    if ms != [] {
      var m, rest := ms[0], ms[1..];
      MembersCleanMeaning(rest, seen + {KeyOf(m)});
      assert forall i :: 0 <= i < |rest| ==> rest[i] == ms[i + 1];
      if MembersClean(ms, seen) {
        forall i, j | 0 <= i < j < |ms| ensures KeyOf(ms[i]) != KeyOf(ms[j]) {
          assert ms[j] == rest[j - 1] && (i > 0 ==> ms[i] == rest[i - 1]);
        }
        forall i | 0 <= i < |ms|
          ensures KeyOf(ms[i]) !in seen
          ensures NoRepeats(ms[i].element.value)
        {
          if i > 0 { assert ms[i] == rest[i - 1]; }
        }
      }
    }
  }

  lemma ScanMembersSkips(t: Text, seen: set<Text>)
    ensures ScanMembers(SkipWhitespace(t), seen) == ScanMembers(t, seen)
  {
    SkipTwice(t);
  }

  lemma {:induction false} MemberExact(m: Member, c: nat, rest: Text, seen: set<Text>)
    requires MemberOk(m) && (c == COMMA || c == CLOSE_BRACE)
    ensures ScanMembers(MemberOnto(m, [c] + rest), seen)
         == if KeyOf(m) in seen || !NoRepeats(m.element.value) then Err(DuplicateKey)
            else if c == CLOSE_BRACE then Ok(rest)
            else ScanMembers(rest, seen + {KeyOf(m)})
    decreases m, 1
  {
    var k := m.after + ([COLON] + ElementOnto(m.element, [c] + rest));
    SkipBlank(m.before, QuotedOnto(m.key, k));
    ScanQuoted(m.key, k);
    AfterKeyExact(m, c, rest, seen + {KeyOf(m)});
    assert MemberOnto(m, [c] + rest) != [];
  }

  lemma {:induction false} AfterKeyExact(m: Member, c: nat, rest: Text, seen: set<Text>)
    requires MemberOk(m) && (c == COMMA || c == CLOSE_BRACE)
    ensures ScanAfterKey(m.after + ([COLON] + ElementOnto(m.element, [c] + rest)), seen)
         == if !NoRepeats(m.element.value) then Err(DuplicateKey)
            else if c == CLOSE_BRACE then Ok(rest)
            else ScanMembers(rest, seen)
    decreases m, 0
  {
    var e := m.element;
    assert ElementOk(e);
    SkipBlank(m.after, [COLON] + ElementOnto(e, [c] + rest));
    assert ([COLON] + ElementOnto(e, [c] + rest))[1..] == ElementOnto(e, [c] + rest);
    AfterIsDelimited(e.after, c, rest);
    ValueExact(e.before, e.value, e.after + ([c] + rest));
    assert ([c] + rest)[1..] == rest;
  }

  lemma {:induction false} MembersExact(ms: seq<Member>, seen: set<Text>, k: Text)
    requires ms != [] && forall i :: 0 <= i < |ms| ==> MemberOk(ms[i])
    ensures ScanMembers(MembersOnto(ms, k), seen) == Verdict(MembersClean(ms, seen), k)
    decreases ms
  {
    assert MemberOk(ms[0]);
    if |ms| == 1 {
      MemberExact(ms[0], CLOSE_BRACE, k, seen);
    } else {
      MemberExact(ms[0], COMMA, MembersOnto(ms[1..], k), seen);
      MembersExact(ms[1..], seen + {KeyOf(ms[0])}, k);
    }
  }

  lemma ObjectOpens(ms: seq<Member>, k: Text)
    requires ms != [] && MemberOk(ms[0])
    ensures ScanObject(MembersOnto(ms, k)) == ScanMembers(MembersOnto(ms, k), {})
  {
    var m := ms[0];
    var more := if |ms| == 1 then [CLOSE_BRACE] + k else [COMMA] + MembersOnto(ms[1..], k);
    SkipBlank(m.before, QuotedOnto(m.key, m.after + ([COLON] + ElementOnto(m.element, more))));
    ScanMembersSkips(MembersOnto(ms, k), {});
  }

  lemma {:induction false} ObjectExact(v: Json, k: Text)
    requires v.Object? && JsonOk(v)
    ensures v.members == [] ==> ScanObject(v.gap + ([CLOSE_BRACE] + k)) == Ok(k)
    ensures v.members != [] ==> ScanObject(MembersOnto(v.members, k)) == Verdict(NoRepeats(v), k)
    decreases v, 0
  {
    var ms := v.members;
    if ms == [] {
      SkipBlank(v.gap, [CLOSE_BRACE] + k);
      assert ([CLOSE_BRACE] + k)[1..] == k;
    } else {
      assert MemberOk(ms[0]);
      ObjectOpens(ms, k);
      MembersExact(ms, {}, k);
      MembersCleanMeaning(ms, {});
    }
  }

  // ----- the whole text

  /** The scanner is exact. */
  lemma ScannerExact(e: Element)
    requires ElementOk(e)
    ensures Scan(ElementOnto(e, [])) == if NoRepeats(e.value) then Ok(()) else Err(DuplicateKey)
  {
    var k := e.after + [];
    assert k == e.after;
    var t := ElementOnto(e, []);
    JsonStarts(e.value, k);
    SkipBlank(e.before, JsonOnto(e.value, k));
    ValueExact([], e.value, k);
    assert [] + JsonOnto(e.value, k) == JsonOnto(e.value, k);
    SkipBlank(e.after, []);
  }
}
