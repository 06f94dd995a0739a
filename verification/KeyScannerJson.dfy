/** The duplicate-key scanner on the texts of RFC 8259, said without the scanner's own tables: every JSON
    text, with the white space of section 2, the literal names of section 3, the numbers of section 6 and
    the strings of section 7, is read to its end and judged exactly. */
module KeyScannerJson {
  import opened Outcomes
  import opened KeyScanner
  import opened KeyScannerExact

  // ----- the scalars of JSON

  predicate IsDigit(c: nat) {
    48 <= c <= 57
  }

  predicate Digits(t: Text) {
    t != [] && forall i :: 0 <= i < |t| ==> IsDigit(t[i])
  }

  predicate Minus(t: Text) {
    t == [] || t == [45]
  }

  /** No leading zero. */
  predicate Whole(t: Text) {
    Digits(t) && (t[0] == 48 ==> |t| == 1)
  }

  predicate Fraction(t: Text) {
    t == [] || (t[0] == 46 && Digits(t[1..]))
  }

  predicate Exponent(t: Text) {
    t == []
    || ((t[0] == 69 || t[0] == 101)
        && (Digits(t[1..]) || (|t| > 1 && (t[1] == 43 || t[1] == 45) && Digits(t[2..]))))
  }

  datatype Number = Number(minus: Text, whole: Text, fraction: Text, exponent: Text)

  predicate NumberOk(n: Number) {
    Minus(n.minus) && Whole(n.whole) && Fraction(n.fraction) && Exponent(n.exponent)
  }

  function NumberText(n: Number): Text {
    n.minus + n.whole + n.fraction + n.exponent
  }

  const TRUE: Text := [116, 114, 117, 101]
  const FALSE: Text := [102, 97, 108, 115, 101]
  const NULL: Text := [110, 117, 108, 108]

  ghost predicate Literal(t: Text) {
    t == TRUE || t == FALSE || t == NULL || exists n :: NumberOk(n) && NumberText(n) == t
  }

  // ----- strings and white space (sections 2 and 7)

  predicate RfcBlank(t: Text) {
    forall i :: 0 <= i < |t| ==> t[i] == 0x20 || t[i] == 0x09 || t[i] == 0x0A || t[i] == 0x0D
  }

  function HexDigit(c: nat): Option<nat> {
    if IsDigit(c) then Some(c - 0x30)
    else if 0x41 <= c <= 0x46 then Some(c - 0x41 + 10)
    else if 0x61 <= c <= 0x66 then Some(c - 0x61 + 10)
    else None
  }

  /** The code unit that a letter behind a backslash stands for. */
  function Escaped(letter: nat): Option<nat> {
    if letter == '\"' as nat then Some(0x22)
    else if letter == '\\' as nat then Some(0x5C)
    else if letter == '/' as nat then Some(0x2F)
    else if letter == 'b' as nat then Some(0x08)
    else if letter == 'f' as nat then Some(0x0C)
    else if letter == 'n' as nat then Some(0x0A)
    else if letter == 'r' as nat then Some(0x0D)
    else if letter == 't' as nat then Some(0x09)
    else None
  }

  /** The code unit that a piece of a string spells, if it is one. */
  function Unit(p: Piece): Option<nat> {
    match p
    case Direct(c) => if 0x20 <= c <= 0x21 || 0x23 <= c <= 0x5B || 0x5D <= c then Some(c) else None
    case Short(letter) => Escaped(letter)
    case Hex(a, b, c, d) =>
      match (HexDigit(a), HexDigit(b), HexDigit(c), HexDigit(d))
      case (Some(w), Some(x), Some(y), Some(z)) => Some(((w * 16 + x) * 16 + y) * 16 + z)
      case _ => None
  }

  predicate RfcString(ps: seq<Piece>) {
    forall i :: 0 <= i < |ps| ==> Unit(ps[i]).Some?
  }

  function Units(ps: seq<Piece>): Text
    requires RfcString(ps)
  {
    seq(|ps|, i requires 0 <= i < |ps| => Unit(ps[i]).value)
  }

  // ----- values and texts

  ghost predicate RfcValue(v: Json)
    decreases v
  {
    match v
    case Scalar(t) => Literal(t)
    case String(ps) => RfcString(ps)
    case Array(gap, items) => RfcBlank(gap) && forall i :: 0 <= i < |items| ==> RfcElement(items[i])
    case Object(gap, ms) => RfcBlank(gap) && forall i :: 0 <= i < |ms| ==> RfcMember(ms[i])
  }

  ghost predicate RfcElement(e: Element)
    decreases e
  {
    RfcBlank(e.before) && RfcValue(e.value) && RfcBlank(e.after)
  }

  ghost predicate RfcMember(m: Member)
    decreases m
  {
    RfcBlank(m.before) && RfcString(m.key) && RfcBlank(m.after) && RfcElement(m.element)
  }

  /** In no object, at any depth, two keys spell the same code units. */
  ghost predicate KeysDiffer(v: Json)
    requires RfcValue(v)
    decreases v
  {
    match v
    case Array(_, items) => forall i :: 0 <= i < |items| ==> RfcElement(items[i]) && KeysDiffer(items[i].value)
    case Object(_, ms) =>
      && (forall i :: 0 <= i < |ms| ==> RfcMember(ms[i]))
      && (forall i, j :: 0 <= i < j < |ms| ==> Units(ms[i].key) != Units(ms[j].key))
      && (forall i :: 0 <= i < |ms| ==> RfcElement(ms[i].element) && KeysDiffer(ms[i].element.value))
    case _ => true
  }

  // ----- they are values of the scanner's language

  /** A letter, a digit, a sign or a point. */
  predicate Plain(c: nat) {
    IsDigit(c) || c == 43 || c == 45 || c == 46 || c == 69 || 97 <= c <= 122
  }

  predicate AllPlain(t: Text) {
    forall i :: 0 <= i < |t| ==> Plain(t[i])
  }

  lemma PlainIsScalar(t: Text)
    requires t != [] && AllPlain(t)
    ensures ScalarText(t)
  {
    assert Plain(t[0]);
    forall i | 0 <= i < |t| ensures !EndsScalar(t[i]) {
      assert Plain(t[i]);
    }
  }

  lemma FractionPlain(t: Text)
    requires Fraction(t)
    ensures AllPlain(t)
  {
    forall i | 0 <= i < |t| ensures Plain(t[i]) {
      if i > 0 { assert IsDigit(t[1..][i - 1]); }
    }
  }

  lemma ExponentPlain(t: Text)
    requires Exponent(t)
    ensures AllPlain(t)
  {
    forall i | 0 <= i < |t| ensures Plain(t[i]) {
      if i > 0 && Digits(t[1..]) {
        assert IsDigit(t[1..][i - 1]);
      } else if i > 1 {
        assert IsDigit(t[2..][i - 2]);
      }
    }
  }

  lemma NumberPlain(n: Number)
    requires NumberOk(n)
    ensures NumberText(n) != [] && AllPlain(NumberText(n))
  {
    FractionPlain(n.fraction);
    ExponentPlain(n.exponent);
    assert AllPlain(n.minus) && AllPlain(n.whole);
  }

  lemma LiteralIsScalar(t: Text)
    requires Literal(t)
    ensures ScalarText(t)
  {
    if n :| NumberOk(n) && NumberText(n) == t { NumberPlain(n); }
    PlainIsScalar(t);
  }

  lemma PieceIsOk(p: Piece)
    ensures Unit(p).Some? <==> PieceOk(p)
    ensures Unit(p).Some? ==> Unit(p).value == PieceValue(p)
  {
  }

  lemma {:induction false} UnitsAreDecoded(ps: seq<Piece>)
    requires RfcString(ps)
    ensures PiecesOk(ps) && Decoded(ps) == Units(ps)
    decreases |ps|
  {
    forall i | 0 <= i < |ps| ensures PieceOk(ps[i]) { PieceIsOk(ps[i]); }
    if ps != [] {
      UnitsAreDecoded(ps[1..]);
      PieceIsOk(ps[0]);
      assert Units(ps) == [Unit(ps[0]).value] + Units(ps[1..]);
    }
  }

  lemma {:induction false} RfcIsOk(v: Json)
    requires RfcValue(v)
    ensures JsonOk(v) && (NoRepeats(v) <==> KeysDiffer(v))
    decreases v
  {
    match v
    case Scalar(t) => LiteralIsScalar(t);
    case String(ps) => UnitsAreDecoded(ps);
    case Array(_, items) =>
      forall i | 0 <= i < |items|
        ensures ElementOk(items[i]) && RfcElement(items[i])
        ensures NoRepeats(items[i].value) <==> KeysDiffer(items[i].value)
      {
        assert RfcElement(items[i]);
        RfcIsOk(items[i].value);
      }
    case Object(_, ms) =>
      forall i | 0 <= i < |ms|
        ensures MemberOk(ms[i]) && RfcMember(ms[i]) && Decoded(ms[i].key) == Units(ms[i].key)
        ensures RfcElement(ms[i].element) && (NoRepeats(ms[i].element.value) <==> KeysDiffer(ms[i].element.value))
      {
        assert RfcMember(ms[i]) && RfcElement(ms[i].element);
        UnitsAreDecoded(ms[i].key);
        RfcIsOk(ms[i].element.value);
      }
  }

  /** On every JSON text the scanner reports a duplicate key if and only if in some object, at any depth, two
      keys spell the same code units, and otherwise accepts it; it has no other verdict. */
  lemma JsonTextsExact(e: Element)
    requires RfcElement(e)
    ensures Scan(ElementOnto(e, [])) == if KeysDiffer(e.value) then Ok(()) else Err(DuplicateKey)
  {
    RfcIsOk(e.value);
    ScannerExact(e);
  }
}
