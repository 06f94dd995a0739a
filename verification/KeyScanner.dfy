/** The duplicate-key scanner of exact JSON texts (`scanObjectKeys`).

    Texts are sequences of UTF-16 code units. First the scanner as functions on the text that
    is left, then the scanner as the source writes it, with one shared index. */
module KeyScanner {
  import opened Outcomes

  type Text = seq<nat>

  const QUOTE := 34
  const COMMA := 44
  const COLON := 58
  const OPEN_BRACKET := 91
  const BACKSLASH := 92
  const CLOSE_BRACKET := 93
  const LETTER_U := 117
  const OPEN_BRACE := 123
  const CLOSE_BRACE := 125

  datatype Error = InvalidJson | DuplicateKey

  // ----- characters

  predicate IsWhitespace(c: nat) {
    c == 9 || c == 10 || c == 13 || c == 32
  }

  /** The white space of regular expressions, a superset of JSON's. */
  predicate IsRegexSpace(c: nat) {
    9 <= c <= 13 || c in [32, 160, 0x1680, 0x2028, 0x2029, 0x202F, 0x205F, 0x3000, 0xFEFF] || 0x2000 <= c <= 0x200A
  }

  predicate EndsScalar(c: nat) {
    IsRegexSpace(c) || c == COMMA || c == CLOSE_BRACKET || c == CLOSE_BRACE
  }

  function SkipWhitespace(t: Text): (r: Text)
    ensures |r| <= |t|
  {
    if t != [] && IsWhitespace(t[0]) then SkipWhitespace(t[1..]) else t
  }

  function ScalarLength(t: Text): (n: nat)
    ensures n <= |t|
  {
    if t == [] || EndsScalar(t[0]) then 0 else 1 + ScalarLength(t[1..])
  }

  predicate Starts(t: Text, c: nat) {
    t != [] && t[0] == c
  }

  // ----- string literals (section 7 of RFC 8259)

  function HexValue(c: nat): Option<nat> {
    if 48 <= c <= 57 then Some(c - 48)
    else if 97 <= c <= 102 then Some(c - 87)
    else if 65 <= c <= 70 then Some(c - 55)
    else None
  }

  function ShortEscape(c: nat): Option<nat> {
    if c in [34, 47, 92] then Some(c)
    else if c == 98 then Some(8)
    else if c == 102 then Some(12)
    else if c == 110 then Some(10)
    else if c == 114 then Some(13)
    else if c == 116 then Some(9)
    else None
  }

  /** What a JSON parser makes of the rest of a string literal, which must end with its quote. */
  function ParseBody(t: Text): Option<Text>
    decreases |t|
  {
    if t == [] || t[0] < 32 then None
    else if t[0] == QUOTE then if |t| == 1 then Some([]) else None
    else if t[0] != BACKSLASH then Prepend(t[0], ParseBody(t[1..]))
    else if |t| < 2 then None
    else if t[1] == LETTER_U then
      if |t| < 6 then None
      else match (HexValue(t[2]), HexValue(t[3]), HexValue(t[4]), HexValue(t[5]))
           case (Some(a), Some(b), Some(c), Some(d)) => Prepend(4096 * a + 256 * b + 16 * c + d, ParseBody(t[6..]))
           case _ => None
    else match ShortEscape(t[1])
         case Some(c) => Prepend(c, ParseBody(t[2..]))
         case None => None
  }

  function Prepend(c: nat, t: Option<Text>): Option<Text> {
    match t
    case Some(s) => Some([c] + s)
    case None => None
  }

  // ----- the scanner on the text that is left

  /** The length of the rest of a literal, up to the first quote that is not escaped. */
  function LiteralLength(t: Text): (r: Option<nat>)
    ensures r.Some? ==> 0 < r.value <= |t|
    decreases |t|
  {
    if t == [] then None
    else if t[0] == QUOTE then Some(1)
    else
      var skip := if t[0] == BACKSLASH then 2 else 1;
      if |t| < skip then None
      else match LiteralLength(t[skip..])
           case Some(n) => Some(n + skip)
           case None => None
  }

  /** The literal ends where a scan that has passed `k` code units will find its end. */
  predicate EndsAfter(t: Text, k: nat) {
    if k > |t| then LiteralLength(t).None?
    else LiteralLength(t) == match LiteralLength(t[k..]) case Some(n) => Some(n + k) case None => None
  }

  lemma LiteralSlices(text: Text, start: nat, n: nat)
    requires start + 1 + n <= |text|
    ensures text[start..][1..n + 1] == text[start + 1..start + 1 + n]
    ensures text[start..][n + 1..] == text[start + 1 + n..]
  {
  }

  lemma EndsAfterStep(t: Text, k: nat)
    requires EndsAfter(t, k) && k < |t| && t[k] != QUOTE
    ensures EndsAfter(t, k + if t[k] == BACKSLASH then 2 else 1)
  {
    var skip := if t[k] == BACKSLASH then 2 else 1;
    if k + skip <= |t| {
      assert t[k..][skip..] == t[k + skip..];
    }
  }

  datatype Key = Key(key: Text, rest: Text)

  function ScanString(t: Text): (r: Result<Key, Error>)
    requires Starts(t, QUOTE)
    ensures r.Ok? ==> |r.value.rest| < |t|
  {
    match LiteralLength(t[1..])
    case None => Err(InvalidJson)
    case Some(n) =>
      match ParseBody(t[1..n + 1])
      case None => Err(InvalidJson)
      case Some(key) => Ok(Key(key, t[n + 1..]))
  }

  function ScanValue(t: Text): (r: Result<Text, Error>)
    ensures r.Ok? ==> |r.value| < |t|
    decreases |t|, 0
  {
    var s := SkipWhitespace(t);
    if Starts(s, OPEN_BRACE) then ScanObject(s[1..])
    else if Starts(s, OPEN_BRACKET) then ScanArray(s[1..])
    else if Starts(s, QUOTE) then
      match ScanString(s)
      case Err(e) => Err(e)
      case Ok(k) => Ok(k.rest)
    else
      var n := ScalarLength(s);
      if n == 0 then Err(InvalidJson) else Ok(s[n..])
  }

  function ScanArray(t: Text): (r: Result<Text, Error>)
    ensures r.Ok? ==> |r.value| < |t|
    decreases |t|, 2
  {
    var s := SkipWhitespace(t);
    if Starts(s, CLOSE_BRACKET) then Ok(s[1..]) else ScanElements(s)
  }

  function ScanElements(t: Text): (r: Result<Text, Error>)
    ensures r.Ok? ==> |r.value| < |t|
    decreases |t|, 1
  {
    if t == [] then Err(InvalidJson)
    else
      match ScanValue(t)
      case Err(e) => Err(e)
      case Ok(rest) =>
        var s := SkipWhitespace(rest);
        if Starts(s, CLOSE_BRACKET) then Ok(s[1..])
        else if !Starts(s, COMMA) then Err(InvalidJson)
        else ScanElements(s[1..])
  }

  function ScanObject(t: Text): (r: Result<Text, Error>)
    ensures r.Ok? ==> |r.value| < |t|
    decreases |t|, 2
  {
    var s := SkipWhitespace(t);
    if Starts(s, CLOSE_BRACE) then Ok(s[1..]) else ScanMembers(s, {})
  }

  function ScanMembers(t: Text, seen: set<Text>): (r: Result<Text, Error>)
    ensures r.Ok? ==> |r.value| < |t|
    decreases |t|, 1
  {
    var s := SkipWhitespace(t);
    if t == [] || !Starts(s, QUOTE) then Err(InvalidJson)
    else
      match ScanString(s)
      case Err(e) => Err(e)
      case Ok(k) =>
        if k.key in seen then Err(DuplicateKey)
        else ScanAfterKey(k.rest, seen + {k.key})
  }

  function ScanAfterKey(t: Text, seen: set<Text>): (r: Result<Text, Error>)
    ensures r.Ok? ==> |r.value| < |t|
    decreases |t|, 1
  {
    var s := SkipWhitespace(t);
    if !Starts(s, COLON) then Err(InvalidJson)
    else
      match ScanValue(s[1..])
      case Err(e) => Err(e)
      case Ok(rest) =>
        var u := SkipWhitespace(rest);
        if Starts(u, CLOSE_BRACE) then Ok(u[1..])
        else if !Starts(u, COMMA) then Err(InvalidJson)
        else ScanMembers(u[1..], seen)
  }

  function Scan(t: Text): Result<(), Error> {
    match ScanValue(SkipWhitespace(t))
    case Err(e) => Err(e)
    case Ok(rest) => if SkipWhitespace(rest) == [] then Ok(()) else Err(InvalidJson)
  }

  // ----- the scanner with its index

  class Scanner {
    const text: Text
    var index: nat

    constructor (text: Text)
      ensures this.text == text && index == 0
    {
      this.text := text;
      index := 0;
    }

    function Left(): Text
      requires index <= |text|
      reads this
    {
      text[index..]
    }

    method Whitespace()
      requires index <= |text|
      modifies this
      ensures old(index) <= index <= |text|
      ensures Left() == SkipWhitespace(old(Left()))
    {
      while index < |text| && IsWhitespace(text[index])
        invariant old(index) <= index <= |text|
        invariant SkipWhitespace(Left()) == SkipWhitespace(old(Left()))
      {
        assert Left()[1..] == text[index + 1..];
        index := index + 1;
      }
    }

    predicate At(c: nat)
      requires index <= |text|
      reads this
      ensures At(c) <==> Starts(Left(), c)
    {
      index < |text| && text[index] == c
    }

    method Advance()
      requires index < |text|
      modifies this
      ensures index == old(index) + 1 && Left() == old(Left())[1..]
    {
      assert Left()[1..] == text[index + 1..];
      index := index + 1;
    }

    /** Advances over a literal and its closing quote. */
    method SkipLiteral() returns (closed: bool)
      requires index < |text|
      modifies this
      ensures match LiteralLength(text[old(index) + 1..])
              case None => !closed
              case Some(n) => closed && index == old(index) + 1 + n
    {
      ghost var start, body := index, text[index + 1..];
      index := index + 1;
      while index < |text|
        invariant start < index && EndsAfter(body, index - start - 1)
      {
        if text[index] == QUOTE {
          assert body[index - start - 1..][0] == QUOTE;
          index := index + 1;
          return true;
        }
        EndsAfterStep(body, index - start - 1);
        if text[index] == BACKSLASH { index := index + 1; }
        index := index + 1;
      }
      return false;
    }

    method ParseString() returns (r: Result<Text, Error>)
      requires index < |text| && text[index] == QUOTE
      modifies this
      ensures match ScanString(old(Left()))
              case Err(e) => r == Err(e)
              case Ok(k) => r == Ok(k.key) && old(index) < index <= |text| && Left() == k.rest
    {
      var start := index;
      assert Left()[1..] == text[start + 1..];
      var closed := SkipLiteral();
      if !closed { return Err(InvalidJson); }
      LiteralSlices(text, start, index - start - 1);
      match ParseBody(text[start + 1..index])
      case Some(key) => return Ok(key);
      case None => return Err(InvalidJson);
    }

    method ParseScalar() returns (r: Result<(), Error>)
      requires index <= |text|
      modifies this
      ensures old(index) <= index <= |text| && Left() == old(Left())[ScalarLength(old(Left()))..]
      ensures r == if ScalarLength(old(Left())) == 0 then Err(InvalidJson) else Ok(())
      ensures r.Ok? ==> old(index) < index
    {
      var start := index;
      ghost var s := Left();
      while index < |text| && !EndsScalar(text[index])
        invariant start <= index <= |text|
        invariant ScalarLength(s) == index - start + ScalarLength(Left())
      {
        Advance();
      }
      assert s[index - start..] == Left();
      r := if start == index then Err(InvalidJson) else Ok(());
    }

    /** The outcome is the one that the scan of the remaining text foresees. */
    predicate Agrees(foreseen: Result<Text, Error>, r: Result<(), Error>)
      reads this
    {
      match foreseen
      case Err(e) => r == Err(e)
      case Ok(rest) => r == Ok(()) && index <= |text| && text[index..] == rest
    }

    method ParseValue() returns (r: Result<(), Error>)
      requires index <= |text|
      modifies this
      ensures Agrees(ScanValue(old(Left())), r)
      ensures r.Ok? ==> old(index) < index
      decreases |text| - index, 1
    {
      Whitespace();
      if At(OPEN_BRACE) {
        r := ParseObject();
      } else if At(OPEN_BRACKET) {
        r := ParseArray();
      } else if At(QUOTE) {
        var s := ParseString();
        r := match s case Ok(_) => Ok(()) case Err(e) => Err(e);
      } else {
        r := ParseScalar();
      }
    }

    method ParseArray() returns (r: Result<(), Error>)
      requires index < |text| && text[index] == OPEN_BRACKET
      modifies this
      ensures Agrees(ScanArray(old(Left())[1..]), r)
      ensures r.Ok? ==> old(index) < index
      decreases |text| - index, 0
    {
      Advance();
      ghost var answer := ScanArray(Left());
      Whitespace();
      if At(CLOSE_BRACKET) {
        Advance();
        return Ok(());
      }
      while index < |text|
        invariant old(index) < index <= |text|
        invariant answer == ScanElements(Left())
      {
        var v := ParseValue();
        if v.Err? { return v; }
        Whitespace();
        if At(CLOSE_BRACKET) {
          Advance();
          return Ok(());
        }
        if !At(COMMA) { return Err(InvalidJson); }
        Advance();
      }
      return Err(InvalidJson);
    }

    method ParseObject() returns (r: Result<(), Error>)
      requires index < |text| && text[index] == OPEN_BRACE
      modifies this
      ensures Agrees(ScanObject(old(Left())[1..]), r)
      ensures r.Ok? ==> old(index) < index
      decreases |text| - index, 0
    {
      Advance();
      ghost var answer := ScanObject(Left());
      var seen: set<Text> := {};
      Whitespace();
      if At(CLOSE_BRACE) {
        Advance();
        return Ok(());
      }
      while index < |text|
        invariant old(index) < index <= |text|
        invariant answer == ScanMembers(Left(), seen)
      {
        Whitespace();
        if !At(QUOTE) { return Err(InvalidJson); }
        var key := ParseString();
        if key.Err? { return Err(key.error); }
        if key.value in seen { return Err(DuplicateKey); }
        seen := seen + {key.value};
        assert answer == ScanAfterKey(Left(), seen);
        Whitespace();
        if !At(COLON) { return Err(InvalidJson); }
        Advance();
        var v := ParseValue();
        if v.Err? { return v; }
        Whitespace();
        if At(CLOSE_BRACE) {
          Advance();
          return Ok(());
        }
        if !At(COMMA) { return Err(InvalidJson); }
        Advance();
      }
      return Err(InvalidJson);
    }

    method ScanObjectKeys() returns (r: Result<(), Error>)
      requires index == 0
      modifies this
      ensures r == Scan(text)
    {
      assert text[0..] == text;
      Whitespace();
      r := ParseValue();
      if r.Err? { return; }
      Whitespace();
      assert Left() == [] <==> index == |text|;
      if index != |text| { return Err(InvalidJson); }
    }
  }
}
