/** The texts that the duplicate-key scanner accepts: every accepted text is the text of a value, so
    that together with the exactness on such texts its language is known completely. */
module KeyScannerLanguage {
  import opened Outcomes
  import opened KeyScanner
  import opened KeyScannerExact

  lemma {:induction false} LeadingBlank(t: Text) returns (w: Text)
    ensures Blank(w) && t == w + SkipWhitespace(t)
    decreases |t|
  {
    if t != [] && IsWhitespace(t[0]) {
      var rest := LeadingBlank(t[1..]);
      w := [t[0]] + rest;
    } else {
      w := [];
    }
  }

  // ----- strings

  /** The first piece of a literal's body, and what is left of it. */
  lemma FirstPiece(t: Text) returns (p: Piece, rest: Text)
    requires ParseBody(t).Some? && t[0] != QUOTE
    ensures PieceOk(p) && t == PieceText(p) + rest && |rest| < |t| && ParseBody(rest).Some?
  {
    if t[0] != BACKSLASH {
      p, rest := Direct(t[0]), t[1..];
    } else if t[1] == LETTER_U {
      p, rest := Hex(t[2], t[3], t[4], t[5]), t[6..];
    } else {
      p, rest := Short(t[1]), t[2..];
    }
  }

  lemma {:induction false} PiecesOf(t: Text) returns (ps: seq<Piece>)
    requires ParseBody(t).Some?
    ensures PiecesOk(ps) && t == PiecesText(ps) + [QUOTE]
    decreases |t|
  {
    if t[0] == QUOTE {
      ps := [];
    } else {
      var p, rest := FirstPiece(t);
      var more := PiecesOf(rest);
      ps := [p] + more;
      assert ps[1..] == more;
    }
  }

  lemma Requoted(t: Text, n: nat, body: Text)
    requires Starts(t, QUOTE) && n + 1 <= |t| && t[1..n + 1] == body + [QUOTE]
    ensures t == [QUOTE] + (body + ([QUOTE] + t[n + 1..]))
  {
    assert t == [QUOTE] + (t[1..n + 1] + t[n + 1..]);
  }

  lemma QuotedOf(t: Text) returns (ps: seq<Piece>)
    requires Starts(t, QUOTE) && ScanString(t).Ok?
    ensures PiecesOk(ps) && t == QuotedOnto(ps, ScanString(t).value.rest)
  {
    var n := LiteralLength(t[1..]).value;
    ps := PiecesOf(t[1..n + 1]);
    Requoted(t, n, PiecesText(ps));
  }

  // ----- values

  lemma {:induction false} ScalarOf(t: Text)
    ensures forall i :: 0 <= i < ScalarLength(t) ==> !EndsScalar(t[i])
    decreases |t|
  {
    if t != [] && !EndsScalar(t[0]) { ScalarOf(t[1..]); }
  }

  lemma StartsWith(t: Text, c: nat)
    requires Starts(t, c)
    ensures t == [c] + t[1..]
  {
  }

  lemma {:induction false} ValueOf(t: Text) returns (w: Text, v: Json)
    requires ScanValue(t).Ok?
    ensures Blank(w) && JsonOk(v) && t == w + JsonOnto(v, ScanValue(t).value)
    decreases |t|, 0
  {
    w := LeadingBlank(t);
    var s := SkipWhitespace(t);
    if Starts(s, OPEN_BRACE) {
      v := ObjectOf(s[1..]);
      StartsWith(s, OPEN_BRACE);
    } else if Starts(s, OPEN_BRACKET) {
      v := ArrayOf(s[1..]);
      StartsWith(s, OPEN_BRACKET);
    } else if Starts(s, QUOTE) {
      var ps := QuotedOf(s);
      v := String(ps);
    } else {
      var n := ScalarLength(s);
      ScalarOf(s);
      v := Scalar(s[..n]);
      assert s == s[..n] + s[n..];
    }
  }

  lemma {:induction false} ArrayOf(t: Text) returns (v: Json)
    requires ScanArray(t).Ok?
    ensures JsonOk(v) && [OPEN_BRACKET] + t == JsonOnto(v, ScanArray(t).value)
    decreases |t|, 2
  {
    var w := LeadingBlank(t);
    var s := SkipWhitespace(t);
    if Starts(s, CLOSE_BRACKET) {
      StartsWith(s, CLOSE_BRACKET);
      v := Array(w, []);
    } else {
      ScanElementsSkips(t);
      var items := ItemsOf(t);
      v := Array([], items);
    }
  }

  lemma {:induction false} ItemsOf(t: Text) returns (items: seq<Element>)
    requires ScanElements(t).Ok?
    ensures items != [] && forall i :: 0 <= i < |items| ==> ElementOk(items[i])
    ensures t == ItemsOnto(items, ScanElements(t).value)
    decreases |t|, 1
  {
    var before, v := ValueOf(t);
    var rest := ScanValue(t).value;
    var after := LeadingBlank(rest);
    var s := SkipWhitespace(rest);
    var e := Element(before, v, after);
    if Starts(s, CLOSE_BRACKET) {
      StartsWith(s, CLOSE_BRACKET);
      items := [e];
    } else {
      StartsWith(s, COMMA);
      var more := ItemsOf(s[1..]);
      items := [e] + more;
      assert items[1..] == more;
    }
  }

  lemma {:induction false} ObjectOf(t: Text) returns (v: Json)
    requires ScanObject(t).Ok?
    ensures JsonOk(v) && [OPEN_BRACE] + t == JsonOnto(v, ScanObject(t).value)
    decreases |t|, 2
  {
    var w := LeadingBlank(t);
    var s := SkipWhitespace(t);
    if Starts(s, CLOSE_BRACE) {
      StartsWith(s, CLOSE_BRACE);
      v := Object(w, []);
    } else {
      ScanMembersSkips(t, {});
      var members := MembersOf(t, {});
      v := Object([], members);
    }
  }

  /** The part of a member from its colon on: the spaces around its value, and what follows. */
  lemma {:induction false} AfterKeyOf(t: Text, seen: set<Text>) returns (w: Text, e: Element, u: Text)
    requires ScanAfterKey(t, seen).Ok?
    ensures Blank(w) && ElementOk(e) && t == w + ([COLON] + ElementOnto(e, u)) && |u| < |t|
    ensures Starts(u, CLOSE_BRACE) ==> ScanAfterKey(t, seen) == Ok(u[1..])
    ensures !Starts(u, CLOSE_BRACE) ==> Starts(u, COMMA) && ScanAfterKey(t, seen) == ScanMembers(u[1..], seen)
    decreases |t|, 1
  {
    w := LeadingBlank(t);
    var s := SkipWhitespace(t);
    StartsWith(s, COLON);
    var before, v := ValueOf(s[1..]);
    var rest := ScanValue(s[1..]).value;
    var after := LeadingBlank(rest);
    u := SkipWhitespace(rest);
    e := Element(before, v, after);
  }

  lemma {:induction false} MembersOf(t: Text, seen: set<Text>) returns (ms: seq<Member>)
    requires ScanMembers(t, seen).Ok?
    ensures ms != [] && forall i :: 0 <= i < |ms| ==> MemberOk(ms[i])
    ensures t == MembersOnto(ms, ScanMembers(t, seen).value)
    decreases |t|, 1
  {
    var before := LeadingBlank(t);
    var s := SkipWhitespace(t);
    var key := QuotedOf(s);
    var k := ScanString(s).value;
    var now := seen + {k.key};
    var w, e, u := AfterKeyOf(k.rest, now);
    var m := Member(before, key, w, e);
    if Starts(u, CLOSE_BRACE) {
      StartsWith(u, CLOSE_BRACE);
      ms := [m];
    } else {
      StartsWith(u, COMMA);
      var more := MembersOf(u[1..], now);
      ms := [m] + more;
      assert ms[1..] == more;
    }
  }

  // ----- the whole text

  lemma AcceptedIsText(t: Text) returns (e: Element)
    requires Scan(t).Ok?
    ensures ElementOk(e) && t == ElementOnto(e, [])
  {
    var first := LeadingBlank(t);
    var w, v := ValueOf(SkipWhitespace(t));
    var rest := ScanValue(SkipWhitespace(t)).value;
    var after := LeadingBlank(rest);
    e := Element(first + w, v, after);
    assert after + [] == rest;
  }

  /** The scanner accepts a text if and only if it is the text of a value, in some white space and
      spelling, none of whose objects repeats a decoded key. */
  lemma AcceptsExactly(t: Text)
    ensures Scan(t) == Ok(()) <==> exists e :: ElementOk(e) && NoRepeats(e.value) && t == ElementOnto(e, [])
  {
    if Scan(t).Ok? {
      var e := AcceptedIsText(t);
      ScannerExact(e);
    }
    if e :| ElementOk(e) && NoRepeats(e.value) && t == ElementOnto(e, []) {
      ScannerExact(e);
    }
  }
}
