/** A reader for JSON objects whose members are all strings: what a VMess client does with the
    payload of a share link. It is the partner of the writers in `Json`: whatever either writer
    produces for such an object, in either layout, this reader gives back member for member. */
module JsonRead {
  import opened Wrappers
  import opened Strings
  import opened Numbers
  import opened Hex
  import opened Json
  import Utf8

  /** The insignificant whitespace of JSON (section 2 of RFC 8259). */
  predicate IsJsonSpace(c: char) {
    c == ' ' || c == '\t' || c == '\n' || c == '\r'
  }

  predicate HexAt(s: string, i: nat)
    requires i + 4 <= |s|
  {
    forall j :: i <= j < i + 4 ==> IsHexDigitChar(s[j])
  }

  /** One escape sequence at the start of `s`: the character it denotes and its length. */
  function UnescapeAt(s: string): (r: Option<(char, nat)>)
    requires s != [] && s[0] == '\\'
    ensures r.Some? ==> 2 <= r.value.1 <= |s|
  {
    if |s| < 2 then None
    else
      var e := s[1];
      if e == '"' || e == '\\' || e == '/' then Some((e, 2))
      else if e == 'b' then Some((8 as char, 2))
      else if e == 'f' then Some((12 as char, 2))
      else if e == 'n' then Some((10 as char, 2))
      else if e == 'r' then Some((13 as char, 2))
      else if e == 't' then Some((9 as char, 2))
      else if e == 'u' && |s| >= 6 && HexAt(s, 2) then
        match Utf8.ScalarOf(HexValue(s[2..6]))
        case Some(c) => Some((c, 6))
        case None => None
      else None
  }

  /** The body of a string literal up to its closing quote, and the text after the quote. */
  function ParseChars(s: string): (r: Option<(string, string)>)
    ensures r.Some? ==> |r.value.1| < |s|
    decreases |s|
  {
    if s == [] then None
    else if s[0] == '"' then Some(([], s[1..]))
    else
      var step := if s[0] == '\\' then UnescapeAt(s) else if s[0] as int < 0x20 then None else Some((s[0], 1));
      match step
      case None => None
      case Some((c, k)) =>
        match ParseChars(s[k..])
        case None => None
        case Some((body, rest)) => Some(([c] + body, rest))
  }

  /** The tokens of section 2 of RFC 8259 that an object of strings is made of. */
  datatype Token = BeginObject | EndObject | NameSeparator | ValueSeparator | StringToken(s: string)

  function Cons(t: Token, ts: Option<seq<Token>>): Option<seq<Token>> {
    match ts
    case None => None
    case Some(rest) => Some([t] + rest)
  }

  /** The structural character `c` stands for, if it is one. */
  function Structural(c: char): Option<Token> {
    if c == '{' then Some(BeginObject)
    else if c == '}' then Some(EndObject)
    else if c == ':' then Some(NameSeparator)
    else if c == ',' then Some(ValueSeparator)
    else None
  }

  /** Splits text into tokens, skipping whitespace between them; `None` on any other
      character or a malformed string. */
  function Tokenize(s: string): Option<seq<Token>>
    decreases |s|
  {
    if s == [] then Some([])
    else if IsJsonSpace(s[0]) then Tokenize(s[1..])
    else if Structural(s[0]).Some? then Cons(Structural(s[0]).value, Tokenize(s[1..]))
    else if s[0] == '"' then
      match ParseChars(s[1..])
      case None => None
      case Some((str, rest)) => Cons(StringToken(str), Tokenize(rest))
    else None
  }

  /** `"name" : "value"` members separated by value separators, then the end of the object,
      and nothing after it. */
  function ParseMembers(ts: seq<Token>): Option<seq<(string, string)>>
    decreases |ts|
  {
    if |ts| >= 4 && ts[0].StringToken? && ts[1] == NameSeparator && ts[2].StringToken? then
      var m := (ts[0].s, ts[2].s);
      if ts[3] == EndObject then (if |ts| == 4 then Some([m]) else None)
      else if ts[3] == ValueSeparator then
        match ParseMembers(ts[4..])
        case None => None
        case Some(more) => Some([m] + more)
      else None
    else None
  }

  /** The members of a text that is one object of string members, surrounded by whitespace. */
  function ParseFlatObject(text: string): Option<seq<(string, string)>> {
    match Tokenize(text)
    case None => None
    case Some(ts) =>
      if ts == [BeginObject, EndObject] then Some([])
      else if ts != [] && ts[0] == BeginObject then ParseMembers(ts[1..])
      else None
  }

  // ---------------------------------------------------------------- round trip

  lemma HexValueSnoc(h: string, c: char)
    requires forall j :: 0 <= j < |h| ==> IsHexDigitChar(h[j])
    requires IsHexDigitChar(c)
    ensures forall j :: 0 <= j < |h + [c]| ==> IsHexDigitChar((h + [c])[j])
    ensures HexValue(h + [c]) == HexValue(h) * 16 + HexDigitValue(c)
  {
    assert (h + [c])[..|h|] == h;
  }

  lemma HexValueOfDigits(a: nat, b: nat, c: nat, d: nat)
    requires a < 16 && b < 16 && c < 16 && d < 16
    ensures var h := [HexDigit(a), HexDigit(b), HexDigit(c), HexDigit(d)];
            (forall j :: 0 <= j < 4 ==> IsHexDigitChar(h[j])) && HexValue(h) == ((a * 16 + b) * 16 + c) * 16 + d
  {
    HexDigitValueOf(a);
    HexDigitValueOf(b);
    HexDigitValueOf(c);
    HexDigitValueOf(d);
    var h0: string := [];
    HexValueSnoc(h0, HexDigit(a));
    var h1 := h0 + [HexDigit(a)];
    HexValueSnoc(h1, HexDigit(b));
    var h2 := h1 + [HexDigit(b)];
    HexValueSnoc(h2, HexDigit(c));
    var h3 := h2 + [HexDigit(c)];
    HexValueSnoc(h3, HexDigit(d));
    assert h3 + [HexDigit(d)] == [HexDigit(a), HexDigit(b), HexDigit(c), HexDigit(d)];
  }

  lemma NibbleSplit(n: nat)
    ensures ((n / 4096 * 16 + (n / 256) % 16) * 16 + (n / 16) % 16) * 16 + n % 16 == n
  {
    var q1, q2, q3 := n / 16, n / 256, n / 4096;
    assert q2 == q1 / 16;
    assert q3 == q2 / 16;
    assert n == q1 * 16 + n % 16;
    assert q1 == q2 * 16 + q1 % 16;
    assert q2 == q3 * 16 + q2 % 16;
  }

  lemma HexValueFour(n: nat)
    requires n < 0x1_0000
    ensures var h := UnicodeEscape(n)[2..6];
            (forall j :: 0 <= j < 4 ==> IsHexDigitChar(h[j])) && HexValue(h) == n
  {
    var a, b, c, d := n / 4096, (n / 256) % 16, (n / 16) % 16, n % 16;
    HexValueOfDigits(a, b, c, d);
    NibbleSplit(n);
    assert UnicodeEscape(n)[2..6] == [HexDigit(a), HexDigit(b), HexDigit(c), HexDigit(d)];
  }

  /** A `\u` escape written by either writer is read back as its character. */
  lemma UnicodeEscapeRead(c: char, rest: string)
    requires c as int < 0x1_0000
    ensures UnescapeAt(UnicodeEscape(c as int) + rest) == Some((c, 6))
  {
    var n := c as int;
    var s := UnicodeEscape(n) + rest;
    HexValueFour(n);
    var h := UnicodeEscape(n)[2..6];
    assert s[..6] == UnicodeEscape(n);
    assert s[2..6] == h;
    assert forall j :: 2 <= j < 6 ==> s[j] == h[j - 2];
    ReadHexEscape(s, c);
  }

  lemma ReadHexEscape(s: string, c: char)
    requires |s| >= 6 && s[0] == '\\' && s[1] == 'u'
    requires forall j :: 2 <= j < 6 ==> IsHexDigitChar(s[j])
    requires HexValue(s[2..6]) == c as int
    ensures UnescapeAt(s) == Some((c, 6))
  {
    assert HexAt(s, 2);
  }

  /** One character's escape is read back as that character, whatever follows. */
  lemma EscapeCharRead(c: char, d: Dialect, rest: string)
    ensures var e := EscapeChar(c, d);
            e[0] == '\\' ==> UnescapeAt(e + rest) == Some((c, |e|))
  {
    var n := c as int;
    if n >= 0x20 && c != '"' && c != '\\' && d == Gson && IsHtmlSensitive(c) {
      UnicodeEscapeRead(c, rest);
    } else if n < 0x20 && n != 8 && n != 9 && n != 10 && n != 12 && n != 13 {
      UnicodeEscapeRead(c, rest);
    }
  }

  lemma ParseCharsStep(s: string, c: char, k: nat, body: string, rest: string)
    requires s != [] && s[0] != '"' && 1 <= k <= |s|
    requires s[0] == '\\' ==> UnescapeAt(s) == Some((c, k))
    requires s[0] != '\\' ==> s[0] as int >= 0x20 && c == s[0] && k == 1
    requires ParseChars(s[k..]) == Some((body, rest))
    ensures ParseChars(s) == Some(([c] + body, rest))
  {
  }

  /** The escaped body of a string, then the closing quote, reads back as the string. */
  lemma {:induction false} ParseEscaped(str: string, d: Dialect, rest: string)
    ensures ParseChars(EscapeAll(str, d) + "\"" + rest) == Some((str, rest))
  {
    var s := EscapeAll(str, d) + "\"" + rest;
    if str == [] {
      assert s == "\"" + rest;
    } else {
      var e := EscapeChar(str[0], d);
      var tail := EscapeAll(str[1..], d) + "\"" + rest;
      assert s == e + tail;
      ParseEscaped(str[1..], d, rest);
      EscapeCharRead(str[0], d, tail);
      assert s[|e|..] == tail;
      ParseCharsStep(s, str[0], |e|, str[1..], rest);
      assert [str[0]] + str[1..] == str;
    }
  }

  lemma TokenizeString(s: string, str: string, rest: string)
    requires s != [] && s[0] == '"' && ParseChars(s[1..]) == Some((str, rest))
    ensures Tokenize(s) == Cons(StringToken(str), Tokenize(rest))
  {
  }

  /** A string literal either writer produces is one string token, whatever follows it. */
  lemma TokenizeQuoted(str: string, d: Dialect, rest: string)
    ensures Tokenize(Quote(str, d) + rest) == Cons(StringToken(str), Tokenize(rest))
  {
    QuoteThen(str, d, rest);
    ParseEscaped(str, d, rest);
    TokenizeString(Quote(str, d) + rest, str, rest);
  }

  /** After its opening quote, a literal is the escaped text and the closing quote. */
  lemma QuoteThen(str: string, d: Dialect, rest: string)
    ensures (Quote(str, d) + rest)[1..] == EscapeAll(str, d) + "\"" + rest
  {
    var q := Quote(str, d);
    assert q == "\"" + (EscapeAll(str, d) + "\"");
    assert (q + rest)[1..] == q[1..] + rest;
  }

  predicate AllJsonSpace(w: string) {
    forall i :: 0 <= i < |w| ==> IsJsonSpace(w[i])
  }

  /** Whitespace yields no token. */
  lemma {:induction false} TokenizeSpace(w: string, rest: string)
    requires AllJsonSpace(w)
    ensures Tokenize(w + rest) == Tokenize(rest)
    decreases |w|
  {
    if w != [] {
      assert (w + rest)[0] == w[0] && IsJsonSpace(w[0]);
      assert (w + rest)[1..] == w[1..] + rest;
      TokenizeSpace(w[1..], rest);
    } else {
      assert w + rest == rest;
    }
  }

  lemma TokenizeStructural(c: char, rest: string)
    requires Structural(c).Some?
    ensures Tokenize([c] + rest) == Cons(Structural(c).value, Tokenize(rest))
  {
    assert ([c] + rest)[1..] == rest;
  }

  /** A structural character followed by whitespace is one token. */
  lemma TokenizePunctuation(p: string, rest: string)
    requires p != [] && Structural(p[0]).Some? && AllJsonSpace(p[1..])
    ensures Tokenize(p + rest) == Cons(Structural(p[0]).value, Tokenize(rest))
  {
    assert p + rest == [p[0]] + (p[1..] + rest);
    TokenizeStructural(p[0], p[1..] + rest);
    TokenizeSpace(p[1..], rest);
  }

  /** The tokens of the members of an object and of its closing brace. */
  function MemberTokens(ms: seq<(string, string)>): seq<Token> {
    if ms == [] then [EndObject]
    else
      [StringToken(ms[0].0), NameSeparator, StringToken(ms[0].1)]
      + (if |ms| == 1 then [] else [ValueSeparator]) + MemberTokens(ms[1..])
  }

  /** The grammar gives back the members whose tokens it reads. */
  lemma {:induction false} ParseMemberTokens(ms: seq<(string, string)>)
    requires ms != []
    ensures ParseMembers(MemberTokens(ms)) == Some(ms)
    decreases |ms|
  {
    var ts := MemberTokens(ms);
    assert (ms[0].0, ms[0].1) == ms[0];
    if |ms| == 1 {
      assert ts == [StringToken(ms[0].0), NameSeparator, StringToken(ms[0].1), EndObject];
      assert [ms[0]] == ms;
    } else {
      assert ts[4..] == MemberTokens(ms[1..]);
      ParseMemberTokens(ms[1..]);
      assert [ms[0]] + ms[1..] == ms;
    }
  }

  /** The layout of a flat object: `colon` is `:` then whitespace, `sep` is `,` then
      whitespace, `close` is whitespace. */
  predicate IsSeparation(colon: string, sep: string, close: string) {
    |colon| >= 1 && colon[0] == ':' && AllJsonSpace(colon[1..])
    && |sep| >= 1 && sep[0] == ',' && AllJsonSpace(sep[1..])
    && AllJsonSpace(close)
  }

  /** One written member is a name token, a name separator and a value token. */
  lemma TokenizeMember(m: (string, string), d: Dialect, colon: string, rest: string)
    requires |colon| >= 1 && colon[0] == ':' && AllJsonSpace(colon[1..])
    ensures Tokenize(Quote(m.0, d) + colon + Quote(m.1, d) + rest)
            == Cons(StringToken(m.0), Cons(NameSeparator, Cons(StringToken(m.1), Tokenize(rest))))
  {
    var qk, qv := Quote(m.0, d), Quote(m.1, d);
    assert qk + colon + qv + rest == qk + (colon + (qv + rest));
    TokenizeQuoted(m.0, d, colon + (qv + rest));
    TokenizePunctuation(colon, qv + rest);
    TokenizeQuoted(m.1, d, rest);
  }

  /** How joined texts start: the first text, then the tail `t`, or the separator, the joined
      remaining texts and the tail. */
  lemma JoinFirst(texts: seq<string>, sep: string, t: string)
    requires texts != []
    ensures |texts| == 1 ==> Join(texts, sep) + t == texts[0] + t
    ensures |texts| > 1 ==> Join(texts, sep) + t == texts[0] + (sep + (Join(texts[1..], sep) + t))
  {
  }

  /** The first written member text, whatever follows it. */
  lemma TokenizeFirstMember(ms: seq<(string, string)>, d: Dialect, layout: Layout, rest: string)
    requires ms != []
    ensures Tokenize(FlatMemberTexts(ms, d, layout)[0] + rest)
            == Cons(StringToken(ms[0].0), Cons(NameSeparator, Cons(StringToken(ms[0].1), Tokenize(rest))))
  {
    assert FlatMemberTexts(ms, d, layout)[0] == Quote(ms[0].0, d) + Colon(layout) + Quote(ms[0].1, d);
    TokenizeMember(ms[0], d, Colon(layout), rest);
  }

  /** A single member, then `close` and the brace. */
  lemma TokenizeLastMember(ms: seq<(string, string)>, d: Dialect, layout: Layout, sep: string, close: string)
    requires |ms| == 1 && IsSeparation(Colon(layout), sep, close)
    ensures Tokenize(Join(FlatMemberTexts(ms, d, layout), sep) + (close + "}"))
            == Some([StringToken(ms[0].0), NameSeparator, StringToken(ms[0].1), EndObject])
  {
    var texts := FlatMemberTexts(ms, d, layout);
    var t := close + "}";
    ClosingBrace(close);
    JoinFirst(texts, sep, t);
    TokenizeFirstMember(ms, d, layout, t);
    var a, b := StringToken(ms[0].0), StringToken(ms[0].1);
    assert [a] + ([NameSeparator] + ([b] + [EndObject])) == [a, NameSeparator, b, EndObject];
  }

  /** A member followed by the separator and more members. */
  lemma TokenizeNextMember(ms: seq<(string, string)>, d: Dialect, layout: Layout, sep: string, close: string,
                           tail: seq<Token>)
    requires |ms| > 1 && IsSeparation(Colon(layout), sep, close)
    requires Tokenize(Join(FlatMemberTexts(ms[1..], d, layout), sep) + (close + "}")) == Some(tail)
    ensures Tokenize(Join(FlatMemberTexts(ms, d, layout), sep) + (close + "}"))
            == Some([StringToken(ms[0].0), NameSeparator, StringToken(ms[0].1), ValueSeparator] + tail)
  {
    var texts := FlatMemberTexts(ms, d, layout);
    var t := close + "}";
    JoinFirst(texts, sep, t);
    FlatTextsTail(ms, d, layout);
    TokenizeMemberThenSeparator(ms, d, layout, sep, Join(texts[1..], sep) + t, tail);
  }

  lemma FlatTextsTail(ms: seq<(string, string)>, d: Dialect, layout: Layout)
    requires ms != []
    ensures FlatMemberTexts(ms, d, layout)[1..] == FlatMemberTexts(ms[1..], d, layout)
  {
  }

  /** The first written member, the separator, and text that tokenizes to `tail`. */
  lemma TokenizeMemberThenSeparator(ms: seq<(string, string)>, d: Dialect, layout: Layout, sep: string,
                                    next: string, tail: seq<Token>)
    requires ms != [] && |sep| >= 1 && sep[0] == ',' && AllJsonSpace(sep[1..])
    requires Tokenize(next) == Some(tail)
    ensures Tokenize(FlatMemberTexts(ms, d, layout)[0] + (sep + next))
            == Some([StringToken(ms[0].0), NameSeparator, StringToken(ms[0].1), ValueSeparator] + tail)
  {
    TokenizeFirstMember(ms, d, layout, sep + next);
    TokenizePunctuation(sep, next);
    assert Tokenize(sep + next) == Some([ValueSeparator] + tail);
    ConsThree(StringToken(ms[0].0), NameSeparator, StringToken(ms[0].1), ValueSeparator, tail);
  }

  lemma ConsThree(a: Token, b: Token, c: Token, d: Token, tail: seq<Token>)
    ensures Cons(a, Cons(b, Cons(c, Some([d] + tail)))) == Some([a, b, c, d] + tail)
  {
    assert [a] + ([b] + ([c] + ([d] + tail))) == [a, b, c, d] + tail;
  }

  /** The written members joined by `sep`, then `close` and the brace. */
  lemma {:induction false} TokenizeJoined(ms: seq<(string, string)>, d: Dialect, layout: Layout, sep: string,
                                          close: string)
    requires ms != [] && IsSeparation(Colon(layout), sep, close)
    ensures Tokenize(Join(FlatMemberTexts(ms, d, layout), sep) + (close + "}")) == Some(MemberTokens(ms))
    decreases |ms|
  {
    if |ms| == 1 {
      TokenizeLastMember(ms, d, layout, sep, close);
      assert ms[1..] == [];
      assert MemberTokens(ms[1..]) == [EndObject];
      assert MemberTokens(ms) == [StringToken(ms[0].0), NameSeparator, StringToken(ms[0].1), EndObject];
    } else {
      TokenizeJoined(ms[1..], d, layout, sep, close);
      TokenizeNextMember(ms, d, layout, sep, close, MemberTokens(ms[1..]));
      assert MemberTokens(ms) == [StringToken(ms[0].0), NameSeparator, StringToken(ms[0].1), ValueSeparator]
                                 + MemberTokens(ms[1..]);
    }
  }

  lemma ClosingBrace(close: string)
    requires AllJsonSpace(close)
    ensures Tokenize(close + "}") == Some([EndObject])
  {
    TokenizeSpace(close, "}");
    assert "}" == ['}'] + [];
    TokenizeStructural('}', []);
    assert Tokenize([]) == Some([]);
    assert Structural('}') == Some(EndObject);
    assert [EndObject] + [] == [EndObject];
  }

  lemma SpacesAreSpace(n: nat)
    ensures AllJsonSpace(Spaces(n))
  {
  }

  lemma ReadEmptyObject()
    ensures ParseFlatObject("{}") == Some([])
  {
    assert "{}" == ['{'] + "}";
    TokenizeStructural('{', "}");
    ClosingBrace([]);
    assert [] + "}" == "}";
  }

  /** A non-empty flat object laid out with `open` after the brace, members joined by `sep`
      and `close` before the closing brace reads back as its members. */
  lemma ReadObjectText(ms: seq<(string, string)>, d: Dialect, layout: Layout, open: string, sep: string,
                       close: string)
    requires ms != [] && IsSeparation(Colon(layout), sep, close) && AllJsonSpace(open)
    ensures ParseFlatObject("{" + open + Join(FlatMemberTexts(ms, d, layout), sep) + close + "}") == Some(ms)
  {
    TokenizeObjectText(ms, d, layout, open, sep, close);
    ParseObjectTokens(ms);
  }

  lemma TokenizeObjectText(ms: seq<(string, string)>, d: Dialect, layout: Layout, open: string, sep: string,
                           close: string)
    requires ms != [] && IsSeparation(Colon(layout), sep, close) && AllJsonSpace(open)
    ensures Tokenize("{" + open + Join(FlatMemberTexts(ms, d, layout), sep) + close + "}")
            == Some([BeginObject] + MemberTokens(ms))
  {
    var joined := Join(FlatMemberTexts(ms, d, layout), sep);
    TokenizeJoined(ms, d, layout, sep, close);
    Regroup("{", open, joined, close, "}");
    TokenizeBraced(open, joined + (close + "}"), MemberTokens(ms));
  }

  lemma Regroup(a: string, b: string, c: string, d: string, e: string)
    ensures a + b + c + d + e == a + (b + (c + (d + e)))
  {
  }

  /** An opening brace and spacing before text that reads as `tail`. */
  lemma TokenizeBraced(open: string, inner: string, tail: seq<Token>)
    requires AllJsonSpace(open) && Tokenize(inner) == Some(tail)
    ensures Tokenize("{" + (open + inner)) == Some([BeginObject] + tail)
  {
    TokenizeSpace(open, inner);
    TokenizePunctuation("{", open + inner);
  }

  lemma ParseObjectTokens(ms: seq<(string, string)>)
    requires ms != []
    ensures var ts := [BeginObject] + MemberTokens(ms);
            ts != [BeginObject, EndObject] && ts[0] == BeginObject && ParseMembers(ts[1..]) == Some(ms)
  {
    ParseMemberTokens(ms);
    assert ([BeginObject] + MemberTokens(ms))[1..] == MemberTokens(ms);
    assert MemberTokens(ms)[0] == StringToken(ms[0].0);
  }

  /** Both writers, in both layouts, write a flat object that this reader gives back as the
      same members in the same order. */
  lemma ReadWrittenFlatObject(ms: seq<(string, string)>, d: Dialect, layout: Layout)
    ensures ParseFlatObject(Write(FlatObject(ms), d, layout, 0)) == Some(ms)
  {
    WriteFlat(ms, d, layout);
    if ms == [] {
      ReadEmptyObject();
    } else {
      var open, close := Break(layout, 1), Break(layout, 0);
      SpacesAreSpace(2);
      SpacesAreSpace(0);
      assert ("," + open)[1..] == open;
      assert Colon(layout)[1..] == if layout == Compact then "" else " ";
      ReadObjectText(ms, d, layout, open, "," + open, close);
    }
  }
}
