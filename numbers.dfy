/** Decimal rendering and the two integer parsers the sources use on the port setting:
    Java's `Integer.parseInt` (whole string, optional sign, 32-bit range, otherwise an exception)
    and JavaScript's global `parseInt` (leading white space skipped, optional sign, optional
    `0x` prefix, longest digit prefix, otherwise NaN). */
module Numbers {
  import opened Wrappers
  import opened Strings

  const IntMin: int := -0x8000_0000
  const IntMax: int := 0x7FFF_FFFF

  /** An unsigned octet, as Node's `Buffer` and a UTF-8 encoder hold it. */
  type Byte = b: int | 0 <= b < 256

  predicate IsDigit(c: char) {
    '0' <= c <= '9'
  }

  predicate AllDigits(s: string) {
    forall i :: 0 <= i < |s| ==> IsDigit(s[i])
  }

  function DigitChar(d: nat): char
    requires d < 10
  {
    (48 + d) as char
  }

  function DigitValue(c: char): nat
    requires IsDigit(c)
  {
    c as int - 48
  }

  /** The decimal digits of `n`, most significant first. */
  function Digits(n: nat): (r: string)
    ensures r != [] && AllDigits(r)
    ensures r[0] == '0' ==> n == 0
  {
    if n < 10 then [DigitChar(n)] else Digits(n / 10) + [DigitChar(n % 10)]
  }

  /** Java `String.valueOf(int)` and JavaScript `Number.prototype.toString()` on integers. */
  function IntToString(n: int): string {
    if n < 0 then "-" + Digits(-n) else Digits(n)
  }

  /** The number a string of decimal digits denotes. */
  function DigitsValue(s: string): nat
    requires AllDigits(s)
  {
    if s == [] then 0 else DigitsValue(s[..|s| - 1]) * 10 + DigitValue(s[|s| - 1])
  }

  lemma {:induction false} DigitsRoundTrip(n: nat)
    ensures DigitsValue(Digits(n)) == n
  {
    if n >= 10 {
      var d := Digits(n);
      assert d[..|d| - 1] == Digits(n / 10);
      DigitsRoundTrip(n / 10);
    }
  }

  /** Java `Integer.parseInt(s)`: `None` where it throws `NumberFormatException`. Only the
      ASCII digits are digits here (README, "Left out"). */
  function JavaParseInt(s: string): (r: Option<int>)
    ensures r.Some? ==> IntMin <= r.value <= IntMax
  {
    if s == [] then None
    else
      var body := if s[0] == '-' || s[0] == '+' then s[1..] else s;
      if body == [] || !AllDigits(body) then None
      else
        var m: int := DigitsValue(body);
        var v := if s[0] == '-' then -m else m;
        if IntMin <= v <= IntMax then Some(v) else None
  }

  lemma JavaParseUnsigned(s: string)
    requires s != [] && AllDigits(s) && DigitsValue(s) <= IntMax
    ensures JavaParseInt(s) == Some(DigitsValue(s))
  {
  }

  lemma JavaParseNegative(s: string, d: string)
    requires |s| > 1 && s[0] == '-' && s[1..] == d && AllDigits(d) && DigitsValue(d) <= -IntMin
    ensures JavaParseInt(s) == Some(-(DigitsValue(d) as int))
  {
  }

  /** `Integer.parseInt` reads back every `int` that `String.valueOf` renders. */
  lemma JavaParseIntOfString(n: int)
    requires IntMin <= n <= IntMax
    ensures JavaParseInt(IntToString(n)) == Some(n)
  {
    if n < 0 {
      var d := Digits(-n);
      var s := "-" + d;
      assert s[0] == '-' && s[1..] == d;
      DigitsRoundTrip(-n);
      JavaParseNegative(s, d);
    } else {
      DigitsRoundTrip(n);
      JavaParseUnsigned(Digits(n));
    }
  }

  predicate IsHexDigitChar(c: char) {
    IsDigit(c) || 'a' <= c <= 'f' || 'A' <= c <= 'F'
  }

  function HexDigitValue(c: char): nat
    requires IsHexDigitChar(c)
  {
    if IsDigit(c) then DigitValue(c) else if 'a' <= c <= 'f' then c as int - 87 else c as int - 55
  }

  /** The longest prefix of `s` whose characters satisfy `ok`. */
  function LeadingRun(s: string, ok: char -> bool): (r: string)
    ensures |r| <= |s| && r == s[..|r|]
    ensures forall i :: 0 <= i < |r| ==> ok(r[i])
    ensures |r| < |s| ==> !ok(s[|r|])
  {
    if s != [] && ok(s[0]) then [s[0]] + LeadingRun(s[1..], ok) else []
  }

  function HexValue(s: string): nat
    requires forall i :: 0 <= i < |s| ==> IsHexDigitChar(s[i])
  {
    if s == [] then 0 else HexValue(s[..|s| - 1]) * 16 + HexDigitValue(s[|s| - 1])
  }

  /** JavaScript `parseInt(s)` with no radix: `None` stands for NaN. Values are exact
      integers; the rounding of a JavaScript number is not modelled (README, "Left out"). */
  function JsParseInt(s: string): Option<int> {
    var t := TrimStart(s, IsJsSpace);
    var sign := if t != [] && t[0] == '-' then -1 else 1;
    var u := if t != [] && (t[0] == '-' || t[0] == '+') then t[1..] else t;
    if StartsWith(u, "0x") || StartsWith(u, "0X") then
      var h := LeadingRun(u[2..], IsHexDigitChar);
      if h == [] then None else Some(sign * HexValue(h))
    else
      var d := LeadingRun(u, IsDigit);
      if d == [] then None else Some(sign * DigitsValue(d))
  }

  lemma LeadingRunAll(s: string, ok: char -> bool)
    requires forall i :: 0 <= i < |s| ==> ok(s[i])
    ensures LeadingRun(s, ok) == s
  {
  }

  lemma JsParseUnsigned(s: string)
    requires s != [] && AllDigits(s) && s[0] != '-'
    ensures JsParseInt(s) == Some(DigitsValue(s))
  {
    assert !IsJsSpace(s[0]);
    TrimStartNoop(s, IsJsSpace);
    assert !StartsWith(s, "0x") && !StartsWith(s, "0X") by {
      if |s| >= 2 { assert IsDigit(s[1]); }
    }
    LeadingRunAll(s, IsDigit);
    assert JsParseInt(s) == Some(1 * DigitsValue(s));
  }

  lemma JsParseNegative(s: string, d: string)
    requires |s| > 1 && s[0] == '-' && s[1..] == d && AllDigits(d)
    ensures JsParseInt(s) == Some(-(DigitsValue(d) as int))
  {
    TrimStartNoop(s, IsJsSpace);
    assert !StartsWith(d, "0x") && !StartsWith(d, "0X") by {
      if |d| >= 2 { assert IsDigit(d[1]); }
    }
    LeadingRunAll(d, IsDigit);
  }

  /** `parseInt` reads back every integer rendered by `toString`. */
  lemma JsParseIntOfNatural(n: nat)
    ensures JsParseInt(Digits(n)) == Some(n)
  {
    var d := Digits(n);
    assert IsDigit(d[0]);
    DigitsRoundTrip(n);
    JsParseUnsigned(d);
  }

  lemma JsParseIntOfNegative(n: nat)
    ensures JsParseInt("-" + Digits(n)) == Some(-(n as int))
  {
    var d := Digits(n);
    var s := "-" + d;
    assert s[1..] == d;
    DigitsRoundTrip(n);
    JsParseNegative(s, d);
  }

  lemma JsParseIntOfString(n: int)
    ensures JsParseInt(IntToString(n)) == Some(n)
  {
    if n < 0 {
      JsParseIntOfNegative(-n);
    } else {
      JsParseIntOfNatural(n);
    }
  }
}
