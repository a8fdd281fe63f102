/** Base64 with the standard alphabet and `=` padding (section 4 of RFC 4648): Java's
    `Base64.getEncoder().encodeToString` and Node's `buffer.toString('base64')`. */
module Base64 {
  import opened Wrappers
  import opened Numbers

  type Sextet = n: nat | n < 64

  /** The alphabet of section 4 of RFC 4648: A-Z, a-z, 0-9, '+', '/'. */
  function CharOf(n: Sextet): (c: char)
  {
    if n < 26 then (65 + n) as char
    else if n < 52 then (71 + n) as char
    else if n < 62 then (n - 4) as char
    else if n == 62 then '+'
    else '/'
  }

  predicate InAlphabet(c: char) {
    'A' <= c <= 'Z' || 'a' <= c <= 'z' || '0' <= c <= '9' || c == '+' || c == '/'
  }

  /** The value of an alphabet character (the inverse table of `CharOf`). */
  function ValueOf(c: char): (r: Option<Sextet>)
    ensures r.Some? <==> InAlphabet(c)
    ensures r.Some? ==> CharOf(r.value) == c
  {
    if 'A' <= c <= 'Z' then Some(c as int - 65)
    else if 'a' <= c <= 'z' then Some(c as int - 71)
    else if '0' <= c <= '9' then Some(c as int + 4)
    else if c == '+' then Some(62)
    else if c == '/' then Some(63)
    else None
  }

  lemma ValueOfCharOf(n: Sextet)
    ensures InAlphabet(CharOf(n)) && ValueOf(CharOf(n)) == Some(n)
  {
  }

  /** Three octets as four characters. */
  function EncodeBlock(a: Byte, b: Byte, c: Byte): (r: string)
    ensures |r| == 4
  {
    var n: nat := (a as int) * 65536 + (b as int) * 256 + c;
    [CharOf(n / 262144), CharOf((n / 4096) % 64), CharOf((n / 64) % 64), CharOf(n % 64)]
  }

  function Encode(bytes: seq<Byte>): (r: string)
    ensures |r| == 4 * ((|bytes| + 2) / 3)
    decreases |bytes|
  {
    if |bytes| >= 3 then EncodeBlock(bytes[0], bytes[1], bytes[2]) + Encode(bytes[3..])
    else if |bytes| == 2 then
      var n: nat := ((bytes[0] as int) * 256 + bytes[1]) * 4;
      [CharOf(n / 4096), CharOf((n / 64) % 64), CharOf(n % 64), '=']
    else if |bytes| == 1 then
      var n: nat := (bytes[0] as int) * 16;
      [CharOf(n / 64), CharOf(n % 64), '=', '=']
    else []
  }

  /** Reads base64 text back into octets; `None` when the length is not a multiple of four,
      a character is outside the alphabet, the padding is misplaced or the bits it drops are
      not zero. */
  function Decode(s: string): (r: Option<seq<Byte>>)
    decreases |s|
  {
    if s == [] then Some([])
    else if |s| < 4 then None
    else
      var v0, v1, v2, v3 := ValueOf(s[0]), ValueOf(s[1]), ValueOf(s[2]), ValueOf(s[3]);
      if v0.None? || v1.None? then None
      else if |s| == 4 && s[2] == '=' && s[3] == '=' then
        var n: nat := v0.value * 64 + v1.value;
        if n % 16 != 0 then None else Some([n / 16])
      else if |s| == 4 && v2.Some? && s[3] == '=' then
        var n: nat := (v0.value * 64 + v1.value) * 64 + v2.value;
        if n % 4 != 0 then None else Some([(n / 4) / 256, (n / 4) % 256])
      else if v2.None? || v3.None? then None
      else
        var n: nat := ((v0.value * 64 + v1.value) * 64 + v2.value) * 64 + v3.value;
        match Decode(s[4..])
        case None => None
        case Some(rest) => Some([n / 65536, (n / 256) % 256, n % 256] + rest)
  }

  /** Every character of an encoding is in the alphabet or is padding, and padding only ends
      it. */
  lemma {:induction false} EncodeAlphabet(bytes: seq<Byte>)
    ensures forall i :: 0 <= i < |Encode(bytes)| ==> InAlphabet(Encode(bytes)[i]) || Encode(bytes)[i] == '='
    ensures forall i :: 0 <= i < |Encode(bytes)| && Encode(bytes)[i] == '=' ==>
              i >= |Encode(bytes)| - 2
    decreases |bytes|
  {
    if |bytes| >= 3 {
      var head := EncodeBlock(bytes[0], bytes[1], bytes[2]);
      EncodeAlphabet(bytes[3..]);
      var e := Encode(bytes);
      assert e == head + Encode(bytes[3..]);
      forall i | 0 <= i < |e| ensures (InAlphabet(e[i]) || e[i] == '=') && (e[i] == '=' ==> i >= |e| - 2) {
        if i >= 4 { assert e[i] == Encode(bytes[3..])[i - 4]; }
      }
    }
  }

  lemma SplitThree(n: nat)
    ensures n == (n / 262144) * 262144 + ((n / 4096) % 64) * 4096 + ((n / 64) % 64) * 64 + n % 64
  {
    var q1, q2, q3 := n / 64, n / 4096, n / 262144;
    assert q2 == q1 / 64;
    assert q3 == q2 / 64;
    assert n == q1 * 64 + n % 64;
    assert q1 == q2 * 64 + q1 % 64;
    assert q2 == q3 * 64 + q2 % 64;
  }

  lemma SplitBytes(a: Byte, b: Byte, c: Byte)
    ensures var n: nat := (a as int) * 65536 + (b as int) * 256 + c;
            n / 65536 == a && (n / 256) % 256 == b && n % 256 == c
  {
  }

  /** Decoding a full quantum: four alphabet characters and the decoding of what follows. */
  lemma DecodeQuantum(s: string, v0: Sextet, v1: Sextet, v2: Sextet, v3: Sextet, tail: seq<Byte>)
    requires |s| >= 4
    requires ValueOf(s[0]) == Some(v0) && ValueOf(s[1]) == Some(v1)
    requires ValueOf(s[2]) == Some(v2) && ValueOf(s[3]) == Some(v3)
    requires Decode(s[4..]) == Some(tail)
    ensures var n: nat := ((v0 * 64 + v1) * 64 + v2) * 64 + v3;
            Decode(s) == Some([n / 65536, (n / 256) % 256, n % 256] + tail)
  {
  }

  /** The four sextets of a block put back together give its three octets. */
  lemma BlockArithmetic(a: Byte, b: Byte, c: Byte)
    ensures var n: nat := (a as int) * 65536 + (b as int) * 256 + c;
            var v0, v1, v2, v3 := n / 262144, (n / 4096) % 64, (n / 64) % 64, n % 64;
            var m: nat := ((v0 * 64 + v1) * 64 + v2) * 64 + v3;
            m / 65536 == a && (m / 256) % 256 == b && m % 256 == c
  {
    var n: nat := (a as int) * 65536 + (b as int) * 256 + c;
    SplitThree(n);
    SplitBytes(a, b, c);
  }

  lemma DecodeBlock(a: Byte, b: Byte, c: Byte, rest: string, tail: seq<Byte>)
    requires Decode(rest) == Some(tail)
    ensures Decode(EncodeBlock(a, b, c) + rest) == Some([a, b, c] + tail)
  {
    var n: nat := (a as int) * 65536 + (b as int) * 256 + c;
    var s := EncodeBlock(a, b, c) + rest;
    var v0, v1, v2, v3 := n / 262144, (n / 4096) % 64, (n / 64) % 64, n % 64;
    ValueOfCharOf(v0);
    ValueOfCharOf(v1);
    ValueOfCharOf(v2);
    ValueOfCharOf(v3);
    assert s[4..] == rest;
    DecodeQuantum(s, v0, v1, v2, v3, tail);
    BlockArithmetic(a, b, c);
  }

  lemma DecodeSinglePad(s: string, v0: Sextet, v1: Sextet, v2: Sextet)
    requires |s| == 4 && s[3] == '='
    requires ValueOf(s[0]) == Some(v0) && ValueOf(s[1]) == Some(v1) && ValueOf(s[2]) == Some(v2)
    requires ((v0 * 64 + v1) * 64 + v2) % 4 == 0
    ensures var n: nat := (v0 * 64 + v1) * 64 + v2;
            Decode(s) == Some([(n / 4) / 256, (n / 4) % 256])
  {
  }

  lemma PairArithmetic(a: Byte, b: Byte)
    ensures var n: nat := ((a as int) * 256 + b) * 4;
            var v0, v1, v2 := n / 4096, (n / 64) % 64, n % 64;
            var m: nat := (v0 * 64 + v1) * 64 + v2;
            m % 4 == 0 && (m / 4) / 256 == a && (m / 4) % 256 == b
  {
    var n: nat := ((a as int) * 256 + b) * 4;
    var q := n / 64;
    assert n == q * 64 + n % 64;
    assert q == (n / 4096) * 64 + q % 64;
  }

  lemma DecodeTwoBytes(a: Byte, b: Byte)
    ensures Decode(Encode([a, b])) == Some([a, b])
  {
    var n: nat := ((a as int) * 256 + b) * 4;
    var v0, v1, v2 := n / 4096, (n / 64) % 64, n % 64;
    var s := Encode([a, b]);
    assert s == [CharOf(v0), CharOf(v1), CharOf(v2), '='];
    ValueOfCharOf(v0);
    ValueOfCharOf(v1);
    ValueOfCharOf(v2);
    PairArithmetic(a, b);
    DecodeSinglePad(s, v0, v1, v2);
  }

  lemma DecodeOneByte(a: Byte)
    ensures Decode(Encode([a])) == Some([a])
  {
    var n: nat := (a as int) * 16;
    var v0, v1 := n / 64, n % 64;
    var s := Encode([a]);
    assert s == [CharOf(v0), CharOf(v1), '=', '='];
    ValueOfCharOf(v0);
    ValueOfCharOf(v1);
    assert v0 * 64 + v1 == n;
  }

  /** Decoding inverts encoding. */
  lemma {:induction false} DecodeEncode(bytes: seq<Byte>)
    ensures Decode(Encode(bytes)) == Some(bytes)
    decreases |bytes|
  {
    if |bytes| >= 3 {
      DecodeEncode(bytes[3..]);
      DecodeBlock(bytes[0], bytes[1], bytes[2], Encode(bytes[3..]), bytes[3..]);
      assert [bytes[0], bytes[1], bytes[2]] + bytes[3..] == bytes;
    } else if |bytes| == 2 {
      DecodeTwoBytes(bytes[0], bytes[1]);
      assert [bytes[0], bytes[1]] == bytes;
    } else if |bytes| == 1 {
      DecodeOneByte(bytes[0]);
      assert [bytes[0]] == bytes;
    }
  }
}
