/** Lower-case hexadecimal rendering of bytes: Java's `bytesToHex` (a `StringBuilder` filled
    with `String.format("%02x", b)` for each signed byte) and Node's `buffer.toString('hex')`,
    which both produce the Reality short id. */
module Hex {
  import opened Wrappers
  import opened Numbers

  /** A Java `byte`, which is signed. */
  type JavaByte = b: int | -128 <= b < 128

  const HexAlphabet: string := "0123456789abcdef"

  /** `%x` applied to a Java `byte` reads a negative value as that value plus 2^8. */
  function Unsigned(b: JavaByte): (r: Byte)
    ensures r % 256 == b % 256
  {
    if b < 0 then b + 256 else b
  }

  /** The Java `byte` a cast `(byte) r` gives for an octet. */
  function Signed(r: Byte): (b: JavaByte)
    ensures b % 256 == r % 256
  {
    if r >= 128 then r - 256 else r
  }

  lemma SignedUnsigned(b: JavaByte)
    ensures Signed(Unsigned(b)) == b
  {
  }

  function UnsignedAll(bytes: seq<JavaByte>): (r: seq<Byte>)
    ensures |r| == |bytes|
    ensures forall i :: 0 <= i < |bytes| ==> r[i] == Unsigned(bytes[i])
  {
    if bytes == [] then [] else UnsignedAll(bytes[..|bytes| - 1]) + [Unsigned(bytes[|bytes| - 1])]
  }

  function HexDigit(n: nat): (c: char)
    requires n < 16
    ensures c in HexAlphabet
  {
    HexAlphabet[n]
  }

  /** Java `String.format("%02x", b)`: two lower-case hex digits, high nibble first. */
  function Format02x(b: JavaByte): (r: string)
    ensures |r| == 2
  {
    var u := Unsigned(b);
    [HexDigit(u / 16), HexDigit(u % 16)]
  }

  /** The hex text of a byte sequence: two digits per byte, in order. */
  function Hex(bytes: seq<Byte>): (r: string)
    ensures |r| == 2 * |bytes|
    ensures forall i :: 0 <= i < |bytes| ==>
              r[2 * i] == HexDigit(bytes[i] / 16) && r[2 * i + 1] == HexDigit(bytes[i] % 16)
  {
    if bytes == [] then []
    else
      var last := bytes[|bytes| - 1];
      Hex(bytes[..|bytes| - 1]) + [HexDigit(last / 16), HexDigit(last % 16)]
  }

  predicate IsLowerHex(s: string) {
    forall i :: 0 <= i < |s| ==> s[i] in HexAlphabet
  }

  lemma HexIsLowerHex(bytes: seq<Byte>)
    ensures IsLowerHex(Hex(bytes))
  {
    var r := Hex(bytes);
    forall j | 0 <= j < |r| ensures r[j] in HexAlphabet {
      var i := j / 2;
      if j == 2 * i {
        assert r[2 * i] == HexDigit(bytes[i] / 16);
      } else {
        assert r[2 * i + 1] == HexDigit(bytes[i] % 16);
      }
    }
  }

  /** Java `bytesToHex`: the builder loop over the signed bytes. */
  method BytesToHex(bytes: seq<JavaByte>) returns (s: string)
    ensures s == Hex(UnsignedAll(bytes))
  {
    var sb: string := "";
    var i := 0;
    while i < |bytes|
      invariant 0 <= i <= |bytes|
      invariant sb == Hex(UnsignedAll(bytes[..i]))
    {
      sb := sb + Format02x(bytes[i]);
      assert bytes[..i + 1][..i] == bytes[..i];
      i := i + 1;
    }
    assert bytes[..i] == bytes;
    s := sb;
  }

  /** Reads hex text back into bytes, two digits at a time; `None` on odd length or a
      non-hex character. */
  function UnHex(s: string): (r: Option<seq<Byte>>)
    ensures r.Some? ==> 2 * |r.value| == |s|
  {
    if s == [] then Some([])
    else if |s| < 2 || !IsHexDigitChar(s[|s| - 2]) || !IsHexDigitChar(s[|s| - 1]) then None
    else match UnHex(s[..|s| - 2])
      case None => None
      case Some(init) => Some(init + [HexDigitValue(s[|s| - 2]) * 16 + HexDigitValue(s[|s| - 1])])
  }

  lemma HexDigitValueOf(n: nat)
    requires n < 16
    ensures IsHexDigitChar(HexDigit(n)) && HexDigitValue(HexDigit(n)) == n
  {
  }

  /** Two more digits read as one more byte. */
  lemma UnHexSnoc(prefix: string, init: seq<Byte>, hi: char, lo: char, b: Byte)
    requires IsHexDigitChar(hi) && IsHexDigitChar(lo) && UnHex(prefix) == Some(init)
    requires HexDigitValue(hi) * 16 + HexDigitValue(lo) == b
    ensures UnHex(prefix + [hi, lo]) == Some(init + [b])
  {
    var s := prefix + [hi, lo];
    assert s[..|s| - 2] == prefix;
  }

  /** Hex text determines the bytes it renders. */
  lemma {:induction false} UnHexHex(bytes: seq<Byte>)
    ensures UnHex(Hex(bytes)) == Some(bytes)
  {
    if bytes != [] {
      var init := bytes[..|bytes| - 1];
      var last := bytes[|bytes| - 1];
      assert bytes == init + [last];
      UnHexHex(init);
      HexThenAppend(init, last);
    }
  }

  lemma HexThenAppend(init: seq<Byte>, b: Byte)
    requires UnHex(Hex(init)) == Some(init)
    ensures UnHex(Hex(init + [b])) == Some(init + [b])
  {
    HexSnoc(init + [b]);
    assert (init + [b])[..|init|] == init;
    UnHexAppend(Hex(init), init, b);
  }

  /** A byte's two digits after readable text read as that byte after the text's bytes. */
  lemma UnHexAppend(prefix: string, init: seq<Byte>, b: Byte)
    requires UnHex(prefix) == Some(init)
    ensures UnHex(prefix + [HexDigit(b / 16), HexDigit(b % 16)]) == Some(init + [b])
  {
    DigitsOfByte(b);
    UnHexSnoc(prefix, init, HexDigit(b / 16), HexDigit(b % 16), b);
  }

  /** A non-empty rendering is that of all but the last byte, then the last byte's digits. */
  lemma HexSnoc(bytes: seq<Byte>)
    requires bytes != []
    ensures var last := bytes[|bytes| - 1];
            Hex(bytes) == Hex(bytes[..|bytes| - 1]) + [HexDigit(last / 16), HexDigit(last % 16)]
  {
  }

  /** The two digits of a byte read back as that byte. */
  lemma DigitsOfByte(b: Byte)
    ensures IsHexDigitChar(HexDigit(b / 16)) && IsHexDigitChar(HexDigit(b % 16))
    ensures HexDigitValue(HexDigit(b / 16)) * 16 + HexDigitValue(HexDigit(b % 16)) == b
  {
    HexDigitValueOf(b / 16);
    HexDigitValueOf(b % 16);
  }

  /** An 8-byte short id is sixteen lower-case hex digits, and either language's rendering of
      the same octets gives the same text. */
  lemma ShortIdShape(bytes: seq<JavaByte>)
    requires |bytes| == 8
    ensures |Hex(UnsignedAll(bytes))| == 16 && IsLowerHex(Hex(UnsignedAll(bytes)))
  {
    HexIsLowerHex(UnsignedAll(bytes));
  }
}
