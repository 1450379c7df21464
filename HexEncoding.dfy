/** `bytesToHexString`: lowercase, zero-padded hex, two characters per
    signed byte of a digest. */
module HexEncoding {
  import opened Optional

  /** Kotlin `Byte`: signed, -128 to 127. */
  type Byte = b: int | -128 <= b < 128

  const HEX_DIGITS: string := "0123456789abcdef"

  predicate IsHexDigit(c: char) {
    '0' <= c <= '9' || 'a' <= c <= 'f'
  }

  /** The digit `Integer.toHexString` writes for a nibble. */
  function HexDigit(v: nat): (c: char)
    requires v < 16
    ensures IsHexDigit(c) && c == HEX_DIGITS[v]
  {
    if v < 10 then ('0' as int + v) as char else ('a' as int + v - 10) as char
  }

  function DigitValue(c: char): (v: nat)
    requires IsHexDigit(c)
    ensures v < 16 && HexDigit(v) == c
  {
    if '0' <= c <= '9' then c as int - '0' as int else c as int - 'a' as int + 10
  }

  /** `0xFF and byte.toInt()`: the low eight bits of the sign-extended byte,
      that is, the byte read as unsigned. */
  function Unsigned(b: Byte): (u: nat)
    ensures u < 256 && (u - b) % 256 == 0
  {
    if b < 0 then b + 256 else b
  }

  /** Two distinct signed bytes never share an unsigned value. */
  lemma UnsignedInjective(a: Byte, b: Byte)
    ensures Unsigned(a) == Unsigned(b) ==> a == b
  {
  }

  /** The value a string of hex digits denotes, most significant first. */
  function HexValue(s: string): nat
    requires forall i :: 0 <= i < |s| ==> IsHexDigit(s[i])
  {
    if s == [] then 0 else HexValue(s[..|s| - 1]) * 16 + DigitValue(s[|s| - 1])
  }

  /** `Integer.toHexString(v)` for a non-negative `v`: hex digits with no
      leading zero. */
  function ToHexString(v: nat): (s: string)
    ensures |s| >= 1 && (forall i :: 0 <= i < |s| ==> IsHexDigit(s[i]))
    ensures HexValue(s) == v
    ensures |s| > 1 ==> s[0] != '0'
    ensures v < 16 ==> |s| == 1
    ensures 16 <= v < 256 ==> |s| == 2
    decreases v
  {
    if v < 16 then [HexDigit(v)]
    else
      var front := ToHexString(v / 16);
      var s := front + [HexDigit(v % 16)];
      assert s[..|s| - 1] == front;
      s
  }

  /** The two characters one byte contributes: `Integer.toHexString` of
      its unsigned value, with a '0' put in front of a single digit. */
  function PaddedHex(u: nat): (s: string)
    requires u < 256
    ensures s == [HexDigit(u / 16), HexDigit(u % 16)]
  {
    var hex := ToHexString(u);
    if |hex| == 1 then
      assert u < 16 && u / 16 == 0 && u % 16 == u;
      ['0'] + hex
    else
      assert hex == ToHexString(u / 16) + [HexDigit(u % 16)];
      assert ToHexString(u / 16) == [HexDigit(u / 16)];
      hex
  }

  function ByteHex(b: Byte): string {
    PaddedHex(Unsigned(b))
  }

  /** A negative byte is written as its value plus 256: -1 as "ff",
      -128 as "80". */
  lemma NegativeByteHex(b: Byte)
    requires b < 0
    ensures ByteHex(b) == PaddedHex(b + 256)
    ensures ByteHex(-1) == "ff" && ByteHex(-128) == "80"
  {
  }

  /** The string `bytesToHexString(bytes)` builds: each byte's pair appended
      in order, two characters per byte. */
  function HexString(bytes: seq<Byte>): (s: string)
    ensures |s| == 2 * |bytes|
  {
    if bytes == [] then [] else HexString(bytes[..|bytes| - 1]) + ByteHex(bytes[|bytes| - 1])
  }

  /** Byte `i` sits at positions `2i` and `2i + 1`, high nibble first. */
  lemma {:induction false} HexStringLayout(bytes: seq<Byte>, i: nat)
    requires i < |bytes|
    ensures HexString(bytes)[2 * i] == HexDigit(Unsigned(bytes[i]) / 16)
    ensures HexString(bytes)[2 * i + 1] == HexDigit(Unsigned(bytes[i]) % 16)
  {
    var prefix := bytes[..|bytes| - 1];
    var front := HexString(prefix);
    var pair := ByteHex(bytes[|bytes| - 1]);
    assert HexString(bytes) == front + pair;
    if i < |prefix| {
      HexStringLayout(prefix, i);
      assert bytes[i] == prefix[i];
      assert HexString(bytes)[2 * i] == front[2 * i] && HexString(bytes)[2 * i + 1] == front[2 * i + 1];
    } else {
      assert 2 * i == |front|;
      assert HexString(bytes)[2 * i] == pair[0] && HexString(bytes)[2 * i + 1] == pair[1];
    }
  }

  /** Only the sixteen lowercase hex digits ever appear. */
  lemma {:induction false} HexStringAlphabet(bytes: seq<Byte>)
    ensures forall j :: 0 <= j < |HexString(bytes)| ==> IsHexDigit(HexString(bytes)[j])
  {
    if bytes != [] {
      var prefix := bytes[..|bytes| - 1];
      HexStringAlphabet(prefix);
      var front := HexString(prefix);
      var pair := ByteHex(bytes[|bytes| - 1]);
      assert HexString(bytes) == front + pair;
      assert forall j :: 0 <= j < |pair| ==> IsHexDigit(pair[j]);
    }
  }

  /** The bytes read as unsigned, one value per byte. */
  function UnsignedAll(bytes: seq<Byte>): (us: seq<nat>)
    ensures |us| == |bytes| && forall i :: 0 <= i < |bytes| ==> us[i] == Unsigned(bytes[i])
  {
    seq(|bytes|, i requires 0 <= i < |bytes| => Unsigned(bytes[i]))
  }

  lemma UnsignedAllAppend(bytes: seq<Byte>)
    requires bytes != []
    ensures UnsignedAll(bytes) == UnsignedAll(bytes[..|bytes| - 1]) + [Unsigned(bytes[|bytes| - 1])]
  {
  }

  /** Reads a string as consecutive pairs of hex digits; absent when the
      length is odd or a character is not a lowercase hex digit. */
  function HexDecode(s: string): Option<seq<nat>>
    decreases |s|
  {
    if s == [] then Some([])
    else if |s| == 1 || !IsHexDigit(s[|s| - 2]) || !IsHexDigit(s[|s| - 1]) then None
    else
      match HexDecode(s[..|s| - 2])
      case None => None
      case Some(front) => Some(front + [DigitValue(s[|s| - 2]) * 16 + DigitValue(s[|s| - 1])])
  }

  /** Decoding the pairs recovers every byte, as unsigned. */
  lemma {:induction false} HexRoundTrip(bytes: seq<Byte>)
    ensures HexDecode(HexString(bytes)) == Some(UnsignedAll(bytes))
  {
    if bytes != [] {
      var prefix := bytes[..|bytes| - 1];
      var u := Unsigned(bytes[|bytes| - 1]);
      var front := HexString(prefix);
      assert HexString(bytes) == front + PaddedHex(u);
      HexRoundTrip(prefix);
      DecodeAppendedPair(front, u);
      assert HexDecode(HexString(bytes)) == Some(UnsignedAll(prefix) + [u]);
      UnsignedAllAppend(bytes);
    }
  }

  /** Appending one byte's pair appends its value to the decoding. */
  lemma DecodeAppendedPair(front: string, u: nat)
    requires u < 256
    ensures HexDecode(front + PaddedHex(u)) ==
      match HexDecode(front)
      case None => None
      case Some(values) => Some(values + [u])
  {
    var hi, lo := HexDigit(u / 16), HexDigit(u % 16);
    var s := front + [hi, lo];
    assert PaddedHex(u) == [hi, lo];
    assert s[..|s| - 2] == front;
    assert s[|s| - 2] == hi && s[|s| - 1] == lo;
    DigitRoundTrip(u / 16);
    DigitRoundTrip(u % 16);
    assert DigitValue(hi) * 16 + DigitValue(lo) == u;
  }

  lemma DigitRoundTrip(v: nat)
    requires v < 16
    ensures DigitValue(HexDigit(v)) == v
  {
  }

  /** Two digests with the same hex string are the same digest. */
  lemma HexStringInjective(a: seq<Byte>, b: seq<Byte>)
    requires HexString(a) == HexString(b)
    ensures a == b
  {
    HexRoundTrip(a);
    HexRoundTrip(b);
    assert UnsignedAll(a) == UnsignedAll(b);
    forall i | 0 <= i < |a| ensures a[i] == b[i] {
      UnsignedInjective(a[i], b[i]);
    }
  }

  /** The loop of `bytesToHexString`, with the `StringBuilder` as a string
      that grows by one byte's characters per iteration. */
  method BytesToHexString(bytes: array<Byte>) returns (s: string)
    ensures s == HexString(bytes[..])
  {
    var builder: string := [];
    for i := 0 to bytes.Length
      invariant builder == HexString(bytes[..i])
    {
      var hex := ToHexString(Unsigned(bytes[i]));
      if |hex| == 1 {
        builder := builder + ['0'];
      }
      builder := builder + hex;
      assert bytes[..i + 1][..i] == bytes[..i];
    }
    assert bytes[..bytes.Length] == bytes[..];
    s := builder;
  }
}
