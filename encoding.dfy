/** Byte and text encodings the tool relies on: the upper-case hexadecimal form
    produced by `BitConverter.ToString(bytes).Replace("-", "")`, UTF-8 encoding
    of a string, and the UTF-16 length that .NET reports as `string.Length`. */
module Encoding {

  newtype byte = x: int | 0 <= x < 256

  /** A SHA-256 digest is 32 bytes. */
  type Digest = d: seq<byte> | |d| == 32 witness seq(32, _ => 0 as byte)

  predicate IsHexDigit(c: char) { '0' <= c <= '9' || 'A' <= c <= 'F' }

  predicate IsUpperHex(s: string) { forall i :: 0 <= i < |s| ==> IsHexDigit(s[i]) }

  function HexDigit(n: nat): (c: char)
    requires n < 16
    ensures IsHexDigit(c)
  {
    if n < 10 then ('0' as int + n) as char else ('A' as int + n - 10) as char
  }

  /** The inverse of HexDigit on the sixteen upper-case digits. */
  function DigitValue(c: char): (n: nat)
    requires IsHexDigit(c)
    ensures n < 16 && HexDigit(n) == c
  {
    if '0' <= c <= '9' then c as nat - '0' as nat else c as nat - 'A' as nat + 10
  }

  lemma DigitValueHexDigit(n: nat)
    requires n < 16
    ensures DigitValue(HexDigit(n)) == n
  {
  }

  /** The two digits of one byte, high nibble first. */
  function ByteHex(b: byte): (r: string)
    ensures |r| == 2 && IsUpperHex(r)
  {
    [HexDigit(b as nat / 16), HexDigit(b as nat % 16)]
  }

  /** Each byte as two upper-case digits, no separators. */
  function Hex(bytes: seq<byte>): (r: string)
    ensures |r| == 2 * |bytes|
    ensures IsUpperHex(r)
  {
    if bytes == [] then [] else ByteHex(bytes[0]) + Hex(bytes[1..])
  }

  /** Reads back a string of upper-case digit pairs. */
  function Unhex(s: string): (r: seq<byte>)
    requires |s| % 2 == 0 && IsUpperHex(s)
    ensures |r| == |s| / 2
  {
    if s == [] then []
    else [(DigitValue(s[0]) * 16 + DigitValue(s[1])) as byte] + Unhex(s[2..])
  }

  lemma ByteHexRoundTrip(b: byte)
    ensures (DigitValue(ByteHex(b)[0]) * 16 + DigitValue(ByteHex(b)[1])) as byte == b
  {
    var n := b as nat;
    DigitValueHexDigit(n / 16);
    DigitValueHexDigit(n % 16);
    assert n / 16 * 16 + n % 16 == n;
  }

  lemma {:induction false} UnhexHex(bytes: seq<byte>)
    ensures Unhex(Hex(bytes)) == bytes
  {
    if bytes != [] {
      var h := Hex(bytes);
      var pair := ByteHex(bytes[0]);
      assert h == pair + Hex(bytes[1..]);
      assert h[0] == pair[0] && h[1] == pair[1] && h[2..] == Hex(bytes[1..]);
      ByteHexRoundTrip(bytes[0]);
      UnhexHex(bytes[1..]);
    }
  }

  /** Different byte strings have different hexadecimal forms. */
  lemma HexInjective(a: seq<byte>, b: seq<byte>)
    requires Hex(a) == Hex(b)
    ensures a == b
  {
    UnhexHex(a);
    UnhexHex(b);
  }

  /** `BitConverter.ToString`: the byte pairs joined by '-'. */
  function BitConverterString(bytes: seq<byte>): (r: string)
    ensures bytes == [] ==> r == []
    ensures bytes != [] ==> |r| == 3 * |bytes| - 1
  {
    if bytes == [] then []
    else if |bytes| == 1 then ByteHex(bytes[0])
    else ByteHex(bytes[0]) + "-" + BitConverterString(bytes[1..])
  }

  /** `s.Replace("-", string.Empty)` for the one-character pattern "-". */
  function RemoveDashes(s: string): (r: string)
    ensures |r| <= |s| && '-' !in r
  {
    if s == [] then [] else (if s[0] == '-' then [] else [s[0]]) + RemoveDashes(s[1..])
  }

  lemma {:induction false} RemoveDashesAppend(a: string, b: string)
    ensures RemoveDashes(a + b) == RemoveDashes(a) + RemoveDashes(b)
    decreases |a|
  {
    if a == [] {
      assert a + b == b;
    } else {
      var ab, head := a + b, if a[0] == '-' then [] else [a[0]];
      assert ab[0] == a[0] && ab[1..] == a[1..] + b;
      RemoveDashesAppend(a[1..], b);
      calc {
        RemoveDashes(ab);
        head + RemoveDashes(a[1..] + b);
        head + (RemoveDashes(a[1..]) + RemoveDashes(b));
        (head + RemoveDashes(a[1..])) + RemoveDashes(b);
        RemoveDashes(a) + RemoveDashes(b);
      }
    }
  }

  /** The two-step .NET idiom produces exactly the separator-free form. */
  lemma {:induction false} HexIsBitConverterWithoutDashes(bytes: seq<byte>)
    ensures RemoveDashes(BitConverterString(bytes)) == Hex(bytes)
  {
    if bytes != [] {
      var pair := ByteHex(bytes[0]);
      assert RemoveDashes(pair) == pair by {
        assert pair[1..][1..] == [];
      }
      if |bytes| == 1 {
        assert bytes[1..] == [];
      } else {
        HexIsBitConverterWithoutDashes(bytes[1..]);
        RemoveDashesAppend(pair + "-", BitConverterString(bytes[1..]));
        RemoveDashesAppend(pair, "-");
      }
    }
  }

  /** A 32-byte digest always gives a 64-character fingerprint. */
  lemma DigestHexLength(d: Digest)
    ensures |Hex(d)| == 64 && IsUpperHex(Hex(d))
  {
  }

  /** UTF-8 encoding of one Unicode scalar value. */
  function Utf8Char(c: char): (r: seq<byte>)
    ensures 1 <= |r| <= 4
  {
    var n := c as int;
    if n < 0x80 then [n as byte]
    else if n < 0x800 then [(0xC0 + n / 0x40) as byte, (0x80 + n % 0x40) as byte]
    else if n < 0x1_0000 then
      [(0xE0 + n / 0x1000) as byte, (0x80 + n / 0x40 % 0x40) as byte, (0x80 + n % 0x40) as byte]
    else
      [(0xF0 + n / 0x4_0000) as byte, (0x80 + n / 0x1000 % 0x40) as byte,
       (0x80 + n / 0x40 % 0x40) as byte, (0x80 + n % 0x40) as byte]
  }

  /** `Encoding.UTF8.GetBytes`. */
  function Utf8(s: string): (r: seq<byte>)
    ensures |s| <= |r| <= 4 * |s|
  {
    if s == [] then [] else Utf8Char(s[0]) + Utf8(s[1..])
  }

  /** .NET `string.Length`: characters above U+FFFF take two UTF-16 code units. */
  function Utf16Length(s: string): (n: nat)
    ensures |s| <= n <= 2 * |s|
  {
    if s == [] then 0 else (if s[0] as int < 0x1_0000 then 1 else 2) + Utf16Length(s[1..])
  }
}
