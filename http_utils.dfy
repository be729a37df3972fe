/** The form URL encoder of `HttpUtilsInternal`: every byte (or, in the
    Unicode variant, every UTF-16 code unit) becomes one, three or six ASCII
    bytes, in the `application/x-www-form-urlencoded` style of section
    17.13.4.1 of HTML 4.01 with lowercase hex digits and a `%uXXXX` escape. */
module HttpUtilsInternal {
  import opened Wrappers

  type byte = b: int | 0 <= b < 0x100
  /** A .NET `char`: one UTF-16 code unit. */
  type CharCode = c: int | 0 <= c < 0x10000

  const HexChars: string := "0123456789abcdef"

  /** The hex digit of a value below 16, as the source indexes `hexChars`. */
  function Hex(n: int): (r: byte)
    requires 0 <= n < 16
    ensures n < 10 ==> r == '0' as int + n
    ensures 10 <= n ==> r == 'a' as int + n - 10
  {
    HexChars[n] as int
  }

  /** The characters of `notEncoded`, written out. */
  predicate InNotEncoded(c: CharCode) {
    c == '!' as int || c == '\'' as int || c == '(' as int || c == ')' as int
    || c == '*' as int || c == '-' as int || c == '.' as int || c == '_' as int
  }

  /** What `UrlEncodeChar` writes for one code unit, branch by branch. */
  function EncodedChar(c: CharCode, isUnicode: bool): seq<byte> {
    if c > 255 then
      ['%' as int, 'u' as int, Hex(c / 0x1000), Hex((c / 0x100) % 16), Hex((c / 16) % 16), Hex(c % 16)]
    else if c > ' ' as int && InNotEncoded(c) then
      [c]
    else if c == ' ' as int then
      ['+' as int]
    else if c < '0' as int || ('9' as int < c < 'A' as int) || ('Z' as int < c < 'a' as int) || c > 'z' as int then
      (if isUnicode && c > 127 then ['%' as int, 'u' as int, '0' as int, '0' as int] else ['%' as int])
      + [Hex(c / 16), Hex(c % 16)]
    else
      [c]
  }

  // ---------------------------------------------------------------------
  // A reference classification, independent of the branch structure above.

  predicate IsAsciiAlphanumeric(c: int) {
    ('0' as int <= c <= '9' as int) || ('A' as int <= c <= 'Z' as int) || ('a' as int <= c <= 'z' as int)
  }

  /** The units written through unchanged. */
  predicate IsUnreserved(c: int) {
    IsAsciiAlphanumeric(c) || (0 <= c < 0x10000 && InNotEncoded(c))
  }

  /** The four hex digits of a code unit, most significant first. */
  function Hex4(c: CharCode): seq<byte> {
    [Hex(c / 0x1000), Hex((c / 0x100) % 16), Hex((c / 16) % 16), Hex(c % 16)]
  }

  function Hex2(c: int): seq<byte>
    requires 0 <= c < 0x100
  {
    [Hex(c / 16), Hex(c % 16)]
  }

  /** The encoding of one unit, stated by class: unreserved units unchanged,
      space as `+`, units above 255 as `%u` and four digits, units 128..255
      in Unicode mode as `%u00` and two digits, every other unit as `%` and
      two digits. */
  lemma EncodedCharClasses(c: CharCode, isUnicode: bool)
    ensures IsUnreserved(c) ==> EncodedChar(c, isUnicode) == [c]
    ensures c == ' ' as int ==> EncodedChar(c, isUnicode) == ['+' as int]
    ensures c > 255 ==> EncodedChar(c, isUnicode) == ['%' as int, 'u' as int] + Hex4(c)
    ensures c <= 255 && c != ' ' as int && !IsUnreserved(c) && isUnicode && c > 127 ==>
      EncodedChar(c, isUnicode) == ['%' as int, 'u' as int, '0' as int, '0' as int] + Hex2(c)
    ensures c <= 255 && c != ' ' as int && !IsUnreserved(c) && !(isUnicode && c > 127) ==>
      EncodedChar(c, isUnicode) == ['%' as int] + Hex2(c)
  {
  }

  /** Every output byte is ASCII. */
  predicate IsAscii(e: seq<byte>) {
    forall i :: 0 <= i < |e| ==> e[i] < 0x80
  }

  /** No `%u` escape occurs. */
  predicate NoUnicodeEscape(e: seq<byte>) {
    forall i :: 0 <= i < |e| - 1 && e[i] == '%' as int ==> e[i + 1] != 'u' as int
  }

  /** A byte (a unit below 256 in byte mode) encodes to one or three ASCII
      bytes and never to a `%u` escape. */
  lemma EncodedByteShape(b: byte)
    ensures |EncodedChar(b, false)| == 1 || |EncodedChar(b, false)| == 3
    ensures IsAscii(EncodedChar(b, false))
    ensures NoUnicodeEscape(EncodedChar(b, false))
    ensures EncodedChar(b, false)[0] != '%' as int ==> |EncodedChar(b, false)| == 1
  {
  }

  // ---------------------------------------------------------------------
  // Whole sequences.

  /** The concatenated encodings of a sequence of units. */
  function EncodeUnits(us: seq<CharCode>, isUnicode: bool): seq<byte> {
    if us == [] then [] else EncodedChar(us[0], isUnicode) + EncodeUnits(us[1..], isUnicode)
  }

  lemma {:induction false} EncodeUnitsAppend(a: seq<CharCode>, b: seq<CharCode>, isUnicode: bool)
    ensures EncodeUnits(a + b, isUnicode) == EncodeUnits(a, isUnicode) + EncodeUnits(b, isUnicode)
    decreases |a|
  {
    if a != [] {
      assert (a + b)[0] == a[0];
      assert (a + b)[1..] == a[1..] + b;
      EncodeUnitsAppend(a[1..], b, isUnicode);
    } else {
      assert a + b == b;
    }
  }

  function Widen(bs: seq<byte>): (r: seq<CharCode>)
    ensures |r| == |bs| && forall i :: 0 <= i < |bs| ==> r[i] == bs[i]
  {
    if bs == [] then [] else [bs[0] as CharCode] + Widen(bs[1..])
  }

  /** What `UrlEncodeToBytes` produces for a byte range: each byte, read as a
      `char`, encoded in byte mode. */
  function EncodeBytes(bs: seq<byte>): seq<byte> {
    EncodeUnits(Widen(bs), false)
  }

  lemma {:induction false} EncodeBytesSnoc(bs: seq<byte>, b: byte)
    ensures EncodeBytes(bs + [b]) == EncodeBytes(bs) + EncodedChar(b, false)
  {
    assert Widen(bs + [b]) == Widen(bs) + [b as CharCode];
    EncodeUnitsAppend(Widen(bs), [b as CharCode], false);
    assert EncodeUnits([b as CharCode], false) == EncodedChar(b, false) + EncodeUnits([], false);
  }

  /** One more unit of a prefix adds its encoding. */
  lemma EncodeUnitsStep(us: seq<CharCode>, i: nat, isUnicode: bool)
    requires i < |us|
    ensures EncodeUnits(us[..i + 1], isUnicode) == EncodeUnits(us[..i], isUnicode) + EncodedChar(us[i], isUnicode)
  {
    assert us[..i + 1] == us[..i] + [us[i]];
    EncodeUnitsAppend(us[..i], [us[i]], isUnicode);
    assert EncodeUnits([us[i]], isUnicode) == EncodedChar(us[i], isUnicode) + EncodeUnits([], isUnicode);
  }

  /** One more byte of a range adds its encoding. */
  lemma EncodeBytesStep(bs: seq<byte>, lo: nat, i: nat)
    requires lo <= i < |bs|
    ensures EncodeBytes(bs[lo..i + 1]) == EncodeBytes(bs[lo..i]) + EncodedChar(bs[i], false)
  {
    assert bs[lo..i + 1] == bs[lo..i] + [bs[i]];
    EncodeBytesSnoc(bs[lo..i], bs[i]);
  }

  lemma {:induction false} EncodeUnitsAscii(us: seq<CharCode>, isUnicode: bool)
    ensures IsAscii(EncodeUnits(us, isUnicode))
  {
    if us != [] {
      EncodeUnitsAscii(us[1..], isUnicode);
      EncodedCharClasses(us[0], isUnicode);
    }
  }

  /** The byte-mode output (what `UrlEncode` produces from UTF-8 bytes) is
      ASCII, contains no `%u` escape, and is at most three times as long as
      the input and at least as long. */
  lemma {:induction false} EncodeBytesShape(bs: seq<byte>)
    ensures IsAscii(EncodeBytes(bs))
    ensures NoUnicodeEscape(EncodeBytes(bs))
    ensures |bs| <= |EncodeBytes(bs)| <= 3 * |bs|
  {
    if bs != [] {
      EncodeBytesShape(bs[1..]);
      assert Widen(bs)[1..] == Widen(bs[1..]);
      EncodedByteShape(bs[0]);
      var head := EncodedChar(bs[0], false);
      var tail := EncodeBytes(bs[1..]);
      assert EncodeBytes(bs) == head + tail;
      forall i | 0 <= i < |head + tail| - 1 && (head + tail)[i] == '%' as int
        ensures (head + tail)[i + 1] != 'u' as int
      {
        if i >= |head| {
          assert (head + tail)[i] == tail[i - |head|];
          assert (head + tail)[i + 1] == tail[i + 1 - |head|];
        } else {
          assert i + 1 < |head|;
        }
      }
    }
  }

  // ---------------------------------------------------------------------
  // The inverse: form decoding, as a server reads the parameters back.

  predicate IsHexDigit(b: int) {
    ('0' as int <= b <= '9' as int) || ('a' as int <= b <= 'f' as int)
  }

  function HexValue(b: int): int
    requires IsHexDigit(b)
  {
    if b <= '9' as int then b - '0' as int else b - 'a' as int + 10
  }

  lemma HexRoundTrip(n: int)
    requires 0 <= n < 16
    ensures IsHexDigit(Hex(n)) && HexValue(Hex(n)) == n
  {
  }

  /** `+` is a space, `%uXXXX` a code unit, `%XX` a unit below 256, anything
      else itself. */
  function FormDecode(e: seq<byte>): seq<int>
    decreases |e|
  {
    if e == [] then []
    else if e[0] == '+' as int then [' ' as int] + FormDecode(e[1..])
    else if e[0] == '%' as int && |e| >= 6 && e[1] == 'u' as int
      && IsHexDigit(e[2]) && IsHexDigit(e[3]) && IsHexDigit(e[4]) && IsHexDigit(e[5]) then
      [0x1000 * HexValue(e[2]) + 0x100 * HexValue(e[3]) + 16 * HexValue(e[4]) + HexValue(e[5])] + FormDecode(e[6..])
    else if e[0] == '%' as int && |e| >= 3 && IsHexDigit(e[1]) && IsHexDigit(e[2]) then
      [16 * HexValue(e[1]) + HexValue(e[2])] + FormDecode(e[3..])
    else [e[0]] + FormDecode(e[1..])
  }

  lemma Hex4Digits(c: CharCode)
    ensures c == 0x1000 * (c / 0x1000) + 0x100 * ((c / 0x100) % 16) + 16 * ((c / 16) % 16) + c % 16
  {
    var d0, q0 := c % 16, c / 16;
    var d1, q1 := q0 % 16, q0 / 16;
    var d2, q2 := q1 % 16, q1 / 16;
    assert c == 16 * q0 + d0;
    assert q0 == 16 * q1 + d1;
    assert q1 == 16 * q2 + d2;
    assert c / 0x100 == q1 && c / 0x1000 == q2;
  }

  lemma DecodeEscape4(c: CharCode, rest: seq<byte>)
    ensures FormDecode(['%' as int, 'u' as int] + Hex4(c) + rest) == [c] + FormDecode(rest)
  {
    var e := ['%' as int, 'u' as int] + Hex4(c) + rest;
    HexRoundTrip(c / 0x1000);
    HexRoundTrip((c / 0x100) % 16);
    HexRoundTrip((c / 16) % 16);
    HexRoundTrip(c % 16);
    Hex4Digits(c);
    assert e[6..] == rest;
  }

  lemma DecodeEscape2(c: int, rest: seq<byte>)
    requires 0 <= c < 0x100
    ensures FormDecode(['%' as int] + Hex2(c) + rest) == [c] + FormDecode(rest)
  {
    var e := ['%' as int] + Hex2(c) + rest;
    HexRoundTrip(c / 16);
    HexRoundTrip(c % 16);
    assert Hex(c / 16) != 'u' as int;
    assert e[3..] == rest;
  }

  lemma DecodeUnicodeEscape2(c: int, rest: seq<byte>)
    requires 0 <= c < 0x100
    ensures FormDecode(['%' as int, 'u' as int, '0' as int, '0' as int] + Hex2(c) + rest) == [c] + FormDecode(rest)
  {
    var e := ['%' as int, 'u' as int, '0' as int, '0' as int] + Hex2(c) + rest;
    HexRoundTrip(c / 16);
    HexRoundTrip(c % 16);
    assert e[6..] == rest;
  }

  lemma DecodePlain(c: int, rest: seq<byte>)
    requires 0 <= c < 0x100 && c != '+' as int && c != '%' as int
    ensures FormDecode([c] + rest) == [c] + FormDecode(rest)
  {
    assert ([c] + rest)[1..] == rest;
  }

  lemma DecodeEncodedChar(c: CharCode, isUnicode: bool, rest: seq<byte>)
    ensures FormDecode(EncodedChar(c, isUnicode) + rest) == [c] + FormDecode(rest)
  {
    EncodedCharClasses(c, isUnicode);
    if c > 255 {
      DecodeEscape4(c, rest);
    } else if c == ' ' as int {
      assert (['+' as int] + rest)[1..] == rest;
    } else if IsUnreserved(c) {
      DecodePlain(c, rest);
    } else if isUnicode && c > 127 {
      DecodeUnicodeEscape2(c, rest);
    } else {
      DecodeEscape2(c, rest);
    }
  }

  /** Decoding undoes encoding, in both modes. */
  lemma {:induction false} FormDecodeRoundTrip(us: seq<CharCode>, isUnicode: bool)
    ensures FormDecode(EncodeUnits(us, isUnicode)) == us
  {
    if us != [] {
      DecodeEncodedChar(us[0], isUnicode, EncodeUnits(us[1..], isUnicode));
      FormDecodeRoundTrip(us[1..], isUnicode);
    }
  }

  // ---------------------------------------------------------------------
  // Text encodings of a .NET string.

  /** `Encoding.UTF8.GetBytes`. */
  function Utf8(s: string): seq<byte> {
    if s == [] then [] else Utf8Char(s[0] as int) + Utf8(s[1..])
  }

  function Utf8Char(c: int): seq<byte>
    requires 0 <= c < 0x110000
  {
    if c < 0x80 then [c]
    else if c < 0x800 then [0xC0 + c / 0x40, 0x80 + c % 0x40]
    else if c < 0x10000 then [0xE0 + c / 0x1000, 0x80 + (c / 0x40) % 0x40, 0x80 + c % 0x40]
    else [0xF0 + c / 0x40000, 0x80 + (c / 0x1000) % 0x40, 0x80 + (c / 0x40) % 0x40, 0x80 + c % 0x40]
  }

  /** The code units a `foreach` over a .NET string visits: a scalar value
      above 0xFFFF is a surrogate pair. */
  function Utf16(s: string): seq<CharCode> {
    if s == [] then [] else Utf16Char(s[0] as int) + Utf16(s[1..])
  }

  function Utf16Char(c: int): seq<CharCode>
    requires 0 <= c < 0x110000
  {
    if c < 0x10000 then [c] else [0xD800 + (c - 0x10000) / 0x400, 0xDC00 + (c - 0x10000) % 0x400]
  }

  /** `Encoding.ASCII.GetString`: bytes above 127 become `?`. */
  function AsciiGetString(bs: seq<byte>): (r: string)
    ensures |r| == |bs|
    ensures forall i :: 0 <= i < |bs| ==> r[i] == if bs[i] < 0x80 then bs[i] as char else '?'
  {
    if bs == [] then [] else [if bs[0] < 0x80 then bs[0] as char else '?'] + AsciiGetString(bs[1..])
  }

  function AsciiBytes(s: string): (r: seq<byte>)
    requires forall i :: 0 <= i < |s| ==> s[i] as int < 0x80
    ensures |r| == |s| && forall i :: 0 <= i < |s| ==> r[i] == s[i] as int
  {
    if s == [] then [] else [s[0] as int] + AsciiBytes(s[1..])
  }

  /** The value of `UrlEncode(s)` for a non-null `s`. */
  function UrlEncoded(s: string): string {
    AsciiGetString(EncodeBytes(Utf8(s)))
  }

  /** `UrlEncode(s)` is ASCII without `%u` escapes, and form decoding it gives
      back the UTF-8 bytes of `s`. */
  lemma {:induction false} AsciiBytesOfString(bs: seq<byte>)
    requires IsAscii(bs)
    ensures forall i :: 0 <= i < |AsciiGetString(bs)| ==> AsciiGetString(bs)[i] as int < 0x80
    ensures AsciiBytes(AsciiGetString(bs)) == bs
  {
  }

  lemma UrlEncodedRoundTrip(s: string)
    ensures forall i :: 0 <= i < |UrlEncoded(s)| ==> UrlEncoded(s)[i] as int < 0x80
    ensures AsciiBytes(UrlEncoded(s)) == EncodeBytes(Utf8(s))
    ensures NoUnicodeEscape(AsciiBytes(UrlEncoded(s)))
    ensures FormDecode(AsciiBytes(UrlEncoded(s))) == Widen(Utf8(s))
  {
    EncodeBytesShape(Utf8(s));
    AsciiBytesOfString(EncodeBytes(Utf8(s)));
    FormDecodeRoundTrip(Widen(Utf8(s)), false);
  }

  /** The two characters that delimit query parameters. */
  predicate IsSeparator(b: int) {
    b == '&' as int || b == '=' as int
  }

  lemma EncodedCharHasNoSeparators(c: CharCode, isUnicode: bool)
    ensures forall i :: 0 <= i < |EncodedChar(c, isUnicode)| ==> !IsSeparator(EncodedChar(c, isUnicode)[i])
  {
  }

  /** `&` and `=` are always escaped, so no encoded byte delimits a parameter. */
  lemma {:induction false} EncodeUnitsHasNoSeparators(us: seq<CharCode>, isUnicode: bool)
    ensures forall i :: 0 <= i < |EncodeUnits(us, isUnicode)| ==> !IsSeparator(EncodeUnits(us, isUnicode)[i])
  {
    if us != [] {
      EncodeUnitsHasNoSeparators(us[1..], isUnicode);
      var head := EncodedChar(us[0], isUnicode);
      var tail := EncodeUnits(us[1..], isUnicode);
      EncodedCharHasNoSeparators(us[0], isUnicode);
      forall i | 0 <= i < |head + tail|
        ensures !IsSeparator((head + tail)[i])
      {
        if i >= |head| {
          assert (head + tail)[i] == tail[i - |head|];
        }
      }
    }
  }

  /** The text `UrlEncode` returns never contains `&` or `=`. */
  lemma UrlEncodedHasNoSeparators(s: string)
    ensures forall i :: 0 <= i < |UrlEncoded(s)| ==> UrlEncoded(s)[i] != '&' && UrlEncoded(s)[i] != '='
  {
    var bs := EncodeBytes(Utf8(s));
    EncodeUnitsHasNoSeparators(Widen(Utf8(s)), false);
    forall i | 0 <= i < |UrlEncoded(s)|
      ensures UrlEncoded(s)[i] != '&' && UrlEncoded(s)[i] != '='
    {
      assert !IsSeparator(bs[i]);
    }
  }

  // ---------------------------------------------------------------------
  // The imperative encoder.

  /** The growing output buffer of a `MemoryStream`. */
  class MemoryStream {
    var buffer: seq<byte>

    constructor()
      ensures buffer == []
    {
      buffer := [];
    }

    method WriteByte(b: byte)
      modifies this
      ensures buffer == old(buffer) + [b]
    {
      buffer := buffer + [b];
    }
  }

  /** The first branch of `UrlEncodeChar`: `%u` and four hex digits. */
  method WriteUnicodeEscape(c: CharCode, result: MemoryStream)
    modifies result
    ensures result.buffer == old(result.buffer) + ['%' as int, 'u' as int] + Hex4(c)
  {
    result.WriteByte('%' as int);
    result.WriteByte('u' as int);
    result.WriteByte(Hex(c / 0x1000));
    result.WriteByte(Hex((c / 0x100) % 16));
    result.WriteByte(Hex((c / 16) % 16));
    result.WriteByte(Hex(c % 16));
  }

  /** The escape branch of `UrlEncodeChar`: `%xx`, or `%u00xx` for a unit
      above 127 in Unicode mode. */
  method WriteEscape(c: int, result: MemoryStream, isUnicode: bool)
    requires 0 <= c < 0x100
    modifies result
    ensures result.buffer == old(result.buffer)
      + (if isUnicode && c > 127 then ['%' as int, 'u' as int, '0' as int, '0' as int] else ['%' as int])
      + [Hex(c / 16), Hex(c % 16)]
  {
    if isUnicode && c > 127 {
      result.WriteByte('%' as int);
      result.WriteByte('u' as int);
      result.WriteByte('0' as int);
      result.WriteByte('0' as int);
    } else {
      result.WriteByte('%' as int);
    }
    result.WriteByte(Hex(c / 16));
    result.WriteByte(Hex(c % 16));
  }

  /** `UrlEncodeChar`: appends the encoding of `c` to `result`. */
  method UrlEncodeChar(c: CharCode, result: MemoryStream, isUnicode: bool)
    modifies result
    ensures result.buffer == old(result.buffer) + EncodedChar(c, isUnicode)
  {
    if c > 255 {
      WriteUnicodeEscape(c, result);
      return;
    }
    if c > ' ' as int && InNotEncoded(c) {
      result.WriteByte(c);
      return;
    }
    if c == ' ' as int {
      result.WriteByte('+' as int);
      return;
    }
    if c < '0' as int || ('9' as int < c < 'A' as int) || ('Z' as int < c < 'a' as int) || c > 'z' as int {
      WriteEscape(c, result, isUnicode);
    } else {
      result.WriteByte(c);
    }
  }

  /** `UrlEncodeToBytes(bytes, offset, count)`. A null array gives null, an
      empty one an empty result; otherwise `offset` must lie in [0, len) and
      `count` in [0, len - offset]. */
  method UrlEncodeRangeToBytes(bytes: array?<byte>, offset: int, count: int) returns (r: Result<Option<seq<byte>>>)
    ensures bytes == null ==> r == Success(None)
    ensures bytes != null && bytes.Length == 0 ==> r == Success(Some([]))
    ensures bytes != null && bytes.Length > 0 && (offset < 0 || offset >= bytes.Length) ==>
      r == Failure(ArgumentOutOfRange("offset"))
    ensures bytes != null && bytes.Length > 0 && 0 <= offset < bytes.Length && (count < 0 || count > bytes.Length - offset) ==>
      r == Failure(ArgumentOutOfRange("count"))
    ensures bytes != null && 0 <= offset < bytes.Length && 0 <= count <= bytes.Length - offset ==>
      r == Success(Some(EncodeBytes(bytes[offset..offset + count])))
  {
    if bytes == null {
      return Success(None);
    }
    var len := bytes.Length;
    if len == 0 {
      return Success(Some([]));
    }
    if offset < 0 || offset >= len {
      return Failure(ArgumentOutOfRange("offset"));
    }
    if count < 0 || count > len - offset {
      return Failure(ArgumentOutOfRange("count"));
    }
    var result := new MemoryStream();
    var end := offset + count;
    var i := offset;
    while i < end
      invariant offset <= i <= end
      invariant result.buffer == EncodeBytes(bytes[..][offset..i])
    {
      EncodeBytesStep(bytes[..], offset, i);
      UrlEncodeChar(bytes[i], result, false);
      i := i + 1;
    }
    assert bytes[..][offset..end] == bytes[offset..offset + count];
    return Success(Some(result.buffer));
  }

  /** `UrlEncodeToBytes(byte[])`: the whole array. */
  method UrlEncodeArrayToBytes(bytes: array?<byte>) returns (r: Option<seq<byte>>)
    ensures bytes == null ==> r == None
    ensures bytes != null ==> r == Some(EncodeBytes(bytes[..]))
  {
    if bytes == null {
      return None;
    }
    if bytes.Length == 0 {
      return Some([]);
    }
    var res := UrlEncodeRangeToBytes(bytes, 0, bytes.Length);
    assert bytes[0..0 + bytes.Length] == bytes[..];
    return res.value;
  }

  method ToArray(s: seq<byte>) returns (a: array<byte>)
    ensures fresh(a) && a[..] == s
  {
    a := new byte[|s|](i requires 0 <= i < |s| => s[i]);
  }

  /** `UrlEncodeToBytes(str, e)`, the encoding `e` given as its `GetBytes`. */
  method UrlEncodeStringToBytes(str: Option<string>, getBytes: string -> seq<byte>) returns (r: Option<seq<byte>>)
    ensures str.None? ==> r == None
    ensures str == Some([]) ==> r == Some([])
    ensures str.Some? && str.value != [] ==> r == Some(EncodeBytes(getBytes(str.value)))
  {
    if str.None? {
      return None;
    }
    if str.value == [] {
      return Some([]);
    }
    var bytes := ToArray(getBytes(str.value));
    r := UrlEncodeArrayToBytes(bytes);
  }

  /** `UrlEncodeToBytes(str)`: UTF-8. */
  method UrlEncodeUtf8ToBytes(str: Option<string>) returns (r: Option<seq<byte>>)
    ensures str.None? ==> r == None
    ensures str.Some? ==> r == Some(EncodeBytes(Utf8(str.value)))
  {
    r := UrlEncodeStringToBytes(str, Utf8);
  }

  /** `UrlEncode(s, Enc)`: null stays null, the empty string stays empty, and
      otherwise the encoded bytes of `Enc.GetBytes(s)` are read back as ASCII. */
  method UrlEncodeWith(s: Option<string>, getBytes: string -> seq<byte>) returns (r: Option<string>)
    ensures s.None? ==> r == None
    ensures s == Some([]) ==> r == Some([])
    ensures s.Some? && s.value != [] ==> r == Some(AsciiGetString(EncodeBytes(getBytes(s.value))))
  {
    if s.None? {
      return None;
    }
    if s.value == [] {
      return Some([]);
    }
    var bytes := ToArray(getBytes(s.value));
    var res := UrlEncodeRangeToBytes(bytes, 0, bytes.Length);
    if bytes.Length == 0 {
      return Some(AsciiGetString([]));
    }
    assert bytes[0..0 + bytes.Length] == bytes[..];
    return Some(AsciiGetString(res.value.value));
  }

  /** `UrlEncode(str)`: UTF-8 bytes, encoded. */
  method UrlEncode(str: Option<string>) returns (r: Option<string>)
    ensures str.None? ==> r == None
    ensures str.Some? ==> r == Some(UrlEncoded(str.value))
  {
    r := UrlEncodeWith(str, Utf8);
  }

  /** `UrlEncodeUnicodeToBytes`: every UTF-16 unit encoded in Unicode mode. */
  method UrlEncodeUnicodeToBytes(str: Option<string>) returns (r: Option<seq<byte>>)
    ensures str.None? ==> r == None
    ensures str.Some? ==> r == Some(EncodeUnits(Utf16(str.value), true))
  {
    if str.None? {
      return None;
    }
    if str.value == [] {
      return Some([]);
    }
    var units := Utf16(str.value);
    var result := new MemoryStream();
    var i := 0;
    while i < |units|
      invariant 0 <= i <= |units|
      invariant result.buffer == EncodeUnits(units[..i], true)
    {
      EncodeUnitsStep(units, i, true);
      UrlEncodeChar(units[i], result, true);
      i := i + 1;
    }
    assert units[..i] == units;
    return Some(result.buffer);
  }

  /** `UrlEncodeUnicode`: null stays null; otherwise the Unicode-mode bytes
      read back as ASCII. */
  method UrlEncodeUnicode(str: Option<string>) returns (r: Option<string>)
    ensures str.None? ==> r == None
    ensures str.Some? ==> r == Some(AsciiGetString(EncodeUnits(Utf16(str.value), true)))
  {
    if str.None? {
      return None;
    }
    var bytes := UrlEncodeUnicodeToBytes(str);
    return Some(AsciiGetString(bytes.value));
  }
}
