/** `encodeURIComponent` and `decodeURIComponent` over strings of Unicode
    scalar values: every character outside the unreserved set is written as
    the `%XX` escapes of its UTF-8 bytes, and decoding reverses that. */
module UriComponent {
  import opened Optional

  type Byte = b: int | 0 <= b < 256

  /** Letters, digits and `-_.!~*'()` pass through unescaped. */
  predicate Unreserved(c: char) {
    || 'A' <= c <= 'Z' || 'a' <= c <= 'z' || '0' <= c <= '9'
    || c == '-' || c == '_' || c == '.' || c == '!' || c == '~' || c == '*'
    || c == '\'' || c == '(' || c == ')'
  }

  const HEX_DIGITS: string := "0123456789ABCDEF"

  predicate IsUpperHex(c: char) {
    '0' <= c <= '9' || 'A' <= c <= 'F'
  }

  /** The value of a hexadecimal digit of either case. */
  function HexValue(c: char): (v: Option<nat>)
    ensures v.Some? ==> v.value < 16
  {
    if '0' <= c <= '9' then Some(c as int - '0' as int)
    else if 'A' <= c <= 'F' then Some(c as int - 'A' as int + 10)
    else if 'a' <= c <= 'f' then Some(c as int - 'a' as int + 10)
    else None
  }

  function HexDigit(n: nat): (c: char)
    requires n < 16
    ensures IsUpperHex(c) && HexValue(c) == Some(n)
  {
    HEX_DIGITS[n]
  }

  /** The UTF-8 encoding of one character. */
  function Utf8(c: char): (bytes: seq<Byte>)
    ensures 1 <= |bytes| <= 4
  {
    var cp := c as int;
    if cp < 0x80 then [cp]
    else if cp < 0x800 then [0xC0 + cp / 64, 0x80 + cp % 64]
    else if cp < 0x10000 then [0xE0 + cp / 4096, 0x80 + (cp / 64) % 64, 0x80 + cp % 64]
    else [0xF0 + cp / 262144, 0x80 + (cp / 4096) % 64, 0x80 + (cp / 64) % 64, 0x80 + cp % 64]
  }

  /** `%XX`, the escape of one byte. */
  function Percent(b: Byte): string {
    ['%', HexDigit(b / 16), HexDigit(b % 16)]
  }

  /** The escapes of a byte string, one after another. */
  function Escape(bytes: seq<Byte>): (s: string)
    ensures |s| == 3 * |bytes|
    ensures forall k :: 0 <= k < |s| ==> s[k] == '%' || IsUpperHex(s[k])
  {
    if bytes == [] then [] else Percent(bytes[0]) + Escape(bytes[1..])
  }

  function EncodeChar(c: char): string {
    if Unreserved(c) then [c] else Escape(Utf8(c))
  }

  /** `encodeURIComponent(s)`: the result holds only unreserved characters,
      `%` and upper-case hexadecimal digits. */
  function Encode(s: string): (r: string)
    ensures forall k :: 0 <= k < |r| ==> Unreserved(r[k]) || r[k] == '%' || IsUpperHex(r[k])
  {
    if s == [] then []
    else
      EncodeChar(s[0]) + Encode(s[1..])
  }

  /** The byte written as `%XX` at position `i`, if there is one. */
  function ByteAt(s: string, i: nat): (b: Option<Byte>) {
    if i + 3 <= |s| && s[i] == '%' && HexValue(s[i + 1]).Some? && HexValue(s[i + 2]).Some? then
      Some(16 * HexValue(s[i + 1]).value + HexValue(s[i + 2]).value)
    else None
  }

  /** The low six bits of the continuation byte escaped at position `3 * k`. */
  function Continuation(s: string, k: nat): (x: Option<nat>)
    ensures x.Some? ==> x.value < 64
  {
    var b := ByteAt(s, 3 * k);
    if b.Some? && 0x80 <= b.value < 0xC0 then Some(b.value - 0x80) else None
  }

  /** Decodes the escapes of one character at the start of `s`, giving the
      character and the number of characters read; `None` (a `URIError`)
      when the bytes are not the UTF-8 encoding of a scalar value. */
  function DecodeChar(s: string): (r: Option<(char, nat)>)
    ensures r.Some? ==> 0 < r.value.1 <= |s|
  {
    var b0 := ByteAt(s, 0);
    if b0.None? then None
    else if b0.value < 0x80 then Some((b0.value as char, 3))
    else if b0.value < 0xC0 then None
    else if b0.value < 0xE0 then
      var x1 := Continuation(s, 1);
      if x1.None? then None
      else
        var cp := (b0.value - 0xC0) * 64 + x1.value;
        if cp < 0x80 then None else Some((cp as char, 6))
    else if b0.value < 0xF0 then
      var x1, x2 := Continuation(s, 1), Continuation(s, 2);
      if x1.None? || x2.None? then None
      else
        var cp := (b0.value - 0xE0) * 4096 + x1.value * 64 + x2.value;
        if cp < 0x800 || 0xD800 <= cp < 0xE000 then None else Some((cp as char, 9))
    else if b0.value < 0xF8 then
      var x1, x2, x3 := Continuation(s, 1), Continuation(s, 2), Continuation(s, 3);
      if x1.None? || x2.None? || x3.None? then None
      else
        var cp := (b0.value - 0xF0) * 262144 + x1.value * 4096 + x2.value * 64 + x3.value;
        if cp < 0x10000 || cp >= 0x110000 then None else Some((cp as char, 12))
    else None
  }

  /** `decodeURIComponent(s)`; `None` where it throws a `URIError`. */
  function Decode(s: string): Option<string>
    decreases |s|
  {
    if s == [] then Some([])
    else if s[0] != '%' then
      var rest := Decode(s[1..]);
      if rest.None? then None else Some([s[0]] + rest.value)
    else
      var head := DecodeChar(s);
      if head.None? then None
      else
        var rest := Decode(s[head.value.1..]);
        if rest.None? then None else Some([head.value.0] + rest.value)
  }

  lemma ByteAtPercent(b: Byte, rest: string)
    ensures ByteAt(Percent(b) + rest, 0) == Some(b)
  {
    var s := Percent(b) + rest;
    assert s[0] == '%' && s[1] == HexDigit(b / 16) && s[2] == HexDigit(b % 16);
  }

  /** Reading an escape is unaffected by text before it. */
  lemma ByteAtShift(p: string, rest: string, i: nat)
    ensures ByteAt(p + rest, |p| + i) == ByteAt(rest, i)
  {
    var s := p + rest;
    if i + 3 <= |rest| {
      assert s[|p| + i] == rest[i] && s[|p| + i + 1] == rest[i + 1] && s[|p| + i + 2] == rest[i + 2];
    }
  }

  /** The escape at position `3 * k` of an escaped byte string reads back
      as that byte. */
  lemma {:induction false} ByteAtEscape(bytes: seq<Byte>, rest: string, k: nat)
    requires k < |bytes|
    ensures ByteAt(Escape(bytes) + rest, 3 * k) == Some(bytes[k])
  {
    var tail := Escape(bytes[1..]) + rest;
    assert Escape(bytes) + rest == Percent(bytes[0]) + tail;
    if k == 0 {
      ByteAtPercent(bytes[0], tail);
    } else {
      ByteAtShift(Percent(bytes[0]), tail, 3 * (k - 1));
      ByteAtEscape(bytes[1..], rest, k - 1);
    }
  }

  lemma DecodeOneByte(c: char, rest: string)
    requires c as int < 0x80
    ensures DecodeChar(Escape(Utf8(c)) + rest) == Some((c, 3))
  {
    ByteAtEscape(Utf8(c), rest, 0);
  }

  lemma DecodeTwoBytes(c: char, rest: string)
    requires 0x80 <= c as int < 0x800
    ensures DecodeChar(Escape(Utf8(c)) + rest) == Some((c, 6))
  {
    var cp := c as int;
    var bytes := Utf8(c);
    assert bytes == [0xC0 + cp / 64, 0x80 + cp % 64];
    ByteAtEscape(bytes, rest, 0);
    ByteAtEscape(bytes, rest, 1);
    assert (cp / 64) * 64 + cp % 64 == cp;
  }

  lemma DecodeThreeBytes(c: char, rest: string)
    requires 0x800 <= c as int < 0x10000
    ensures DecodeChar(Escape(Utf8(c)) + rest) == Some((c, 9))
  {
    var cp := c as int;
    var bytes := Utf8(c);
    assert bytes == [0xE0 + cp / 4096, 0x80 + (cp / 64) % 64, 0x80 + cp % 64];
    ByteAtEscape(bytes, rest, 0);
    ByteAtEscape(bytes, rest, 1);
    ByteAtEscape(bytes, rest, 2);
    Split3(cp);
  }

  lemma DecodeFourBytes(c: char, rest: string)
    requires 0x10000 <= c as int
    ensures DecodeChar(Escape(Utf8(c)) + rest) == Some((c, 12))
  {
    var cp := c as int;
    var bytes := Utf8(c);
    assert bytes == [0xF0 + cp / 262144, 0x80 + (cp / 4096) % 64, 0x80 + (cp / 64) % 64, 0x80 + cp % 64];
    ByteAtEscape(bytes, rest, 0);
    ByteAtEscape(bytes, rest, 1);
    ByteAtEscape(bytes, rest, 2);
    ByteAtEscape(bytes, rest, 3);
    Split4(cp);
  }

  /** Decoding the escapes of a character's UTF-8 bytes gives the character
      back, having read exactly those escapes. */
  lemma DecodeEscapedChar(c: char, rest: string)
    ensures DecodeChar(Escape(Utf8(c)) + rest) == Some((c, 3 * |Utf8(c)|))
  {
    var cp := c as int;
    if cp < 0x80 {
      DecodeOneByte(c, rest);
    } else if cp < 0x800 {
      DecodeTwoBytes(c, rest);
    } else if cp < 0x10000 {
      DecodeThreeBytes(c, rest);
    } else {
      DecodeFourBytes(c, rest);
    }
  }

  lemma Split3(cp: nat)
    ensures (cp / 4096) * 4096 + ((cp / 64) % 64) * 64 + cp % 64 == cp
  {
    var q := cp / 64;
    assert cp == q * 64 + cp % 64;
    assert q == (q / 64) * 64 + q % 64;
    assert q / 64 == cp / 4096;
  }

  lemma Split4(cp: nat)
    ensures (cp / 262144) * 262144 + ((cp / 4096) % 64) * 4096 + ((cp / 64) % 64) * 64 + cp % 64 == cp
  {
    var q := cp / 4096;
    assert q == (q / 64) * 64 + q % 64;
    assert q / 64 == cp / 262144;
    Split3(cp);
  }

  lemma DecodeAfterUnreserved(c: char, t: string, u: string)
    requires c != '%' && Decode(t) == Some(u)
    ensures Decode([c] + t) == Some([c] + u)
  {
    assert ([c] + t)[1..] == t;
  }

  lemma DecodeAfterEscaped(c: char, t: string, u: string)
    requires Decode(t) == Some(u)
    ensures Decode(Escape(Utf8(c)) + t) == Some([c] + u)
  {
    var bytes := Utf8(c);
    var e := Escape(bytes) + t;
    assert e == Percent(bytes[0]) + (Escape(bytes[1..]) + t);
    assert e[0] == '%';
    DecodeEscapedChar(c, t);
    assert e[3 * |bytes|..] == t;
  }

  /** Decoding undoes encoding: `decodeURIComponent(encodeURIComponent(s)) == s`. */
  lemma {:induction false} DecodeEncode(s: string)
    ensures Decode(Encode(s)) == Some(s)
  {
    if s != [] {
      var c, tail := s[0], s[1..];
      assert s == [c] + tail;
      DecodeEncode(tail);
      if Unreserved(c) {
        DecodeAfterUnreserved(c, Encode(tail), tail);
      } else {
        DecodeAfterEscaped(c, Encode(tail), tail);
      }
    }
  }

  /** Distinct strings encode differently. */
  lemma EncodeInjective(s: string, t: string)
    requires Encode(s) == Encode(t)
    ensures s == t
  {
    DecodeEncode(s);
    DecodeEncode(t);
  }
}
