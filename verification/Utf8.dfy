/** UTF-8, strict as Rust's decoder: no overlong forms, no surrogates (RFC 3629). */
module Utf8 {
  import opened Wrappers
  import opened Bytes

  function EncodeChar(c: char): (bytes: seq<Byte>)
    ensures 1 <= |bytes| <= 4
    ensures c as int < 0x80 ==> bytes == [c as int]
  {
    var n := c as int;
    if n < 0x80 then [n]
    else if n < 0x800 then [0xC0 + n / 64, 0x80 + n % 64]
    else if n < 0x1_0000 then [0xE0 + n / 4096, 0x80 + n / 64 % 64, 0x80 + n % 64]
    else [0xF0 + n / 0x4_0000, 0x80 + n / 4096 % 64, 0x80 + n / 64 % 64, 0x80 + n % 64]
  }

  function Encode(s: string): seq<Byte> {
    if s == "" then [] else EncodeChar(s[0]) + Encode(s[1..])
  }

  predicate Continues(b: Byte) { 0x80 <= b < 0xC0 }

  predicate IsScalar(n: int) { 0 <= n < 0xD800 || 0xE000 <= n < 0x11_0000 }

  function Two(a: int, b: int): int { (a - 0xC0) * 64 + (b - 0x80) }

  function Three(a: int, b: int, c: int): int { (a - 0xE0) * 4096 + (b - 0x80) * 64 + (c - 0x80) }

  function Four(a: int, b: int, c: int, d: int): int {
    (a - 0xF0) * 0x4_0000 + (b - 0x80) * 4096 + (c - 0x80) * 64 + (d - 0x80)
  }

  datatype First = First(c: char, length: nat)

  function Scalar(n: int, least: int, length: nat): Option<First> {
    if least <= n && IsScalar(n) then Some(First(n as char, length)) else None
  }

  function DecodeFirst(bytes: seq<Byte>): (r: Option<First>)
    requires bytes != []
    ensures r.Some? ==> 1 <= r.value.length <= |bytes|
  {
    var b := bytes[0];
    if b < 0x80 then Scalar(b, 0, 1)
    else if 0xC0 <= b < 0xE0 && |bytes| >= 2 && Continues(bytes[1]) then
      Scalar(Two(b, bytes[1]), 0x80, 2)
    else if 0xE0 <= b < 0xF0 && |bytes| >= 3 && Continues(bytes[1]) && Continues(bytes[2]) then
      Scalar(Three(b, bytes[1], bytes[2]), 0x800, 3)
    else if 0xF0 <= b < 0xF8 && |bytes| >= 4 && Continues(bytes[1]) && Continues(bytes[2]) && Continues(bytes[3]) then
      Scalar(Four(b, bytes[1], bytes[2], bytes[3]), 0x1_0000, 4)
    else None
  }

  function Decode(bytes: seq<Byte>): Option<string>
    decreases |bytes|
  {
    if bytes == [] then Some("")
    else
      var first := DecodeFirst(bytes);
      if first.None? then None
      else
        var rest := Decode(bytes[first.value.length..]);
        if rest.None? then None else Some([first.value.c] + rest.value)
  }

  lemma Digits64(n: nat)
    ensures n == n / 64 * 64 + n % 64
    ensures n / 64 / 64 == n / 4096 && n / 4096 / 64 == n / 0x4_0000
    ensures n == n / 4096 * 4096 + n / 64 % 64 * 64 + n % 64
    ensures n == n / 0x4_0000 * 0x4_0000 + n / 4096 % 64 * 4096 + n / 64 % 64 * 64 + n % 64
  {
  }

  lemma CharReadsBack(c: char, rest: seq<Byte>)
    ensures DecodeFirst(EncodeChar(c) + rest) == Some(First(c, |EncodeChar(c)|))
  {
    var n := c as int;
    Digits64(n);
    if n < 0x80 {
    } else if n < 0x800 {
      assert Two(0xC0 + n / 64, 0x80 + n % 64) == n;
    } else if n < 0x1_0000 {
      assert Three(0xE0 + n / 4096, 0x80 + n / 64 % 64, 0x80 + n % 64) == n;
    } else {
      assert Four(0xF0 + n / 0x4_0000, 0x80 + n / 4096 % 64, 0x80 + n / 64 % 64, 0x80 + n % 64) == n;
    }
  }

  /** Strictness: what decodes is exactly what encoding would have written. */
  lemma CharIsCanonical(bytes: seq<Byte>)
    requires bytes != [] && DecodeFirst(bytes).Some?
    ensures var first := DecodeFirst(bytes).value; EncodeChar(first.c) == bytes[..first.length]
  {
    var first := DecodeFirst(bytes).value;
    if first.length == 2 { TwoDigits(bytes[0], bytes[1]); }
    else if first.length == 3 { ThreeDigits(bytes[0], bytes[1], bytes[2]); }
    else if first.length == 4 { FourDigits(bytes[0], bytes[1], bytes[2], bytes[3]); }
  }

  lemma TwoDigits(a: int, b: int)
    requires 0xC0 <= a < 0xE0 && 0x80 <= b < 0xC0
    ensures var n := Two(a, b); n < 0x800 && a == 0xC0 + n / 64 && b == 0x80 + n % 64
  {
  }

  lemma ThreeDigits(a: int, b: int, c: int)
    requires 0xE0 <= a < 0xF0 && 0x80 <= b < 0xC0 && 0x80 <= c < 0xC0
    ensures var n := Three(a, b, c);
            n < 0x1_0000 && a == 0xE0 + n / 4096 && b == 0x80 + n / 64 % 64 && c == 0x80 + n % 64
  {
    assert Three(a, b, c) / 64 == (a - 0xE0) * 64 + (b - 0x80);
  }

  lemma FourDigits(a: int, b: int, c: int, d: int)
    requires 0xF0 <= a < 0xF8 && 0x80 <= b < 0xC0 && 0x80 <= c < 0xC0 && 0x80 <= d < 0xC0
    ensures var n := Four(a, b, c, d);
            a == 0xF0 + n / 0x4_0000 && b == 0x80 + n / 4096 % 64 && c == 0x80 + n / 64 % 64 && d == 0x80 + n % 64
  {
    var n := Four(a, b, c, d);
    assert n / 64 == (a - 0xF0) * 4096 + (b - 0x80) * 64 + (c - 0x80);
    assert n / 4096 == (a - 0xF0) * 64 + (b - 0x80);
  }

  lemma {:induction false} DecodeStep(bytes: seq<Byte>, first: First, rest: seq<Byte>)
    requires bytes != [] && DecodeFirst(bytes) == Some(first) && bytes[first.length..] == rest
    ensures Decode(bytes) == if Decode(rest).None? then None else Some([first.c] + Decode(rest).value)
  {
  }

  lemma {:induction false} DecodesBack(s: string)
    ensures Decode(Encode(s)) == Some(s)
    decreases |s|
  {
    if s != "" {
      var first, rest := EncodeChar(s[0]), Encode(s[1..]);
      assert Encode(s) == first + rest;
      CharReadsBack(s[0], rest);
      DecodesBack(s[1..]);
      DecodeStep(first + rest, First(s[0], |first|), rest);
      assert [s[0]] + s[1..] == s;
    }
  }

  lemma {:induction false} EncodeCons(c: char, s: string)
    ensures Encode([c] + s) == EncodeChar(c) + Encode(s)
  {
    assert ([c] + s)[1..] == s;
  }

  /** The first character, the bytes that spell it, and what remains. */
  lemma {:induction false} DecodeHead(bytes: seq<Byte>)
      returns (c: char, head: seq<Byte>, rest: seq<Byte>, text: string)
    requires bytes != [] && Decode(bytes).Some?
    ensures bytes == head + rest && EncodeChar(c) == head && |rest| < |bytes|
    ensures Decode(rest) == Some(text) && Decode(bytes) == Some([c] + text)
  {
    var first := DecodeFirst(bytes).value;
    c, head, rest := first.c, bytes[..first.length], bytes[first.length..];
    text := Decode(rest).value;
    CharIsCanonical(bytes);
  }

  lemma {:induction false} EncodesBack(bytes: seq<Byte>)
    requires Decode(bytes).Some?
    ensures Encode(Decode(bytes).value) == bytes
    decreases |bytes|
  {
    if bytes != [] {
      var c, head, rest, text := DecodeHead(bytes);
      EncodesBack(rest);
      EncodeCons(c, text);
    }
  }

  lemma {:induction false} EncodeSplits(a: string, b: string)
    ensures Encode(a + b) == Encode(a) + Encode(b)
    decreases |a|
  {
    if a == "" {
      assert a + b == b;
    } else {
      assert (a + b)[1..] == a[1..] + b;
      EncodeSplits(a[1..], b);
    }
  }

  /** The smallest and largest character of each length (section 3 of RFC 3629). */
  lemma LengthBoundaries()
    ensures EncodeChar('\U{0}') == [0] && EncodeChar('\U{7F}') == [0x7F]
    ensures EncodeChar('\U{80}') == [0xC2, 0x80] && EncodeChar('\U{7FF}') == [0xDF, 0xBF]
    ensures EncodeChar('\U{800}') == [0xE0, 0xA0, 0x80] && EncodeChar('\U{FFFF}') == [0xEF, 0xBF, 0xBF]
    ensures EncodeChar('\U{10000}') == [0xF0, 0x90, 0x80, 0x80] && EncodeChar('\U{10FFFF}') == [0xF4, 0x8F, 0xBF, 0xBF]
  {
    assert '\U{10FFFF}' as int == 0x10FFFF && '\U{10000}' as int == 0x10000 && '\U{FFFF}' as int == 0xFFFF;
  }
}
