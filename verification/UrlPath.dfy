/** Slash-separated text and its percent-encoding (src/paperclip.rs). */
module UrlPath {
  import opened Wrappers
  import opened Bytes
  import opened Utf8

  // ------------------------------------------------------------- components

  predicate SlashFree(s: string) { '/' !in s }

  function Split(s: string): (parts: seq<string>)
    ensures parts != []
  {
    if s == "" then [""]
    else
      var rest := Split(s[1..]);
      if s[0] == '/' then [""] + rest else [[s[0]] + rest[0]] + rest[1..]
  }

  function Join(parts: seq<string>): string
    requires parts != []
  {
    if |parts| == 1 then parts[0] else parts[0] + ("/" + Join(parts[1..]))
  }

  ghost predicate AllSlashFree(parts: seq<string>) {
    forall i :: 0 <= i < |parts| ==> SlashFree(parts[i])
  }

  lemma {:induction false} SplitPlain(s: string)
    requires SlashFree(s)
    ensures Split(s) == [s]
    decreases |s|
  {
    if s != "" {
      SplitPlain(s[1..]);
      assert [s[0]] + s[1..] == s;
    }
  }

  lemma {:induction false} SplitFirst(s: string, rest: string)
    requires SlashFree(s)
    ensures Split(s + ("/" + rest)) == [s] + Split(rest)
    decreases |s|
  {
    var text := s + ("/" + rest);
    if s == "" {
      assert text[1..] == rest;
    } else {
      assert text[1..] == s[1..] + ("/" + rest);
      SplitFirst(s[1..], rest);
      assert [s[0]] + s[1..] == s;
    }
  }

  lemma {:induction false} SplitOfJoin(parts: seq<string>)
    requires parts != [] && AllSlashFree(parts)
    ensures Split(Join(parts)) == parts
    decreases |parts|
  {
    if |parts| == 1 {
      SplitPlain(parts[0]);
      assert parts == [parts[0]];
    } else {
      SplitOfJoin(parts[1..]);
      SplitFirst(parts[0], Join(parts[1..]));
      assert parts == [parts[0]] + parts[1..];
    }
  }

  lemma {:induction false} JoinSplits(a: seq<string>, b: seq<string>)
    requires a != [] && b != []
    ensures Join(a + b) == Join(a) + ("/" + Join(b))
    decreases |a|
  {
    if |a| == 1 {
      assert (a + b)[1..] == b;
    } else {
      assert (a + b)[1..] == a[1..] + b;
      JoinSplits(a[1..], b);
      assert a[0] + ("/" + (Join(a[1..]) + ("/" + Join(b)))) == (a[0] + ("/" + Join(a[1..]))) + ("/" + Join(b));
    }
  }

  /** Rust's `rsplit_once('/')`. */
  function RSplitOnce(s: string): Option<(string, string)>
    decreases |s|
  {
    if s == "" then None
    else
      var front, last := s[..|s| - 1], s[|s| - 1];
      if last == '/' then Some((front, ""))
      else
        var r := RSplitOnce(front);
        if r.None? then None else Some((r.value.0, r.value.1 + [last]))
  }

  lemma {:induction false} RSplitLast(head: string, last: string)
    requires SlashFree(last)
    ensures RSplitOnce(head + ("/" + last)) == Some((head, last))
    decreases |last|
  {
    var text := head + ("/" + last);
    if last == "" {
      assert text[..|text| - 1] == head;
    } else {
      assert text[..|text| - 1] == head + ("/" + last[..|last| - 1]);
      RSplitLast(head, last[..|last| - 1]);
      assert last[..|last| - 1] + [last[|last| - 1]] == last;
    }
  }

  // -------------------------------------------------------- percent-encoding

  predicate Allowed(b: Byte) {
    var c := b as char;
    || '0' <= c <= '9' || 'A' <= c <= 'Z' || 'a' <= c <= 'z'
    || c in "!$&'*,-.:;=@_~"
  }

  function HexDigit(n: nat): (c: char)
    requires n < 16
    ensures c as int < 0x80 && HexValue(c as int) == Some(n) && c != '/'
  {
    if n < 10 then ('0' as int + n) as char else ('A' as int + n - 10) as char
  }

  function HexValue(b: Byte): (n: Option<nat>)
    ensures n.Some? ==> n.value < 16
  {
    if '0' as int <= b <= '9' as int then Some(b - '0' as int)
    else if 'A' as int <= b <= 'F' as int then Some(b - 'A' as int + 10)
    else if 'a' as int <= b <= 'f' as int then Some(b - 'a' as int + 10)
    else None
  }

  function EscapeByte(b: Byte): string {
    if Allowed(b) then [b as char] else ['%', HexDigit(b / 16), HexDigit(b % 16)]
  }

  function Escape(bytes: seq<Byte>): string {
    if bytes == [] then "" else EscapeByte(bytes[0]) + Escape(bytes[1..])
  }

  function EncodeComponent(s: string): string { Escape(Encode(s)) }

  function EncodeAll(parts: seq<string>): (r: seq<string>)
    ensures |r| == |parts|
    ensures forall i | 0 <= i < |parts| :: r[i] == EncodeComponent(parts[i])
  {
    if parts == [] then [] else [EncodeComponent(parts[0])] + EncodeAll(parts[1..])
  }

  function EncodeUrlPath(path: string): string { Join(EncodeAll(Split(path))) }

  /** Valid escapes become bytes, everything else stays. */
  function PercentDecode(bytes: seq<Byte>): seq<Byte>
    decreases |bytes|
  {
    if bytes == [] then []
    else if IsEscape(bytes) then
      [16 * HexValue(bytes[1]).value + HexValue(bytes[2]).value] + PercentDecode(bytes[3..])
    else [bytes[0]] + PercentDecode(bytes[1..])
  }

  predicate IsEscape(bytes: seq<Byte>) {
    |bytes| >= 3 && bytes[0] == '%' as int && HexValue(bytes[1]).Some? && HexValue(bytes[2]).Some?
  }

  function ValidPercent(bytes: seq<Byte>): bool
    decreases |bytes|
  {
    if bytes == [] then true
    else if bytes[0] == '%' as int then IsEscape(bytes) && ValidPercent(bytes[3..])
    else ValidPercent(bytes[1..])
  }

  /** A percent sign at this place is followed by two hexadecimal digits. */
  predicate EscapedAt(bytes: seq<Byte>, i: nat)
    requires i < |bytes|
  {
    bytes[i] == '%' as int ==> IsEscape(bytes[i..])
  }

  lemma {:induction false} ValidEverywhere(bytes: seq<Byte>)
    ensures ValidPercent(bytes) <==> forall i :: 0 <= i < |bytes| ==> EscapedAt(bytes, i)
    decreases |bytes|
  {
    if bytes != [] {
      var skip := if IsEscape(bytes) then 3 else 1;
      var rest := bytes[skip..];
      ValidEverywhere(rest);
      assert EscapedAt(bytes, 0) <==> (bytes[0] == '%' as int ==> IsEscape(bytes));
      forall i | 0 <= i < |rest| ensures EscapedAt(rest, i) <==> EscapedAt(bytes, skip + i) {
        assert rest[i..] == bytes[skip + i..];
      }
      forall i | 0 < i < skip ensures EscapedAt(bytes, i) { assert HexValue(bytes[i]).Some?; }
      assert forall i :: skip <= i < |bytes| ==> (EscapedAt(bytes, i) <==> EscapedAt(rest, i - skip));
    }
  }

  method ValidPercentEncoding(value: string) returns (valid: bool)
    ensures valid == ValidPercent(Encode(value))
    ensures valid <==> forall i :: 0 <= i < |Encode(value)| ==> EscapedAt(Encode(value), i)
  {
    var bytes := Encode(value);
    ValidEverywhere(bytes);
    var i := 0;
    while i < |bytes|
      invariant 0 <= i <= |bytes|
      invariant ValidPercent(bytes) == ValidPercent(bytes[i..])
    {
      var byte := bytes[i];
      ghost var rest := bytes[i..];
      assert rest[1..] == bytes[i + 1..];
      i := i + 1;
      if byte == '%' as int {
        if i + 1 >= |bytes| || HexValue(bytes[i]).None? || HexValue(bytes[i + 1]).None? { return false; }
        assert rest[3..] == bytes[i + 2..];
        i := i + 2;
      }
    }
    return true;
  }

  /** Escaped text is ASCII, so its bytes are its characters. */
  lemma EscapeByteReads(b: Byte, rest: seq<Byte>)
    ensures PercentDecode(Encode(EscapeByte(b)) + rest) == [b] + PercentDecode(rest)
    ensures ValidPercent(Encode(EscapeByte(b)) + rest) == ValidPercent(rest)
  {
    var bytes := Encode(EscapeByte(b));
    if Allowed(b) {
      assert EscapeByte(b)[1..] == "";
      assert bytes == [b] && b != '%' as int;
      assert (bytes + rest)[1..] == rest;
    } else {
      var high, low := HexDigit(b / 16), HexDigit(b % 16);
      EncodeCons(low, "");
      EncodeCons(high, [low]);
      EncodeCons('%', [high, low]);
      assert [low] + "" == [low] && [high] + [low] == [high, low] && ['%'] + [high, low] == EscapeByte(b);
      assert bytes == ['%' as int, high as int, low as int];
      assert (bytes + rest)[3..] == rest;
    }
  }

  lemma {:induction false} EscapeReads(bytes: seq<Byte>)
    ensures PercentDecode(Encode(Escape(bytes))) == bytes
    ensures ValidPercent(Encode(Escape(bytes)))
    ensures SlashFree(Escape(bytes)) && (bytes != [] ==> Escape(bytes) != "")
    decreases |bytes|
  {
    if bytes != [] {
      EscapeReads(bytes[1..]);
      EncodeSplits(EscapeByte(bytes[0]), Escape(bytes[1..]));
      EscapeByteReads(bytes[0], Encode(Escape(bytes[1..])));
      assert bytes == [bytes[0]] + bytes[1..];
    }
  }

  lemma {:induction false} ValidSplits(a: seq<Byte>, b: seq<Byte>)
    requires ValidPercent(a) && ValidPercent(b)
    ensures ValidPercent(a + b)
    decreases |a|
  {
    if a == [] {
      assert a + b == b;
    } else if a[0] == '%' as int {
      assert (a + b)[3..] == a[3..] + b;
      ValidSplits(a[3..], b);
    } else {
      assert (a + b)[1..] == a[1..] + b;
      ValidSplits(a[1..], b);
    }
  }

  lemma {:induction false} ValidJoin(parts: seq<string>)
    requires parts != [] && forall i :: 0 <= i < |parts| ==> ValidPercent(Encode(parts[i]))
    ensures ValidPercent(Encode(Join(parts)))
    decreases |parts|
  {
    if |parts| > 1 {
      var rest := Join(parts[1..]);
      ValidJoin(parts[1..]);
      EncodeSplits("/", rest);
      assert "/"[1..] == "";
      assert Encode("/") == ['/' as int];
      assert (['/' as int] + Encode(rest))[1..] == Encode(rest);
      EncodeSplits(parts[0], "/" + rest);
      ValidSplits(Encode(parts[0]), Encode("/" + rest));
    }
  }

  /** Encoding a path keeps its components apart, validly escaped, and recoverable. */
  lemma EncodedPath(parts: seq<string>)
    requires parts != [] && AllSlashFree(parts)
    ensures Split(EncodeUrlPath(Join(parts))) == EncodeAll(parts)
    ensures ValidPercent(Encode(EncodeUrlPath(Join(parts))))
  {
    SplitOfJoin(parts);
    var encoded := EncodeAll(parts);
    forall i | 0 <= i < |encoded| ensures SlashFree(encoded[i]) && ValidPercent(Encode(encoded[i])) {
      EscapeReads(Encode(parts[i]));
    }
    SplitOfJoin(encoded);
    ValidJoin(encoded);
  }
}
