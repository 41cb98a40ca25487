/** `encodeURIComponent` and `decodeURIComponent` (ECMA-262, section 19.2.6: the
    Encode and Decode abstract operations), which percent-encode the UTF-8 bytes of
    a string as in section 2.1 of RFC 3986. Strings are sequences of Unicode scalar
    values, so the lone-surrogate error of `encodeURIComponent` cannot arise. */
module UriCoding {
  import opened Wrappers

  type Byte = b: int | 0 <= b < 256

  /** The characters `encodeURIComponent` leaves as they are: letters, digits and
      the marks `- _ . ! ~ * ' ( )`. */
  predicate Unreserved(c: char) {
    ('A' <= c <= 'Z') || ('a' <= c <= 'z') || ('0' <= c <= '9') ||
    c == '-' || c == '_' || c == '.' || c == '!' || c == '~' || c == '*' ||
    c == '\'' || c == '(' || c == ')'
  }

  /** A Unicode scalar value: a code point that is not a surrogate. */
  predicate IsScalar(v: int) {
    (0 <= v < 0xD800) || (0xE000 <= v < 0x11_0000)
  }

  /** The UTF-8 encoding of one character (section 3 of RFC 3629). */
  function Utf8(c: char): (bytes: seq<Byte>)
    ensures 1 <= |bytes| <= 4
    ensures (|bytes| == 1) == (c as int < 0x80)
  {
    var v := c as int;
    if v < 0x80 then [v]
    else if v < 0x800 then [0xC0 + v / 64, 0x80 + v % 64]
    else if v < 0x1_0000 then [0xE0 + v / 4096, 0x80 + (v / 64) % 64, 0x80 + v % 64]
    else [0xF0 + v / 262144, 0x80 + (v / 4096) % 64, 0x80 + (v / 64) % 64, 0x80 + v % 64]
  }

  /** The upper-case hexadecimal digit of `n`, as `encodeURIComponent` writes it. */
  function HexDigit(n: int): (c: char)
    requires 0 <= n < 16
    ensures c != '/' && c != '%'
  {
    "0123456789ABCDEF"[n]
  }

  /** The value of a hexadecimal digit of either case, or `None` for any other character. */
  function HexValue(c: char): (r: Option<int>)
    ensures r.Some? ==> 0 <= r.value < 16
  {
    if '0' <= c <= '9' then Some(c as int - '0' as int)
    else if 'A' <= c <= 'F' then Some(c as int - 'A' as int + 10)
    else if 'a' <= c <= 'f' then Some(c as int - 'a' as int + 10)
    else None
  }

  /** One byte as an escape `%XY`. */
  function Escape(b: Byte): string {
    ['%', HexDigit(b / 16), HexDigit(b % 16)]
  }

  /** A sequence of bytes as consecutive escapes. */
  function Escapes(bytes: seq<Byte>): (s: string)
    ensures |s| == 3 * |bytes|
    ensures '/' !in s
  {
    if bytes == [] then [] else Escape(bytes[0]) + Escapes(bytes[1..])
  }

  /** How one character is written by `encodeURIComponent`. */
  function EncodeChar(c: char): (s: string)
    ensures '/' !in s
  {
    if Unreserved(c) then [c] else Escapes(Utf8(c))
  }

  /** `encodeURIComponent(s)`. */
  function EncodeURIComponent(s: string): (r: string)
    ensures '/' !in r
  {
    if s == [] then [] else EncodeChar(s[0]) + EncodeURIComponent(s[1..])
  }

  /** The byte written by an escape `%XY` at the start of `s`, if there is one. */
  function ReadByte(s: string): (r: Option<Byte>)
    ensures r.Some? ==> |s| >= 3
  {
    if |s| < 3 || s[0] != '%' then None
    else match (HexValue(s[1]), HexValue(s[2]))
      case (Some(hi), Some(lo)) => Some(hi * 16 + lo)
      case _ => None
  }

  /** The bytes written by `n` consecutive escapes at the start of `s`, if there are that many. */
  function ReadBytes(s: string, n: nat): (r: Option<seq<Byte>>)
    ensures r.Some? ==> |r.value| == n && |s| >= 3 * n
    decreases n
  {
    if n == 0 then Some([])
    else match ReadByte(s)
      case None => None
      case Some(b) =>
        match ReadBytes(s[3..], n - 1)
        case None => None
        case Some(rest) => Some([b] + rest)
  }

  /** The number of leading one bits of a byte, capped at 5: the length of the UTF-8
      sequence that a lead byte announces (0 for a single-byte character, 1 for a
      continuation byte, 5 for a byte no UTF-8 sequence starts with). */
  function LeadingOnes(b: Byte): nat {
    if b < 0x80 then 0 else if b < 0xC0 then 1 else if b < 0xE0 then 2
    else if b < 0xF0 then 3 else if b < 0xF8 then 4 else 5
  }

  /** The code point assembled from the payload bits of a 2-, 3- or 4-byte sequence. */
  function CodePoint(bytes: seq<Byte>): int
    requires 2 <= |bytes| <= 4
  {
    var b: seq<int> := bytes;
    if |b| == 2 then (b[0] % 32) * 64 + b[1] % 64
    else if |b| == 3 then (b[0] % 16) * 4096 + (b[1] % 64) * 64 + b[2] % 64
    else (b[0] % 8) * 262144 + (b[1] % 64) * 4096 + (b[2] % 64) * 64 + b[3] % 64
  }

  /** The character written by the escapes at the start of `s` (which starts with `%`)
      and how many characters of `s` they take, or `None` where Decode throws a
      URIError: a bad escape, a byte that cannot start a sequence, too few escapes,
      or bytes that are not the UTF-8 encoding of a scalar value (an overlong form,
      a surrogate, a code point above U+10FFFF, a bad continuation byte). */
  function DecodeEscape(s: string): (r: Option<(char, nat)>)
    ensures r.Some? ==> 3 <= r.value.1 <= |s|
  {
    match ReadByte(s)
    case None => None
    case Some(b) =>
      if b < 0x80 then Some((b as char, 3))
      else
        var n := LeadingOnes(b);
        if n == 1 || n > 4 then None
        else match ReadBytes(s, n)
          case None => None
          case Some(bytes) =>
            var v := CodePoint(bytes);
            if IsScalar(v) && Utf8(v as char) == bytes then Some((v as char, 3 * n)) else None
  }

  /** `decodeURIComponent(s)`, with `None` where it throws a URIError. No decoded
      character is kept escaped: the reserved set of `decodeURIComponent` is empty. */
  function DecodeURIComponent(s: string): (r: Option<string>)
    ensures '%' !in s ==> r == Some(s)
    ensures r.Some? ==> |r.value| <= |s|
    decreases |s|
  {
    if s == [] then Some([])
    else if s[0] != '%' then
      assert s == [s[0]] + s[1..];
      match DecodeURIComponent(s[1..])
      case None => None
      case Some(t) => Some([s[0]] + t)
    else
      match DecodeEscape(s)
      case None => None
      case Some((c, k)) =>
        match DecodeURIComponent(s[k..])
        case None => None
        case Some(t) => Some([c] + t)
  }

  lemma HexRoundTrip(n: int)
    requires 0 <= n < 16
    ensures HexValue(HexDigit(n)) == Some(n)
  {
  }

  lemma ReadEscape(b: Byte, t: string)
    ensures ReadByte(Escape(b) + t) == Some(b)
  {
    HexRoundTrip(b / 16);
    HexRoundTrip(b % 16);
  }

  lemma {:induction false} ReadEscapes(bytes: seq<Byte>, t: string)
    ensures ReadBytes(Escapes(bytes) + t, |bytes|) == Some(bytes)
    decreases |bytes|
  {
    if bytes != [] {
      var s := Escapes(bytes) + t;
      var tail := Escapes(bytes[1..]) + t;
      assert |Escape(bytes[0])| == 3 && s == Escape(bytes[0]) + tail;
      ReadEscape(bytes[0], tail);
      assert s[3..] == tail;
      ReadEscapes(bytes[1..], t);
      ReadBytesStep(s, |bytes|, bytes[0], bytes[1..]);
      assert [bytes[0]] + bytes[1..] == bytes;
    }
  }

  /** The lead byte of a multi-byte encoding announces its length, and the payload
      bits give the character back. */
  lemma Utf8Decodes(c: char)
    requires c as int >= 0x80
    ensures LeadingOnes(Utf8(c)[0]) == |Utf8(c)|
    ensures CodePoint(Utf8(c)) == c as int
  {
    var v := c as int;
    if v < 0x800 {
      Utf8Two(v);
    } else if v < 0x1_0000 {
      Utf8Three(v);
    } else {
      Utf8Four(v);
    }
  }

  lemma Utf8Two(v: int)
    requires 0x80 <= v < 0x800
    ensures LeadingOnes(0xC0 + v / 64) == 2
    ensures CodePoint([0xC0 + v / 64, 0x80 + v % 64]) == v
  {
    assert (0xC0 + v / 64) % 32 == v / 64;
  }

  lemma Utf8Three(v: int)
    requires 0x800 <= v < 0x1_0000
    ensures LeadingOnes(0xE0 + v / 4096) == 3
    ensures CodePoint([0xE0 + v / 4096, 0x80 + (v / 64) % 64, 0x80 + v % 64]) == v
  {
    var d, w := v % 64, v / 64;
    var c, y := w % 64, w / 64;
    assert v == 64 * w + d && w == 64 * y + c;
    assert v / 4096 == y by { assert v == 4096 * y + (64 * c + d) && 0 <= 64 * c + d < 4096; }
    assert (0xE0 + y) % 16 == y && (0x80 + c) % 64 == c && (0x80 + d) % 64 == d;
  }

  lemma Utf8Four(v: int)
    requires 0x1_0000 <= v < 0x11_0000
    ensures LeadingOnes(0xF0 + v / 262144) == 4
    ensures CodePoint([0xF0 + v / 262144, 0x80 + (v / 4096) % 64, 0x80 + (v / 64) % 64, 0x80 + v % 64]) == v
  {
    var d, w := v % 64, v / 64;
    var c, y := w % 64, w / 64;
    var b, a := y % 64, y / 64;
    assert v == 64 * w + d && w == 64 * y + c && y == 64 * a + b;
    assert v / 4096 == y by { assert v == 4096 * y + (64 * c + d) && 0 <= 64 * c + d < 4096; }
    assert v / 262144 == a by {
      assert v == 262144 * a + (4096 * b + 64 * c + d) && 0 <= 4096 * b + 64 * c + d < 262144;
    }
    assert (0xF0 + a) % 8 == a && (0x80 + b) % 64 == b && (0x80 + c) % 64 == c && (0x80 + d) % 64 == d;
  }

  /** The escapes of a character's UTF-8 bytes decode to that character, whatever follows. */
  lemma DecodeEscapesOfChar(c: char, t: string)
    ensures DecodeEscape(Escapes(Utf8(c)) + t) == Some((c, 3 * |Utf8(c)|))
  {
    var bytes := Utf8(c);
    var s := Escapes(bytes) + t;
    assert s == Escape(bytes[0]) + (Escapes(bytes[1..]) + t);
    ReadEscape(bytes[0], Escapes(bytes[1..]) + t);
    if c as int >= 0x80 {
      ReadEscapes(bytes, t);
      MultiByteEscapes(c, s);
    }
  }

  /** The multi-byte case of `DecodeEscapesOfChar`, once the bytes have been read. */
  lemma MultiByteEscapes(c: char, s: string)
    requires c as int >= 0x80
    requires ReadByte(s) == Some(Utf8(c)[0]) && ReadBytes(s, |Utf8(c)|) == Some(Utf8(c))
    ensures DecodeEscape(s) == Some((c, 3 * |Utf8(c)|))
  {
    Utf8Decodes(c);
    var v := CodePoint(Utf8(c));
    assert v == c as int && IsScalar(v) && v as char == c;
  }

  /** Decoding an encoded character followed by anything decodes the rest after it. */
  lemma DecodeEncodeChar(c: char, t: string)
    ensures DecodeURIComponent(EncodeChar(c) + t) ==
            match DecodeURIComponent(t) case None => None case Some(u) => Some([c] + u)
  {
    var s := EncodeChar(c) + t;
    if Unreserved(c) {
      assert s[0] == c && s[1..] == t;
    } else {
      var bytes := Utf8(c);
      DecodeEscapesOfChar(c, t);
      assert s[0] == '%';
      assert s[3 * |bytes|..] == t;
    }
  }

  /** `decodeURIComponent(encodeURIComponent(s)) == s`. */
  lemma {:induction false} DecodeEncode(s: string)
    ensures DecodeURIComponent(EncodeURIComponent(s)) == Some(s)
    decreases |s|
  {
    if s != [] {
      DecodeEncodeChar(s[0], EncodeURIComponent(s[1..]));
      DecodeEncode(s[1..]);
      assert [s[0]] + s[1..] == s;
    }
  }

  /** A string of unreserved characters is written as it is. */
  lemma {:induction false} EncodeUnreserved(s: string)
    requires forall i :: 0 <= i < |s| ==> Unreserved(s[i])
    ensures EncodeURIComponent(s) == s
    decreases |s|
  {
    if s != [] {
      EncodeUnreserved(s[1..]);
      assert [s[0]] + s[1..] == s;
    }
  }
  /** Encoding works character by character, so it distributes over concatenation. */
  lemma {:induction false} EncodeConcat(a: string, b: string)
    ensures EncodeURIComponent(a + b) == EncodeURIComponent(a) + EncodeURIComponent(b)
    decreases |a|
  {
    if a == [] {
      assert a + b == b;
    } else {
      assert (a + b)[0] == a[0] && (a + b)[1..] == a[1..] + b;
      EncodeConcat(a[1..], b);
      calc {
        EncodeURIComponent(a + b);
        EncodeChar(a[0]) + EncodeURIComponent(a[1..] + b);
        EncodeChar(a[0]) + (EncodeURIComponent(a[1..]) + EncodeURIComponent(b));
        (EncodeChar(a[0]) + EncodeURIComponent(a[1..])) + EncodeURIComponent(b);
      }
    }
  }

  /** A space, a slash and the euro sign are escaped as their UTF-8 bytes. */
  lemma EscapeExamples()
    ensures EncodeChar(' ') == "%20" && EncodeChar('/') == "%2F"
    ensures EncodeChar('\U{20AC}') == "%E2%82%AC"
  {
    assert Utf8('\U{20AC}') == [0xE2, 0x82, 0xAC];
  }

  /** A space is written `%20`. */
  lemma SpaceEscape()
    ensures EncodeURIComponent(" ") == "%20"
  {
    assert Utf8(' ') == [32];
    assert Escapes([32]) == Escape(32) + [];
    assert EncodeURIComponent(" ") == EncodeChar(' ') + EncodeURIComponent([]);
  }

  /** Two words of unreserved characters joined by a space are written with `%20` between them. */
  lemma EncodeWords(a: string, b: string)
    requires forall i :: 0 <= i < |a| ==> Unreserved(a[i])
    requires forall i :: 0 <= i < |b| ==> Unreserved(b[i])
    ensures EncodeURIComponent(a + " " + b) == a + "%20" + b
  {
    EncodeUnreserved(a);
    EncodeUnreserved(b);
    SpaceEscape();
    EncodeConcat(a, " ");
    EncodeConcat(a + " ", b);
  }

  /** `AWS Lambda` (a tag of the project list) is written `AWS%20Lambda`, and back. */
  lemma TagExample(tag: string, written: string)
    requires tag == "AWS Lambda" && written == "AWS%20Lambda"
    ensures EncodeURIComponent(tag) == written
    ensures DecodeURIComponent(written) == Some(tag)
  {
    EncodeWords("AWS", "Lambda");
    assert tag == "AWS" + " " + "Lambda";
    assert written == "AWS" + "%20" + "Lambda";
    DecodeEncode(tag);
  }

  /** One more escape in front of `n - 1` read bytes. */
  lemma ReadBytesStep(s: string, n: nat, b: Byte, rest: seq<Byte>)
    requires n > 0 && ReadByte(s) == Some(b) && ReadBytes(s[3..], n - 1) == Some(rest)
    ensures ReadBytes(s, n) == Some([b] + rest)
  {
  }

  /** `decodeURIComponent` rejects an escape whose digits are not hexadecimal. */
  lemma MalformedHex()
    ensures DecodeURIComponent("%zz") == None
  {
    assert HexValue('z') == None;
    assert ReadByte("%zz") == None;
  }

  /** It rejects a `%` with no digits after it. */
  lemma MalformedLonePercent()
    ensures DecodeURIComponent("%") == None
  {
    assert ReadByte("%") == None;
  }

  /** It rejects a three-byte sequence cut short after two bytes. */
  lemma MalformedTruncated()
    ensures DecodeURIComponent("%E2%82") == None
  {
    var s := "%E2%82";
    assert HexValue('E') == Some(14) && HexValue('2') == Some(2);
    assert ReadByte(s) == Some(0xE2);
    assert LeadingOnes(0xE2) == 3;
    assert s[3..][3..] == [];
    assert ReadBytes(s[3..][3..], 1) == None;
    assert ReadBytes(s, 3) == None;
  }

  /** It rejects the overlong two-byte form of `/`. */
  lemma MalformedOverlong()
    ensures DecodeURIComponent("%C0%AF") == None
  {
    var s := "%C0%AF";
    assert HexValue('C') == Some(12) && HexValue('0') == Some(0);
    assert HexValue('A') == Some(10) && HexValue('F') == Some(15);
    assert ReadByte(s) == Some(0xC0);
    assert s[3..] == "%AF" && ReadByte(s[3..]) == Some(0xAF);
    ReadBytesStep(s[3..], 1, 0xAF, []);
    assert [0xAF as Byte] + [] == [0xAF];
    ReadBytesStep(s, 2, 0xC0, [0xAF]);
    assert CodePoint([0xC0, 0xAF]) == 0x2F;
    assert Utf8(0x2F as char) == [0x2F];
  }

  /** It rejects the encoding of the surrogate U+D800. */
  lemma MalformedSurrogate()
    ensures DecodeURIComponent("%ED%A0%80") == None
  {
    var s := "%ED%A0%80";
    assert HexValue('E') == Some(14) && HexValue('D') == Some(13);
    assert HexValue('A') == Some(10) && HexValue('0') == Some(0) && HexValue('8') == Some(8);
    assert ReadByte(s) == Some(0xED);
    assert s[3..] == "%A0%80" && ReadByte(s[3..]) == Some(0xA0);
    assert s[3..][3..] == "%80" && ReadByte(s[3..][3..]) == Some(0x80);
    ReadBytesStep(s[3..][3..], 1, 0x80, []);
    assert [0x80 as Byte] + [] == [0x80];
    ReadBytesStep(s[3..], 2, 0xA0, [0x80]);
    assert [0xA0 as Byte] + [0x80] == [0xA0, 0x80];
    ReadBytesStep(s, 3, 0xED, [0xA0, 0x80]);
    assert CodePoint([0xED, 0xA0, 0x80]) == 0xD800;
  }
}
