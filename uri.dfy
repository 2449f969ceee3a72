/**
 * `encodeURIComponent` and `decodeURIComponent` as ECMA-262 defines them
 * (section 19.2.6, URI Handling Functions): percent-encoding in the sense of
 * section 2.1 of RFC 3986, applied to the UTF-8 octets of every code point
 * outside ECMAScript's unescaped set. Strings are sequences of Unicode scalar
 * values, so the lone surrogates that make `encodeURIComponent` throw do not
 * arise.
 */
module Uri {
  import opened Wrappers

  type Byte = b: int | 0 <= b < 256

  /** uriAlpha, DecimalDigit and uriMark: what `encodeURIComponent` copies unchanged. */
  predicate IsUnescaped(c: char)
  {
    ('a' <= c <= 'z') || ('A' <= c <= 'Z') || ('0' <= c <= '9') ||
    c == '-' || c == '_' || c == '.' || c == '!' || c == '~' || c == '*' || c == '\'' || c == '(' || c == ')'
  }

  predicate IsHexDigit(c: char)
  {
    ('0' <= c <= '9') || ('A' <= c <= 'F') || ('a' <= c <= 'f')
  }

  /** The upper-case hexadecimal digit the encoder writes for `d`. */
  function HexDigit(d: nat): (c: char)
    requires d < 16
    ensures IsHexDigit(c) && IsUnescaped(c)
    ensures ('0' <= c <= '9') || ('A' <= c <= 'F')
    ensures !('a' <= c <= 'z')
  {
    if d < 10 then ('0' as int + d) as char else ('A' as int + d - 10) as char
  }

  /** The value of a hexadecimal digit of either case, as the decoder reads it. */
  function HexValue(c: char): (d: nat)
    requires IsHexDigit(c)
    ensures d < 16
  {
    if '0' <= c <= '9' then c as int - '0' as int
    else if 'A' <= c <= 'F' then c as int - 'A' as int + 10
    else c as int - 'a' as int + 10
  }

  lemma HexRoundTrip(d: nat)
    requires d < 16
    ensures HexValue(HexDigit(d)) == d
  {
  }

  /** The UTF-8 octets of a code point (section 3.9 of the Unicode Standard, table 3-6). */
  function Utf8(c: char): (octets: seq<Byte>)
    ensures 1 <= |octets| <= 4
  {
    var v := c as int;
    if v < 0x80 then [v]
    else if v < 0x800 then [0xC0 + v / 64, 0x80 + v % 64]
    else if v < 0x10000 then [0xE0 + v / 4096, 0x80 + (v / 64) % 64, 0x80 + v % 64]
    else [0xF0 + v / 262144, 0x80 + (v / 4096) % 64, 0x80 + (v / 64) % 64, 0x80 + v % 64]
  }

  /** The length of the UTF-8 sequence a lead octet announces, or 0 when it cannot start one. */
  function SequenceLength(lead: Byte): nat
  {
    if lead < 0x80 then 1
    else if 0xC0 <= lead < 0xE0 then 2
    else if 0xE0 <= lead < 0xF0 then 3
    else if 0xF0 <= lead < 0xF8 then 4
    else 0
  }

  predicate IsContinuation(b: Byte)
  {
    0x80 <= b < 0xC0
  }

  /**
   * The code point a complete UTF-8 sequence encodes, or None when the octets
   * are not a well-formed encoding (bad lead or continuation octet, overlong
   * form, surrogate, or a value beyond U+10FFFF).
   */
  function Utf8Decode(octets: seq<Byte>): Option<char>
  {
    if |octets| == 0 || SequenceLength(octets[0]) != |octets| then None
    else if |octets| == 1 then Some(octets[0] as char)
    else if !(forall i :: 1 <= i < |octets| ==> IsContinuation(octets[i])) then None
    else if |octets| == 2 then
      var v := (octets[0] as int - 0xC0) * 64 + (octets[1] as int - 0x80);
      if 0x80 <= v then Some(v as char) else None
    else if |octets| == 3 then
      var v := (octets[0] as int - 0xE0) * 4096 + (octets[1] as int - 0x80) * 64 + (octets[2] as int - 0x80);
      if 0x800 <= v && !(0xD800 <= v < 0xE000) then Some(v as char) else None
    else
      var v := (octets[0] as int - 0xF0) * 262144 + (octets[1] as int - 0x80) * 4096 +
        (octets[2] as int - 0x80) * 64 + (octets[3] as int - 0x80);
      if 0x10000 <= v < 0x110000 then Some(v as char) else None
  }

  lemma DivDiv64(v: nat)
    ensures (v / 64) / 64 == v / 4096
    ensures (v / 4096) / 64 == v / 262144
  {
  }

  /** Decoding the UTF-8 octets of a code point gives the code point back. */
  lemma Utf8RoundTrip(c: char)
    ensures SequenceLength(Utf8(c)[0]) == |Utf8(c)|
    ensures Utf8Decode(Utf8(c)) == Some(c)
  {
    var v := c as int;
    DivDiv64(v);
    if 0x800 <= v < 0x10000 {
      assert v / 64 == (v / 4096) * 64 + (v / 64) % 64;
    } else if 0x10000 <= v {
      assert v / 64 == (v / 4096) * 64 + (v / 64) % 64;
      assert v / 4096 == (v / 262144) * 64 + (v / 4096) % 64;
    }
  }

  /** Each octet as "%XY" with upper-case hexadecimal digits. */
  function Escape(octets: seq<Byte>): (s: string)
    ensures |s| == 3 * |octets|
    ensures forall i :: 0 <= i < |s| ==> s[i] == '%' || IsUnescaped(s[i])
    decreases |octets|
  {
    if octets == [] then []
    else ['%', HexDigit(octets[0] / 16), HexDigit(octets[0] % 16)] + Escape(octets[1..])
  }

  /** The octets of a run of escapes "%XY%XY...", or None when a triplet is malformed. */
  function Unescape(s: string): (octets: Option<seq<Byte>>)
    ensures octets.Some? ==> 3 * |octets.value| == |s|
    decreases |s|
  {
    if s == [] then Some([])
    else if |s| < 3 || s[0] != '%' || !IsHexDigit(s[1]) || !IsHexDigit(s[2]) then None
    else match Unescape(s[3..])
      case None => None
      case Some(rest) => Some([HexValue(s[1]) * 16 + HexValue(s[2])] + rest)
  }

  lemma {:induction false} EscapeRoundTrip(octets: seq<Byte>)
    ensures Unescape(Escape(octets)) == Some(octets)
    decreases |octets|
  {
    if octets != [] {
      EscapeRoundTrip(octets[1..]);
      var s := Escape(octets);
      assert s[3..] == Escape(octets[1..]);
      HexRoundTrip(octets[0] / 16);
      HexRoundTrip(octets[0] % 16);
      assert HexValue(s[1]) * 16 + HexValue(s[2]) == octets[0];
      assert [octets[0]] + octets[1..] == octets;
    }
  }

  function EncodeChar(c: char): (s: string)
  {
    if IsUnescaped(c) then [c] else Escape(Utf8(c))
  }

  /** The concatenation of `f(c)` over the characters `c` of `s`. */
  function ConcatMap(s: string, f: char -> string): string
    decreases |s|
  {
    if s == [] then [] else f(s[0]) + ConcatMap(s[1..], f)
  }

  lemma {:induction false} ConcatMapAppend(a: string, b: string, f: char -> string)
    ensures ConcatMap(a + b, f) == ConcatMap(a, f) + ConcatMap(b, f)
    decreases |a|
  {
    if a == [] {
      assert a + b == b;
    } else {
      ConcatMapAppend(a[1..], b, f);
      assert (a + b)[0] == a[0] && (a + b)[1..] == a[1..] + b;
    }
  }

  /** `encodeURIComponent(s)`. */
  function Encode(s: string): string
  {
    ConcatMap(s, EncodeChar)
  }

  /** Only unescaped characters and '%' appear in an encoding, so it never holds '&', '=', '#', '?' or a space. */
  lemma {:induction false} EncodeIsSafe(s: string)
    ensures forall i :: 0 <= i < |Encode(s)| ==> Encode(s)[i] == '%' || IsUnescaped(Encode(s)[i])
    decreases |s|
  {
    if s != [] {
      EncodeIsSafe(s[1..]);
      var e, r := EncodeChar(s[0]), Encode(s[1..]);
      assert e == Escape(Utf8(s[0])) || e == [s[0]];
      assert Encode(s) == e + r;
      forall i | 0 <= i < |e + r| ensures (e + r)[i] == '%' || IsUnescaped((e + r)[i]) {
        if i >= |e| {
          assert (e + r)[i] == r[i - |e|];
        }
      }
    }
  }

  /** A character that is neither '%' nor unescaped never occurs in an encoding. */
  lemma EncodeOmits(s: string, c: char)
    requires c != '%' && !IsUnescaped(c)
    ensures c !in Encode(s)
  {
    EncodeIsSafe(s);
  }

  /** A string made only of unescaped characters is copied unchanged. */
  lemma {:induction false} EncodeKeepsUnescaped(s: string)
    requires forall i :: 0 <= i < |s| ==> IsUnescaped(s[i])
    ensures Encode(s) == s
    decreases |s|
  {
    if s != [] {
      EncodeKeepsUnescaped(s[1..]);
      assert Encode(s) == [s[0]] + Encode(s[1..]);
      assert [s[0]] + s[1..] == s;
    }
  }

  /** Encoding works character by character, so it distributes over concatenation. */
  lemma EncodeAppend(a: string, b: string)
    ensures Encode(a + b) == Encode(a) + Encode(b)
  {
    ConcatMapAppend(a, b, EncodeChar);
  }

  /** A code point decoded from the escapes at the start of a string, with the number of characters they take. */
  datatype Decoded = Decoded(c: char, width: nat)

  /** Decodes the escape sequence at the start of `s`, which begins with '%'. */
  function DecodeEscape(s: string): (d: Option<Decoded>)
    requires s != [] && s[0] == '%'
    ensures d.Some? ==> 3 <= d.value.width <= |s|
  {
    if |s| < 3 || !IsHexDigit(s[1]) || !IsHexDigit(s[2]) then None
    else
      var n := SequenceLength(HexValue(s[1]) * 16 + HexValue(s[2]));
      if n == 0 || |s| < 3 * n then None
      else match Unescape(s[..3 * n])
        case None => None
        case Some(octets) =>
          match Utf8Decode(octets)
          case None => None
          case Some(c) => Some(Decoded(c, 3 * n))
  }

  /** `decodeURIComponent(s)`; None where it throws a URIError. */
  function Decode(s: string): Option<string>
    decreases |s|
  {
    if s == [] then Some([])
    else if s[0] != '%' then
      match Decode(s[1..])
      case None => None
      case Some(t) => Some([s[0]] + t)
    else
      match DecodeEscape(s)
      case None => None
      case Some(d) =>
        match Decode(s[d.width..])
        case None => None
        case Some(t) => Some([d.c] + t)
  }

  lemma DecodeEncodedChar(c: char, rest: string)
    ensures Decode(EncodeChar(c) + rest) ==
      match Decode(rest) case None => None case Some(t) => Some([c] + t)
  {
    var s := EncodeChar(c) + rest;
    if IsUnescaped(c) {
      assert s[1..] == rest;
    } else {
      var octets := Utf8(c);
      var n := |octets|;
      Utf8RoundTrip(c);
      EscapeRoundTrip(octets);
      var e := Escape(octets);
      assert e == ['%', HexDigit(octets[0] / 16), HexDigit(octets[0] % 16)] + Escape(octets[1..]);
      HexRoundTrip(octets[0] / 16);
      HexRoundTrip(octets[0] % 16);
      assert s[..3 * n] == e;
      assert s[3 * n..] == rest;
      assert DecodeEscape(s) == Some(Decoded(c, 3 * n));
    }
  }

  /** `decodeURIComponent(encodeURIComponent(s)) === s` for every string. */
  lemma {:induction false} DecodeEncode(s: string)
    ensures Decode(Encode(s)) == Some(s)
    decreases |s|
  {
    if s != [] {
      DecodeEncode(s[1..]);
      DecodeEncodedChar(s[0], Encode(s[1..]));
      assert [s[0]] + s[1..] == s;
    }
  }
}
