/** ECMAScript `encodeURIComponent` (ECMA-262, section 19.2.6.5 in recent
    editions): every character outside the unreserved set is replaced by the
    percent-encoding (section 2.1 of RFC 3986, upper-case hexadecimal) of each
    byte of its UTF-8 encoding. The middleware uses it to build the
    `callbackUrl` query parameter. */
module UriComponent {
  import opened Common

  type Byte = x: int | 0 <= x < 256

  /** The characters `encodeURIComponent` leaves as they are: ASCII letters,
      decimal digits and `- _ . ! ~ * ' ( )`. */
  predicate IsUnreserved(c: char) {
    ('A' <= c <= 'Z') || ('a' <= c <= 'z') || ('0' <= c <= '9') ||
    c == '-' || c == '_' || c == '.' || c == '!' || c == '~' || c == '*' ||
    c == '\'' || c == '(' || c == ')'
  }

  /** The UTF-8 encoding of one Unicode scalar value (RFC 3629, section 3). */
  function Utf8(c: char): (bytes: seq<Byte>)
    ensures 1 <= |bytes| <= 4
    ensures |bytes| == 1 <==> c as int < 0x80
    ensures |bytes| == 1 ==> bytes[0] == c as int
    ensures forall i :: 1 <= i < |bytes| ==> 0x80 <= bytes[i] < 0xC0
  {
    var n := c as int;
    if n < 0x80 then [n]
    else if n < 0x800 then [0xC0 + n / 64, 0x80 + n % 64]
    else if n < 0x1_0000 then [0xE0 + n / 4096, 0x80 + (n / 64) % 64, 0x80 + n % 64]
    else [0xF0 + n / 262144, 0x80 + (n / 4096) % 64, 0x80 + (n / 64) % 64, 0x80 + n % 64]
  }

  /** The UTF-8 encoding of a whole string. */
  function Utf8String(s: string): seq<Byte> {
    if s == [] then [] else Utf8(s[0]) + Utf8String(s[1..])
  }

  /** The upper-case hexadecimal digit for `d`. */
  function HexDigit(d: int): (c: char)
    requires 0 <= d < 16
    ensures IsUnreserved(c)
    ensures HexValue(c) == Some(d)
  {
    if d < 10 then ('0' as int + d) as char else ('A' as int + d - 10) as char
  }

  /** `%XY` for one byte, upper-case hexadecimal. */
  function PercentByte(b: Byte): (t: string)
    ensures |t| == 3 && t[0] == '%' && IsUnreserved(t[1]) && IsUnreserved(t[2])
  {
    ['%', HexDigit(b / 16), HexDigit(b % 16)]
  }

  function PercentBytes(bs: seq<Byte>): (t: string)
    ensures |t| == 3 * |bs|
    ensures forall i :: 0 <= i < |t| ==> IsUnreserved(t[i]) || t[i] == '%'
  {
    if bs == [] then [] else PercentByte(bs[0]) + PercentBytes(bs[1..])
  }

  function EncodeChar(c: char): (t: string)
    ensures forall i :: 0 <= i < |t| ==> IsUnreserved(t[i]) || t[i] == '%'
  {
    if IsUnreserved(c) then [c] else PercentBytes(Utf8(c))
  }

  /** `encodeURIComponent(s)`. Its output is made of unreserved characters and
      `%` only, and it leaves a string of unreserved characters as it is. */
  function EncodeURIComponent(s: string): (t: string)
    ensures forall i :: 0 <= i < |t| ==> IsUnreserved(t[i]) || t[i] == '%'
    ensures (forall i :: 0 <= i < |s| ==> IsUnreserved(s[i])) ==> t == s
  {
    if s == [] then [] else EncodeChar(s[0]) + EncodeURIComponent(s[1..])
  }

  /** The value of an upper- or lower-case hexadecimal digit. */
  function HexValue(c: char): (v: Option<int>)
    ensures v.Some? ==> 0 <= v.value < 16
  {
    if '0' <= c <= '9' then Some(c as int - '0' as int)
    else if 'A' <= c <= 'F' then Some(c as int - 'A' as int + 10)
    else if 'a' <= c <= 'f' then Some(c as int - 'a' as int + 10)
    else None
  }

  function Prepend(bs: seq<Byte>, rest: Option<seq<Byte>>): Option<seq<Byte>> {
    if rest.Some? then Some(bs + rest.value) else None
  }

  lemma PrependPrepend(a: seq<Byte>, b: seq<Byte>, rest: Option<seq<Byte>>)
    ensures Prepend(a, Prepend(b, rest)) == Prepend(a + b, rest)
    ensures Prepend([], rest) == rest
  {
    if rest.Some? {
      assert a + (b + rest.value) == (a + b) + rest.value;
      assert [] + rest.value == rest.value;
    }
  }

  /** Percent-decoding to bytes (the first half of `decodeURIComponent`):
      `%XY` becomes the byte XY, an ASCII character becomes its code, and a
      malformed escape or a non-ASCII character is an error. */
  function PercentDecode(t: string): Option<seq<Byte>> {
    if t == [] then Some([])
    else if t[0] == '%' then
      if |t| >= 3 && HexValue(t[1]).Some? && HexValue(t[2]).Some? then
        Prepend([16 * HexValue(t[1]).value + HexValue(t[2]).value], PercentDecode(t[3..]))
      else None
    else if t[0] as int < 0x80 then Prepend([t[0] as int], PercentDecode(t[1..]))
    else None
  }

  lemma DecodePercentByte(b: Byte, rest: string)
    ensures PercentDecode(PercentByte(b) + rest) == Prepend([b], PercentDecode(rest))
  {
    var t := PercentByte(b) + rest;
    assert t[3..] == rest;
  }

  lemma {:induction false} DecodePercentBytes(bs: seq<Byte>, rest: string)
    ensures PercentDecode(PercentBytes(bs) + rest) == Prepend(bs, PercentDecode(rest))
  {
    if bs == [] {
      assert PercentBytes(bs) + rest == rest;
      PrependPrepend([], [], PercentDecode(rest));
    } else {
      var tail := PercentBytes(bs[1..]) + rest;
      assert PercentBytes(bs) + rest == PercentByte(bs[0]) + tail;
      DecodePercentByte(bs[0], tail);
      DecodePercentBytes(bs[1..], rest);
      PrependPrepend([bs[0]], bs[1..], PercentDecode(rest));
      assert [bs[0]] + bs[1..] == bs;
    }
  }

  lemma DecodeEncodeChar(c: char, rest: string)
    ensures PercentDecode(EncodeChar(c) + rest) == Prepend(Utf8(c), PercentDecode(rest))
  {
    if IsUnreserved(c) {
      assert (EncodeChar(c) + rest)[1..] == rest;
    } else {
      DecodePercentBytes(Utf8(c), rest);
    }
  }

  /** Round trip: percent-decoding the encoded component gives back exactly
      the UTF-8 bytes of the original string. */
  lemma {:induction false} DecodeEncode(s: string)
    ensures PercentDecode(EncodeURIComponent(s)) == Some(Utf8String(s))
  {
    if s != [] {
      DecodeEncodeChar(s[0], EncodeURIComponent(s[1..]));
      DecodeEncode(s[1..]);
    }
  }

  /** The encoded component never contains a character that would end the
      query parameter or start another part of the URL. */
  lemma NoUrlDelimiters(s: string, i: int)
    requires 0 <= i < |EncodeURIComponent(s)|
    ensures EncodeURIComponent(s)[i] !in {'/', '?', '#', '&', '=', ':', '+', ' '}
  {
    var c := EncodeURIComponent(s)[i];
    assert IsUnreserved(c) || c == '%';
  }

  lemma EncodeCons(c: char, s: string)
    ensures EncodeURIComponent([c] + s) == EncodeChar(c) + EncodeURIComponent(s)
  {
    assert ([c] + s)[1..] == s;
  }

  /** A single-segment path such as `/dashboard` is encoded as `%2F`
      followed by the segment, unchanged. */
  lemma EncodeSegmentPath(segment: string)
    requires forall i :: 0 <= i < |segment| ==> IsUnreserved(segment[i])
    ensures EncodeURIComponent(['/'] + segment) == "%2F" + segment
  {
    EncodeCons('/', segment);
    EncodeSlash();
  }

  /** `/` is reserved and encoded as its one UTF-8 byte, `%2F`. */
  lemma EncodeSlash()
    ensures EncodeChar('/') == "%2F"
  {
    assert !IsUnreserved('/');
    assert Utf8('/') == [0x2F];
    assert HexDigit(2) == '2' && HexDigit(15) == 'F';
    assert PercentBytes([0x2F]) == PercentByte(0x2F) + PercentBytes([]);
  }

  /** The instance the login redirect relies on: `/dashboard` becomes
      `%2Fdashboard`. */
  lemma EncodeDashboard(path: string)
    requires path == "/dashboard"
    ensures EncodeURIComponent(path) == "%2Fdashboard"
  {
    var segment := path[1..];
    assert path == ['/'] + segment && segment == "dashboard";
    assert forall i :: 0 <= i < |segment| ==> IsUnreserved(segment[i]);
    EncodeSegmentPath(segment);
    assert "%2F" + segment == "%2Fdashboard";
  }
}
