/**
 * `encodeURIComponent` and `decodeURIComponent` as ECMA-262 5.1 edition
 * defines them (section 15.1.3: the Encode and Decode operations, with the
 * unescaped set of section 15.1.3.4 and an empty reserved set), and the
 * decimal rendering of a theme id in a template string.
 *
 * A Dafny `char` is a Unicode scalar value, so a string here is a sequence of
 * code points: the UTF-16 surrogate handling of Encode has nothing to do.
 */
module UriComponent {
  import opened Wrappers

  /** The characters `encodeURIComponent` leaves as they are: uriAlpha, DecimalDigit and uriMark. */
  predicate IsUnescaped(c: char) {
    ('A' <= c <= 'Z') || ('a' <= c <= 'z') || ('0' <= c <= '9')
    || c == '-' || c == '_' || c == '.' || c == '!' || c == '~' || c == '*' || c == '\'' || c == '(' || c == ')'
  }

  predicate IsUpperHexDigit(c: char) {
    ('0' <= c <= '9') || ('A' <= c <= 'F')
  }

  /** The upper-case hexadecimal digit for `d`. */
  function HexDigit(d: nat): (c: char)
    requires d < 16
    ensures IsUpperHexDigit(c)
  {
    if d < 10 then (48 + d) as char else (55 + d) as char
  }

  /** The value of a hexadecimal digit of either case. */
  function HexValue(c: char): (r: Option<nat>)
    ensures r.Some? ==> r.value < 16
  {
    if '0' <= c <= '9' then Some(c as int - 48)
    else if 'A' <= c <= 'F' then Some(c as int - 55)
    else if 'a' <= c <= 'f' then Some(c as int - 87)
    else None
  }

  lemma HexRoundTrip(d: nat)
    requires d < 16
    ensures HexValue(HexDigit(d)) == Some(d)
  {
  }

  /** The UTF-8 octets of a code point (RFC 3629, as table 21 of ECMA-262 5.1 lays it out). */
  function Utf8(c: char): (octets: seq<nat>)
    ensures 1 <= |octets| <= 4
    ensures forall k | 0 <= k < |octets| :: octets[k] < 256
  {
    var n := c as int;
    if n < 0x80 then [n]
    else if n < 0x800 then [0xC0 + n / 64, 0x80 + n % 64]
    else if n < 0x10000 then [0xE0 + n / 4096, 0x80 + n / 64 % 64, 0x80 + n % 64]
    else [0xF0 + n / 262144, 0x80 + n / 4096 % 64, 0x80 + n / 64 % 64, 0x80 + n % 64]
  }

  /** `%XY` for each octet, with upper-case hexadecimal digits. */
  function Escapes(octets: seq<nat>): (r: string)
    requires forall k | 0 <= k < |octets| :: octets[k] < 256
    ensures |r| == 3 * |octets|
  {
    if octets == [] then []
    else ['%', HexDigit(octets[0] / 16), HexDigit(octets[0] % 16)] + Escapes(octets[1..])
  }

  function EncodeChar(c: char): (r: string)
  {
    if IsUnescaped(c) then [c] else Escapes(Utf8(c))
  }

  /** `encodeURIComponent(s)`. */
  function Encode(s: string): (r: string)
    ensures forall k | 0 <= k < |r| :: IsUnescaped(r[k]) || r[k] == '%' || IsUpperHexDigit(r[k])
  {
    if s == [] then []
    else
      EncodeCharAlphabet(s[0]);
      EncodeChar(s[0]) + Encode(s[1..])
  }

  lemma EncodeCharAlphabet(c: char)
    ensures forall k | 0 <= k < |EncodeChar(c)| :: var x := EncodeChar(c)[k]; IsUnescaped(x) || x == '%' || IsUpperHexDigit(x)
  {
    if !IsUnescaped(c) {
      EscapesAlphabet(Utf8(c));
    }
  }

  lemma {:induction false} EscapesAlphabet(octets: seq<nat>)
    requires forall k | 0 <= k < |octets| :: octets[k] < 256
    ensures forall k | 0 <= k < |Escapes(octets)| :: Escapes(octets)[k] == '%' || IsUpperHexDigit(Escapes(octets)[k])
  {
    if octets != [] {
      EscapesAlphabet(octets[1..]);
    }
  }

  /** What `encodeURIComponent` returns never holds a character that separates parts of a URL. */
  lemma EncodeHasNoDelimiters(s: string)
    ensures forall k | 0 <= k < |Encode(s)| :: Encode(s)[k] !in {'/', '?', '&', '#', '=', ':'}
  {
  }

  /** A string of unescaped characters is its own encoding. */
  lemma {:induction false} EncodeUnescaped(s: string)
    requires forall k | 0 <= k < |s| :: IsUnescaped(s[k])
    ensures Encode(s) == s
  {
    if s != [] {
      EncodeUnescaped(s[1..]);
      assert s == [s[0]] + s[1..];
    }
  }

  /** The octet that `%XY` at the start of `s` stands for. */
  function EscapeAt(s: string): (r: Option<nat>)
    ensures r.Some? ==> r.value < 256
  {
    if |s| >= 3 && s[0] == '%' then
      match (HexValue(s[1]), HexValue(s[2]))
      case (Some(hi), Some(lo)) => Some(16 * hi + lo)
      case _ => None
    else None
  }

  /** `n` consecutive escapes at the start of `s`. */
  function EscapesAt(s: string, n: nat): (r: Option<seq<nat>>)
    ensures r.Some? ==> |r.value| == n && 3 * n <= |s|
    decreases n
  {
    if n == 0 then Some([])
    else
      match EscapeAt(s)
      case None => None
      case Some(b) =>
        match EscapesAt(s[3..], n - 1)
        case None => None
        case Some(bs) => Some([b] + bs)
  }

  /** How many octets a UTF-8 sequence with this leading octet has; 0 if it cannot lead one. */
  function SequenceLength(b: nat): nat
  {
    if b < 0x80 then 1
    else if 0xC0 <= b < 0xE0 then 2
    else if 0xE0 <= b < 0xF0 then 3
    else if 0xF0 <= b < 0xF8 then 4
    else 0
  }

  predicate IsContinuation(b: nat) {
    0x80 <= b < 0xC0
  }

  /** The code point a UTF-8 sequence encodes, or None if it is not a valid encoding of one. */
  function Utf8Decode(octets: seq<nat>): (r: Option<char>)
  {
    if |octets| == 1 && octets[0] < 0x80 then Some(octets[0] as char)
    else if |octets| == 2 && 0xC0 <= octets[0] < 0xE0 && IsContinuation(octets[1]) then
      var v := (octets[0] - 0xC0) * 64 + (octets[1] - 0x80);
      if v < 0x80 then None else Some(v as char)
    else if |octets| == 3 && 0xE0 <= octets[0] < 0xF0 && IsContinuation(octets[1]) && IsContinuation(octets[2]) then
      var v := (octets[0] - 0xE0) * 4096 + (octets[1] - 0x80) * 64 + (octets[2] - 0x80);
      if v < 0x800 || (0xD800 <= v <= 0xDFFF) then None else Some(v as char)
    else if |octets| == 4 && 0xF0 <= octets[0] < 0xF8 && IsContinuation(octets[1]) && IsContinuation(octets[2]) && IsContinuation(octets[3]) then
      var v := (octets[0] - 0xF0) * 262144 + (octets[1] - 0x80) * 4096 + (octets[2] - 0x80) * 64 + (octets[3] - 0x80);
      if v < 0x10000 || v > 0x10FFFF then None else Some(v as char)
    else None
  }

  /** `decodeURIComponent(s)`, with None where it throws a URIError. */
  function Decode(s: string): (r: Option<string>)
    decreases |s|
  {
    if s == [] then Some([])
    else if s[0] != '%' then
      match Decode(s[1..])
      case None => None
      case Some(rest) => Some([s[0]] + rest)
    else
      match EscapeAt(s)
      case None => None
      case Some(b) =>
        var n := SequenceLength(b);
        if n == 0 then None
        else
          match EscapesAt(s, n)
          case None => None
          case Some(octets) =>
            match Utf8Decode(octets)
            case None => None
            case Some(c) =>
              match Decode(s[3 * n..])
              case None => None
              case Some(rest) => Some([c] + rest)
  }

  lemma Utf8RoundTrip(c: char)
    ensures SequenceLength(Utf8(c)[0]) == |Utf8(c)|
    ensures forall k | 1 <= k < |Utf8(c)| :: IsContinuation(Utf8(c)[k])
    ensures Utf8Decode(Utf8(c)) == Some(c)
  {
    var n := c as int;
    if n < 0x80 {
    } else if n < 0x800 {
      Utf8RoundTrip2(c);
    } else if n < 0x10000 {
      Utf8RoundTrip3(c);
    } else {
      Utf8RoundTrip4(c);
    }
  }

  lemma Utf8RoundTrip2(c: char)
    requires 0x80 <= c as int < 0x800
    ensures var o := Utf8(c); |o| == 2 && 0xC0 <= o[0] < 0xE0 && IsContinuation(o[1])
    ensures Utf8Decode(Utf8(c)) == Some(c)
  {
    var n := c as int;
    var q, r := n / 64, n % 64;
    assert n == 64 * q + r;
    assert Utf8(c) == [0xC0 + q, 0x80 + r];
  }

  lemma Utf8RoundTrip3(c: char)
    requires 0x800 <= c as int < 0x10000
    ensures var o := Utf8(c); |o| == 3 && 0xE0 <= o[0] < 0xF0 && IsContinuation(o[1]) && IsContinuation(o[2])
    ensures Utf8Decode(Utf8(c)) == Some(c)
  {
    var n := c as int;
    var q1, r0 := n / 64, n % 64;
    var q2, r1 := q1 / 64, q1 % 64;
    assert n == 64 * q1 + r0 && q1 == 64 * q2 + r1;
    assert n / 4096 == q2;
    assert Utf8(c) == [0xE0 + q2, 0x80 + r1, 0x80 + r0];
    assert q2 * 4096 + r1 * 64 + r0 == n;
  }

  lemma Utf8RoundTrip4(c: char)
    requires 0x10000 <= c as int
    ensures var o := Utf8(c); |o| == 4 && 0xF0 <= o[0] < 0xF8 && IsContinuation(o[1]) && IsContinuation(o[2]) && IsContinuation(o[3])
    ensures Utf8Decode(Utf8(c)) == Some(c)
  {
    var n := c as int;
    var q1, r0 := n / 64, n % 64;
    var q2, r1 := q1 / 64, q1 % 64;
    var q3, r2 := q2 / 64, q2 % 64;
    assert n == 64 * q1 + r0 && q1 == 64 * q2 + r1 && q2 == 64 * q3 + r2;
    assert n / 4096 == q2 && n / 262144 == q3;
    assert n / 4096 % 64 == r2;
    assert Utf8(c) == [0xF0 + q3, 0x80 + r2, 0x80 + r1, 0x80 + r0];
    assert q3 * 262144 + r2 * 4096 + r1 * 64 + r0 == n;
  }

  lemma {:induction false} EscapesRoundTrip(octets: seq<nat>, rest: string)
    requires forall k | 0 <= k < |octets| :: octets[k] < 256
    ensures EscapesAt(Escapes(octets) + rest, |octets|) == Some(octets)
  {
    if octets != [] {
      var b := octets[0];
      var s := Escapes(octets) + rest;
      HexRoundTrip(b / 16);
      HexRoundTrip(b % 16);
      assert s[0] == '%' && s[1] == HexDigit(b / 16) && s[2] == HexDigit(b % 16);
      assert EscapeAt(s) == Some(b);
      assert s[3..] == Escapes(octets[1..]) + rest;
      EscapesRoundTrip(octets[1..], rest);
      assert [b] + octets[1..] == octets;
    }
  }

  lemma EncodeCharRoundTrip(c: char, rest: string)
    ensures Decode(EncodeChar(c) + rest) == match Decode(rest) case None => None case Some(t) => Some([c] + t)
  {
    var s := EncodeChar(c) + rest;
    if IsUnescaped(c) {
      assert s[0] == c && s[1..] == rest;
    } else {
      var octets := Utf8(c);
      Utf8RoundTrip(c);
      EscapesRoundTrip(octets, rest);
      HexRoundTrip(octets[0] / 16);
      HexRoundTrip(octets[0] % 16);
      assert EscapeAt(s) == Some(octets[0]);
      assert s[3 * |octets|..] == rest;
    }
  }

  /** `decodeURIComponent(encodeURIComponent(s)) == s`. */
  lemma {:induction false} DecodeEncode(s: string)
    ensures Decode(Encode(s)) == Some(s)
  {
    if s != [] {
      DecodeEncode(s[1..]);
      EncodeCharRoundTrip(s[0], Encode(s[1..]));
      assert [s[0]] + s[1..] == s;
    }
  }

  /** The decimal digits of `n`, as a number is converted in a template string. */
  function DecimalText(n: nat): (r: string)
    ensures |r| > 0
    ensures forall k | 0 <= k < |r| :: '0' <= r[k] <= '9'
    ensures r[0] != '0' || n == 0
  {
    if n < 10 then [(48 + n) as char] else DecimalText(n / 10) + [(48 + n % 10) as char]
  }

  /** The number a string of decimal digits denotes. */
  function DecimalValue(s: string): nat
    requires forall k | 0 <= k < |s| :: '0' <= s[k] <= '9'
  {
    if s == [] then 0 else 10 * DecimalValue(s[..|s| - 1]) + (s[|s| - 1] as int - 48)
  }

  lemma {:induction false} DecimalRoundTrip(n: nat)
    ensures DecimalValue(DecimalText(n)) == n
  {
    if n >= 10 {
      DecimalRoundTrip(n / 10);
      var r := DecimalText(n);
      assert r[..|r| - 1] == DecimalText(n / 10);
    }
  }
}
