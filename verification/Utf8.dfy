/** UTF-8 (RFC 3629) as Python's strict codec writes and reads it. */
module Utf8 {
  import opened Prelude

  type Byte = b: int | 0 <= b < 256

  function EncodeChar(c: char): seq<Byte> {
    var n := c as int;
    if n < 0x80 then [n]
    else if n < 0x800 then [0xC0 + n / 64, 0x80 + n % 64]
    else if n < 0x10000 then [0xE0 + n / 64 / 64, 0x80 + n / 64 % 64, 0x80 + n % 64]
    else [0xF0 + n / 64 / 64 / 64, 0x80 + n / 64 / 64 % 64, 0x80 + n / 64 % 64, 0x80 + n % 64]
  }

  function Encode(s: string): seq<Byte> {
    if s == "" then [] else EncodeChar(s[0]) + Encode(s[1..])
  }

  predicate Continues(b: seq<Byte>, k: nat) {
    |b| >= k && forall i :: 1 <= i < k ==> 0x80 <= b[i] < 0xC0
  }

  function Tail(b: Byte): int { b as int - 0x80 }

  /** The first character and the number of bytes it takes: no overlong form, no surrogate, nothing
      past U+10FFFF. */
  function DecodeChar(b: seq<Byte>): (r: Option<(char, nat)>)
    requires b != []
    ensures r.Some? ==> 1 <= r.value.1 <= |b|
  {
    var b0 := b[0] as int;
    if b0 < 0x80 then Some((b0 as char, 1))
    else if 0xC2 <= b0 < 0xE0 && Continues(b, 2) then Some((((b0 - 0xC0) * 64 + Tail(b[1])) as char, 2))
    else if 0xE0 <= b0 < 0xF0 && Continues(b, 3) then
      var n := ((b0 - 0xE0) * 64 + Tail(b[1])) * 64 + Tail(b[2]);
      if 0x800 <= n < 0xD800 || 0xE000 <= n then Some((n as char, 3)) else None
    else if 0xF0 <= b0 < 0xF5 && Continues(b, 4) then
      var n := (((b0 - 0xF0) * 64 + Tail(b[1])) * 64 + Tail(b[2])) * 64 + Tail(b[3]);
      if 0x10000 <= n < 0x110000 then Some((n as char, 4)) else None
    else None
  }

  /** `raw.decode("utf-8")`; `None` is `UnicodeDecodeError`. */
  function Decode(b: seq<Byte>): Option<string> {
    if b == [] then Some("")
    else
      match DecodeChar(b)
      case None => None
      case Some((c, k)) =>
        match Decode(b[k..])
        case None => None
        case Some(rest) => Some([c] + rest)
  }

  lemma Split(n: int)
    ensures n == n / 64 * 64 + n % 64
  {
  }

  lemma Glue(x: int, y: int)
    requires 0 <= y < 64
    ensures (x * 64 + y) / 64 == x && (x * 64 + y) % 64 == y
  {
  }

  lemma CharRoundTrip(c: char, rest: seq<Byte>)
    ensures EncodeChar(c) != [] && DecodeChar(EncodeChar(c) + rest) == Some((c, |EncodeChar(c)|))
  {
    var n := c as int;
    if n < 0x800 {
      Short(c, rest);
    } else if n < 0x10000 {
      Three(c, rest);
    } else {
      Four(c, rest);
    }
  }

  lemma Short(c: char, rest: seq<Byte>)
    requires c as int < 0x800
    ensures EncodeChar(c) != [] && DecodeChar(EncodeChar(c) + rest) == Some((c, |EncodeChar(c)|))
  {
    Split(c as int);
    assert c as int as char == c;
  }

  lemma Three(c: char, rest: seq<Byte>)
    requires 0x800 <= c as int < 0x10000
    ensures EncodeChar(c) != [] && DecodeChar(EncodeChar(c) + rest) == Some((c, |EncodeChar(c)|))
  {
    Split(c as int);
    Split(c as int / 64);
    assert c as int as char == c;
  }

  lemma Four(c: char, rest: seq<Byte>)
    requires 0x10000 <= c as int
    ensures EncodeChar(c) != [] && DecodeChar(EncodeChar(c) + rest) == Some((c, |EncodeChar(c)|))
  {
    Split(c as int);
    Split(c as int / 64);
    Split(c as int / 64 / 64);
    assert c as int as char == c;
  }

  /** Decoding an encoded text gives the text. */
  lemma {:induction false} RoundTrip(s: string)
    ensures Decode(Encode(s)) == Some(s)
  {
    hide EncodeChar, DecodeChar;
    if s != "" {
      var rest := Encode(s[1..]);
      CharRoundTrip(s[0], rest);
      RoundTrip(s[1..]);
      assert (EncodeChar(s[0]) + rest)[|EncodeChar(s[0])|..] == rest;
      assert s == [s[0]] + s[1..];
    }
  }

  lemma CharOnlyOneWay(b: seq<Byte>)
    requires b != [] && DecodeChar(b).Some?
    ensures EncodeChar(DecodeChar(b).value.0) == b[..DecodeChar(b).value.1]
  {
    var k := DecodeChar(b).value.1;
    if k == 2 {
      TwoBytes(b);
    } else if k == 3 {
      ThreeBytes(b);
    } else if k == 4 {
      FourBytes(b);
    }
  }

  lemma TwoBytes(b: seq<Byte>)
    requires b != [] && DecodeChar(b).Some? && DecodeChar(b).value.1 == 2
    ensures EncodeChar(DecodeChar(b).value.0) == b[..2]
  {
    Glue(b[0] as int - 0xC0, Tail(b[1]));
  }

  lemma ThreeBytes(b: seq<Byte>)
    requires b != [] && DecodeChar(b).Some? && DecodeChar(b).value.1 == 3
    ensures EncodeChar(DecodeChar(b).value.0) == b[..3]
  {
    var x := b[0] as int - 0xE0;
    Glue(x, Tail(b[1]));
    Glue(x * 64 + Tail(b[1]), Tail(b[2]));
  }

  lemma FourBytes(b: seq<Byte>)
    requires b != [] && DecodeChar(b).Some? && DecodeChar(b).value.1 == 4
    ensures EncodeChar(DecodeChar(b).value.0) == b[..4]
  {
    var x := b[0] as int - 0xF0;
    Glue(x, Tail(b[1]));
    Glue(x * 64 + Tail(b[1]), Tail(b[2]));
    Glue((x * 64 + Tail(b[1])) * 64 + Tail(b[2]), Tail(b[3]));
  }

  /** Only the encoding of a text decodes to it. */
  lemma {:induction false} DecodesOnlyEncodings(b: seq<Byte>)
    requires Decode(b).Some?
    ensures Encode(Decode(b).value) == b
  {
    hide EncodeChar, DecodeChar;
    if b != [] {
      var (c, k) := DecodeChar(b).value;
      var rest := Decode(b[k..]).value;
      CharOnlyOneWay(b);
      DecodesOnlyEncodings(b[k..]);
      assert ([c] + rest)[1..] == rest;
      assert b == b[..k] + b[k..];
    }
  }

  lemma {:induction false} AsciiBytes(s: string)
    requires forall i :: 0 <= i < |s| ==> s[i] as int < 0x80
    ensures |Encode(s)| == |s| && forall i :: 0 <= i < |s| ==> Encode(s)[i] == s[i] as int
  {
    if s != "" {
      AsciiBytes(s[1..]);
      assert EncodeChar(s[0]) == [s[0] as int];
    }
  }

  /** A character of each length: U+00E9, U+20AC and U+1F600. */
  lemma WellKnownEncodings()
    ensures EncodeChar(0xE9 as char) == [0xC3, 0xA9]
    ensures EncodeChar(0x20AC as char) == [0xE2, 0x82, 0xAC]
    ensures EncodeChar(0x1F600 as char) == [0xF0, 0x9F, 0x98, 0x80]
  {
  }
}
