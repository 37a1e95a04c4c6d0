/** base64url (section 5 of RFC 4648) as Python's `base64` module reads and writes it: the
    encoder pads, `rstrip` removes the padding, and the decoder skips characters outside the
    alphabet and stops at a complete padding. */
module Base64Url {
  import opened Prelude

  type Byte = b: int | 0 <= b < 256

  type Sextet = v: int | 0 <= v < 64

  function Symbol(v: Sextet): char {
    if v < 26 then 'A' + v as char
    else if v < 52 then 'a' + (v - 26) as char
    else if v < 62 then '0' + (v - 52) as char
    else if v == 62 then '-' else '_'
  }

  /** `urlsafe_b64decode` maps '-' and '_' to '+' and '/' before it looks symbols up, so it reads
      both alphabets. */
  function Value(c: char): Option<Sextet> {
    if 'A' <= c <= 'Z' then Some(c as int - 'A' as int)
    else if 'a' <= c <= 'z' then Some(c as int - 'a' as int + 26)
    else if '0' <= c <= '9' then Some(c as int - '0' as int + 52)
    else if c == '-' || c == '+' then Some(62)
    else if c == '_' || c == '/' then Some(63)
    else None
  }

  /** Three bytes make four sextets; one or two bytes at the end make two or three. */
  function Sextets(b: seq<Byte>): seq<Sextet> {
    if |b| == 0 then []
    else if |b| == 1 then [b[0] / 4, b[0] % 4 * 16]
    else if |b| == 2 then [b[0] / 4, b[0] % 4 * 16 + b[1] / 16, b[1] % 16 * 4]
    else Group(b[0], b[1], b[2]) + Sextets(b[3..])
  }

  function Text(vs: seq<Sextet>): string {
    seq(|vs|, i requires 0 <= i < |vs| => Symbol(vs[i]))
  }

  /** `"=" * (-n % 4)`; Python's `%` takes the sign of the divisor. */
  function Padding(n: nat): string {
    seq((4 - n % 4) % 4, i => '=')
  }

  function EncodePadded(b: seq<Byte>): string {
    Text(Sextets(b)) + Padding(|Sextets(b)|)
  }

  /** `rstrip(b"=")`. */
  function Strip(s: string): string {
    if s != "" && s[|s| - 1] == '=' then Strip(s[..|s| - 1]) else s
  }

  function Encode(b: seq<Byte>): string { Strip(EncodePadded(b)) }

  /** The decoder's registers: `quad` symbols of the current group have been read, `left` holds
      their bits not yet emitted. */
  datatype Acc = Acc(quad: nat, left: nat, out: seq<Byte>)

  predicate Sound(a: Acc) {
    a.quad < 4 && a.left < 64 && (a.quad == 2 ==> a.left < 16) && (a.quad == 3 ==> a.left < 4)
  }

  function Push(a: Acc, v: Sextet): (r: Acc)
    requires Sound(a)
    ensures Sound(r) && r.quad == (a.quad + 1) % 4
  {
    match a.quad
    case 0 => Acc(1, v, a.out)
    case 1 => Acc(2, v % 16, a.out + [a.left * 4 + v / 16])
    case 2 => Acc(3, v % 4, a.out + [a.left * 16 + v / 4])
    case _ => Acc(0, 0, a.out + [a.left * 64 + v])
  }

  /** `binascii.a2b_base64` in its lenient mode; `None` is `binascii.Error`. */
  function Scan(s: string, a: Acc, pads: nat): Option<seq<Byte>>
    requires Sound(a)
  {
    if s == "" then if a.quad == 0 then Some(a.out) else None
    else if s[0] == '=' then
      if a.quad >= 2 && a.quad + pads + 1 >= 4 then Some(a.out)
      else Scan(s[1..], a, if a.quad >= 2 then pads + 1 else pads)
    else
      match Value(s[0])
      case None => Scan(s[1..], a, pads)
      case Some(v) => Scan(s[1..], Push(a, v), 0)
  }

  /** `urlsafe_b64decode(c + pad)`. */
  function Decode(c: string): Option<seq<Byte>> {
    Scan(c + Padding(|c|), Acc(0, 0, []), 0)
  }

  lemma ValueOfSymbol(v: Sextet)
    ensures Value(Symbol(v)) == Some(v) && Symbol(v) != '='
  {
  }

  function PushAll(a: Acc, vs: seq<Sextet>): (r: Acc)
    requires Sound(a)
    ensures Sound(r) && r.quad == (a.quad + |vs|) % 4
    decreases |vs|
  {
    if vs == [] then a else PushAll(Push(a, vs[0]), vs[1..])
  }

  lemma PushNone(a: Acc)
    requires Sound(a)
    ensures PushAll(a, []) == a
  {
  }

  lemma PushOne(a: Acc, v: Sextet, rest: seq<Sextet>)
    requires Sound(a)
    ensures PushAll(a, [v] + rest) == PushAll(Push(a, v), rest)
  {
    assert ([v] + rest)[1..] == rest;
  }

  lemma PushTwo(a: Acc, x: Sextet, y: Sextet, rest: seq<Sextet>)
    requires Sound(a)
    ensures PushAll(a, [x, y] + rest) == PushAll(Push(Push(a, x), y), rest)
  {
    hide PushAll, Push;
    assert [x, y] + rest == [x] + ([y] + rest);
    PushOne(a, x, [y] + rest);
    PushOne(Push(a, x), y, rest);
  }

  lemma PushFour(a: Acc, w: Sextet, x: Sextet, y: Sextet, z: Sextet, rest: seq<Sextet>)
    requires Sound(a)
    ensures PushAll(a, [w, x, y, z] + rest) == PushAll(Push(Push(Push(Push(a, w), x), y), z), rest)
    ensures PushAll(a, [w, x]) == Push(Push(a, w), x)
    ensures PushAll(a, [w, x, y]) == Push(Push(Push(a, w), x), y)
  {
    hide PushAll, Push;
    var a2 := Push(Push(a, w), x);
    assert [w, x, y, z] + rest == [w, x] + ([y, z] + rest);
    PushTwo(a, w, x, [y, z] + rest);
    PushTwo(a2, y, z, rest);
    assert [w, x] + [] == [w, x];
    PushTwo(a, w, x, []);
    PushNone(a2);
    assert [w, x, y] == [w, x] + [y];
    PushTwo(a, w, x, [y]);
    assert [y] + [] == [y];
    PushOne(a2, y, []);
    PushNone(Push(a2, y));
  }

  function Group(b0: Byte, b1: Byte, b2: Byte): seq<Sextet> {
    [b0 / 4, b0 % 4 * 16 + b1 / 16, b1 % 16 * 4 + b2 / 64, b2 % 64]
  }

  /** What the registers hold as the four sextets of one group come in. */
  lemma GroupRegisters(out: seq<Byte>, b0: Byte, b1: Byte, b2: Byte)
    ensures var g := Group(b0, b1, b2);
            && |g| == 4
            && Push(Acc(0, 0, out), g[0]) == Acc(1, b0 / 4, out)
            && Push(Acc(1, b0 / 4, out), g[1]) == Acc(2, b1 / 16, out + [b0])
            && Push(Acc(2, b1 / 16, out + [b0]), g[2]) == Acc(3, b2 / 64, out + [b0] + [b1])
            && Push(Acc(3, b2 / 64, out + [b0] + [b1]), g[3]) == Acc(0, 0, out + [b0] + [b1] + [b2])
  {
  }

  lemma PushGroup(out: seq<Byte>, b0: Byte, b1: Byte, b2: Byte, rest: seq<Sextet>)
    ensures PushAll(Acc(0, 0, out), Group(b0, b1, b2) + rest) == PushAll(Acc(0, 0, out + [b0] + [b1] + [b2]), rest)
    ensures PushAll(Acc(0, 0, out), Group(b0, b1, b2)[..2]).out == out + [b0]
    ensures PushAll(Acc(0, 0, out), Group(b0, b1, b2)[..3]).out == out + [b0] + [b1]
  {
    hide PushAll, Push, Group;
    var g := Group(b0, b1, b2);
    GroupRegisters(out, b0, b1, b2);
    assert g == [g[0], g[1], g[2], g[3]] && g[..2] == [g[0], g[1]] && g[..3] == [g[0], g[1], g[2]];
    PushFour(Acc(0, 0, out), g[0], g[1], g[2], g[3], rest);
  }

  /** One or two bytes at the end are a group cut short. */
  lemma CutGroup(b0: Byte, b1: Byte)
    ensures Group(b0, 0, 0)[..2] == [b0 / 4, b0 % 4 * 16]
    ensures Group(b0, b1, 0)[..3] == [b0 / 4, b0 % 4 * 16 + b1 / 16, b1 % 16 * 4]
  {
  }

  lemma CutSextets(b: seq<Byte>)
    requires |b| == 1 || |b| == 2
    ensures |b| == 1 ==> Sextets(b) == Group(b[0], 0, 0)[..2]
    ensures |b| == 2 ==> Sextets(b) == Group(b[0], b[1], 0)[..3]
  {
    hide Group;
    CutGroup(b[0], if |b| == 2 then b[1] else 0);
  }

  lemma PushOneByte(b: seq<Byte>, out: seq<Byte>)
    requires |b| == 1
    ensures PushAll(Acc(0, 0, out), Sextets(b)).out == out + b
  {
    hide PushAll, Group, Sextets;
    CutSextets(b);
    PushGroup(out, b[0], 0, 0, []);
    assert b == [b[0]];
  }

  lemma PushTwoBytes(b: seq<Byte>, out: seq<Byte>)
    requires |b| == 2
    ensures PushAll(Acc(0, 0, out), Sextets(b)).out == out + b
  {
    hide PushAll, Group, Sextets;
    CutSextets(b);
    PushGroup(out, b[0], b[1], 0, []);
    assert out + b == out + [b[0]] + [b[1]];
  }

  lemma NoSextets(b: seq<Byte>, out: seq<Byte>)
    requires b == []
    ensures PushAll(Acc(0, 0, out), Sextets(b)).out == out + b
  {
  }

  /** The sextets carry the bytes. */
  lemma {:induction false} PushSextets(b: seq<Byte>, out: seq<Byte>)
    ensures PushAll(Acc(0, 0, out), Sextets(b)).out == out + b
  {
    hide PushAll, Group;
    if |b| == 0 {
      NoSextets(b, out);
    } else if |b| == 1 {
      PushOneByte(b, out);
    } else if |b| == 2 {
      PushTwoBytes(b, out);
    } else {
      PushGroup(out, b[0], b[1], b[2], Sextets(b[3..]));
      PushSextets(b[3..], out + [b[0]] + [b[1]] + [b[2]]);
      assert out + [b[0]] + [b[1]] + [b[2]] + b[3..] == out + b;
    }
  }

  lemma {:induction false} SextetsLength(b: seq<Byte>)
    ensures |Sextets(b)| % 4 != 1
  {
    if |b| > 2 {
      SextetsLength(b[3..]);
    }
  }

  lemma {:induction false} StripPadding(text: string, pad: string)
    requires (text == "" || text[|text| - 1] != '=') && forall i :: 0 <= i < |pad| ==> pad[i] == '='
    ensures Strip(text + pad) == text
  {
    if pad == "" {
      assert text + pad == text;
    } else {
      assert (text + pad)[..|text + pad| - 1] == text + pad[..|pad| - 1];
      StripPadding(text, pad[..|pad| - 1]);
    }
  }

  /** `Encode` yields the bare symbols, and the recomputed padding restores the padded text, whose
      length is a multiple of 4. */
  lemma PaddingRestored(b: seq<Byte>)
    ensures Encode(b) == Text(Sextets(b))
    ensures Encode(b) + Padding(|Encode(b)|) == EncodePadded(b) && |EncodePadded(b)| % 4 == 0
    ensures forall i :: 0 <= i < |Encode(b)| ==> Value(Encode(b)[i]).Some?
  {
    var vs := Sextets(b);
    TextSymbols(vs);
    StripPadding(Text(vs), Padding(|vs|));
    PaddedLength(|vs|);
  }

  lemma PaddedLength(n: nat)
    ensures (n + |Padding(n)|) % 4 == 0
  {
  }

  lemma TextSymbols(vs: seq<Sextet>)
    ensures forall i :: 0 <= i < |vs| ==> Value(Text(vs)[i]) == Some(vs[i]) && Text(vs)[i] != '='
  {
    forall i | 0 <= i < |vs| ensures Value(Text(vs)[i]) == Some(vs[i]) && Text(vs)[i] != '=' { ValueOfSymbol(vs[i]); }
  }

  /** Reading symbols pushes their sextets. */
  lemma {:induction false} ScanSymbols(c: string, vs: seq<Sextet>, a: Acc, pad: string)
    requires Sound(a) && |c| == |vs| && forall i :: 0 <= i < |c| ==> Value(c[i]) == Some(vs[i])
    ensures Scan(c + pad, a, 0) == Scan(pad, PushAll(a, vs), 0)
  {
    if c == "" {
      assert c + pad == pad && vs == [];
    } else {
      assert (c + pad)[0] == c[0] && (c + pad)[1..] == c[1..] + pad;
      ScanSymbols(c[1..], vs[1..], Push(a, vs[0]), pad);
    }
  }

  /** Padding completes a group of two or three symbols, not a group of one. */
  lemma ScanPadding(a: Acc)
    requires Sound(a)
    ensures Scan(Padding(a.quad), a, 0) == if a.quad == 1 then None else Some(a.out)
  {
    var pad := Padding(a.quad);
    if a.quad == 1 {
      assert pad == "===" && pad[1..] == "==" && "=="[1..] == "=" && "="[1..] == "";
      assert Scan("==", a, 0) == Scan("=", a, 0) == Scan("", a, 0);
    } else if a.quad == 2 {
      assert pad == "==" && pad[1..] == "=";
    } else {
      assert a.quad == 0 ==> pad == "";
      assert a.quad == 3 ==> pad == "=";
    }
  }

  /** Reading the bare symbols of some bytes and then their padding. */
  lemma ScanEncoded(b: seq<Byte>)
    ensures Scan(Text(Sextets(b)) + Padding(|Sextets(b)|), Acc(0, 0, []), 0) == Some(b)
  {
    hide Scan, Sextets, PushAll, Padding;
    var vs := Sextets(b);
    TextSymbols(vs);
    ScanSymbols(Text(vs), vs, Acc(0, 0, []), Padding(|vs|));
    SamePadding(|vs|);
    ScanPadding(PushAll(Acc(0, 0, []), vs));
    SextetsLength(b);
    PushSextets(b, []);
    assert [] + b == b;
  }

  lemma SamePadding(n: nat)
    ensures Padding(n) == Padding(n % 4)
  {
  }

  /** Round trip through the stripped form. */
  lemma RoundTrip(b: seq<Byte>)
    ensures Decode(Encode(b)) == Some(b)
  {
    hide Scan, Sextets, Padding, Encode;
    PaddingRestored(b);
    ScanEncoded(b);
  }

  /** A text made of symbols decodes exactly when its length is not 1 modulo 4. */
  lemma DecodesIff(c: string)
    requires forall i :: 0 <= i < |c| ==> Value(c[i]).Some?
    ensures Decode(c).Some? <==> |c| % 4 != 1
  {
    var vs := seq(|c|, i requires 0 <= i < |c| => Value(c[i]).value);
    ScanSymbols(c, vs, Acc(0, 0, []), Padding(|c|));
    ScanPadding(PushAll(Acc(0, 0, []), vs));
  }

  /** The alphabet of section 5 of RFC 4648. */
  lemma AlphabetIs()
    ensures [Symbol(0), Symbol(25), Symbol(26), Symbol(51), Symbol(52), Symbol(61), Symbol(62), Symbol(63)]
            == "AZaz09-_"
    ensures forall v: Sextet :: v < 63 && v !in {25, 51, 61, 62} ==> Symbol(v + 1) as int == Symbol(v) as int + 1
  {
  }
}
