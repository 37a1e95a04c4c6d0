/** JSON (RFC 8259) as Python's `json` module writes it in compact form with sorted keys, and as
    it reads it. Numbers are kept as their tokens. */
module Json {
  import opened Prelude

  /** A Python string: code points, surrogates included. */
  type Point = c: int | 0 <= c < 0x110000

  type Text = seq<Point>

  function Points(s: string): (r: Text)
    ensures |r| == |s|
  {
    seq(|s|, i requires 0 <= i < |s| => s[i] as int)
  }

  lemma PointsInjective(s: string, t: string)
    requires Points(s) == Points(t)
    ensures s == t
  {
    forall i | 0 <= i < |s| ensures s[i] == t[i] {
      assert Points(s)[i] == Points(t)[i];
    }
  }

  datatype Json =
    | Null
    | Bool(b: bool)
    | Num(token: string)
    | Str(s: Text)
    | Arr(items: seq<Json>)
    | Obj(fields: map<Text, Json>)

  // ---------------------------------------------------------------------------------------
  // Writing
  // ---------------------------------------------------------------------------------------

  function HexDigit(n: nat): char
    requires n < 16
  {
    if n < 10 then '0' + n as char else 'a' + (n - 10) as char
  }

  function Hex4(n: nat): string
    requires n < 0x10000
  {
    [HexDigit(n / 4096), HexDigit(n / 256 % 16), HexDigit(n / 16 % 16), HexDigit(n % 16)]
  }

  predicate High(c: Point) { 0xD800 <= c < 0xDC00 }

  predicate Low(c: Point) { 0xDC00 <= c < 0xE000 }

  /** The code point a surrogate pair stands for. */
  function Join(h: Point, l: Point): Point
    requires High(h) && Low(l)
  {
    0x10000 + (h - 0xD800) * 1024 + (l - 0xDC00)
  }

  function HighOf(c: Point): Point
    requires c >= 0x10000
  {
    0xD800 + (c - 0x10000) / 1024
  }

  function LowOf(c: Point): Point
    requires c >= 0x10000
  {
    0xDC00 + (c - 0x10000) % 1024
  }

  /** `ensure_ascii` escapes everything outside ' '..'~', beyond U+FFFF as a surrogate pair. */
  function Escape(c: Point): string {
    if c == '"' as int then "\\\""
    else if c == '\\' as int then "\\\\"
    else if c == '\n' as int then "\\n"
    else if c == '\r' as int then "\\r"
    else if c == '\t' as int then "\\t"
    else if c == 8 then "\\b"
    else if c == 12 then "\\f"
    else if ' ' as int <= c <= '~' as int then [c as char]
    else if c < 0x10000 then "\\u" + Hex4(c)
    else "\\u" + Hex4(HighOf(c)) + "\\u" + Hex4(LowOf(c))
  }

  function EscapeAll(s: Text): string {
    if s == [] then "" else Escape(s[0]) + EscapeAll(s[1..])
  }

  function Quoted(s: Text): string {
    "\"" + EscapeAll(s) + "\""
  }

  /** What reading back an escaped string gives: two surrogates side by side become one character. */
  function Joined(s: Text): Text {
    if |s| >= 2 && High(s[0]) && Low(s[1]) then [Join(s[0], s[1])] + Joined(s[2..])
    else if s == [] then []
    else [s[0]] + Joined(s[1..])
  }

  /** No high surrogate with a low one behind it. Text that comes from UTF-8 has no surrogates at all. */
  predicate Proper(s: Text) {
    forall i :: 0 <= i < |s| - 1 ==> !(High(s[i]) && Low(s[i + 1]))
  }

  const MAX_INT_DIGITS := 4300

  /** An integer too long for `int`, both ways. */
  predicate TooLong(token: string) {
    var digits := if token != "" && token[0] == '-' then token[1..] else token;
    |digits| > MAX_INT_DIGITS && Digits(digits) == |digits|
  }

  predicate IsConstant(token: string) {
    token == "NaN" || token == "Infinity" || token == "-Infinity"
  }

  /** Values the writer can produce and the reader accepts: proper strings, number tokens of the JSON
      grammar, and the three constants Python adds. */
  predicate Printable(v: Json) {
    match v
    case Null => true
    case Bool(_) => true
    case Num(token) => IsConstant(token) || (token != "" && NumberLength(token) == |token| && !TooLong(token))
    case Str(s) => Proper(s)
    case Arr(items) => forall i :: 0 <= i < |items| ==> Printable(items[i])
    case Obj(fields) => forall k :: k in fields ==> Proper(k) && Printable(fields[k])
  }

  predicate Leq(a: Text, b: Text) {
    a == [] || (b != [] && (a[0] < b[0] || (a[0] == b[0] && Leq(a[1..], b[1..]))))
  }

  ghost predicate IsLeast(keys: set<Text>, k: Text) {
    k in keys && forall o :: o in keys ==> Leq(k, o)
  }

  ghost function SortedKeys(keys: set<Text>): (r: seq<Text>)
    ensures forall k :: k in keys <==> k in r
    decreases |keys|
  {
    if keys == {} then []
    else
      LeastExists(keys);
      var k :| IsLeast(keys, k);
      [k] + SortedKeys(keys - {k})
  }

  ghost function Print(v: Json): string
    requires Printable(v)
    decreases v, 2, 0
  {
    match v
    case Null => "null"
    case Bool(b) => if b then "true" else "false"
    case Num(token) => token
    case Str(s) => Quoted(s)
    case Arr(items) => if items == [] then "[]" else "[" + PrintItems(v, 0) + "]"
    case Obj(fields) => if fields == map[] then "{}" else "{" + PrintFields(v, SortedKeys(fields.Keys)) + "}"
  }

  ghost function PrintItems(v: Json, i: nat): string
    requires v.Arr? && Printable(v) && i < |v.items|
    decreases v, 1, |v.items| - i
  {
    Print(v.items[i]) + if i + 1 == |v.items| then "" else "," + PrintItems(v, i + 1)
  }

  /** The members of an object in the given key order. */
  ghost function PrintFields(v: Json, keys: seq<Text>): string
    requires v.Obj? && Printable(v) && keys != [] && forall k :: k in keys ==> k in v.fields
    decreases v, 1, |keys|
  {
    Quoted(keys[0]) + ":" + Print(v.fields[keys[0]])
    + if |keys| == 1 then "" else "," + PrintFields(v, keys[1..])
  }

  // ---------------------------------------------------------------------------------------
  // Reading
  // ---------------------------------------------------------------------------------------

  type Parsed<T> = Option<(T, string)>

  predicate IsSpace(c: char) { c == ' ' || c == '\t' || c == '\n' || c == '\r' }

  function Ws(s: string): (r: string)
    ensures |r| <= |s|
  {
    if s != "" && IsSpace(s[0]) then Ws(s[1..]) else s
  }

  function HexValue(c: char): Option<nat> {
    if '0' <= c <= '9' then Some(c as int - '0' as int)
    else if 'a' <= c <= 'f' then Some(c as int - 'a' as int + 10)
    else if 'A' <= c <= 'F' then Some(c as int - 'A' as int + 10)
    else None
  }

  /** The code unit of a `\u` escape. */
  function ReadHex4(s: string): Option<Point> {
    if |s| < 4 then None
    else
      match (HexValue(s[0]), HexValue(s[1]), HexValue(s[2]), HexValue(s[3]))
      case (Some(a), Some(b), Some(c), Some(d)) => if a < 16 && b < 16 && c < 16 && d < 16
        then Some(a * 4096 + b * 256 + c * 16 + d) else None
      case _ => None
  }

  function Unescape(c: char): Option<char> {
    if c == '"' || c == '\\' || c == '/' then Some(c)
    else if c == 'n' then Some('\n')
    else if c == 'r' then Some('\r')
    else if c == 't' then Some('\t')
    else if c == 'b' then Some(8 as char)
    else if c == 'f' then Some(12 as char)
    else None
  }

  function Cons(c: Point, rest: Parsed<Text>): Parsed<Text> {
    match rest
    case Some((s, r)) => Some(([c] + s, r))
    case None => None
  }

  /** The low surrogate that an escape at the start of `s` stands for, if it does. */
  function LowAhead(s: string): (r: Option<Point>)
    ensures r.Some? ==> |s| >= 6 && Low(r.value)
  {
    if |s| >= 6 && s[0] == '\\' && s[1] == 'u' && ReadHex4(s[2..]).Some? && Low(ReadHex4(s[2..]).value)
    then ReadHex4(s[2..])
    else None
  }

  /** The rest of a string literal, after its opening quote. A high surrogate takes a low one that
      follows it. */
  function ReadString(s: string): (r: Parsed<Text>)
    ensures r.Some? ==> |r.value.1| < |s|
  {
    if s == "" then None
    else if s[0] == '"' then Some(([], s[1..]))
    else if s[0] == '\\' then
      if |s| == 1 then None
      else if s[1] == 'u' then
        match ReadHex4(s[2..])
        case None => None
        case Some(c) =>
          if High(c) && LowAhead(s[6..]).Some? then Cons(Join(c, LowAhead(s[6..]).value), ReadString(s[12..]))
          else Cons(c, ReadString(s[6..]))
      else
        match Unescape(s[1])
        case Some(c) => Cons(c as int, ReadString(s[2..]))
        case None => None
    else if s[0] < ' ' then None
    else Cons(s[0] as int, ReadString(s[1..]))
  }

  predicate IsDigit(c: char) { '0' <= c <= '9' }

  function Digits(s: string): (n: nat)
    ensures n <= |s|
  {
    if s != "" && IsDigit(s[0]) then 1 + Digits(s[1..]) else 0
  }

  function FractionLength(s: string): (n: nat)
    ensures n <= |s|
  {
    if |s| >= 2 && s[0] == '.' && IsDigit(s[1]) then 1 + Digits(s[1..]) else 0
  }

  function SignLength(s: string): (n: nat)
    requires s != ""
    ensures 1 <= n <= |s|
  {
    if |s| >= 2 && (s[1] == '+' || s[1] == '-') then 2 else 1
  }

  function ExponentLength(s: string): (n: nat)
    ensures n <= |s|
  {
    if s == "" || (s[0] != 'e' && s[0] != 'E') then 0
    else
      var sign := SignLength(s);
      if Digits(s[sign..]) == 0 then 0 else sign + Digits(s[sign..])
  }

  /** The length of the number token `s` starts with, 0 if there is none. */
  function NumberLength(s: string): (n: nat)
    ensures n <= |s|
  {
    if s != "" && s[0] == '-' then
      if UnsignedLength(s[1..]) == 0 then 0 else 1 + UnsignedLength(s[1..])
    else UnsignedLength(s)
  }

  function UnsignedLength(s: string): (n: nat)
    ensures n <= |s|
  {
    if s == "" || !IsDigit(s[0]) then 0
    else
      var i := if s[0] == '0' then 1 else Digits(s);
      i + SuffixLength(s[i..])
  }

  /** The fraction and the exponent, both optional. */
  function SuffixLength(s: string): (n: nat)
    ensures n <= |s|
  {
    FractionLength(s) + ExponentLength(s[FractionLength(s)..])
  }

  function ReadValue(s: string): (r: Parsed<Json>)
    ensures r.Some? ==> |r.value.1| < |s|
    decreases |s|, 1
  {
    if s == "" then None
    else if s[0] == '"' then
      match ReadString(s[1..])
      case Some((t, rest)) => Some((Str(t), rest))
      case None => None
    else if s[0] == '[' then
      var t := Ws(s[1..]);
      if t != "" && t[0] == ']' then Some((Arr([]), t[1..]))
      else
        match ReadItems(t)
        case Some((items, rest)) => Some((Arr(items), rest))
        case None => None
    else if s[0] == '{' then
      var t := Ws(s[1..]);
      if t != "" && t[0] == '}' then Some((Obj(map[]), t[1..]))
      else
        match ReadFields(t)
        case Some((fields, rest)) => Some((Obj(fields), rest))
        case None => None
    else if "null" <= s then Some((Null, s[4..]))
    else if "true" <= s then Some((Bool(true), s[4..]))
    else if "false" <= s then Some((Bool(false), s[5..]))
    else if "NaN" <= s then Some((Num("NaN"), s[3..]))
    else if "Infinity" <= s then Some((Num("Infinity"), s[8..]))
    else if "-Infinity" <= s then Some((Num("-Infinity"), s[9..]))
    else
      var n := NumberLength(s);
      if n == 0 || TooLong(s[..n]) then None else Some((Num(s[..n]), s[n..]))
  }

  function ReadItems(s: string): (r: Parsed<seq<Json>>)
    ensures r.Some? ==> |r.value.1| < |s|
    decreases |s|, 2
  {
    match ReadValue(s)
    case None => None
    case Some((v, r)) =>
      var t := Ws(r);
      if t == "" then None
      else if t[0] == ']' then Some(([v], t[1..]))
      else if t[0] != ',' then None
      else
        match ReadItems(Ws(t[1..]))
        case Some((items, rest)) => Some(([v] + items, rest))
        case None => None
  }

  function ReadMember(s: string): (r: Parsed<(Text, Json)>)
    ensures r.Some? ==> |r.value.1| < |s|
    decreases |s|, 2
  {
    if s == "" || s[0] != '"' then None
    else
      match ReadString(s[1..])
      case None => None
      case Some((k, r)) =>
        var t := Ws(r);
        if t == "" || t[0] != ':' then None
        else
          match ReadValue(Ws(t[1..]))
          case Some((v, rest)) => Some(((k, v), rest))
          case None => None
  }

  /** A key that occurs twice keeps its last value. */
  function ReadFields(s: string): (r: Parsed<map<Text, Json>>)
    ensures r.Some? ==> |r.value.1| < |s|
    decreases |s|, 3
  {
    match ReadMember(s)
    case None => None
    case Some(((k, v), r)) =>
      var t := Ws(r);
      if t == "" then None
      else if t[0] == '}' then Some((map[k := v], t[1..]))
      else if t[0] != ',' then None
      else
        match ReadFields(Ws(t[1..]))
        case Some((fields, rest)) => Some((map[k := v] + fields, rest))
        case None => None
  }

  /** `json.loads`; `None` is `JSONDecodeError`, or the `ValueError` of an integer too long for `int`. */
  function Loads(s: string): Option<Json> {
    match ReadValue(Ws(s))
    case Some((v, rest)) => if Ws(rest) == "" then Some(v) else None
    case None => None
  }

  // ---------------------------------------------------------------------------------------
  // Round trip
  // ---------------------------------------------------------------------------------------

  lemma {:induction false} LeqTotal(a: Text, b: Text)
    ensures Leq(a, b) || Leq(b, a)
  {
    if a != [] && b != [] {
      LeqTotal(a[1..], b[1..]);
    }
  }

  lemma {:induction false} LeqTransitive(a: Text, b: Text, c: Text)
    requires Leq(a, b) && Leq(b, c)
    ensures Leq(a, c)
  {
    if a != [] && a[0] == b[0] && b[0] == c[0] {
      LeqTransitive(a[1..], b[1..], c[1..]);
    }
  }

  lemma {:induction false} LeastExists(keys: set<Text>)
    requires keys != {}
    ensures exists k :: IsLeast(keys, k)
  {
    var x :| x in keys;
    if keys == {x} {
      LeqTotal(x, x);
      assert IsLeast(keys, x);
    } else {
      LeastExists(keys - {x});
      var y :| IsLeast(keys - {x}, y);
      LeqTotal(x, y);
      var k := if Leq(x, y) then x else y;
      LeqTotal(x, x);
      forall o | o in keys ensures Leq(k, o) {
        if o != x && k == x {
          LeqTransitive(x, y, o);
        }
      }
      assert IsLeast(keys, k);
    }
  }

  lemma HexDigitValue(k: nat)
    requires k < 16
    ensures HexValue(HexDigit(k)) == Some(k)
  {
  }

  lemma Base16(n: nat)
    requires n < 0x10000
    ensures n == n / 4096 * 4096 + n / 256 % 16 * 256 + n / 16 % 16 * 16 + n % 16
  {
    assert n / 256 == n / 4096 * 16 + n / 256 % 16;
    assert n / 16 == n / 256 * 16 + n / 16 % 16;
  }

  lemma HexRoundTrip(n: nat, rest: string)
    requires n < 0x10000
    ensures |Hex4(n)| == 4 && ReadHex4(Hex4(n) + rest) == Some(n)
  {
    HexDigitValue(n / 4096);
    HexDigitValue(n / 256 % 16);
    HexDigitValue(n / 16 % 16);
    HexDigitValue(n % 16);
    Base16(n);
    hide HexDigit, HexValue;
  }

  lemma PairRoundTrip(c: Point)
    requires c >= 0x10000
    ensures High(HighOf(c)) && Low(LowOf(c)) && Join(HighOf(c), LowOf(c)) == c
  {
    var d := c - 0x10000;
    assert d == d / 1024 * 1024 + d % 1024;
  }

  /** The text that is read as one code unit after the backslash. */
  lemma UnitEscape(n: nat, rest: string)
    requires n < 0x10000
    ensures var s := "\\u" + Hex4(n) + rest;
            && |s| >= 6 && s[0] == '\\' && s[1] == 'u' && ReadHex4(s[2..]) == Some(n) && s[6..] == rest
            && LowAhead(s) == (if Low(n) then Some(n) else None)
  {
    HexRoundTrip(n, rest);
    hide Hex4, ReadHex4;
    var s := "\\u" + Hex4(n) + rest;
    assert s[2..] == Hex4(n) + rest && s[6..] == rest;
  }

  /** Reading one code unit. */
  lemma ReadUnit(n: nat, rest: string)
    requires n < 0x10000
    ensures ReadString("\\u" + Hex4(n) + rest)
            == if High(n) && LowAhead(rest).Some? then Cons(Join(n, LowAhead(rest).value), ReadString(rest[6..]))
              else Cons(n, ReadString(rest))
  {
    UnitEscape(n, rest);
    hide Hex4, ReadHex4, LowAhead, Cons;
    var s := "\\u" + Hex4(n) + rest;
    assert LowAhead(rest).Some? ==> s[12..] == rest[6..];
  }

  lemma ShortEscape(c: Point, rest: string)
    requires |Escape(c)| <= 2
    ensures ReadString(Escape(c) + rest) == Cons(c, ReadString(rest)) && LowAhead(Escape(c) + rest) == None
  {
    hide ReadHex4, Cons, HighOf, LowOf;
    var s := Escape(c) + rest;
    if |Escape(c)| == 2 {
      assert s[2..] == rest;
    } else {
      assert s[1..] == rest;
    }
  }

  /** How each kind of character is escaped. */
  lemma EscapeCases(c: Point)
    ensures |Escape(c)| <= 2
            || (c < 0x10000 && Escape(c) == "\\u" + Hex4(c))
            || (c >= 0x10000 && Escape(c) == "\\u" + Hex4(HighOf(c)) + "\\u" + Hex4(LowOf(c)))
    ensures High(c) || Low(c) ==> Escape(c) == "\\u" + Hex4(c)
  {
    hide Hex4, HighOf, LowOf;
  }

  /** Reading one escaped character: a lone high surrogate takes a low one that follows. */
  lemma EscapeRoundTrip(c: Point, rest: string)
    ensures ReadString(Escape(c) + rest)
            == if High(c) && LowAhead(rest).Some? then Cons(Join(c, LowAhead(rest).value), ReadString(rest[6..]))
              else Cons(c, ReadString(rest))
    ensures LowAhead(Escape(c) + rest) == if Low(c) then Some(c) else None
  {
    EscapeCases(c);
    if |Escape(c)| <= 2 {
      ShortEscape(c, rest);
      hide Escape, ReadString, LowAhead;
    } else if c < 0x10000 {
      ReadUnit(c, rest);
      UnitEscape(c, rest);
      hide Escape, ReadString, LowAhead, Hex4;
    } else {
      PairEscape(c, rest);
      hide Escape, ReadString, LowAhead, Hex4;
    }
  }

  lemma PairEscape(c: Point, rest: string)
    requires c >= 0x10000
    ensures ReadString("\\u" + Hex4(HighOf(c)) + "\\u" + Hex4(LowOf(c)) + rest) == Cons(c, ReadString(rest))
    ensures LowAhead("\\u" + Hex4(HighOf(c)) + "\\u" + Hex4(LowOf(c)) + rest) == None
  {
    hide ReadString, LowAhead, Hex4, HighOf, LowOf, Join;
    PairRoundTrip(c);
    var low := "\\u" + Hex4(LowOf(c)) + rest;
    assert "\\u" + Hex4(HighOf(c)) + "\\u" + Hex4(LowOf(c)) + rest == "\\u" + Hex4(HighOf(c)) + low;
    UnitEscape(LowOf(c), rest);
    UnitEscape(HighOf(c), low);
    ReadUnit(HighOf(c), low);
  }

  /** What an escaped string reads back as, whatever follows its closing quote: the string with its
      surrogate pairs joined. */
  lemma {:induction false} StringReadsJoined(t: Text, rest: string)
    ensures ReadString(EscapeAll(t) + "\"" + rest) == Some((Joined(t), rest))
    ensures LowAhead(EscapeAll(t) + "\"" + rest) == if t != [] && Low(t[0]) then Some(t[0]) else None
    decreases |t|
  {
    hide Escape, ReadString, LowAhead;
    if t == [] {
      EmptyStringRoundTrip(rest);
    } else {
      var tail := EscapeAll(t[1..]) + "\"" + rest;
      assert EscapeAll(t) + "\"" + rest == Escape(t[0]) + tail;
      EscapeRoundTrip(t[0], tail);
      StringReadsJoined(t[1..], rest);
      if |t| >= 2 && High(t[0]) && Low(t[1]) {
        StringReadsJoined(t[2..], rest);
        EscapedUnitLength(t[1]);
        assert t[1..][1..] == t[2..];
        assert tail == Escape(t[1]) + (EscapeAll(t[2..]) + "\"" + rest);
        assert tail[6..] == EscapeAll(t[2..]) + "\"" + rest;
      }
    }
  }

  lemma EscapedUnitLength(c: Point)
    requires Low(c)
    ensures |Escape(c)| == 6
  {
  }

  lemma EmptyStringRoundTrip(rest: string)
    ensures ReadString(EscapeAll([]) + "\"" + rest) == Some(([], rest)) && LowAhead(EscapeAll([]) + "\"" + rest) == None
  {
    assert ("\"" + rest)[1..] == rest && EscapeAll([]) + "\"" + rest == "\"" + rest;
  }

  lemma {:induction false} JoinedLength(t: Text)
    ensures |Joined(t)| <= |t| && (Proper(t) ==> Joined(t) == t) && (!Proper(t) ==> |Joined(t)| < |t|)
    decreases |t|
  {
    if |t| >= 2 && High(t[0]) && Low(t[1]) {
      JoinedLength(t[2..]);
    } else if t != [] {
      JoinedLength(t[1..]);
      ProperTail(t);
      assert t == [t[0]] + t[1..];
    }
  }

  lemma ProperTail(t: Text)
    requires t != [] && !(|t| >= 2 && High(t[0]) && Low(t[1]))
    ensures Proper(t) <==> Proper(t[1..])
  {
    if Proper(t[1..]) {
      forall i | 0 <= i < |t| - 1 ensures !(High(t[i]) && Low(t[i + 1])) {
        if i > 0 {
          assert t[1..][i - 1] == t[i] && t[1..][i - 1 + 1] == t[i + 1];
        }
      }
    }
    if Proper(t) {
      forall i | 0 <= i < |t[1..]| - 1 ensures !(High(t[1..][i]) && Low(t[1..][i + 1])) {
        assert t[1..][i] == t[i + 1] && t[1..][i + 1] == t[i + 1 + 1];
      }
    }
  }

  /** A string survives writing and reading exactly when it holds no surrogate pair. */
  lemma StringRoundTrip(t: Text, rest: string)
    ensures ReadString(EscapeAll(t) + "\"" + rest) == Some((t, rest)) <==> Proper(t)
  {
    hide ReadString, EscapeAll, Proper, Joined;
    StringReadsJoined(t, rest);
    JoinedLength(t);
  }

  /** What may follow a value: the end of the text, a comma or a closing bracket. */
  predicate Delimited(rest: string) {
    rest == "" || rest[0] == ',' || rest[0] == ']' || rest[0] == '}'
  }

  lemma {:induction false} DigitsStable(s: string, rest: string)
    requires Delimited(rest)
    ensures Digits(s + rest) == Digits(s)
  {
    if s == "" {
      assert s + rest == rest;
    } else {
      DigitsStable(s[1..], rest);
      assert (s + rest)[1..] == s[1..] + rest;
    }
  }

  lemma FractionStable(s: string, rest: string)
    requires Delimited(rest)
    ensures FractionLength(s + rest) == FractionLength(s)
  {
    if s == "" {
      assert s + rest == rest;
    } else {
      DigitsStable(s[1..], rest);
      assert (s + rest)[1..] == s[1..] + rest;
    }
  }

  lemma SignStable(s: string, rest: string)
    requires s != "" && Delimited(rest)
    ensures SignLength(s + rest) == SignLength(s)
    ensures (s + rest)[SignLength(s)..] == s[SignLength(s)..] + rest
  {
  }

  lemma ExponentStable(s: string, rest: string)
    requires Delimited(rest)
    ensures ExponentLength(s + rest) == ExponentLength(s)
  {
    if s == "" {
      assert s + rest == rest;
    } else {
      SignStable(s, rest);
      hide SignLength, Digits;
      DigitsStable(s[SignLength(s)..], rest);
    }
  }

  lemma SuffixStable(s: string, rest: string)
    requires Delimited(rest)
    ensures SuffixLength(s + rest) == SuffixLength(s)
  {
    FractionStable(s, rest);
    var f := FractionLength(s);
    ExponentStable(s[f..], rest);
    hide FractionLength, ExponentLength;
    assert (s + rest)[f..] == s[f..] + rest;
  }

  lemma UnsignedStable(s: string, rest: string)
    requires Delimited(rest)
    ensures UnsignedLength(s + rest) == UnsignedLength(s)
  {
    hide Digits, SuffixLength;
    if s == "" {
      assert s + rest == rest;
    } else if IsDigit(s[0]) {
      DigitsStable(s, rest);
      var i := if s[0] == '0' then 1 else Digits(s);
      SuffixStable(s[i..], rest);
      assert (s + rest)[i..] == s[i..] + rest;
    }
  }

  lemma NumberStable(s: string, rest: string)
    requires Delimited(rest)
    ensures NumberLength(s + rest) == NumberLength(s)
  {
    hide UnsignedLength;
    UnsignedStable(s, rest);
    if s == "" {
      assert s + rest == rest;
    } else {
      UnsignedStable(s[1..], rest);
      assert (s + rest)[1..] == s[1..] + rest;
    }
  }

  /** Nothing a value starts with is taken for space or for a closing bracket. */
  ghost predicate Starts(s: string) {
    s != "" && !IsSpace(s[0]) && s[0] != ']' && s[0] != '}'
  }

  lemma NumberStarts(token: string)
    requires NumberLength(token) > 0
    ensures token[0] == '-' || IsDigit(token[0])
  {
    hide SuffixLength, Digits;
  }

  lemma ReadConstant(token: string, rest: string)
    requires IsConstant(token)
    ensures Starts(token) && ReadValue(token + rest) == Some((Num(token), rest))
  {
    hide NumberLength, ReadString, ReadItems, ReadFields, Ws;
    var s := token + rest;
    assert token <= s && s[0] == token[0] && s[|token|..] == rest;
    assert !("null" <= s) by { assert "null"[0] == 'n'; }
    assert !("true" <= s) by { assert "true"[0] == 't'; }
    assert !("false" <= s) by { assert "false"[0] == 'f'; }
    assert token != "NaN" ==> !("NaN" <= s) by { assert "NaN"[0] == 'N'; }
    assert token == "-Infinity" ==> !("Infinity" <= s) by { assert "Infinity"[0] == 'I'; }
  }

  lemma ReadNumber(token: string, rest: string)
    requires token != "" && NumberLength(token) == |token| && !TooLong(token) && Delimited(rest)
    ensures Starts(token) && ReadValue(token + rest) == Some((Num(token), rest))
  {
    hide UnsignedLength, SuffixLength, Digits, ReadString, ReadItems, ReadFields, TooLong;
    var s := token + rest;
    NumberStable(token, rest);
    NumberStarts(token);
    if token[0] == '-' {
      NotInfinity(token);
    }
    hide NumberLength;
    assert s[0] == token[0] && s[..|token|] == token && s[|token|..] == rest;
    assert |token| >= 2 ==> s[1] == token[1];
    assert "-Infinity"[1] == 'I';
  }

  /** A minus sign in a number is followed by a digit. */
  lemma NotInfinity(token: string)
    requires token != "" && NumberLength(token) == |token| && token[0] == '-'
    ensures |token| >= 2 && IsDigit(token[1])
  {
    hide SuffixLength, Digits;
  }

  lemma ReadLiteral(v: Json, rest: string)
    requires v.Null? || v.Bool?
    ensures Starts(Print(v)) && ReadValue(Print(v) + rest) == Some((v, rest))
  {
    var s := Print(v) + rest;
    assert Print(v) <= s && s[0] == Print(v)[0] && s[|Print(v)|..] == rest;
    assert v.Bool? ==> !("null" <= s) by { assert "null"[0] == 'n'; }
    assert v == Bool(false) ==> !("true" <= s) by { assert "true"[0] == 't'; }
  }

  lemma WsStarts(s: string)
    requires s == "" || !IsSpace(s[0])
    ensures Ws(s) == s
  {
  }

  lemma ReadArray(s: string, body: string, items: seq<Json>, rest: string)
    requires Starts(body) && s == "[" + body && ReadItems(body) == Some((items, rest))
    ensures ReadValue(s) == Some((Arr(items), rest))
  {
    hide ReadItems;
    assert s[1..] == body;
  }

  lemma ReadObject(s: string, body: string, fields: map<Text, Json>, rest: string)
    requires Starts(body) && s == "{" + body && ReadFields(body) == Some((fields, rest))
    ensures ReadValue(s) == Some((Obj(fields), rest))
  {
    hide ReadFields;
    assert s[1..] == body;
  }

  lemma ReadEmpty(rest: string)
    ensures ReadValue("[]" + rest) == Some((Arr([]), rest)) && ReadValue("{}" + rest) == Some((Obj(map[]), rest))
  {
    hide ReadItems, ReadFields;
    assert ("[]" + rest)[1..] == "]" + rest && ("]" + rest)[1..] == rest;
    assert ("{}" + rest)[1..] == "}" + rest && ("}" + rest)[1..] == rest;
  }

  lemma ReadQuoted(t: Text, rest: string)
    requires Proper(t)
    ensures Starts(Quoted(t)) && ReadValue(Quoted(t) + rest) == Some((Str(t), rest))
  {
    StringRoundTrip(t, rest);
    hide ReadString, EscapeAll, Proper;
    assert (Quoted(t) + rest)[1..] == EscapeAll(t) + "\"" + rest;
  }

  /** The reader gives a printed value back, whatever delimiter follows it. */
  lemma {:induction false} ReadPrinted(v: Json, rest: string)
    requires Printable(v) && Delimited(rest)
    ensures Starts(Print(v)) && ReadValue(Print(v) + rest) == Some((v, rest))
    decreases v, 2, 0
  {
    hide ReadValue, EscapeAll, ReadItems, ReadFields;
    match v {
      case Null => ReadLiteral(v, rest);
      case Bool(b) => ReadLiteral(v, rest);
      case Num(token) => if IsConstant(token) { ReadConstant(token, rest); } else { ReadNumber(token, rest); }
      case Str(t) => ReadQuoted(t, rest);
      case Arr(items) => if items == [] { ReadEmpty(rest); } else { ReadPrintedArr(v, rest); }
      case Obj(fields) => if fields == map[] { ReadEmpty(rest); } else { ReadPrintedObj(v, rest); }
    }
  }

  lemma {:induction false} ReadPrintedArr(v: Json, rest: string)
    requires v.Arr? && v.items != [] && Printable(v)
    ensures Starts(Print(v)) && ReadValue(Print(v) + rest) == Some((v, rest))
    decreases v, 1, |v.items| + 1
  {
    hide ReadValue, ReadItems, PrintItems;
    ReadPrintedItems(v, 0, rest);
    var body := PrintItems(v, 0) + "]" + rest;
    assert Print(v) + rest == "[" + body;
    ReadArray("[" + body, body, v.items[0..], rest);
    assert v.items[0..] == v.items;
  }

  lemma {:induction false} ReadPrintedObj(v: Json, rest: string)
    requires v.Obj? && v.fields != map[] && Printable(v)
    ensures Starts(Print(v)) && ReadValue(Print(v) + rest) == Some((v, rest))
    decreases v, 1, |SortedKeys(v.fields.Keys)| + 1
  {
    var keys := SortedKeys(v.fields.Keys);
    SomeKey(v.fields);
    hide ReadValue, ReadFields, PrintFields, SortedKeys, Printable;
    ReadPrintedFields(v, keys, rest);
    var body := PrintFields(v, keys) + "}" + rest;
    PrintedObj(v, rest);
    hide Print;
    ReadObject("{" + body, body, Restrict(v.fields, keys), rest);
    assert Restrict(v.fields, keys) == v.fields;
  }

  lemma PrintedObj(v: Json, rest: string)
    requires v.Obj? && Printable(v) && v.fields != map[] && SortedKeys(v.fields.Keys) != []
    ensures Starts(Print(v)) && Print(v) + rest == "{" + (PrintFields(v, SortedKeys(v.fields.Keys)) + "}" + rest)
  {
    hide PrintFields, SortedKeys;
  }

  lemma SomeKey(fields: map<Text, Json>)
    requires fields != map[]
    ensures SortedKeys(fields.Keys) != []
  {
    var k :| k in fields;
    assert k in SortedKeys(fields.Keys);
  }

  lemma ItemsStep(s: string, text: string, v: Json, tail: string, items: seq<Json>, rest: string)
    requires s == text + tail && ReadValue(s) == Some((v, tail)) && tail != ""
    requires if tail[0] == ']' then items == [] && rest == tail[1..]
             else tail[0] == ',' && Starts(tail[1..]) && ReadItems(tail[1..]) == Some((items, rest))
    ensures ReadItems(s) == Some(([v] + items, rest))
  {
    hide ReadValue;
    assert [v] + [] == [v];
  }

  lemma {:induction false} ReadPrintedItems(v: Json, i: nat, rest: string)
    requires v.Arr? && Printable(v) && i < |v.items|
    ensures var s := PrintItems(v, i) + "]" + rest; Starts(s) && ReadItems(s) == Some((v.items[i..], rest))
    decreases v, 1, |v.items| - i
  {
    hide ReadValue, ReadItems, Print;
    var s := PrintItems(v, i) + "]" + rest;
    var text := Print(v.items[i]);
    if i + 1 == |v.items| {
      ReadPrinted(v.items[i], "]" + rest);
      assert s == text + ("]" + rest);
      assert ("]" + rest)[1..] == rest;
      ItemsStep(s, text, v.items[i], "]" + rest, [], rest);
      assert v.items[i..] == [v.items[i]] + [];
    } else {
      var tail := PrintItems(v, i + 1) + "]" + rest;
      ReadPrinted(v.items[i], "," + tail);
      ReadPrintedItems(v, i + 1, rest);
      assert s == text + ("," + tail);
      assert ("," + tail)[1..] == tail;
      ItemsStep(s, text, v.items[i], "," + tail, v.items[i + 1..], rest);
      assert v.items[i..] == [v.items[i]] + v.items[i + 1..];
    }
  }

  ghost function Restrict(fields: map<Text, Json>, keys: seq<Text>): map<Text, Json> {
    map k | k in keys && k in fields :: fields[k]
  }

  lemma QuotedThen(k: Text, after: string)
    requires Proper(k)
    ensures var s := Quoted(k) + after; s[0] == '"' && ReadString(s[1..]) == Some((k, after))
  {
    StringRoundTrip(k, after);
    hide ReadString, EscapeAll;
    assert (Quoted(k) + after)[1..] == EscapeAll(k) + "\"" + after;
  }

  lemma ReadAfterKey(s: string, k: Text, after: string, v: Json, value: string, tail: string)
    requires s != "" && s[0] == '"' && ReadString(s[1..]) == Some((k, after))
    requires after == ":" + value && value != "" && !IsSpace(value[0]) && ReadValue(value) == Some((v, tail))
    ensures ReadMember(s) == Some(((k, v), tail))
  {
    WsStarts(after);
    WsStarts(value);
    hide ReadValue, ReadString, Ws;
    assert after[1..] == value;
  }

  lemma MemberStep(k: Text, text: string, v: Json, tail: string)
    requires Proper(k) && Starts(text) && ReadValue(text + tail) == Some((v, tail))
    ensures ReadMember(Quoted(k) + ":" + text + tail) == Some(((k, v), tail))
  {
    hide Quoted, ReadValue, ReadString, ReadMember, Proper;
    var after := ":" + (text + tail);
    QuotedThen(k, after);
    ReadAfterKey(Quoted(k) + after, k, after, v, text + tail, tail);
    assert Quoted(k) + after == Quoted(k) + ":" + text + tail;
  }

  lemma FieldsStep(s: string, k: Text, v: Json, tail: string, more: map<Text, Json>, rest: string)
    requires ReadMember(s) == Some(((k, v), tail)) && tail != ""
    requires if tail[0] == '}' then more == map[] && rest == tail[1..]
             else tail[0] == ',' && Starts(tail[1..]) && ReadFields(tail[1..]) == Some((more, rest))
    ensures ReadFields(s) == Some((map[k := v] + more, rest))
  {
    WsStarts(tail);
    if tail[0] == ',' { WsStarts(tail[1..]); }
    hide ReadMember, Ws;
    assert map[k := v] + map[] == map[k := v];
  }

  lemma {:induction false} ReadPrintedFields(v: Json, keys: seq<Text>, rest: string)
    requires v.Obj? && Printable(v) && keys != [] && forall k :: k in keys ==> k in v.fields
    ensures var s := PrintFields(v, keys) + "}" + rest;
            Starts(s) && ReadFields(s) == Some((Restrict(v.fields, keys), rest))
    decreases v, 1, |keys|
  {
    hide ReadValue, ReadFields, ReadMember, Print, EscapeAll;
    var s := PrintFields(v, keys) + "}" + rest;
    var k := keys[0];
    var text := Print(v.fields[k]);
    if |keys| == 1 {
      var tail := "}" + rest;
      ReadPrinted(v.fields[k], tail);
      MemberStep(k, text, v.fields[k], tail);
      assert s == Quoted(k) + ":" + text + tail;
      assert tail[1..] == rest;
      FieldsStep(s, k, v.fields[k], tail, map[], rest);
      assert Restrict(v.fields, keys) == map[k := v.fields[k]] + map[];
    } else {
      var body := PrintFields(v, keys[1..]) + "}" + rest;
      var tail := "," + body;
      ReadPrinted(v.fields[k], tail);
      ReadPrintedFields(v, keys[1..], rest);
      MemberStep(k, text, v.fields[k], tail);
      assert s == Quoted(k) + ":" + text + tail;
      assert tail[1..] == body;
      FieldsStep(s, k, v.fields[k], tail, Restrict(v.fields, keys[1..]), rest);
      RestrictCons(v.fields, keys);
    }
  }

  lemma RestrictCons(fields: map<Text, Json>, keys: seq<Text>)
    requires keys != [] && keys[0] in fields
    ensures Restrict(fields, keys) == map[keys[0] := fields[keys[0]]] + Restrict(fields, keys[1..])
  {
    assert keys == [keys[0]] + keys[1..];
  }

  /** The members of an object printed in any order read back as the object. */
  lemma LoadsFields(v: Json, keys: seq<Text>)
    requires v.Obj? && Printable(v) && keys != [] && forall k :: k in keys <==> k in v.fields
    ensures Loads("{" + PrintFields(v, keys) + "}") == Some(v)
  {
    hide ReadValue, ReadFields, PrintFields, Printable, Starts;
    var body := PrintFields(v, keys) + "}" + "";
    ReadPrintedFields(v, keys, "");
    ReadObject("{" + body, body, Restrict(v.fields, keys), "");
    assert Restrict(v.fields, keys) == v.fields;
    assert "{" + PrintFields(v, keys) + "}" == "{" + body;
    WsStarts("{" + body);
  }

  /** `json.loads(json.dumps(v)) == v`. */
  lemma RoundTrip(v: Json)
    requires Printable(v)
    ensures Loads(Print(v)) == Some(v)
  {
    ReadPrinted(v, "");
    hide ReadValue, Print;
    assert Print(v) + "" == Print(v);
  }

  // ---------------------------------------------------------------------------------------
  // Printed text is plain ASCII on one line
  // ---------------------------------------------------------------------------------------

  ghost predicate Plain(s: string) {
    forall i :: 0 <= i < |s| ==> ' ' <= s[i] <= '~'
  }

  lemma {:induction false} DigitsPlain(s: string)
    ensures Plain(s[..Digits(s)])
  {
    if s != "" && IsDigit(s[0]) {
      DigitsPlain(s[1..]);
      assert s[..Digits(s)] == [s[0]] + s[1..][..Digits(s[1..])];
    }
  }

  lemma PlainAppend(a: string, b: string)
    requires Plain(a) && Plain(b)
    ensures Plain(a + b)
  {
  }

  lemma FractionPlain(s: string)
    ensures Plain(s[..FractionLength(s)])
  {
    var f := FractionLength(s);
    if f > 0 {
      DigitsPlain(s[1..]);
      assert s[..f] == [s[0]] + s[1..][..Digits(s[1..])];
    }
  }

  lemma ExponentPlain(t: string)
    ensures Plain(t[..ExponentLength(t)])
  {
    var e := ExponentLength(t);
    if e > 0 {
      var sign := SignLength(t);
      DigitsPlain(t[sign..]);
      assert t[..e] == t[..sign] + t[sign..][..Digits(t[sign..])];
    }
  }

  lemma SuffixPlain(s: string)
    ensures Plain(s[..SuffixLength(s)])
  {
    hide FractionLength, ExponentLength, Plain;
    var f := FractionLength(s);
    var t := s[f..];
    var e := ExponentLength(t);
    FractionPlain(s);
    ExponentPlain(t);
    PlainAppend(s[..f], t[..e]);
    assert s[..f + e] == s[..f] + t[..e];
  }

  lemma UnsignedPlain(s: string)
    ensures Plain(s[..UnsignedLength(s)])
  {
    if s != "" && IsDigit(s[0]) {
      IntegerPlain(s);
      hide Digits, SuffixLength, IsDigit, Plain;
      var i := if s[0] == '0' then 1 else Digits(s);
      SuffixPlain(s[i..]);
      PlainAppend(s[..i], s[i..][..SuffixLength(s[i..])]);
      assert s[..UnsignedLength(s)] == s[..i] + s[i..][..SuffixLength(s[i..])];
    } else {
      NothingPlain(s);
    }
  }

  lemma IntegerPlain(s: string)
    requires s != "" && IsDigit(s[0])
    ensures 1 <= Digits(s) <= |s| && Plain(s[..if s[0] == '0' then 1 else Digits(s)])
  {
    DigitsPlain(s);
  }

  lemma NothingPlain(s: string)
    requires s == "" || !IsDigit(s[0])
    ensures Plain(s[..UnsignedLength(s)])
  {
  }

  lemma NumberPlain(token: string)
    requires NumberLength(token) == |token|
    ensures Plain(token)
  {
    hide UnsignedLength;
    if token != "" && token[0] == '-' {
      UnsignedPlain(token[1..]);
      assert token == [token[0]] + token[1..];
    } else {
      UnsignedPlain(token);
      assert token[..|token|] == token;
    }
  }

  lemma HexPlain(n: nat)
    requires n < 0x10000
    ensures Plain(Hex4(n)) && Plain("\\u" + Hex4(n))
  {
    HexDigitPlain(n / 4096);
    HexDigitPlain(n / 256 % 16);
    HexDigitPlain(n / 16 % 16);
    HexDigitPlain(n % 16);
    hide HexDigit;
  }

  lemma ShortPlain(c: Point)
    requires |Escape(c)| <= 2
    ensures Plain(Escape(c))
  {
    hide Hex4;
  }

  lemma EscapePlain(c: Point)
    ensures Plain(Escape(c))
  {
    EscapeCases(c);
    if |Escape(c)| <= 2 {
      ShortPlain(c);
      hide Escape;
    } else if c < 0x10000 {
      HexPlain(c);
      hide Escape, Hex4;
    } else {
      HexPlain(HighOf(c));
      HexPlain(LowOf(c));
      hide Escape, Hex4, Plain;
      var h, l := "\\u" + Hex4(HighOf(c)), "\\u" + Hex4(LowOf(c));
      PlainAppend(h, l);
      assert Escape(c) == h + l;
    }
  }

  lemma HexDigitPlain(n: nat)
    requires n < 16
    ensures ' ' <= HexDigit(n) <= '~'
  {
  }

  lemma {:induction false} EscapeAllPlain(s: Text)
    ensures Plain(EscapeAll(s))
  {
    if s != [] {
      EscapePlain(s[0]);
      EscapeAllPlain(s[1..]);
      hide Escape;
      PlainAppend(Escape(s[0]), EscapeAll(s[1..]));
    }
  }

  lemma QuotedPlain(s: Text)
    ensures Plain(Quoted(s))
  {
    EscapeAllPlain(s);
    hide EscapeAll;
  }

  /** Printed text has no line break and no character outside ASCII. */
  lemma {:induction false} PrintPlain(v: Json)
    requires Printable(v)
    ensures Plain(Print(v))
    decreases v, 2, 0
  {
    hide PrintItems, PrintFields, SortedKeys, NumberLength, Quoted;
    match v {
      case Null =>
      case Bool(_) =>
      case Num(token) => if !IsConstant(token) { NumberPlain(token); }
      case Str(s) => QuotedPlain(s);
      case Arr(items) => if items != [] { PrintItemsPlain(v, 0); }
      case Obj(fields) =>
        if fields != map[] {
          SomeKey(fields);
          PrintFieldsPlain(v, SortedKeys(fields.Keys));
        }
    }
  }

  lemma {:induction false} PrintItemsPlain(v: Json, i: nat)
    requires v.Arr? && Printable(v) && i < |v.items|
    ensures Plain(PrintItems(v, i))
    decreases v, 1, |v.items| - i
  {
    hide Print;
    PrintPlain(v.items[i]);
    if i + 1 < |v.items| {
      PrintItemsPlain(v, i + 1);
    }
  }

  lemma {:induction false} PrintFieldsPlain(v: Json, keys: seq<Text>)
    requires v.Obj? && Printable(v) && keys != [] && forall k :: k in keys ==> k in v.fields
    ensures Plain(PrintFields(v, keys))
    decreases v, 1, |keys|
  {
    hide Print, Quoted;
    QuotedPlain(keys[0]);
    PrintPlain(v.fields[keys[0]]);
    PlainAppend(Quoted(keys[0]) + ":", Print(v.fields[keys[0]]));
    if |keys| > 1 {
      PrintFieldsPlain(v, keys[1..]);
    }
  }

  // ---------------------------------------------------------------------------------------
  // The text in full
  // ---------------------------------------------------------------------------------------

  /** Printable ASCII that needs no escape. */
  predicate Bare(s: string) {
    forall i :: 0 <= i < |s| ==> ' ' <= s[i] <= '~' && s[i] != '"' && s[i] != '\\'
  }

  /** Such text stands between its quotes as it is. */
  lemma {:induction false} BareIsKept(s: string)
    requires Bare(s)
    ensures Quoted(Points(s)) == "\"" + s + "\""
  {
    EscapedBare(s);
  }

  lemma {:induction false} EscapedBare(s: string)
    requires Bare(s)
    ensures EscapeAll(Points(s)) == s
  {
    if s != "" {
      EscapedBare(s[1..]);
      assert Points(s)[1..] == Points(s[1..]);
      assert Escape(s[0] as int) == [s[0]];
      assert s == [s[0]] + s[1..];
    }
  }

  /** The members one after the other. */
  lemma PrintFieldsStep(v: Json, keys: seq<Text>)
    requires v.Obj? && Printable(v) && keys != [] && forall k :: k in keys ==> k in v.fields
    ensures PrintFields(v, keys) == Quoted(keys[0]) + ":" + Print(v.fields[keys[0]])
                                    + if |keys| == 1 then "" else "," + PrintFields(v, keys[1..])
  {
  }

  lemma PrintObject(v: Json, keys: seq<Text>)
    requires v.Obj? && Printable(v) && keys != [] && SortedKeys(v.fields.Keys) == keys
    ensures forall k :: k in keys ==> k in v.fields
    ensures Print(v) == "{" + PrintFields(v, keys) + "}"
  {
    assert keys[0] in keys;
  }

  /** The escapes of section 7 of RFC 8259 that Python writes: two characters for these seven, and for the
      rest of what is not printable ASCII four hexadecimal digits. */
  lemma EscapesAre(c: Point)
    ensures Escape(34) == "\\\"" && Escape(92) == "\\\\" && Escape(8) == "\\b" && Escape(12) == "\\f"
    ensures Escape(10) == "\\n" && Escape(13) == "\\r" && Escape(9) == "\\t"
    ensures c !in {8, 9, 10, 12, 13} && (c < 32 || 127 <= c < 0x10000) ==>
              && |Escape(c)| == 6 && Escape(c)[..2] == "\\u"
              && ReadHex4(Escape(c)[2..]) == Some(c)
              && forall i :: 2 <= i < 6 ==> '0' <= Escape(c)[i] <= '9' || 'a' <= Escape(c)[i] <= 'f'
  {
    if 32 > c || 127 <= c < 0x10000 {
      HexRoundTrip(c, "");
      assert Hex4(c) + "" == Hex4(c);
      assert ("\\u" + Hex4(c))[2..] == Hex4(c);
    }
  }

  /** `int` takes 4300 digits and no more. */
  lemma TooLongIff(digits: string)
    requires digits != "" && forall i :: 0 <= i < |digits| ==> '0' <= digits[i] <= '9'
    ensures TooLong(digits) <==> |digits| > 4300
    ensures TooLong("-" + digits) <==> |digits| > 4300
  {
    AllDigitsCount(digits);
    assert ("-" + digits)[1..] == digits;
  }

  lemma {:induction false} AllDigitsCount(s: string)
    requires forall i :: 0 <= i < |s| ==> '0' <= s[i] <= '9'
    ensures Digits(s) == |s|
  {
    if s != "" {
      AllDigitsCount(s[1..]);
    }
  }

  /** Dictionary order: after a common beginning the one ends, or has the smaller code point. */
  ghost predicate Precedes(a: Text, b: Text) {
    exists k :: 0 <= k <= |a| && DiffersAt(a, b, k)
  }

  ghost predicate DiffersAt(a: Text, b: Text, k: nat)
    requires k <= |a|
  {
    && k < |b| && a[..k] == b[..k]
    && (k == |a| || a[k] < b[k])
  }

  lemma {:induction false} LeqPrecedes(a: Text, b: Text)
    requires Leq(a, b) && a != b
    ensures Precedes(a, b)
  {
    if a == [] || a[0] < b[0] {
      assert DiffersAt(a, b, 0);
    } else {
      assert a == [a[0]] + a[1..] && b == [b[0]] + b[1..];
      LeqPrecedes(a[1..], b[1..]);
      var k :| 0 <= k <= |a[1..]| && DiffersAt(a[1..], b[1..], k);
      assert a[..k + 1] == [a[0]] + a[1..][..k] && b[..k + 1] == [b[0]] + b[1..][..k];
      assert DiffersAt(a, b, k + 1);
    }
  }

  /** The keys of an object are written in dictionary order, each once. */
  lemma {:induction false} KeysAreSorted(keys: set<Text>)
    ensures forall i, j :: 0 <= i < j < |SortedKeys(keys)| ==> Precedes(SortedKeys(keys)[i], SortedKeys(keys)[j])
    ensures forall k :: k in keys <==> k in SortedKeys(keys)
    decreases |keys|
  {
    hide Precedes, Leq;
    if keys != {} {
      var all := SortedKeys(keys);
      var k := all[0];
      LeastExists(keys);
      assert IsLeast(keys, k) && all == [k] + SortedKeys(keys - {k});
      KeysAreSorted(keys - {k});
      forall i, j | 0 <= i < j < |all| ensures Precedes(all[i], all[j]) {
        if i == 0 {
          assert all[j] == SortedKeys(keys - {k})[j - 1] && all[j] in SortedKeys(keys - {k});
          LeqPrecedes(k, all[j]);
        } else {
          assert all[i] == SortedKeys(keys - {k})[i - 1] && all[j] == SortedKeys(keys - {k})[j - 1];
        }
      }
    }
  }

  /** One least key after the other. */
  lemma LeastFirst(keys: set<Text>, k: Text)
    requires k in keys && forall o :: o in keys && o != k ==> !Leq(o, k)
    ensures SortedKeys(keys) == [k] + SortedKeys(keys - {k})
  {
    LeastExists(keys);
    LeqTotal(k, k);
    var all := SortedKeys(keys);
    assert IsLeast(keys, all[0]);
    assert all == [all[0]] + SortedKeys(keys - {all[0]});
  }
}
