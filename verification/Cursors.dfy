/** The opaque cursors: a plain one for keyset pages and an HMAC-signed one bound to a search arm.
    Both are base64url over JSON with the padding stripped. */
module Cursors {
  import opened Prelude
  import B = Base64Url
  import J = Json
  import U = Utf8

  /** How Python prints and parses a timestamp (`isoformat`, `fromisoformat`) and a UUID. */
  datatype Formats = Formats(
    iso: int -> string, fromIso: J.Text -> Option<int>,
    hex: nat -> string, fromHex: J.Text -> Option<nat>)

  ghost predicate Lawful(f: Formats, t: int, i: nat) {
    f.fromIso(J.Points(f.iso(t))) == Some(t) && f.fromHex(J.Points(f.hex(i))) == Some(i)
  }

  predicate Ascii(s: string) {
    forall i :: 0 <= i < |s| ==> s[i] as int < 128
  }

  function Wrap(text: string): string {
    B.Encode(U.Encode(text))
  }

  lemma WrapRoundTrip(text: string)
    ensures B.Decode(Wrap(text)).Some? && U.Decode(B.Decode(Wrap(text)).value) == Some(text) && Ascii(Wrap(text))
    ensures text != "" ==> Wrap(text) != ""
  {
    hide B.Decode, B.Encode, B.EncodePadded, B.Padding, U.Decode, U.Encode;
    var raw := U.Encode(text);
    B.RoundTrip(raw);
    U.RoundTrip(text);
    B.PaddingRestored(raw);
    NoBytes();
    forall i | 0 <= i < |Wrap(text)| ensures Wrap(text)[i] as int < 128 {
      assert B.Value(Wrap(text)[i]).Some?;
    }
  }

  lemma NoBytes()
    ensures B.Decode("") == Some([]) && U.Decode([]) == Some("")
  {
    assert "" + B.Padding(0) == "";
  }

  /** Text from a program string has no surrogates. */
  lemma PointsProper(s: string)
    ensures J.Proper(J.Points(s))
  {
  }

  // ---------------------------------------------------------------------------------------
  // The plain cursor
  // ---------------------------------------------------------------------------------------

  ghost function KeysetPayload(f: Formats, createdAt: int, id: nat): J.Json {
    J.Obj(map[KEY_T := J.Str(J.Points(f.iso(createdAt))), KEY_I := J.Str(J.Points(f.hex(id)))])
  }

  /** The two member names. */
  const KEY_T: J.Text := ['t' as int]

  const KEY_I: J.Text := ['i' as int]

  /** `json.dumps` without `sort_keys`: the members in the order written. */
  function CursorText(f: Formats, createdAt: int, id: nat): string {
    "{" + (J.Quoted(KEY_T) + ":" + J.Quoted(J.Points(f.iso(createdAt)))
           + ("," + (J.Quoted(KEY_I) + ":" + J.Quoted(J.Points(f.hex(id))) + ""))) + "}"
  }

  function EncodeCursor(f: Formats, createdAt: int, id: nat): string {
    Wrap(CursorText(f, createdAt, id))
  }

  lemma PayloadPrintable(f: Formats, createdAt: int, id: nat)
    ensures J.Printable(KeysetPayload(f, createdAt, id)) && KeysetPayload(f, createdAt, id).Obj?
    ensures forall k :: k in [KEY_T, KEY_I] <==> k in KeysetPayload(f, createdAt, id).fields
  {
    PointsProper(f.iso(createdAt));
    PointsProper(f.hex(id));
  }

  lemma CursorTextFields(f: Formats, createdAt: int, id: nat)
    requires J.Printable(KeysetPayload(f, createdAt, id))
    ensures CursorText(f, createdAt, id) == "{" + J.PrintFields(KeysetPayload(f, createdAt, id), [KEY_T, KEY_I]) + "}"
  {
    hide J.Quoted, J.Printable, J.Points;
    var v := KeysetPayload(f, createdAt, id);
    assert [KEY_T, KEY_I][1..] == [KEY_I];
    assert J.PrintFields(v, [KEY_I]) == J.Quoted(KEY_I) + ":" + J.Quoted(J.Points(f.hex(id))) + "";
  }

  /** The text inside a cursor, which clients keep across deployments. */
  lemma CursorTextInFull(f: Formats, createdAt: int, id: nat)
    requires J.Bare(f.iso(createdAt)) && J.Bare(f.hex(id))
    ensures CursorText(f, createdAt, id)
            == "{" + ("\"t\":" + ("\"" + f.iso(createdAt) + "\"")
                      + (",\"i\":" + ("\"" + f.hex(id) + "\""))) + "}"
  {
    BareNames();
    J.BareIsKept(f.iso(createdAt));
    J.BareIsKept(f.hex(id));
    hide J.Quoted, J.Points;
    var (t, i) := (J.Quoted(J.Points(f.iso(createdAt))), J.Quoted(J.Points(f.hex(id))));
    assert "," + ("\"i\"" + ":" + i + "") == ",\"i\":" + i;
    assert "\"t\"" + ":" + t == "\"t\":" + t;
  }

  lemma BareNames()
    ensures J.Quoted(KEY_T) == "\"t\"" && J.Quoted(KEY_I) == "\"i\""
  {
    J.BareIsKept("t");
    J.BareIsKept("i");
    assert J.Points("t") == KEY_T && J.Points("i") == KEY_I;
  }

  /** `decode_cursor` returns a pair, returns `None`, or lets an exception through. */
  datatype Decoded = Absent | Position(createdAt: int, id: nat) | Raised

  function DecodeCursor(f: Formats, c: Option<string>): Decoded {
    if c.None? || c.value == "" then Absent
    else if !Ascii(c.value) then Raised  // ValueError, not binascii.Error
    else
      match B.Decode(c.value)
      case None => Absent
      case Some(raw) =>
        match U.Decode(raw)
        case None => Absent
        case Some(text) =>
          match J.Loads(text)
          case None => Absent
          case Some(obj) => ReadPosition(f, obj)
  }

  /** `obj["t"]`, `fromisoformat`, `obj["i"]`, `UUID`, in that order. Indexing anything but an
      object, and parsing anything but a string, raises an error the caller does not catch. */
  function ReadPosition(f: Formats, obj: J.Json): Decoded {
    if !obj.Obj? then Raised
    else if KEY_T !in obj.fields then Absent
    else if !obj.fields[KEY_T].Str? then Raised
    else
      match f.fromIso(obj.fields[KEY_T].s)
      case None => Absent
      case Some(t) =>
        if KEY_I !in obj.fields then Absent
        else if !obj.fields[KEY_I].Str? then Raised
        else
          match f.fromHex(obj.fields[KEY_I].s)
          case None => Absent
          case Some(i) => Position(t, i)
  }

  lemma LoadsCursorText(f: Formats, createdAt: int, id: nat)
    ensures J.Loads(CursorText(f, createdAt, id)) == Some(KeysetPayload(f, createdAt, id))
  {
    hide J.Loads, J.PrintFields, CursorText, KeysetPayload, J.Printable;
    PayloadPrintable(f, createdAt, id);
    CursorTextFields(f, createdAt, id);
    J.LoadsFields(KeysetPayload(f, createdAt, id), [KEY_T, KEY_I]);
  }

  /** `decode_cursor(encode_cursor(t, i)) == (t, i)`. */
  lemma CursorRoundTrip(f: Formats, createdAt: int, id: nat)
    requires Lawful(f, createdAt, id)
    ensures DecodeCursor(f, Some(EncodeCursor(f, createdAt, id))) == Position(createdAt, id)
  {
    hide J.Loads, B.Decode, U.Decode, Wrap, J.Quoted;
    WrapRoundTrip(CursorText(f, createdAt, id));
    LoadsCursorText(f, createdAt, id);
  }

  /** Contrary to what its documentation says of invalid input, the decoder does not return `None`
      for the base64url of an empty JSON list: the exception of the indexing goes through. */
  lemma ListCursorRaises(f: Formats)
    ensures DecodeCursor(f, Some("W10")) == Raised
  {
    hide B.Decode, U.Decode, J.Loads;
    DecodeW10();
    TwoBytes();
    LoadsEmptyList();
  }

  lemma LoadsEmptyList()
    ensures J.Loads("[]") == Some(J.Arr([]))
  {
    J.ReadEmpty("");
    assert "[]" + "" == "[]";
  }

  lemma DecodeW10()
    ensures B.Decode("W10") == Some([91, 93])
  {
    B.ScanSymbols("W10", [22, 53, 52], B.Acc(0, 0, []), "=");
    B.PushOne(B.Acc(0, 0, []), 22, [53, 52]);
    B.PushOne(B.Acc(1, 22, []), 53, [52]);
    B.PushOne(B.Acc(2, 5, [91]), 52, []);
    assert [22] + [53, 52] == [22, 53, 52] && [53] + [52] == [53, 52] && [52] + [] == [52];
    assert B.Padding(3) == "=";
    assert "W10" + B.Padding(3) == "W10" + "=";
    assert B.PushAll(B.Acc(0, 0, []), [22, 53, 52]) == B.Acc(3, 0, [91, 93]);
    B.ScanPadding(B.Acc(3, 0, [91, 93]));
  }

  lemma TwoBytes()
    ensures U.Decode([91, 93]) == Some("[]")
  {
    U.RoundTrip("[]");
    U.AsciiBytes("[]");
    assert U.Encode("[]") == [91, 93];
  }

  /** Nor for the base64url of the constant NaN, which is JSON to Python and no object. */
  lemma NanCursorRaises(f: Formats)
    ensures DecodeCursor(f, Some("TmFO")) == Raised
  {
    hide B.Decode, U.Decode, J.Loads;
    DecodeTmFO();
    ThreeBytes();
    LoadsNan();
  }

  lemma LoadsNan()
    ensures J.Loads("NaN") == Some(J.Num("NaN"))
  {
    J.ReadConstant("NaN", "");
    assert "NaN" + "" == "NaN";
  }

  lemma DecodeTmFO()
    ensures B.Decode("TmFO") == Some([78, 97, 78])
  {
    var vs := [19, 38, 5, 14];
    B.ScanSymbols("TmFO", vs, B.Acc(0, 0, []), "");
    B.PushFour(B.Acc(0, 0, []), 19, 38, 5, 14, []);
    assert vs + [] == vs && "TmFO" + "" == "TmFO" && "TmFO" + B.Padding(4) == "TmFO";
    assert B.Push(B.Acc(0, 0, []), 19) == B.Acc(1, 19, []);
    assert B.Push(B.Acc(1, 19, []), 38) == B.Acc(2, 6, [78]);
    assert B.Push(B.Acc(2, 6, [78]), 5) == B.Acc(3, 1, [78, 97]);
    assert B.Push(B.Acc(3, 1, [78, 97]), 14) == B.Acc(0, 0, [78, 97, 78]);
  }

  lemma ThreeBytes()
    ensures U.Decode([78, 97, 78]) == Some("NaN")
  {
    U.RoundTrip("NaN");
    U.AsciiBytes("NaN");
    assert U.Encode("NaN") == [78, 97, 78];
  }

  /** An exception goes through exactly for a non-ASCII cursor, or one that decodes to JSON text
      that is no object, or whose "t", or whose "i" after a good "t", is no string. */
  lemma DecodeRaisesIff(f: Formats, c: string)
    requires c != ""
    ensures DecodeCursor(f, Some(c)).Raised? <==>
      || !Ascii(c)
      || (exists raw, text, obj ::
            && B.Decode(c) == Some(raw) && U.Decode(raw) == Some(text) && J.Loads(text) == Some(obj)
            && (obj.Obj? ==>
                  && KEY_T in obj.fields
                  && (obj.fields[KEY_T].Str? ==>
                        f.fromIso(obj.fields[KEY_T].s).Some? && KEY_I in obj.fields && !obj.fields[KEY_I].Str?)))
  {
    hide B.Decode, U.Decode, J.Loads;
  }

  // ---------------------------------------------------------------------------------------
  // The signed cursor
  // ---------------------------------------------------------------------------------------

  /** HMAC-SHA256 in hexadecimal, as a function of secret and message. */
  type Mac = (string, seq<B.Byte>) -> string

  type Payload = map<J.Text, J.Json>

  const KEY_A: J.Text := ['a' as int]

  const KEY_P: J.Text := ['p' as int]

  const KEY_S: J.Text := ['s' as int]

  datatype CursorError =
    | EmptyCursor | MalformedBase64
    | MalformedJson      // or the ValueError of an integer too long for int
    | MalformedEnvelope
    | MissingField | MalformedFieldTypes | ArmMismatch | BadSignature
    | NotAscii           // ValueError from the base64 decoder, not InvalidCursorError
    | SignatureNotAscii  // TypeError from compare_digest, not InvalidCursorError

  ghost predicate Sendable(payload: Payload) {
    J.Printable(J.Obj(payload))
  }

  ghost function Signed(arm: string, payload: Payload): J.Json {
    J.Obj(map[KEY_A := J.Str(J.Points(arm)), KEY_P := J.Obj(payload)])
  }

  ghost function Envelope(arm: string, payload: Payload, sig: string): J.Json {
    J.Obj(map[KEY_A := J.Str(J.Points(arm)), KEY_P := J.Obj(payload), KEY_S := J.Str(J.Points(sig))])
  }

  lemma EnvelopePrintable(arm: string, payload: Payload, sig: string)
    requires Sendable(payload)
    ensures J.Printable(Signed(arm, payload)) && J.Printable(Envelope(arm, payload, sig))
  {
    PointsProper(arm);
    PointsProper(sig);
  }

  lemma PrintAscii(v: J.Json)
    requires J.Printable(v)
    ensures Ascii(J.Print(v)) && J.Print(v) != ""
  {
    J.PrintPlain(v);
    J.ReadPrinted(v, "");
    hide J.Print, J.ReadValue;
  }

  /** What is signed, and what is sent: the members in the order of their names. */
  lemma EnvelopeInFull(arm: string, payload: Payload, sig: string)
    requires Sendable(payload)
    ensures J.Printable(Signed(arm, payload)) && J.Printable(Envelope(arm, payload, sig))
    ensures var (a, p, s) := (J.Quoted(J.Points(arm)), J.Print(J.Obj(payload)), J.Quoted(J.Points(sig)));
            && J.Print(Signed(arm, payload)) == "{" + ("\"a\":" + a + (",\"p\":" + p)) + "}"
            && J.Print(Envelope(arm, payload, sig)) == "{" + ("\"a\":" + a + (",\"p\":" + p + (",\"s\":" + s))) + "}"
  {
    EnvelopePrintable(arm, payload, sig);
    Strings(arm);
    Strings(sig);
    PrintTwo(Signed(arm, payload));
    PrintThree(Envelope(arm, payload, sig));
    hide J.Print, J.Quoted, J.Points, J.Printable;
  }

  lemma Strings(text: string)
    ensures J.Printable(J.Str(J.Points(text))) && J.Print(J.Str(J.Points(text))) == J.Quoted(J.Points(text))
  {
    PointsProper(text);
  }

  lemma QuotedNames()
    ensures J.Quoted(KEY_A) == "\"a\"" && J.Quoted(KEY_P) == "\"p\"" && J.Quoted(KEY_S) == "\"s\""
  {
    J.BareIsKept("a");
    J.BareIsKept("p");
    J.BareIsKept("s");
    assert J.Points("a") == KEY_A && J.Points("p") == KEY_P && J.Points("s") == KEY_S;
  }

  lemma NamesInOrder()
    ensures J.SortedKeys({KEY_A, KEY_P}) == [KEY_A, KEY_P]
    ensures J.SortedKeys({KEY_A, KEY_P, KEY_S}) == [KEY_A, KEY_P, KEY_S]
  {
    J.LeastFirst({KEY_S}, KEY_S);
    J.LeastFirst({KEY_P}, KEY_P);
    J.LeastFirst({KEY_P, KEY_S}, KEY_P);
    J.LeastFirst({KEY_A, KEY_P}, KEY_A);
    J.LeastFirst({KEY_A, KEY_P, KEY_S}, KEY_A);
    hide J.SortedKeys;
    assert {KEY_P, KEY_S} - {KEY_P} == {KEY_S} && {KEY_A, KEY_P, KEY_S} - {KEY_A} == {KEY_P, KEY_S};
    assert {KEY_A, KEY_P} - {KEY_A} == {KEY_P} && {KEY_S} - {KEY_S} == {} && {KEY_P} - {KEY_P} == {};
    assert J.SortedKeys({}) == [] by {
      J.KeysAreSorted({});
      assert forall k :: k !in J.SortedKeys({});
    }
  }

  lemma PrintTwo(v: J.Json)
    requires J.Printable(v) && v.Obj? && v.fields.Keys == {KEY_A, KEY_P}
    ensures J.Print(v) == "{" + ("\"a\":" + J.Print(v.fields[KEY_A]) + (",\"p\":" + J.Print(v.fields[KEY_P]))) + "}"
  {
    NamesInOrder();
    QuotedNames();
    hide J.Quoted, J.Print, J.PrintFields, J.SortedKeys;
    J.PrintObject(v, [KEY_A, KEY_P]);
    assert [KEY_A, KEY_P][1..] == [KEY_P];
    J.PrintFieldsStep(v, [KEY_A, KEY_P]);
    J.PrintFieldsStep(v, [KEY_P]);
    LastMember("\"p\"", J.Print(v.fields[KEY_P]));
    NameColons();
  }

  lemma LastMember(name: string, text: string)
    ensures "," + (name + ":" + text + "") == "," + name + ":" + text
  {
  }

  lemma MiddleMember(name: string, text: string, rest: string)
    ensures "," + (name + ":" + text + rest) == "," + name + ":" + text + rest
  {
  }

  lemma NameColons()
    ensures "\"a\"" + ":" == "\"a\":" && "," + "\"p\"" + ":" == ",\"p\":" && "," + "\"s\"" + ":" == ",\"s\":"
  {
  }

  lemma PrintThree(v: J.Json)
    requires J.Printable(v) && v.Obj? && v.fields.Keys == {KEY_A, KEY_P, KEY_S}
    ensures J.Print(v) == "{" + ("\"a\":" + J.Print(v.fields[KEY_A])
                                 + (",\"p\":" + J.Print(v.fields[KEY_P]) + (",\"s\":" + J.Print(v.fields[KEY_S]))))
                                   + "}"
  {
    NamesInOrder();
    QuotedNames();
    hide J.Quoted, J.Print, J.PrintFields, J.SortedKeys;
    J.PrintObject(v, [KEY_A, KEY_P, KEY_S]);
    assert [KEY_A, KEY_P, KEY_S][1..] == [KEY_P, KEY_S] && [KEY_P, KEY_S][1..] == [KEY_S];
    J.PrintFieldsStep(v, [KEY_A, KEY_P, KEY_S]);
    J.PrintFieldsStep(v, [KEY_P, KEY_S]);
    J.PrintFieldsStep(v, [KEY_S]);
    LastMember("\"s\"", J.Print(v.fields[KEY_S]));
    NameColons();
    MiddleMember("\"p\"", J.Print(v.fields[KEY_P]), ",\"s\":" + J.Print(v.fields[KEY_S]));
  }

  ghost function CanonicalJson(v: J.Json): seq<B.Byte>
    requires J.Printable(v)
  {
    U.Encode(J.Print(v))
  }

  ghost function HmacSig(mac: Mac, secret: string, arm: string, payload: Payload): string
    requires Sendable(payload)
  {
    EnvelopePrintable(arm, payload, "");
    mac(secret, CanonicalJson(Signed(arm, payload)))
  }

  /** The cursor that carries the given signature. */
  ghost function Seal(arm: string, payload: Payload, sig: string): string
    requires Sendable(payload)
  {
    EnvelopePrintable(arm, payload, sig);
    Wrap(J.Print(Envelope(arm, payload, sig)))
  }

  /** The hexadecimal digest is ASCII. */
  ghost predicate LawfulMac(mac: Mac) {
    forall secret: string, m: seq<B.Byte> :: Ascii(mac(secret, m))
  }

  ghost function EncodeSigned(mac: Mac, arm: string, payload: Payload, secret: string): string
    requires Sendable(payload) && LawfulMac(mac)
  {
    Seal(arm, payload, HmacSig(mac, secret, arm, payload))
  }

  ghost function DecodeSigned(mac: Mac, arm: string, cursor: string, secret: string): Result<Payload, CursorError> {
    if cursor == "" then Err(EmptyCursor)
    else if !Ascii(cursor) then Err(NotAscii)
    else
      match B.Decode(cursor)
      case None => Err(MalformedBase64)
      case Some(raw) =>
        match U.Decode(raw)
        case None => Err(MalformedJson)
        case Some(text) =>
          match J.Loads(text)
          case None => Err(MalformedJson)
          case Some(envelope) => OpenEnvelope(mac, arm, envelope, secret)
  }

  ghost function OpenEnvelope(mac: Mac, arm: string, envelope: J.Json, secret: string): Result<Payload, CursorError> {
    if !envelope.Obj? then Err(MalformedEnvelope)
    else if KEY_A !in envelope.fields || KEY_P !in envelope.fields || KEY_S !in envelope.fields then Err(MissingField)
    else
      var a, p, s := envelope.fields[KEY_A], envelope.fields[KEY_P], envelope.fields[KEY_S];
      if !a.Str? || !p.Obj? || !s.Str? then Err(MalformedFieldTypes)
      else if a.s != J.Points(arm) then Err(ArmMismatch)
      else if !AsciiPoints(s.s) then Err(SignatureNotAscii)
      else if Sendable(p.fields) && J.Points(HmacSig(mac, secret, arm, p.fields)) == s.s then Ok(p.fields)
      else Err(BadSignature)
  }

  lemma DecodeSealed(mac: Mac, arm: string, payload: Payload, sig: string, expected: string, secret: string)
    requires Sendable(payload)
    ensures DecodeSigned(mac, expected, Seal(arm, payload, sig), secret) ==
            OpenEnvelope(mac, expected, Envelope(arm, payload, sig), secret)
  {
    hide J.Print, J.Loads, J.Printable, B.Decode, U.Decode, Wrap, OpenEnvelope, Envelope;
    EnvelopePrintable(arm, payload, sig);
    var envelope := Envelope(arm, payload, sig);
    PrintAscii(envelope);
    var text := J.Print(envelope);
    WrapRoundTrip(text);
    J.RoundTrip(envelope);
  }

  predicate AsciiPoints(s: J.Text) {
    forall i :: 0 <= i < |s| ==> s[i] < 128
  }

  lemma AsciiOfPoints(s: string)
    ensures AsciiPoints(J.Points(s)) <==> Ascii(s)
  {
    assert forall i :: 0 <= i < |s| ==> J.Points(s)[i] == s[i] as int;
  }

  lemma SamePoints(s: string, t: string)
    ensures J.Points(s) == J.Points(t) <==> s == t
  {
    if J.Points(s) == J.Points(t) {
      J.PointsInjective(s, t);
    }
  }

  /** Opening a sealed cursor gives back the payload exactly for its own arm and the right signature. */
  lemma OpenSealed(mac: Mac, arm: string, payload: Payload, sig: string, expected: string, secret: string)
    requires Sendable(payload)
    ensures DecodeSigned(mac, expected, Seal(arm, payload, sig), secret) ==
            if expected != arm then Err(ArmMismatch)
            else if !Ascii(sig) then Err(SignatureNotAscii)
            else if sig != HmacSig(mac, secret, arm, payload) then Err(BadSignature)
            else Ok(payload)
  {
    hide DecodeSigned, Seal, HmacSig, Sendable, J.Points;
    DecodeSealed(mac, arm, payload, sig, expected, secret);
    SamePoints(arm, expected);
    AsciiOfPoints(sig);
    SamePoints(HmacSig(mac, secret, arm, payload), sig);
  }

  /** `decode_signed_cursor(a, encode_signed_cursor(a, p)) == p`. */
  lemma SignedRoundTrip(mac: Mac, arm: string, payload: Payload, secret: string)
    requires Sendable(payload) && LawfulMac(mac)
    ensures DecodeSigned(mac, arm, EncodeSigned(mac, arm, payload, secret), secret) == Ok(payload)
  {
    OpenSealed(mac, arm, payload, HmacSig(mac, secret, arm, payload), arm, secret);
  }

  /** A cursor minted for one arm is refused under any other, whatever the secret. */
  lemma WrongArmRefused(mac: Mac, arm: string, payload: Payload, secret: string, other: string, otherSecret: string)
    requires Sendable(payload) && LawfulMac(mac) && other != arm
    ensures DecodeSigned(mac, other, EncodeSigned(mac, arm, payload, secret), otherSecret) == Err(ArmMismatch)
  {
    OpenSealed(mac, arm, payload, HmacSig(mac, secret, arm, payload), other, otherSecret);
  }

  /** No two signed messages have the same canonical bytes. */
  lemma CanonicalInjective(v: J.Json, w: J.Json)
    requires J.Printable(v) && J.Printable(w) && CanonicalJson(v) == CanonicalJson(w)
    ensures v == w
  {
    hide J.Print, J.Loads, J.Printable, U.Decode, U.Encode;
    U.RoundTrip(J.Print(v));
    U.RoundTrip(J.Print(w));
    J.RoundTrip(v);
    J.RoundTrip(w);
  }

  ghost predicate CollisionFree(mac: Mac, secret: string) {
    forall m: seq<B.Byte>, n: seq<B.Byte> :: mac(secret, m) == mac(secret, n) ==> m == n
  }

  /** A cursor altered in arm or payload, but with the signature of the original, is refused. */
  lemma AlteredCursorRefused(mac: Mac, secret: string, arm: string, payload: Payload, arm': string, payload': Payload)
    requires CollisionFree(mac, secret) && Sendable(payload) && Sendable(payload')
    requires LawfulMac(mac) && (arm != arm' || payload != payload')
    ensures DecodeSigned(mac, arm', Seal(arm', payload', HmacSig(mac, secret, arm, payload)), secret)
            == Err(BadSignature)
  {
    OpenSealed(mac, arm', payload', HmacSig(mac, secret, arm, payload), arm', secret);
    SignaturesDiffer(mac, secret, arm, payload, arm', payload');
    hide DecodeSigned, Seal, HmacSig, Sendable, CollisionFree;
  }

  lemma SignaturesDiffer(mac: Mac, secret: string, arm: string, payload: Payload, arm': string, payload': Payload)
    requires CollisionFree(mac, secret) && Sendable(payload) && Sendable(payload')
    requires arm != arm' || payload != payload'
    ensures HmacSig(mac, secret, arm, payload) != HmacSig(mac, secret, arm', payload')
  {
    var v, w := Signed(arm, payload), Signed(arm', payload');
    assert v.fields[KEY_A] == J.Str(J.Points(arm)) && v.fields[KEY_P] == J.Obj(payload);
    assert w.fields[KEY_A] == J.Str(J.Points(arm')) && w.fields[KEY_P] == J.Obj(payload');
    EnvelopePrintable(arm, payload, "");
    EnvelopePrintable(arm', payload', "");
    SamePoints(arm, arm');
    hide CanonicalJson, J.Printable, J.Points;
    if CanonicalJson(v) == CanonicalJson(w) {
      CanonicalInjective(v, w);
    }
  }
}
