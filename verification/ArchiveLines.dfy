/** The JSONL text of the archive: one line of sorted-key compact JSON for each archived row. */
module ArchiveLines {
  import opened Prelude
  import opened AuditTable
  import J = Json
  import opened Cursors

  /** Metadata that JSON can carry, and lawful timestamps and ids. */
  ghost predicate Storable(f: Formats, e: Entry) {
    && J.Printable(e.row.metadata)
    && Lawful(f, e.row.createdAt, e.id)
    && (e.row.actor.Some? ==> Lawful(f, e.row.createdAt, e.row.actor.value))
    && (e.row.targetId.Some? ==> Lawful(f, e.row.createdAt, e.row.targetId.value))
  }

  function Text(s: string): J.Json { J.Str(J.Points(s)) }

  ghost function IdOrNull(f: Formats, id: Option<nat>): J.Json {
    if id.Some? then Text(f.hex(id.value)) else J.Null
  }

  /** The dictionary `_row_to_jsonl` serialises. */
  ghost function RowObject(f: Formats, e: Entry): J.Json {
    J.Obj(map[
      J.Points("id") := Text(f.hex(e.id)),
      J.Points("event") := Text(e.row.event),
      J.Points("actor_user_id") := IdOrNull(f, e.row.actor),
      J.Points("target_type") := if e.row.targetType.Some? then Text(e.row.targetType.value) else J.Null,
      J.Points("target_id") := IdOrNull(f, e.row.targetId),
      J.Points("metadata") := e.row.metadata,
      J.Points("created_at") := Text(f.iso(e.row.createdAt))])
  }

  lemma TextPrintable(s: string)
    ensures J.Printable(Text(s)) && J.Proper(J.Points(s))
  {
  }

  lemma AddField(m: map<J.Text, J.Json>, name: string, v: J.Json)
    requires J.Printable(J.Obj(m)) && J.Printable(v)
    ensures J.Printable(J.Obj(m[J.Points(name) := v]))
  {
    TextPrintable(name);
    hide J.Points, J.Proper;
  }

  lemma ValuesPrintable(f: Formats, e: Entry)
    requires Storable(f, e)
    ensures J.Printable(IdOrNull(f, e.row.actor)) && J.Printable(IdOrNull(f, e.row.targetId))
            && J.Printable(e.row.metadata)
    ensures J.Printable(if e.row.targetType.Some? then Text(e.row.targetType.value) else J.Null)
  {
    hide J.Points, Text;
    if e.row.actor.Some? { TextPrintable(f.hex(e.row.actor.value)); }
    if e.row.targetType.Some? { TextPrintable(e.row.targetType.value); }
    if e.row.targetId.Some? { TextPrintable(f.hex(e.row.targetId.value)); }
  }

  lemma ObjectPrintable(f: Formats, e: Entry)
    requires Storable(f, e)
    ensures J.Printable(RowObject(f, e))
  {
    EmptyPrintable();
    ValuesPrintable(f, e);
    TextPrintable(f.hex(e.id));
    TextPrintable(e.row.event);
    TextPrintable(f.iso(e.row.createdAt));
    hide J.Points, J.Proper, J.Printable, Text, IdOrNull, Storable;
    var m0: map<J.Text, J.Json> := map[];
    var m1 := m0[J.Points("id") := Text(f.hex(e.id))];
    var m2 := m1[J.Points("event") := Text(e.row.event)];
    var m3 := m2[J.Points("actor_user_id") := IdOrNull(f, e.row.actor)];
    var m4 := m3[J.Points("target_type") := if e.row.targetType.Some? then Text(e.row.targetType.value) else J.Null];
    var m5 := m4[J.Points("target_id") := IdOrNull(f, e.row.targetId)];
    var m6 := m5[J.Points("metadata") := e.row.metadata];
    AddField(m0, "id", Text(f.hex(e.id)));
    AddField(m1, "event", Text(e.row.event));
    AddField(m2, "actor_user_id", IdOrNull(f, e.row.actor));
    AddField(m3, "target_type", if e.row.targetType.Some? then Text(e.row.targetType.value) else J.Null);
    AddField(m4, "target_id", IdOrNull(f, e.row.targetId));
    AddField(m5, "metadata", e.row.metadata);
    AddField(m6, "created_at", Text(f.iso(e.row.createdAt)));
    assert RowObject(f, e).fields == m6[J.Points("created_at") := Text(f.iso(e.row.createdAt))];
  }

  lemma EmptyPrintable()
    ensures J.Printable(J.Obj(map[]))
  {
  }

  ghost function RowToJsonl(f: Formats, e: Entry): string
    requires Storable(f, e)
  {
    ObjectPrintable(f, e);
    J.Print(RowObject(f, e))
  }

  /** An archived line determines the row it was written for, column by column. */
  lemma LineDeterminesRow(f: Formats, e: Entry, e': Entry)
    requires Storable(f, e) && Storable(f, e') && RowToJsonl(f, e) == RowToJsonl(f, e')
    ensures e == e'
  {
    hide J.Print, J.Loads, J.Printable, RowObject, Storable;
    ObjectPrintable(f, e);
    ObjectPrintable(f, e');
    J.RoundTrip(RowObject(f, e));
    J.RoundTrip(RowObject(f, e'));
    ObjectDeterminesRow(f, e, e');
  }

  /** A column of the dictionary; the seven names differ in length. */
  lemma Columns(f: Formats, e: Entry)
    ensures var o := RowObject(f, e).fields;
            && J.Points("id") in o && o[J.Points("id")] == Text(f.hex(e.id))
            && J.Points("event") in o && o[J.Points("event")] == Text(e.row.event)
            && J.Points("actor_user_id") in o && o[J.Points("actor_user_id")] == IdOrNull(f, e.row.actor)
            && J.Points("target_type") in o
               && o[J.Points("target_type")]
                  == (if e.row.targetType.Some? then Text(e.row.targetType.value) else J.Null)
            && J.Points("target_id") in o && o[J.Points("target_id")] == IdOrNull(f, e.row.targetId)
            && J.Points("metadata") in o && o[J.Points("metadata")] == e.row.metadata
            && J.Points("created_at") in o && o[J.Points("created_at")] == Text(f.iso(e.row.createdAt))
  {
    hide J.Points, Text, IdOrNull;
  }

  /** An archived line is read back as an object of seven members, each the column of its name. */
  lemma LineReadsBack(f: Formats, e: Entry)
    requires Storable(f, e)
    ensures var o := J.Loads(RowToJsonl(f, e));
            && o.Some? && o.value.Obj?
            && o.value.fields.Keys == {J.Points("id"), J.Points("event"), J.Points("actor_user_id"),
                                       J.Points("target_type"), J.Points("target_id"), J.Points("metadata"),
                                       J.Points("created_at")}
            && o.value.fields[J.Points("id")] == J.Str(J.Points(f.hex(e.id)))
            && o.value.fields[J.Points("event")] == J.Str(J.Points(e.row.event))
            && o.value.fields[J.Points("actor_user_id")]
               == (if e.row.actor.Some? then J.Str(J.Points(f.hex(e.row.actor.value))) else J.Null)
            && o.value.fields[J.Points("target_type")]
               == (if e.row.targetType.Some? then J.Str(J.Points(e.row.targetType.value)) else J.Null)
            && o.value.fields[J.Points("target_id")]
               == (if e.row.targetId.Some? then J.Str(J.Points(f.hex(e.row.targetId.value))) else J.Null)
            && o.value.fields[J.Points("metadata")] == e.row.metadata
            && o.value.fields[J.Points("created_at")] == J.Str(J.Points(f.iso(e.row.createdAt)))
  {
    ObjectPrintable(f, e);
    J.RoundTrip(RowObject(f, e));
    Columns(f, e);
    hide J.Print, J.Loads, J.Printable, Storable, J.Points;
  }

  lemma TextDetermines(s: string, t: string)
    requires Text(s) == Text(t)
    ensures s == t
  {
    J.PointsInjective(s, t);
  }

  lemma IdDetermines(f: Formats, a: Option<nat>, b: Option<nat>)
    requires IdOrNull(f, a) == IdOrNull(f, b)
    requires a.Some? ==> f.fromHex(J.Points(f.hex(a.value))) == a
    requires b.Some? ==> f.fromHex(J.Points(f.hex(b.value))) == b
    ensures a == b
  {
    hide J.Points;
  }

  lemma TypeDetermines(a: Option<string>, b: Option<string>)
    requires (if a.Some? then Text(a.value) else J.Null) == (if b.Some? then Text(b.value) else J.Null)
    ensures a == b
  {
    if a.Some? && b.Some? {
      TextDetermines(a.value, b.value);
    }
  }

  lemma ObjectDeterminesRow(f: Formats, e: Entry, e': Entry)
    requires Storable(f, e) && Storable(f, e')
    ensures RowObject(f, e) == RowObject(f, e') ==> e == e'
  {
    if RowObject(f, e) == RowObject(f, e') {
      Columns(f, e);
      Columns(f, e');
      hide RowObject, J.Points, Text, IdOrNull, J.Printable;
      TextDetermines(e.row.event, e'.row.event);
      TypeDetermines(e.row.targetType, e'.row.targetType);
      IdDetermines(f, e.row.actor, e'.row.actor);
      IdDetermines(f, e.row.targetId, e'.row.targetId);
      TextDetermines(f.hex(e.id), f.hex(e'.id));
      TextDetermines(f.iso(e.row.createdAt), f.iso(e'.row.createdAt));
    }
  }

  // ---------------------------------------------------------------------------------------
  // The file
  // ---------------------------------------------------------------------------------------

  /** What `_append_lines_sync` leaves in an empty file. */
  ghost function FileText(f: Formats, entries: seq<Entry>): string
    requires forall i :: 0 <= i < |entries| ==> Storable(f, entries[i])
  {
    if entries == [] then ""
    else RowToJsonl(f, entries[0]) + "\n" + FileText(f, entries[1..])
  }

  /** The text up to the first line break, and the text after it. */
  function FirstLine(s: string): (string, string) {
    if s == "" then ("", "")
    else if s[0] == '\n' then ("", s[1..])
    else ([s[0]] + FirstLine(s[1..]).0, FirstLine(s[1..]).1)
  }

  lemma {:induction false} FirstLineOf(line: string, rest: string)
    requires forall i :: 0 <= i < |line| ==> line[i] != '\n'
    ensures FirstLine(line + "\n" + rest) == (line, rest)
  {
    var s := line + "\n" + rest;
    if line == "" {
      assert s == "\n" + rest && s[1..] == rest;
    } else {
      FirstLineOf(line[1..], rest);
      assert s[1..] == line[1..] + "\n" + rest;
      assert [line[0]] + line[1..] == line;
    }
  }

  lemma LineOf(f: Formats, e: Entry, rest: string)
    requires Storable(f, e)
    ensures FirstLine(RowToJsonl(f, e) + "\n" + rest) == (RowToJsonl(f, e), rest)
  {
    hide J.Print, J.Printable, RowObject, FirstLine, Storable;
    ObjectPrintable(f, e);
    J.PrintPlain(RowObject(f, e));
    FirstLineOf(RowToJsonl(f, e), rest);
  }

  /** The text of the file determines the archived rows and their order. */
  lemma {:induction false} FileDeterminesRows(f: Formats, a: seq<Entry>, b: seq<Entry>)
    requires forall i :: 0 <= i < |a| ==> Storable(f, a[i])
    requires forall i :: 0 <= i < |b| ==> Storable(f, b[i])
    requires FileText(f, a) == FileText(f, b)
    ensures a == b
  {
    hide RowToJsonl, FirstLine, Storable;
    if a != [] && b != [] {
      LineOf(f, a[0], FileText(f, a[1..]));
      LineOf(f, b[0], FileText(f, b[1..]));
      LineDeterminesRow(f, a[0], b[0]);
      FileDeterminesRows(f, a[1..], b[1..]);
      assert a == [a[0]] + a[1..] && b == [b[0]] + b[1..];
    }
  }
}
