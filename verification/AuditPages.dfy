/** Keyset paging of the audit log over (created_at DESC, id DESC). */
module AuditPages {
  import opened Prelude
  import opened AuditTable
  import opened Cursors

  datatype Filter = Filter(event: Option<string>, actor: Option<nat>, targetType: Option<string>)

  predicate Matches(filter: Filter, row: Row) {
    && (filter.event.Some? ==> row.event == filter.event.value)
    && (filter.actor.Some? ==> row.actor == filter.actor)
    && (filter.targetType.Some? ==> row.targetType == filter.targetType)
  }

  datatype Key = Key(createdAt: int, id: Id)

  predicate Above(a: Key, b: Key) {
    a.createdAt > b.createdAt || (a.createdAt == b.createdAt && a.id > b.id)
  }

  function KeyOf(e: Entry): Key { Key(e.row.createdAt, e.id) }

  /** The rows the query selects: the filters, and the keyset condition when there is a cursor. */
  function Selected(table: map<Id, Row>, filter: Filter, after: Option<Key>): (r: set<Id>)
    ensures r <= table.Keys
  {
    set id | id in table && Matches(filter, table[id])
             && (after.Some? ==> Above(after.value, Key(table[id].createdAt, id)))
  }

  ghost predicate IsNewest(table: map<Id, Row>, ids: set<Id>, id: Id)
    requires ids <= table.Keys
  {
    id in ids && forall o :: o in ids && o != id ==> Above(Key(table[id].createdAt, id), Key(table[o].createdAt, o))
  }

  lemma {:induction false} NewestExists(table: map<Id, Row>, ids: set<Id>)
    requires ids != {} && ids <= table.Keys
    ensures exists id :: IsNewest(table, ids, id)
  {
    var x :| x in ids;
    if ids == {x} {
      assert IsNewest(table, ids, x);
    } else {
      NewestExists(table, ids - {x});
      var y :| IsNewest(table, ids - {x}, y);
      var top := if Above(Key(table[x].createdAt, x), Key(table[y].createdAt, y)) then x else y;
      assert forall o :: o in ids ==> o == x || o in ids - {x};
      assert IsNewest(table, ids, top);
    }
  }

  /** `ORDER BY created_at DESC, id DESC`. */
  ghost function Sorted(table: map<Id, Row>, ids: set<Id>): (r: seq<Entry>)
    requires ids <= table.Keys
    ensures |r| == |ids|
    decreases |ids|
  {
    if ids == {} then []
    else
      NewestExists(table, ids);
      var id :| IsNewest(table, ids, id);
      [Entry(id, table[id])] + Sorted(table, ids - {id})
  }

  ghost predicate Descending(es: seq<Entry>) {
    forall i, j :: 0 <= i < j < |es| ==> Above(KeyOf(es[i]), KeyOf(es[j]))
  }

  lemma SortedStep(table: map<Id, Row>, ids: set<Id>)
    requires ids <= table.Keys && ids != {}
    ensures var es := Sorted(table, ids);
            && es != [] && IsNewest(table, ids, es[0].id) && es[0].row == table[es[0].id]
            && es[1..] == Sorted(table, ids - {es[0].id})
            && es == [es[0]] + es[1..]
  {
    var es := Sorted(table, ids);
    var id := es[0].id;
    assert es[1..] == Sorted(table, ids - {id});
    assert es == [es[0]] + es[1..];
  }

  lemma Prepended(e: Entry, tail: seq<Entry>)
    requires Descending(tail)
    requires forall i :: 0 <= i < |tail| ==> Above(KeyOf(e), KeyOf(tail[i]))
    ensures Descending([e] + tail)
  {
    var all := [e] + tail;
    forall i, j | 0 <= i < j < |all| ensures Above(KeyOf(all[i]), KeyOf(all[j])) {
      assert all[j] == tail[j - 1];
      if i > 0 { assert all[i] == tail[i - 1]; }
    }
  }

  lemma HeadIds(e: Entry, tail: seq<Entry>)
    ensures Ids([e] + tail) == {e.id} + Ids(tail)
  {
    var all := [e] + tail;
    assert forall i :: 0 <= i < |tail| ==> all[i + 1] == tail[i];
    assert all[0] == e;
  }

  lemma NoRows(table: map<Id, Row>, ids: set<Id>)
    requires ids == {}
    ensures var es := Sorted(table, ids); Descending(es) && Ids(es) == {} && Holds(table, es)
  {
  }

  /** The sorted list holds exactly the selected rows, newest first. */
  lemma {:induction false} SortedMeaning(table: map<Id, Row>, ids: set<Id>)
    requires ids <= table.Keys
    ensures var es := Sorted(table, ids);
            && Descending(es)
            && Ids(es) == ids
            && Holds(table, es)
  {
    hide Sorted, Descending, Ids;
    if ids == {} {
      NoRows(table, ids);
    } else {
      SortedStep(table, ids);
      var es := Sorted(table, ids);
      var e, tail := es[0], es[1..];
      SortedMeaning(table, ids - {e.id});
      HeadIds(e, tail);
      forall i | 0 <= i < |tail| ensures Above(KeyOf(e), KeyOf(tail[i])) {
        InIds(tail, i);
        assert tail[i].row == table[tail[i].id];
      }
      Prepended(e, tail);
    }
  }

  /** The first `n` rows after the cursor, and whether more follow. */
  ghost function PageRows(table: map<Id, Row>, filter: Filter, after: Option<Key>, n: nat): seq<Entry> {
    var all := Sorted(table, Selected(table, filter, after));
    all[..Min(n, |all|)]
  }

  ghost predicate HasNext(table: map<Id, Row>, filter: Filter, after: Option<Key>, n: nat) {
    |Selected(table, filter, after)| > n
  }

  /** A page of the query: rows it selects, newest first, and nothing that was left out is newer
      than its last row. */
  ghost predicate IsPage(table: map<Id, Row>, filter: Filter, after: Option<Key>, es: seq<Entry>) {
    && Descending(es) && Holds(table, es)
    && (forall i :: 0 <= i < |es| ==> es[i].id in Selected(table, filter, after))
    && (forall id :: id in Selected(table, filter, after) && id !in Ids(es) ==>
          es != [] && Above(KeyOf(es[|es| - 1]), Key(table[id].createdAt, id)))
  }

  lemma PageMeaning(table: map<Id, Row>, filter: Filter, after: Option<Key>, n: nat)
    requires n >= 1
    ensures var es := PageRows(table, filter, after, n);
            && IsPage(table, filter, after, es)
            && (HasNext(table, filter, after, n) ==> |es| == n)
            && (!HasNext(table, filter, after, n) ==> Ids(es) == Selected(table, filter, after))
  {
    hide Sorted, Descending, Ids, Selected;
    var ids := Selected(table, filter, after);
    var all := Sorted(table, ids);
    var es := PageRows(table, filter, after, n);
    SortedMeaning(table, ids);
    PrefixDescends(all, |es|);
    forall i | 0 <= i < |es| ensures es[i].id in ids { InIds(all, i); }
    if |ids| <= n {
      assert es == all;
    }
    forall id | id in ids && id !in Ids(es)
      ensures es != [] && Above(KeyOf(es[|es| - 1]), Key(table[id].createdAt, id))
    {
      LeftOut(all, |es|, id);
    }
  }

  lemma InIds(es: seq<Entry>, i: nat)
    requires i < |es|
    ensures es[i].id in Ids(es)
  {
  }

  lemma PrefixDescends(es: seq<Entry>, n: nat)
    requires Descending(es) && n <= |es|
    ensures Descending(es[..n])
  {
  }

  lemma LeftOut(all: seq<Entry>, n: nat, id: Id)
    requires Descending(all) && n <= |all| && (n >= 1 || all == [])
    requires id in Ids(all) && id !in Ids(all[..n])
    ensures n >= 1 && exists i :: n <= i < |all| && all[i].id == id && Above(KeyOf(all[n - 1]), KeyOf(all[i]))
  {
    var i :| 0 <= i < |all| && all[i].id == id;
    forall j | 0 <= j < n ensures all[j].id in Ids(all[..n]) { assert all[..n][j] == all[j]; InIds(all[..n], j); }
  }

  // ---------------------------------------------------------------------------------------
  // list_entries
  // ---------------------------------------------------------------------------------------

  datatype Page = Page(items: seq<Entry>, next: Option<string>, total: Option<nat>)

  /** `max(1, min(int(limit or 50), 100))`. */
  function Clamp(limit: int): (r: nat)
    ensures 1 <= r <= 100 && (1 <= limit <= 100 ==> r == limit) && (limit == 0 ==> r == 50)
  {
    var l := if limit == 0 then 50 else limit;
    if l > 100 then 100 else if l < 1 then 1 else l
  }

  ghost predicate LawfulTable(f: Formats, table: map<Id, Row>) {
    forall id :: id in table ==> Lawful(f, table[id].createdAt, id)
  }

  /** The position a cursor stands for; a cursor that does not decode counts as none. */
  function After(f: Formats, cursor: Option<string>): Option<Key>
    requires !DecodeCursor(f, cursor).Raised?
  {
    match DecodeCursor(f, cursor)
    case Position(t, i) => Some(Key(t, i))
    case Absent => None
  }

  /** The page a call returns, or `None` when the cursor raises. */
  ghost function PageFor(f: Formats, table: map<Id, Row>, filter: Filter, cursor: Option<string>,
                         limit: int): Option<Page>
    requires LawfulTable(f, table)
  {
    if DecodeCursor(f, cursor).Raised? then None
    else
      var after, n := After(f, cursor), Clamp(limit);
      var es := PageRows(table, filter, after, n);
      PageMeaning(table, filter, after, n);
      Some(Page(
        es,
        if HasNext(table, filter, after, n) then Some(EncodeCursor(f, es[n - 1].row.createdAt, es[n - 1].id)) else None,
        if cursor.None? then Some(|Selected(table, filter, None)|) else None))
  }

  lemma SortedUnique(table: map<Id, Row>, ids: set<Id>, id: Id)
    requires ids <= table.Keys && IsNewest(table, ids, id)
    ensures Sorted(table, ids) == [Entry(id, table[id])] + Sorted(table, ids - {id})
  {
    SortedStep(table, ids);
    hide Sorted;
    var first := Sorted(table, ids)[0].id;
    assert first != id ==> Above(Key(table[id].createdAt, id), Key(table[first].createdAt, first));
  }

  /** `SELECT ... ORDER BY created_at DESC, id DESC LIMIT limit`. */
  method Query(table: map<Id, Row>, ids: set<Id>, limit: nat) returns (rows: seq<Entry>)
    requires ids <= table.Keys
    ensures rows == Sorted(table, ids)[..Min(limit, |ids|)]
  {
    hide Sorted;
    rows := [];
    var rest := ids;
    while |rows| < limit && rest != {}
      invariant rest <= ids && |rows| + |rest| == |ids| && |rows| <= limit
      invariant Sorted(table, ids) == rows + Sorted(table, rest)
      decreases rest
    {
      NewestExists(table, rest);
      var id :| id in rest && forall o :: o in rest && o != id ==>
        Above(Key(table[id].createdAt, id), Key(table[o].createdAt, o));
      SortedUnique(table, rest, id);
      rows := rows + [Entry(id, table[id])];
      rest := rest - {id};
    }
  }

  lemma LastIsLawful(f: Formats, table: map<Id, Row>, filter: Filter, after: Option<Key>, es: seq<Entry>)
    requires LawfulTable(f, table) && IsPage(table, filter, after, es) && es != []
    ensures Lawful(f, es[|es| - 1].row.createdAt, es[|es| - 1].id)
  {
    hide Lawful, Descending, Ids, Selected;
    var last := es[|es| - 1];
    assert table[last.id] == last.row;
  }

  method ListEntries(f: Formats, table: map<Id, Row>, cursor: Option<string>, limit: int, filter: Filter)
    returns (page: Option<Page>)
    requires LawfulTable(f, table)
    ensures page == PageFor(f, table, filter, cursor, limit)
  {
    hide Sorted, IsPage, DecodeCursor, EncodeCursor, Selected, After, Lawful, LawfulTable;
    var n := Clamp(limit);
    var decoded := DecodeCursor(f, cursor);
    if decoded.Raised? {
      return None;
    }
    var ids := Selected(table, filter, After(f, cursor));
    var rows := Query(table, ids, n + 1);
    var hasNext := |rows| > n;
    var items := rows[..Min(n, |rows|)];
    PageMeaning(table, filter, After(f, cursor), n);
    assert items == PageRows(table, filter, After(f, cursor), n);
    var next: Option<string> := None;
    if hasNext && items != [] {
      var last := items[|items| - 1];
      LastIsLawful(f, table, filter, After(f, cursor), items);
      next := Some(EncodeCursor(f, last.row.createdAt, last.id));
    }
    var total: Option<nat> := None;
    if cursor.None? {
      total := Some(|Selected(table, filter, None)|);
    }
    page := Some(Page(items, next, total));
  }

  // ---------------------------------------------------------------------------------------
  // What a page holds, column by column
  // ---------------------------------------------------------------------------------------

  /** The row has the event, the actor and the target type asked for. */
  predicate HasColumns(filter: Filter, row: Row) {
    && (filter.event == None || filter.event == Some(row.event))
    && (filter.actor == None || filter.actor == row.actor)
    && (filter.targetType == None || filter.targetType == row.targetType)
  }

  predicate IsOlder(createdAt: int, id: Id, than: Key) {
    createdAt < than.createdAt || (createdAt == than.createdAt && id < than.id)
  }

  /** Behind the position the cursor stands for; no cursor, or an undecodable one, is in front of everything. */
  predicate IsBehind(f: Formats, cursor: Option<string>, row: Row, id: Id) {
    match DecodeCursor(f, cursor)
    case Position(t, i) => IsOlder(row.createdAt, id, Key(t, i))
    case _ => true
  }

  lemma SelectedInFull(f: Formats, table: map<Id, Row>, filter: Filter, cursor: Option<string>)
    requires !DecodeCursor(f, cursor).Raised?
    ensures forall id :: id in Selected(table, filter, After(f, cursor)) <==>
              id in table && HasColumns(filter, table[id]) && IsBehind(f, cursor, table[id], id)
  {
    hide DecodeCursor;
  }

  lemma TotalInFull(table: map<Id, Row>, filter: Filter)
    ensures Selected(table, filter, None) == set id | id in table && HasColumns(filter, table[id])
  {
  }

  lemma ItemsInFull(table: map<Id, Row>, filter: Filter, after: Option<Key>, es: seq<Entry>)
    requires IsPage(table, filter, after, es)
    ensures forall i :: 0 <= i < |es| ==> es[i].id in table && es[i].row == table[es[i].id]
                                          && es[i].id in Selected(table, filter, after)
    ensures forall i, j :: 0 <= i < j < |es| ==>
              IsOlder(es[j].row.createdAt, es[j].id, Key(es[i].row.createdAt, es[i].id))
  {
    hide Selected, Ids;
    forall i, j | 0 <= i < j < |es|
      ensures IsOlder(es[j].row.createdAt, es[j].id, Key(es[i].row.createdAt, es[i].id))
    {
      assert Above(KeyOf(es[i]), KeyOf(es[j]));
    }
  }

  /** A page holds rows of the table with the columns asked for, behind the cursor, strictly newest first; at most
      as many as asked for, 50 by default and never more than 100, and that many when more follow. */
  lemma PageHolds(f: Formats, table: map<Id, Row>, filter: Filter, cursor: Option<string>, limit: int)
    requires LawfulTable(f, table) && !DecodeCursor(f, cursor).Raised?
    ensures PageFor(f, table, filter, cursor, limit).Some?
    ensures var page := PageFor(f, table, filter, cursor, limit).value;
            && (forall i :: 0 <= i < |page.items| ==>
                  && page.items[i].id in table && page.items[i].row == table[page.items[i].id]
                  && HasColumns(filter, page.items[i].row) && IsBehind(f, cursor, page.items[i].row, page.items[i].id))
            && (forall i, j :: 0 <= i < j < |page.items| ==>
                  IsOlder(page.items[j].row.createdAt, page.items[j].id,
                          Key(page.items[i].row.createdAt, page.items[i].id)))
            && var most := if limit == 0 then 50 else if limit > 100 then 100 else if limit < 1 then 1 else limit;
               |page.items| <= most && (page.next.Some? ==> |page.items| == most)
  {
    hide DecodeCursor, EncodeCursor, IsPage, Selected, HasColumns, IsBehind, IsOlder, LawfulTable, Sorted;
    var after := After(f, cursor);
    PageMeaning(table, filter, after, Clamp(limit));
    SelectedInFull(f, table, filter, cursor);
    ItemsInFull(table, filter, after, PageRows(table, filter, after, Clamp(limit)));
  }

  /** Nothing is passed over: a row of the table with these columns behind the cursor is on the page, or behind
      the page's last row, and then there is a next cursor, which stands for that last row. */
  lemma PagePassesNothing(f: Formats, table: map<Id, Row>, filter: Filter, cursor: Option<string>, limit: int, id: Id)
    requires LawfulTable(f, table) && !DecodeCursor(f, cursor).Raised?
    requires id in table && HasColumns(filter, table[id]) && IsBehind(f, cursor, table[id], id)
    ensures PageFor(f, table, filter, cursor, limit).Some?
    ensures var page := PageFor(f, table, filter, cursor, limit).value;
            || (exists i :: 0 <= i < |page.items| && page.items[i] == Entry(id, table[id]))
            || (page.next.Some? && page.items != [] && var last := page.items[|page.items| - 1];
                  && IsOlder(table[id].createdAt, id, Key(last.row.createdAt, last.id))
                  && DecodeCursor(f, page.next) == Position(last.row.createdAt, last.id))
  {
    hide DecodeCursor, EncodeCursor, Selected, HasColumns, IsBehind, LawfulTable, Sorted, Descending;
    var after := After(f, cursor);
    PageMeaning(table, filter, after, Clamp(limit));
    SelectedInFull(f, table, filter, cursor);
    var page := PageFor(f, table, filter, cursor, limit).value;
    if id in Ids(page.items) {
      var i :| 0 <= i < |page.items| && page.items[i].id == id;
      assert page.items[i] == Entry(id, table[id]);
    } else {
      NextCursor(f, table, filter, cursor, limit);
      DecodedAs(f, page.next, KeyOf(page.items[|page.items| - 1]));
    }
  }

  lemma DecodedAs(f: Formats, cursor: Option<string>, key: Key)
    requires !DecodeCursor(f, cursor).Raised? && After(f, cursor) == Some(key)
    ensures DecodeCursor(f, cursor) == Position(key.createdAt, key.id)
  {
    hide DecodeCursor;
  }

  /** The total counts all rows of the table with the columns asked for, and is given without a cursor only. */
  lemma PageTotal(f: Formats, table: map<Id, Row>, filter: Filter, cursor: Option<string>, limit: int)
    requires LawfulTable(f, table) && !DecodeCursor(f, cursor).Raised?
    ensures PageFor(f, table, filter, cursor, limit).Some?
    ensures PageFor(f, table, filter, cursor, limit).value.total ==
            if cursor == None then Some(|(set id | id in table && HasColumns(filter, table[id]))|) else None
  {
    hide DecodeCursor, EncodeCursor, PageRows, HasColumns, Selected;
    TotalInFull(table, filter);
  }

  // ---------------------------------------------------------------------------------------
  // Walking the pages while the table changes
  // ---------------------------------------------------------------------------------------

  /** The calls of one client: the i-th call sees `tables[i]` and passes the cursor the call before
      it returned; each has returned a page. */
  ghost predicate Walk(f: Formats, filter: Filter, limit: int, cursor: Option<string>, tables: seq<map<Id, Row>>,
                       pages: seq<Page>)
    decreases |pages|
  {
    && |tables| == |pages| >= 1
    && LawfulTable(f, tables[0])
    && PageFor(f, tables[0], filter, cursor, limit) == Some(pages[0])
    && (|pages| > 1 ==> pages[0].next.Some? && Walk(f, filter, limit, pages[0].next, tables[1..], pages[1..]))
  }

  ghost predicate Finished(pages: seq<Page>) {
    pages != [] && pages[|pages| - 1].next == None
  }

  function AllItems(pages: seq<Page>): seq<Entry> {
    if pages == [] then [] else pages[0].items + AllItems(pages[1..])
  }

  /** The cursor of a full page stands for its last row. */
  lemma NextCursor(f: Formats, table: map<Id, Row>, filter: Filter, cursor: Option<string>, limit: int)
    requires LawfulTable(f, table)
    requires PageFor(f, table, filter, cursor, limit).Some? && PageFor(f, table, filter, cursor, limit).value.next.Some?
    ensures var page := PageFor(f, table, filter, cursor, limit).value;
            && |page.items| == Clamp(limit)
            && !DecodeCursor(f, page.next).Raised?
            && After(f, page.next) == Some(KeyOf(page.items[|page.items| - 1]))
  {
    hide DecodeCursor, EncodeCursor, PageRows, IsPage;
    var after, n := After(f, cursor), Clamp(limit);
    PageMeaning(table, filter, after, n);
    var es := PageRows(table, filter, after, n);
    LastIsLawful(f, table, filter, after, es);
    CursorRoundTrip(f, es[n - 1].row.createdAt, es[n - 1].id);
  }

  ghost predicate Below(after: Option<Key>, es: seq<Entry>) {
    after.Some? ==> forall i :: 0 <= i < |es| ==> Above(after.value, KeyOf(es[i]))
  }

  /** What one call of a walk contributes. */
  lemma FirstPage(f: Formats, filter: Filter, limit: int, cursor: Option<string>, tables: seq<map<Id, Row>>,
                  pages: seq<Page>)
    requires Walk(f, filter, limit, cursor, tables, pages)
    ensures !DecodeCursor(f, cursor).Raised?
    ensures var after, es := After(f, cursor), pages[0].items;
            && IsPage(tables[0], filter, after, es)
            && es == PageRows(tables[0], filter, after, Clamp(limit))
            && (pages[0].next.Some? <==> HasNext(tables[0], filter, after, Clamp(limit)))
            && (pages[0].next.Some? ==>
                  && es != []
                  && !DecodeCursor(f, pages[0].next).Raised?
                  && After(f, pages[0].next) == Some(KeyOf(es[|es| - 1])))
            && (pages[0].next.None? ==> Ids(es) == Selected(tables[0], filter, after))
  {
    hide DecodeCursor, EncodeCursor, IsPage, Ids, Selected, PageRows;
    PageMeaning(tables[0], filter, After(f, cursor), Clamp(limit));
    if pages[0].next.Some? {
      NextCursor(f, tables[0], filter, cursor, limit);
    }
  }

  lemma PageIsBelow(table: map<Id, Row>, filter: Filter, after: Option<Key>, es: seq<Entry>)
    requires IsPage(table, filter, after, es)
    ensures Below(after, es)
  {
    hide Ids, Descending;
    forall i | 0 <= i < |es| && after.Some? ensures Above(after.value, KeyOf(es[i])) {
      assert table[es[i].id] == es[i].row;
    }
  }

  lemma Joined(es: seq<Entry>, more: seq<Entry>, after: Option<Key>)
    requires es != [] && Descending(es) && Below(after, es)
    requires Descending(more) && Below(Some(KeyOf(es[|es| - 1])), more)
    ensures Descending(es + more) && Below(after, es + more)
  {
    var last := es[|es| - 1];
    forall i, j | 0 <= i < |es| && 0 <= j < |more| ensures Above(KeyOf(es[i]), KeyOf(more[j])) {
      assert Above(KeyOf(last), KeyOf(more[j]));
      assert i < |es| - 1 ==> Above(KeyOf(es[i]), KeyOf(last));
    }
  }

  /** Over any run of calls, whatever happened to the table between them, the rows come in strictly
      descending (created_at, id) order: in particular no row comes twice. */
  lemma {:induction false} WalkDescends(f: Formats, filter: Filter, limit: int, cursor: Option<string>,
                                        tables: seq<map<Id, Row>>, pages: seq<Page>)
    requires Walk(f, filter, limit, cursor, tables, pages)
    ensures !DecodeCursor(f, cursor).Raised?
    ensures Descending(AllItems(pages)) && Below(After(f, cursor), AllItems(pages))
    decreases |pages|
  {
    hide DecodeCursor, PageFor, LawfulTable, Selected, Descending, Below, After, HasNext, PageRows;
    FirstPage(f, filter, limit, cursor, tables, pages);
    var after, es := After(f, cursor), pages[0].items;
    PageIsBelow(tables[0], filter, after, es);
    if |pages| > 1 {
      WalkDescends(f, filter, limit, pages[0].next, tables[1..], pages[1..]);
      Joined(es, AllItems(pages[1..]), after);
    } else {
      assert AllItems(pages) == es + [] == es;
    }
  }

  /** The row is there, with that timestamp, and matches at every call. */
  ghost predicate Persists(filter: Filter, tables: seq<map<Id, Row>>, key: Key) {
    forall i :: 0 <= i < |tables| ==>
      key.id in tables[i] && tables[i][key.id].createdAt == key.createdAt && Matches(filter, tables[i][key.id])
  }

  ghost predicate Occurs(es: seq<Entry>, key: Key) {
    exists i :: 0 <= i < |es| && KeyOf(es[i]) == key
  }

  lemma OccursInSum(es: seq<Entry>, more: seq<Entry>, key: Key)
    requires Occurs(es, key) || Occurs(more, key)
    ensures Occurs(es + more, key)
  {
    var all := es + more;
    if Occurs(es, key) {
      var i :| 0 <= i < |es| && KeyOf(es[i]) == key;
      assert KeyOf(all[i]) == key;
    } else {
      var i :| 0 <= i < |more| && KeyOf(more[i]) == key;
      assert KeyOf(all[|es| + i]) == key;
    }
  }

  /** A row the query selects is on the page or behind its last row. */
  lemma OnPageOrBehind(table: map<Id, Row>, filter: Filter, after: Option<Key>, es: seq<Entry>, key: Key)
    requires IsPage(table, filter, after, es)
    requires key.id in table && table[key.id].createdAt == key.createdAt && Matches(filter, table[key.id])
    requires after.Some? ==> Above(after.value, key)
    ensures key.id in Selected(table, filter, after)
    ensures Occurs(es, key) || (key.id !in Ids(es) && es != [] && Above(KeyOf(es[|es| - 1]), key))
  {
    hide Descending, Matches;
    if key.id in Ids(es) {
      var i :| 0 <= i < |es| && es[i].id == key.id;
      assert KeyOf(es[i]) == key;
    }
  }

  /** A finished run returns every row that matched throughout and lies after its first cursor. */
  lemma {:induction false} WalkCovers(f: Formats, filter: Filter, limit: int, cursor: Option<string>,
                                      tables: seq<map<Id, Row>>, pages: seq<Page>, key: Key)
    requires Walk(f, filter, limit, cursor, tables, pages) && Finished(pages)
    requires Persists(filter, tables, key)
    requires After(f, cursor).Some? ==> Above(After(f, cursor).value, key)
    ensures Occurs(AllItems(pages), key)
    decreases |pages|
  {
    hide DecodeCursor, PageFor, LawfulTable, Selected, IsPage, Occurs, After, Ids, HasNext, PageRows, Matches;
    FirstPage(f, filter, limit, cursor, tables, pages);
    var after, es := After(f, cursor), pages[0].items;
    var more := AllItems(pages[1..]);
    OnPageOrBehind(tables[0], filter, after, es, key);
    if !Occurs(es, key) {
      WalkCovers(f, filter, limit, pages[0].next, tables[1..], pages[1..], key);
    }
    OccursInSum(es, more, key);
  }

  /** From no cursor to `next_cursor = None`: every row that matched throughout comes exactly once. */
  lemma EachRowExactlyOnce(f: Formats, filter: Filter, limit: int, tables: seq<map<Id, Row>>, pages: seq<Page>,
                           key: Key)
    requires Walk(f, filter, limit, None, tables, pages) && Finished(pages) && Persists(filter, tables, key)
    ensures exists i :: 0 <= i < |AllItems(pages)| && KeyOf(AllItems(pages)[i]) == key
                     && forall j :: 0 <= j < |AllItems(pages)| && KeyOf(AllItems(pages)[j]) == key ==> j == i
  {
    NoCursor(f);
    hide Walk, DecodeCursor, Descending, AllItems, Persists, Below, After;
    WalkDescends(f, filter, limit, None, tables, pages);
    WalkCovers(f, filter, limit, None, tables, pages, key);
    var all := AllItems(pages);
    var i :| 0 <= i < |all| && KeyOf(all[i]) == key;
    OneOccurrence(all, i);
  }

  lemma NoCursor(f: Formats)
    ensures !DecodeCursor(f, None).Raised? && After(f, None) == None
  {
  }

  lemma OneOccurrence(es: seq<Entry>, i: nat)
    requires Descending(es) && i < |es|
    ensures forall j :: 0 <= j < |es| && KeyOf(es[j]) == KeyOf(es[i]) ==> j == i
  {
  }

  lemma {:induction false} SortedDrop(table: map<Id, Row>, ids: set<Id>, n: nat)
    requires ids <= table.Keys && n <= |ids|
    ensures Sorted(table, ids)[n..] == Sorted(table, ids - Ids(Sorted(table, ids)[..n]))
  {
    hide Sorted, Ids;
    var es := Sorted(table, ids);
    if n == 0 {
      NoIds(es[..0]);
      assert ids - Ids(es[..0]) == ids;
    } else {
      SortedStep(table, ids);
      var id := es[0].id;
      SortedDrop(table, ids - {id}, n - 1);
      var tail := es[1..];
      assert es[n..] == tail[n - 1..];
      assert es[..n] == [es[0]] + tail[..n - 1];
      HeadIds(es[0], tail[..n - 1]);
      assert ids - Ids(es[..n]) == ids - {id} - Ids(tail[..n - 1]);
    }
  }

  lemma NoIds(es: seq<Entry>)
    requires es == []
    ensures Ids(es) == {}
  {
  }

  ghost predicate Static(tables: seq<map<Id, Row>>, table: map<Id, Row>) {
    forall i :: 0 <= i < |tables| ==> tables[i] == table
  }

  /** What is left after a full page is what the next cursor selects. */
  lemma RestIsBelow(table: map<Id, Row>, filter: Filter, after: Option<Key>, es: seq<Entry>)
    requires IsPage(table, filter, after, es) && es != []
    ensures Selected(table, filter, after) - Ids(es) == Selected(table, filter, Some(KeyOf(es[|es| - 1])))
  {
    var last := KeyOf(es[|es| - 1]);
    forall i | 0 <= i < |es| ensures !Above(last, KeyOf(es[i])) && es[i].row == table[es[i].id] {
      assert i < |es| - 1 ==> Above(KeyOf(es[i]), last);
    }
    hide Descending;
    InIds(es, |es| - 1);
  }

  /** On a table that does not change the pages concatenate to the whole filtered, sorted table,
      whatever the limit. */
  lemma {:induction false} StaticPagesAreTheTable(f: Formats, filter: Filter, limit: int, cursor: Option<string>,
                                                  tables: seq<map<Id, Row>>, pages: seq<Page>, table: map<Id, Row>)
    requires Walk(f, filter, limit, cursor, tables, pages) && Finished(pages) && Static(tables, table)
    ensures !DecodeCursor(f, cursor).Raised?
    ensures AllItems(pages) == Sorted(table, Selected(table, filter, After(f, cursor)))
    decreases |pages|
  {
    hide DecodeCursor, PageFor, LawfulTable, Selected, IsPage, After, Ids, Sorted;
    FirstPage(f, filter, limit, cursor, tables, pages);
    var after, n := After(f, cursor), Clamp(limit);
    var ids := Selected(table, filter, after);
    var es := pages[0].items;
    assert es == Sorted(table, ids)[..Min(n, |ids|)];
    if |pages| > 1 {
      StaticPagesAreTheTable(f, filter, limit, pages[0].next, tables[1..], pages[1..], table);
      SortedDrop(table, ids, n);
      RestIsBelow(table, filter, after, es);
    } else {
      assert AllItems(pages) == es + [] == es;
    }
  }

  /** One page, and one more for every further `limit` rows: max(1, ceil(n / limit)). */
  function PageCount(n: nat, limit: nat): nat
    requires limit >= 1
  {
    if n <= limit then 1 else 1 + PageCount(n - limit, limit)
  }

  lemma {:induction false} PageCountMeaning(n: nat, limit: nat)
    requires limit >= 1
    ensures var k := PageCount(n, limit); k >= 1 && n <= k * limit && (k > 1 ==> (k - 1) * limit < n)
  {
    if n > limit {
      PageCountMeaning(n - limit, limit);
      var k := PageCount(n - limit, limit);
      assert (k + 1) * limit == k * limit + limit;
      assert k * limit == (k - 1) * limit + limit;
    }
  }

  /** How many rows are left after a full page. */
  lemma RestCount(table: map<Id, Row>, filter: Filter, after: Option<Key>, es: seq<Entry>)
    requires IsPage(table, filter, after, es) && es != []
    ensures |Selected(table, filter, Some(KeyOf(es[|es| - 1])))| == |Selected(table, filter, after)| - |es|
  {
    RestIsBelow(table, filter, after, es);
    PageIds(table, filter, after, es);
    hide IsPage, Selected, Ids;
    var all, page := Selected(table, filter, after), Ids(es);
    assert all == (all - page) + page;
  }

  lemma PageIds(table: map<Id, Row>, filter: Filter, after: Option<Key>, es: seq<Entry>)
    requires IsPage(table, filter, after, es)
    ensures Ids(es) <= Selected(table, filter, after) && |Ids(es)| == |es|
  {
    hide Selected;
    DescendingDistinct(es);
    IdsCount(es);
  }

  lemma DescendingDistinct(es: seq<Entry>)
    requires Descending(es) && forall i, j :: 0 <= i < j < |es| && es[i].id == es[j].id ==> es[i].row == es[j].row
    ensures DistinctIds(es)
  {
  }

  /** On a table that does not change a walk is finished exactly when it has max(1, ceil(n / limit)) pages,
      n being the rows that match after its first cursor, and it never has more. */
  lemma {:induction false} StaticWalkLength(f: Formats, filter: Filter, limit: int, cursor: Option<string>,
                                            tables: seq<map<Id, Row>>, pages: seq<Page>, table: map<Id, Row>)
    requires Walk(f, filter, limit, cursor, tables, pages) && Static(tables, table)
    ensures !DecodeCursor(f, cursor).Raised?
    ensures var k := PageCount(|Selected(table, filter, After(f, cursor))|, Clamp(limit));
            |pages| <= k && (Finished(pages) <==> |pages| == k)
    decreases |pages|
  {
    hide DecodeCursor, PageFor, LawfulTable, Selected, IsPage, After, Ids, Sorted;
    FirstPage(f, filter, limit, cursor, tables, pages);
    var after, es := After(f, cursor), pages[0].items;
    if |pages| > 1 {
      RestCount(table, filter, after, es);
      StaticWalkLength(f, filter, limit, pages[0].next, tables[1..], pages[1..], table);
    }
  }

  /** And such a walk exists: a client that keeps following next_cursor gets to the end. */
  lemma {:induction false} StaticWalkExists(f: Formats, filter: Filter, limit: int, cursor: Option<string>,
                                            table: map<Id, Row>)
    returns (tables: seq<map<Id, Row>>, pages: seq<Page>)
    requires LawfulTable(f, table) && !DecodeCursor(f, cursor).Raised?
    ensures Walk(f, filter, limit, cursor, tables, pages) && Static(tables, table) && Finished(pages)
    decreases |Selected(table, filter, After(f, cursor))|
  {
    hide DecodeCursor, PageFor, LawfulTable, Selected, IsPage, After, Ids, Sorted;
    var page := PageOf(f, table, filter, cursor, limit);
    FirstPage(f, filter, limit, cursor, [table], [page]);
    if page.next.None? {
      tables, pages := [table], [page];
    } else {
      RestCount(table, filter, After(f, cursor), page.items);
      tables, pages := StaticWalkExists(f, filter, limit, page.next, table);
      var more, rest := tables, pages;
      tables, pages := [table] + more, [page] + rest;
      assert tables[1..] == more && pages[1..] == rest;
    }
  }

  lemma PageOf(f: Formats, table: map<Id, Row>, filter: Filter, cursor: Option<string>, limit: int) returns (page: Page)
    requires LawfulTable(f, table) && !DecodeCursor(f, cursor).Raised?
    ensures PageFor(f, table, filter, cursor, limit) == Some(page) && Walk(f, filter, limit, cursor, [table], [page])
  {
    hide DecodeCursor, Sorted, Selected, LawfulTable;
    page := PageFor(f, table, filter, cursor, limit).value;
  }
}
