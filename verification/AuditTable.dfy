/** The `activity_audit_log` table and its cold-storage file, as both the archiver and
    the retention scanner see them. */
module AuditTable {
  import opened Prelude
  import Json

  type Id = nat

  const DAY := 86400

  datatype Row = Row(
    event: string,
    actor: Option<nat>,
    targetType: Option<string>,
    targetId: Option<nat>,
    metadata: Json.Json,
    createdAt: int)

  /** One row as SELECT returns it, and as its JSON line records it. */
  datatype Entry = Entry(id: Id, row: Row)

  datatype File = File(name: string, day: int)

  datatype Line = Line(file: File, entry: Entry)

  /** The `event_type` / `exclude_events` pair: a single event, or every event but the listed ones. */
  datatype Bucket = OneEvent(event: string) | AllExcept(excluded: set<string>) {
    predicate Covers(e: string) {
      match this
      case OneEvent(event) => e == event
      case AllExcept(excluded) => e !in excluded
    }
  }

  predicate Due(bucket: Bucket, cutoff: int, row: Row) {
    bucket.Covers(row.event) && row.createdAt < cutoff
  }

  function DueIds(table: map<Id, Row>, bucket: Bucket, cutoff: int): set<Id> {
    set id | id in table && Due(bucket, cutoff, table[id])
  }

  /** The plain `DELETE ... WHERE <bucket> AND created_at < cutoff`. */
  function DirectDelete(table: map<Id, Row>, bucket: Bucket, cutoff: int): map<Id, Row> {
    map id | id in table && !Due(bucket, cutoff, table[id]) :: table[id]
  }

  function Ids(batch: seq<Entry>): set<Id> {
    set i | 0 <= i < |batch| :: batch[i].id
  }

  /** What `DELETE ... WHERE id IN ids` reports. */
  function Rowcount(table: map<Id, Row>, batch: seq<Entry>): nat {
    |Ids(batch) * table.Keys|
  }

  ghost predicate DistinctIds(batch: seq<Entry>) {
    forall i, j :: 0 <= i < j < |batch| ==> batch[i].id != batch[j].id
  }

  /** The table holds every row of the batch, with that content. */
  ghost predicate Holds(table: map<Id, Row>, batch: seq<Entry>) {
    forall i :: 0 <= i < |batch| ==> batch[i].id in table && table[batch[i].id] == batch[i].row
  }

  function Tagged(file: File, batch: seq<Entry>): seq<Line> {
    seq(|batch|, i requires 0 <= i < |batch| => Line(file, batch[i]))
  }

  /** What `SELECT ... ORDER BY created_at LIMIT limit FOR UPDATE SKIP LOCKED` may return when
      `free` holds the unlocked rows: rows tied on `created_at` may come in any order. */
  ghost predicate IsBatch(free: map<Id, Row>, bucket: Bucket, cutoff: int, limit: nat, batch: seq<Entry>) {
    && |batch| <= limit
    && DistinctIds(batch)
    && Holds(free, batch)
    && (forall i :: 0 <= i < |batch| ==> Due(bucket, cutoff, batch[i].row))
    && (forall i, j :: 0 <= i < j < |batch| ==> batch[i].row.createdAt <= batch[j].row.createdAt)
    && (|batch| == limit || DueIds(free, bucket, cutoff) <= Ids(batch))
    && (forall id :: id in DueIds(free, bucket, cutoff) && id !in Ids(batch) && batch != [] ==>
          batch[|batch| - 1].row.createdAt <= free[id].createdAt)
  }

  lemma IdsAppend(batch: seq<Entry>, entry: Entry)
    ensures Ids(batch + [entry]) == Ids(batch) + {entry.id}
  {
    var all := batch + [entry];
    assert all[|batch|] == entry && forall i :: 0 <= i < |batch| ==> all[i] == batch[i];
  }

  lemma {:induction false} IdsCount(batch: seq<Entry>)
    requires DistinctIds(batch)
    ensures |Ids(batch)| == |batch|
  {
    if batch == [] {
    } else {
      var last := |batch| - 1;
      IdsCount(batch[..last]);
      assert batch == batch[..last] + [batch[last]];
      IdsAppend(batch[..last], batch[last]);
    }
  }

  lemma RowcountAll(table: map<Id, Row>, batch: seq<Entry>)
    requires DistinctIds(batch) && Holds(table, batch)
    ensures Rowcount(table, batch) == |batch|
  {
    IdsCount(batch);
    assert Ids(batch) * table.Keys == Ids(batch);
  }

  lemma MinusCount(table: map<Id, Row>, ids: set<Id>)
    requires ids <= table.Keys
    ensures |table - ids| == |table| - |ids|
  {
    var left := table.Keys - ids;
    assert (table - ids).Keys == left;
    assert table.Keys == left + ids;
  }
}
