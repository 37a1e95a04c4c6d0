/** The retention scanner: `prune_once` in its plain and its archiving mode, and the batched
    `archive_then_prune` loop of a sole worker. */
module Retention {
  import opened AuditTable
  import opened Counts
  import Json
  import opened Numerals
  import opened Prelude

  const GLOBAL_BUCKET := "__global__"

  type Overrides = seq<(string, int)>

  datatype Settings = Settings(
    enabled: bool,
    overrides: Overrides,
    globalDays: int,
    archiveEnabled: bool,
    archiveDir: string,
    batchSize: nat)

  datatype Failure = ArchiveDirUnset | WriteFailed

  datatype PruneResult = PruneResult(total: nat, perEvent: Tally, perEventArchived: Tally)

  // ---------------------------------------------------------------------------------------
  // What a prune means, whatever its mode
  // ---------------------------------------------------------------------------------------

  function Keys(overrides: Overrides): set<string> {
    set i | 0 <= i < |overrides| :: overrides[i].0
  }

  /** `overrides` comes from a dictionary. */
  ghost predicate DistinctKeys(overrides: Overrides) {
    forall i, j :: 0 <= i < j < |overrides| ==> overrides[i].0 != overrides[j].0
  }

  function Cutoff(now: int, days: int): int { now - days * DAY }

  /** The cutoffs of one prune: one for each override, then the one of the fallback bucket. */
  function Cutoffs(overrides: Overrides, globalDays: int, now: int): seq<int> {
    seq(|overrides|, i requires 0 <= i < |overrides| => Cutoff(now, overrides[i].1)) + [Cutoff(now, globalDays)]
  }

  function BucketOf(overrides: Overrides, i: nat): Bucket
    requires i <= |overrides|
  {
    if i < |overrides| then OneEvent(overrides[i].0) else AllExcept(Keys(overrides))
  }

  /** The row is past the cutoff of one of the first `n` buckets. */
  ghost predicate DueInFirst(overrides: Overrides, cutoffs: seq<int>, n: nat, row: Row)
    requires n <= |cutoffs| <= |overrides| + 1
  {
    exists i :: 0 <= i < n && Due(BucketOf(overrides, i), cutoffs[i], row)
  }

  ghost function Gone(table: map<Id, Row>, overrides: Overrides, cutoffs: seq<int>, n: nat): set<Id>
    requires n <= |cutoffs| <= |overrides| + 1
  {
    set id | id in table && DueInFirst(overrides, cutoffs, n, table[id])
  }

  ghost function Removed(table: map<Id, Row>, overrides: Overrides, cutoffs: seq<int>): set<Id>
    requires |overrides| + 1 == |cutoffs|
  {
    Gone(table, overrides, cutoffs, |cutoffs|)
  }

  ghost function Survivors(table: map<Id, Row>, overrides: Overrides, cutoffs: seq<int>): map<Id, Row>
    requires |overrides| + 1 == |cutoffs|
  {
    table - Removed(table, overrides, cutoffs)
  }

  function BucketName(overrides: Overrides, i: nat): string
    requires i <= |overrides|
  {
    if i < |overrides| then overrides[i].0 else GLOBAL_BUCKET
  }

  /** The `per_event` dictionary after the first `n` buckets, counted on the table as it was
      before the prune. */
  function TallyFirst(table: map<Id, Row>, overrides: Overrides, cutoffs: seq<int>, n: nat): Tally
    requires n <= |cutoffs| <= |overrides| + 1
  {
    if n == 0 then []
    else
      Put(TallyFirst(table, overrides, cutoffs, n - 1), BucketName(overrides, n - 1),
          |DueIds(table, BucketOf(overrides, n - 1), cutoffs[n - 1])|)
  }

  function TallyAll(table: map<Id, Row>, overrides: Overrides, cutoffs: seq<int>): Tally
    requires |overrides| + 1 == |cutoffs|
  {
    TallyFirst(table, overrides, cutoffs, |cutoffs|)
  }

  /** The retention of an event: its override if it has one, else the global one. */
  ghost predicate IsPeriodOf(overrides: Overrides, globalDays: int, event: string, days: int) {
    || (event, days) in overrides
    || (days == globalDays && forall i :: 0 <= i < |overrides| ==> overrides[i].0 != event)
  }

  /** A row survives exactly when it is no older than the retention of its own event. Only the
      set of overrides matters, not their order. */
  lemma SurvivesIffRecent(table: map<Id, Row>, overrides: Overrides, globalDays: int, now: int, id: Id, days: int)
    requires DistinctKeys(overrides) && id in table && IsPeriodOf(overrides, globalDays, table[id].event, days)
    ensures id in Survivors(table, overrides, Cutoffs(overrides, globalDays, now)) <==>
            table[id].createdAt >= now - days * 86400
  {
    var cutoffs := Cutoffs(overrides, globalDays, now);
    var event := table[id].event;
    if event in Keys(overrides) {
      var i :| 0 <= i < |overrides| && overrides[i] == (event, days);
      assert cutoffs[i] == Cutoff(now, days);
      assert BucketOf(overrides, i).Covers(event);
      assert !BucketOf(overrides, |overrides|).Covers(event);
    } else {
      assert BucketOf(overrides, |overrides|).Covers(event);
    }
  }

  /** Each event belongs to one bucket only. */
  lemma BucketsAreDisjoint(overrides: Overrides, i: nat, j: nat, event: string)
    requires DistinctKeys(overrides) && i < j <= |overrides|
    ensures !(BucketOf(overrides, i).Covers(event) && BucketOf(overrides, j).Covers(event))
  {
    assert overrides[i].0 in Keys(overrides);
  }

  lemma GoneStep(table: map<Id, Row>, overrides: Overrides, cutoffs: seq<int>, n: nat)
    requires DistinctKeys(overrides) && n < |cutoffs| <= |overrides| + 1
    ensures var next := DueIds(table, BucketOf(overrides, n), cutoffs[n]);
            && Gone(table, overrides, cutoffs, n + 1) == Gone(table, overrides, cutoffs, n) + next
            && Gone(table, overrides, cutoffs, n) !! next
  {
    forall i, id | 0 <= i < n && id in table ensures !(BucketOf(overrides, i).Covers(table[id].event)
                                                    && BucketOf(overrides, n).Covers(table[id].event))
    {
      BucketsAreDisjoint(overrides, i, n, table[id].event);
    }
  }

  lemma GoneCount(table: map<Id, Row>, overrides: Overrides, cutoffs: seq<int>, n: nat)
    requires DistinctKeys(overrides) && n < |cutoffs| <= |overrides| + 1
    ensures |Gone(table, overrides, cutoffs, n + 1)| ==
            |Gone(table, overrides, cutoffs, n)| + |DueIds(table, BucketOf(overrides, n), cutoffs[n])|
  {
    GoneStep(table, overrides, cutoffs, n);
  }

  /** The first buckets do not depend on the cutoff of a later one. */
  lemma {:induction false} LaterBucketIrrelevant(table: map<Id, Row>, overrides: Overrides, cutoffs: seq<int>, c: int,
                                                 n: nat)
    requires n <= |cutoffs| <= |overrides|
    ensures Gone(table, overrides, cutoffs + [c], n) == Gone(table, overrides, cutoffs, n)
    ensures TallyFirst(table, overrides, cutoffs + [c], n) == TallyFirst(table, overrides, cutoffs, n)
  {
    assert forall i :: 0 <= i < n ==> (cutoffs + [c])[i] == cutoffs[i];
    if n > 0 {
      LaterBucketIrrelevant(table, overrides, cutoffs, c, n - 1);
    }
  }

  /** Deleting bucket after bucket from what is left counts the same rows as on the whole table. */
  lemma BucketUntouched(table: map<Id, Row>, overrides: Overrides, cutoffs: seq<int>, n: nat)
    requires DistinctKeys(overrides) && n < |cutoffs| <= |overrides| + 1
    ensures var rest := table - Gone(table, overrides, cutoffs, n);
            && DueIds(rest, BucketOf(overrides, n), cutoffs[n]) == DueIds(table, BucketOf(overrides, n), cutoffs[n])
            && DirectDelete(rest, BucketOf(overrides, n), cutoffs[n]) ==
               table - Gone(table, overrides, cutoffs, n + 1)
  {
    GoneStep(table, overrides, cutoffs, n);
  }

  lemma {:induction false} TallyGet(table: map<Id, Row>, overrides: Overrides, cutoffs: seq<int>, n: nat, key: string)
    requires DistinctKeys(overrides) && n <= |overrides| && n <= |cutoffs| <= |overrides| + 1
    ensures forall i :: 0 <= i < n && overrides[i].0 == key ==>
              Get(TallyFirst(table, overrides, cutoffs, n), key) == |DueIds(table, OneEvent(key), cutoffs[i])|
    ensures (forall i :: 0 <= i < n ==> overrides[i].0 != key) ==>
              Get(TallyFirst(table, overrides, cutoffs, n), key) == 0
  {
    if n > 0 {
      TallyGet(table, overrides, cutoffs, n - 1, key);
      GetPut(TallyFirst(table, overrides, cutoffs, n - 1), overrides[n - 1].0,
             |DueIds(table, OneEvent(overrides[n - 1].0), cutoffs[n - 1])|, key);
    }
  }

  lemma NothingGone(table: map<Id, Row>, overrides: Overrides, cutoffs: seq<int>)
    requires |cutoffs| <= |overrides| + 1
    ensures Gone(table, overrides, cutoffs, 0) == {}
  {
  }

  lemma {:induction false} OverridesTotal(table: map<Id, Row>, overrides: Overrides, cutoffs: seq<int>, n: nat)
    requires DistinctKeys(overrides) && n <= |overrides| && n <= |cutoffs| <= |overrides| + 1
    ensures Total(TallyFirst(table, overrides, cutoffs, n)) == |Gone(table, overrides, cutoffs, n)|
  {
    hide Gone, DueIds;
    if n == 0 {
      NothingGone(table, overrides, cutoffs);
    } else {
      OverridesTotal(table, overrides, cutoffs, n - 1);
      GoneCount(table, overrides, cutoffs, n - 1);
      TallyGet(table, overrides, cutoffs, n - 1, overrides[n - 1].0);
      TotalPut(TallyFirst(table, overrides, cutoffs, n - 1), overrides[n - 1].0,
               |DueIds(table, OneEvent(overrides[n - 1].0), cutoffs[n - 1])|);
    }
  }

  /** An override for the event "__global__" that has rows to delete: its count is overwritten
      by the fallback bucket. */
  ghost predicate GlobalNameClash(table: map<Id, Row>, overrides: Overrides, cutoffs: seq<int>)
    requires |cutoffs| == |overrides| + 1
  {
    exists i :: 0 <= i < |overrides| && overrides[i].0 == GLOBAL_BUCKET
      && DueIds(table, OneEvent(GLOBAL_BUCKET), cutoffs[i]) != {}
  }

  /** The returned total is the number of rows removed exactly when no override named
      "__global__" deletes anything. */
  lemma TotalIsRowsRemoved(table: map<Id, Row>, overrides: Overrides, cutoffs: seq<int>)
    requires DistinctKeys(overrides) && |cutoffs| == |overrides| + 1
    ensures Total(TallyAll(table, overrides, cutoffs)) == |Removed(table, overrides, cutoffs)| <==>
            !GlobalNameClash(table, overrides, cutoffs)
  {
    var n := |overrides|;
    RemovedCount(table, overrides, cutoffs);
    TotalPut(TallyFirst(table, overrides, cutoffs, n), GLOBAL_BUCKET,
             |DueIds(table, BucketOf(overrides, n), cutoffs[n])|);
    ClashIsCounted(table, overrides, cutoffs);
  }

  lemma RemovedCount(table: map<Id, Row>, overrides: Overrides, cutoffs: seq<int>)
    requires DistinctKeys(overrides) && |cutoffs| == |overrides| + 1
    ensures |Removed(table, overrides, cutoffs)| ==
            Total(TallyFirst(table, overrides, cutoffs, |overrides|))
            + |DueIds(table, BucketOf(overrides, |overrides|), cutoffs[|overrides|])|
  {
    OverridesTotal(table, overrides, cutoffs, |overrides|);
    GoneCount(table, overrides, cutoffs, |overrides|);
  }

  lemma ClashIsCounted(table: map<Id, Row>, overrides: Overrides, cutoffs: seq<int>)
    requires DistinctKeys(overrides) && |cutoffs| == |overrides| + 1
    ensures GlobalNameClash(table, overrides, cutoffs) <==>
            Get(TallyFirst(table, overrides, cutoffs, |overrides|), GLOBAL_BUCKET) != 0
  {
    TallyGet(table, overrides, cutoffs, |overrides|, GLOBAL_BUCKET);
  }

  /** The counts a prune reports: for each override, and under "__global__" for all other events, the rows
      past the period of that bucket. */
  lemma PerEventCounts(table: map<Id, Row>, overrides: Overrides, globalDays: int, now: int)
    requires DistinctKeys(overrides)
    ensures var perEvent := TallyAll(table, overrides, Cutoffs(overrides, globalDays, now));
            && (forall i :: 0 <= i < |overrides| && overrides[i].0 != "__global__" ==>
                  Get(perEvent, overrides[i].0) ==
                  |(set id | id in table && table[id].event == overrides[i].0
                            && table[id].createdAt < now - overrides[i].1 * 86400)|)
            && Get(perEvent, "__global__") ==
               |(set id | id in table && table[id].createdAt < now - globalDays * 86400
                         && forall i :: 0 <= i < |overrides| ==> overrides[i].0 != table[id].event)|
  {
    var n, cutoffs := |overrides|, Cutoffs(overrides, globalDays, now);
    var first, rest := TallyFirst(table, overrides, cutoffs, n), DueIds(table, BucketOf(overrides, n), cutoffs[n]);
    assert TallyAll(table, overrides, cutoffs) == Put(first, GLOBAL_BUCKET, |rest|);
    forall i | 0 <= i < n && overrides[i].0 != "__global__"
      ensures Get(Put(first, GLOBAL_BUCKET, |rest|), overrides[i].0) ==
              |(set id | id in table && table[id].event == overrides[i].0
                        && table[id].createdAt < now - overrides[i].1 * 86400)|
    {
      OverrideCount(table, overrides, globalDays, now, i, |rest|);
    }
    GetPut(first, GLOBAL_BUCKET, |rest|, GLOBAL_BUCKET);
    FallbackIds(table, overrides, globalDays, now);
  }

  lemma OverrideCount(table: map<Id, Row>, overrides: Overrides, globalDays: int, now: int, i: nat, count: nat)
    requires DistinctKeys(overrides) && i < |overrides| && overrides[i].0 != "__global__"
    ensures var first := TallyFirst(table, overrides, Cutoffs(overrides, globalDays, now), |overrides|);
            Get(Put(first, GLOBAL_BUCKET, count), overrides[i].0) ==
            |(set id | id in table && table[id].event == overrides[i].0
                      && table[id].createdAt < now - overrides[i].1 * 86400)|
  {
    hide TallyFirst, Get, Put;
    var n, cutoffs := |overrides|, Cutoffs(overrides, globalDays, now);
    TallyGet(table, overrides, cutoffs, n, overrides[i].0);
    GetPut(TallyFirst(table, overrides, cutoffs, n), GLOBAL_BUCKET, count, overrides[i].0);
    assert DueIds(table, OneEvent(overrides[i].0), cutoffs[i]) ==
           set id | id in table && table[id].event == overrides[i].0
                    && table[id].createdAt < now - overrides[i].1 * 86400;
  }

  lemma FallbackIds(table: map<Id, Row>, overrides: Overrides, globalDays: int, now: int)
    ensures DueIds(table, BucketOf(overrides, |overrides|), Cutoff(now, globalDays)) ==
            set id | id in table && table[id].createdAt < now - globalDays * 86400
                     && forall i :: 0 <= i < |overrides| ==> overrides[i].0 != table[id].event
  {
    assert forall i :: 0 <= i < |overrides| ==> overrides[i].0 in Keys(overrides);
  }

  /** A row with neither actor nor target, as the scanner records its own work. */
  function SystemRow(event: string, metadata: Json.Json, now: int): Row {
    Row(event, None, None, None, metadata, now)
  }

  /** A concrete run of that failure: one row deleted, a total of 0 returned. No part of the
      application records an event of that name, so the stored row must come from outside. */
  lemma GlobalNameClashLosesCount()
    ensures var table := map[7 := SystemRow(GLOBAL_BUCKET, Json.Obj(map[]), 0)];
            var overrides := [(GLOBAL_BUCKET, 1)];
            var cutoffs := Cutoffs(overrides, 365, 2 * DAY);
            7 in Removed(table, overrides, cutoffs) && Total(TallyAll(table, overrides, cutoffs)) == 0
  {
    var table := map[7 := SystemRow(GLOBAL_BUCKET, Json.Obj(map[]), 0)];
    var overrides := [(GLOBAL_BUCKET, 1)];
    var cutoffs := Cutoffs(overrides, 365, 2 * DAY);
    assert Due(BucketOf(overrides, 0), cutoffs[0], table[7]);
    assert overrides[0].0 in Keys(overrides);
    assert DueIds(table, BucketOf(overrides, 1), cutoffs[1]) == {};
    var one := TallyFirst(table, overrides, cutoffs, 1);
    assert TallyFirst(table, overrides, cutoffs, 0) == [];
    assert |one| == 1 && one[0].0 == GLOBAL_BUCKET;
    assert TallyAll(table, overrides, cutoffs) == Put(one, GLOBAL_BUCKET, 0);
    assert one[1..] == [];
  }

  lemma {:induction false} NothingDueNoTally(table: map<Id, Row>, overrides: Overrides, cutoffs: seq<int>, n: nat)
    requires n <= |cutoffs| <= |overrides| + 1
    requires forall i :: 0 <= i < n ==> DueIds(table, BucketOf(overrides, i), cutoffs[i]) == {}
    ensures Total(TallyFirst(table, overrides, cutoffs, n)) == 0
  {
    if n > 0 {
      NothingDueNoTally(table, overrides, cutoffs, n - 1);
      TotalPut(TallyFirst(table, overrides, cutoffs, n - 1), BucketName(overrides, n - 1), 0);
    }
  }

  /** A second prune at the same clock, over the survivors of the first and the summary rows it
      wrote, deletes nothing and counts nothing. */
  lemma SecondPruneIsIdle(table: map<Id, Row>, overrides: Overrides, globalDays: int, now: int, summaries: map<Id, Row>)
    requires DistinctKeys(overrides) && globalDays >= 1 && forall o :: o in overrides ==> o.1 >= 1
    requires forall id :: id in summaries ==> summaries[id].createdAt >= now
    ensures var cutoffs := Cutoffs(overrides, globalDays, now);
            var left := Survivors(table, overrides, cutoffs) + summaries;
            Survivors(left, overrides, cutoffs) == left && Total(TallyAll(left, overrides, cutoffs)) == 0
  {
    var cutoffs := Cutoffs(overrides, globalDays, now);
    var left := Survivors(table, overrides, cutoffs) + summaries;
    forall i | 0 <= i < |cutoffs| ensures DueIds(left, BucketOf(overrides, i), cutoffs[i]) == {} {
      assert i < |overrides| ==> overrides[i] in overrides;
      assert cutoffs[i] < now;
    }
    NothingDueNoTally(left, overrides, cutoffs, |cutoffs|);
  }

  // ---------------------------------------------------------------------------------------
  // The summary rows
  // ---------------------------------------------------------------------------------------

  function Fields(d: seq<(string, int)>): map<Json.Text, Json.Json> {
    if d == [] then map[] else Fields(d[1..])[Json.Points(d[0].0) := Json.Num(Numeral(d[0].1))]
  }

  function Summary(settings: Settings, totalKey: string, total: nat, countsKey: string, counts: Tally): Json.Json {
    Json.Obj(map[
      Json.Points(totalKey) := Json.Num(Numeral(total)),
      Json.Points(countsKey) := Json.Obj(Fields(counts)),
      Json.Points("global_days") := Json.Num(Numeral(settings.globalDays)),
      Json.Points("overrides") := Json.Obj(Fields(settings.overrides))])
  }

  function PrunedSummary(settings: Settings, result: PruneResult): Json.Json {
    Summary(settings, "total", result.total, "per_event", result.perEvent)
  }

  function ArchivedSummary(settings: Settings, result: PruneResult): Json.Json {
    Summary(settings, "total_archived", Total(result.perEventArchived), "per_event_archived", result.perEventArchived)
  }

  /** The rows a prune records about itself: none when it removed nothing; each insert may fail by itself. */
  function SummaryRows(settings: Settings, result: PruneResult, prunedOk: bool, archivedOk: bool, now: int): seq<Row> {
    if result.total == 0 then []
    else
      (if prunedOk then [SystemRow("audit_log.pruned", PrunedSummary(settings, result), now)] else [])
      + (if Archiving(settings) && archivedOk
         then [SystemRow("audit_log.archived", ArchivedSummary(settings, result), now)] else [])
  }

  /** The rows are in the table, under consecutive keys from `start` on. */
  ghost predicate Recorded(table: map<Id, Row>, start: Id, rows: seq<Row>) {
    forall i :: 0 <= i < |rows| ==> start + i in table && table[start + i] == rows[i]
  }

  lemma {:induction false} FieldsHoldCounts(d: Tally, key: string)
    ensures Get(d, key) != 0 ==> Json.Points(key) in Fields(d)
    ensures Json.Points(key) in Fields(d) ==> Fields(d)[Json.Points(key)] == Json.Num(Numeral(Get(d, key)))
  {
    if d != [] {
      FieldsHoldCounts(d[1..], key);
      if Json.Points(d[0].0) == Json.Points(key) {
        Json.PointsInjective(d[0].0, key);
      }
    }
  }

  lemma SameFieldsSameCount(d: Tally, e: Tally, key: string)
    requires Fields(d) == Fields(e)
    ensures Get(d, key) == Get(e, key)
  {
    hide Fields, Get, Numeral;
    FieldsHoldCounts(d, key);
    FieldsHoldCounts(e, key);
    if Json.Points(key) in Fields(d) {
      NumeralInjective(Get(d, key), Get(e, key));
    }
  }

  lemma SummaryKeys(settings: Settings, totalKey: string, total: nat, countsKey: string, counts: Tally)
    requires "t" <= totalKey && "p" <= countsKey
    ensures var fields := Summary(settings, totalKey, total, countsKey, counts).fields;
            && Json.Points(totalKey) in fields && fields[Json.Points(totalKey)] == Json.Num(Numeral(total))
            && Json.Points(countsKey) in fields && fields[Json.Points(countsKey)] == Json.Obj(Fields(counts))
  {
    var t, p, g, o := Json.Points(totalKey), Json.Points(countsKey), Json.Points("global_days"),
      Json.Points("overrides");
    assert t[0] == 't' as int && p[0] == 'p' as int && g[0] == 'g' as int && o[0] == 'o' as int;
  }

  /** `m` is the four-member object of a summary. */
  ghost predicate IsSummary(m: Json.Json, totalKey: string, total: nat, countsKey: string, counts: Tally,
                            globalDays: int, overrides: Overrides) {
    && m.Obj?
    && m.fields.Keys == {Json.Points(totalKey), Json.Points(countsKey), Json.Points("global_days"),
                         Json.Points("overrides")}
    && m.fields[Json.Points(totalKey)] == Json.Num(Numeral(total))
    && m.fields[Json.Points("global_days")] == Json.Num(Numeral(globalDays))
    && m.fields[Json.Points("overrides")].Obj?
    && (forall i :: 0 <= i < |overrides| ==>
          && Json.Points(overrides[i].0) in m.fields[Json.Points("overrides")].fields
          && m.fields[Json.Points("overrides")].fields[Json.Points(overrides[i].0)]
             == Json.Num(Numeral(overrides[i].1)))
    && m.fields[Json.Points(countsKey)].Obj?
    && (forall key :: Get(counts, key) != 0 ==>
          && Json.Points(key) in m.fields[Json.Points(countsKey)].fields
          && m.fields[Json.Points(countsKey)].fields[Json.Points(key)] == Json.Num(Numeral(Get(counts, key))))
  }

  lemma {:induction false} FieldsHold(d: Overrides, i: nat)
    requires DistinctKeys(d) && i < |d|
    ensures Json.Points(d[i].0) in Fields(d) && Fields(d)[Json.Points(d[i].0)] == Json.Num(Numeral(d[i].1))
  {
    if i > 0 {
      FieldsHold(d[1..], i - 1);
      if Json.Points(d[0].0) == Json.Points(d[i].0) {
        Json.PointsInjective(d[0].0, d[i].0);
      }
    }
  }

  lemma SummaryInFull(settings: Settings, totalKey: string, total: nat, countsKey: string, counts: Tally)
    requires DistinctKeys(settings.overrides) && "t" <= totalKey && "p" <= countsKey
    ensures IsSummary(Summary(settings, totalKey, total, countsKey, counts), totalKey, total, countsKey, counts,
                      settings.globalDays, settings.overrides)
  {
    hide Fields, Numeral, Get;
    var t, p, g, o := Json.Points(totalKey), Json.Points(countsKey), Json.Points("global_days"),
      Json.Points("overrides");
    assert t[0] == 't' as int && p[0] == 'p' as int && g[0] == 'g' as int && o[0] == 'o' as int;
    hide Json.Points;
    forall i | 0 <= i < |settings.overrides|
      ensures Json.Points(settings.overrides[i].0) in Fields(settings.overrides)
              && Fields(settings.overrides)[Json.Points(settings.overrides[i].0)]
                 == Json.Num(Numeral(settings.overrides[i].1))
    {
      FieldsHold(settings.overrides, i);
    }
    forall key | Get(counts, key) != 0
      ensures Json.Points(key) in Fields(counts)
              && Fields(counts)[Json.Points(key)] == Json.Num(Numeral(Get(counts, key)))
    {
      FieldsHoldCounts(counts, key);
    }
  }

  /** What a prune records about itself, column by column. */
  lemma SummaryRowsInFull(settings: Settings, result: PruneResult, prunedOk: bool, archivedOk: bool, now: int)
    requires DistinctKeys(settings.overrides)
    ensures var rows := SummaryRows(settings, result, prunedOk, archivedOk, now);
            var archiving := settings.archiveEnabled && settings.archiveDir != "";
            && (forall i :: 0 <= i < |rows| ==>
                  && rows[i].createdAt == now && rows[i].actor.None? && rows[i].targetType.None?
                     && rows[i].targetId.None?)
            && |rows| == (if result.total == 0 then 0
                          else (if prunedOk then 1 else 0) + if archiving && archivedOk then 1 else 0)
            && (result.total != 0 && prunedOk ==>
                  && rows[0].event == "audit_log.pruned"
                  && IsSummary(rows[0].metadata, "total", result.total, "per_event", result.perEvent,
                               settings.globalDays, settings.overrides))
            && (result.total != 0 && archiving && archivedOk ==>
                  && rows[|rows| - 1].event == "audit_log.archived"
                  && IsSummary(rows[|rows| - 1].metadata, "total_archived", Total(result.perEventArchived),
                               "per_event_archived", result.perEventArchived, settings.globalDays, settings.overrides))
  {
    hide IsSummary, Summary, Fields, Total;
    SummaryInFull(settings, "total", result.total, "per_event", result.perEvent);
    SummaryInFull(settings, "total_archived", Total(result.perEventArchived), "per_event_archived",
                  result.perEventArchived);
  }

  /** The metadata of the summary row tell the result: the total and the count of every bucket. */
  lemma SummaryTellsCounts(settings: Settings, p: PruneResult, q: PruneResult, key: string)
    requires PrunedSummary(settings, p) == PrunedSummary(settings, q)
    ensures p.total == q.total && Get(p.perEvent, key) == Get(q.perEvent, key)
  {
    hide Summary, Fields, Get, Numeral;
    SummaryKeys(settings, "total", p.total, "per_event", p.perEvent);
    SummaryKeys(settings, "total", q.total, "per_event", q.perEvent);
    NumeralInjective(p.total, q.total);
    SameFieldsSameCount(p.perEvent, q.perEvent, key);
  }

  // ---------------------------------------------------------------------------------------
  // The database session of one worker
  // ---------------------------------------------------------------------------------------

  ghost predicate Monotone(clock: nat -> int) {
    forall i: nat, j: nat :: i <= j ==> clock(i) <= clock(j)
  }

  lemma {:induction false} OldestExists(table: map<Id, Row>, ids: set<Id>)
    requires ids != {} && ids <= table.Keys
    ensures exists id :: id in ids && forall o :: o in ids ==> table[id].createdAt <= table[o].createdAt
  {
    var x :| x in ids;
    if ids != {x} {
      OldestExists(table, ids - {x});
      var y :| y in ids - {x} && forall o :: o in ids - {x} ==> table[y].createdAt <= table[o].createdAt;
      var least := if table[x].createdAt <= table[y].createdAt then x else y;
      assert forall o :: o in ids ==> o == x || o in ids - {x};
      assert least in ids && forall o :: o in ids ==> table[least].createdAt <= table[o].createdAt;
    } else {
      assert forall o :: o in ids ==> table[x].createdAt <= table[o].createdAt;
    }
  }

  /** `batch` holds the oldest due rows, in order; `rest` holds the others. */
  ghost predicate Picking(table: map<Id, Row>, bucket: Bucket, cutoff: int, batch: seq<Entry>, rest: set<Id>) {
    && rest == DueIds(table, bucket, cutoff) - Ids(batch)
    && IsBatch(table - rest, bucket, cutoff, |batch|, batch)
    && (forall id :: id in rest && batch != [] ==> batch[|batch| - 1].row.createdAt <= table[id].createdAt)
  }

  lemma Pick(table: map<Id, Row>, bucket: Bucket, cutoff: int, batch: seq<Entry>, rest: set<Id>, id: Id)
    requires Picking(table, bucket, cutoff, batch, rest)
    requires id in rest && forall o :: o in rest ==> table[id].createdAt <= table[o].createdAt
    ensures Picking(table, bucket, cutoff, batch + [Entry(id, table[id])], rest - {id})
  {
    var entry := Entry(id, table[id]);
    IdsAppend(batch, entry);
    forall i | 0 <= i < |batch| ensures batch[i].id != id { assert batch[i].id in Ids(batch); }
  }

  /** Line after line, a row leaves the table for the archive, with its content. */
  ghost predicate Moved(lines: seq<Line>, before: map<Id, Row>, after: map<Id, Row>) {
    if lines == [] then before == after
    else
      var e := lines[0].entry;
      e.id in before && before[e.id] == e.row && Moved(lines[1..], before - {e.id}, after)
  }

  lemma {:induction false} MovedLines(lines: seq<Line>, before: map<Id, Row>, after: map<Id, Row>)
    requires Moved(lines, before, after)
    ensures Within(after, before) && |before| == |after| + |lines|
    ensures forall i :: 0 <= i < |lines| ==>
              lines[i].entry.id in before && before[lines[i].entry.id] == lines[i].entry.row
                && lines[i].entry.id !in after
  {
    if lines != [] {
      var id := lines[0].entry.id;
      MovedLines(lines[1..], before - {id}, after);
      MinusCount(before, {id});
      assert forall i :: 1 <= i < |lines| ==> lines[i] == lines[1..][i - 1];
    }
  }

  lemma {:induction false} GoneHasLine(lines: seq<Line>, before: map<Id, Row>, after: map<Id, Row>, id: Id)
    returns (i: nat)
    requires Moved(lines, before, after) && id in before && id !in after
    ensures i < |lines| && lines[i].entry.id == id
  {
    if lines[0].entry.id == id {
      i := 0;
    } else {
      i := GoneHasLine(lines[1..], before - {lines[0].entry.id}, after, id);
      i := i + 1;
    }
  }

  /** So the lines are exactly the rows that left the table, each once, and nothing else changed. */
  lemma MovedMeaning(lines: seq<Line>, before: map<Id, Row>, after: map<Id, Row>)
    requires Moved(lines, before, after)
    ensures Within(after, before) && |before| == |after| + |lines|
    ensures forall id :: id in before && id !in after <==> exists i :: 0 <= i < |lines| && lines[i].entry.id == id
    ensures forall i :: 0 <= i < |lines| ==>
              lines[i].entry.id in before && before[lines[i].entry.id] == lines[i].entry.row
  {
    hide Moved;
    MovedLines(lines, before, after);
    forall id | id in before && id !in after ensures exists i :: 0 <= i < |lines| && lines[i].entry.id == id {
      var i := GoneHasLine(lines, before, after, id);
    }
  }

  lemma {:induction false} MovedInTurn(first: seq<Line>, second: seq<Line>, a: map<Id, Row>, b: map<Id, Row>,
                                       c: map<Id, Row>)
    requires Moved(first, a, b) && Moved(second, b, c)
    ensures Moved(first + second, a, c)
  {
    if first == [] {
      assert first + second == second;
    } else {
      MovedInTurn(first[1..], second, a - {first[0].entry.id}, b, c);
      assert (first + second)[1..] == first[1..] + second;
    }
  }

  lemma {:induction false} BatchMoved(file: File, batch: seq<Entry>, was: map<Id, Row>)
    requires DistinctIds(batch) && Holds(was, batch)
    ensures Moved(Tagged(file, batch), was, was - Ids(batch))
  {
    if batch == [] {
      assert was - Ids(batch) == was;
    } else {
      var id, rest := batch[0].id, was - {batch[0].id};
      BatchMoved(file, batch[1..], rest);
      IdsTail(batch);
      assert Tagged(file, batch)[1..] == Tagged(file, batch[1..]);
      assert rest - Ids(batch[1..]) == was - Ids(batch);
    }
  }

  lemma IdsTail(batch: seq<Entry>)
    requires batch != []
    ensures Ids(batch) == {batch[0].id} + Ids(batch[1..])
  {
    assert forall i :: 1 <= i < |batch| ==> batch[1..][i - 1] == batch[i];
    forall id | id in Ids(batch) ensures id in {batch[0].id} + Ids(batch[1..]) {
      var i :| 0 <= i < |batch| && batch[i].id == id;
      assert i > 0 ==> batch[1..][i - 1].id == id;
    }
  }

  /** The bucket is empty, as one direct DELETE at that cutoff would leave it, and `n` is what
      that DELETE would report. */
  ghost predicate Emptied(before: map<Id, Row>, after: map<Id, Row>, bucket: Bucket, cutoff: int, n: int) {
    after == DirectDelete(before, bucket, cutoff) && n == |DueIds(before, bucket, cutoff)|
  }

  /** Past `m` the new lines are a prefix of a batch that is still in the table. */
  ghost predicate FailedCleanly(start: seq<Line>, archive: seq<Line>, before: map<Id, Row>, after: map<Id, Row>) {
    && start <= archive
    && (exists m :: |start| <= m <= |archive| && Moved(archive[|start|..m], before, after)
          && forall i :: m <= i < |archive| ==>
               archive[i].entry.id in after && after[archive[i].entry.id] == archive[i].entry.row)
  }

  ghost predicate Within(after: map<Id, Row>, before: map<Id, Row>) {
    after.Keys <= before.Keys && forall id :: id in after ==> after[id] == before[id]
  }

  /** The table has lost rows of the bucket past `cutoff`, and nothing else changed. */
  ghost predicate Shrunk(before: map<Id, Row>, after: map<Id, Row>, bucket: Bucket, cutoff: int) {
    && Within(after, before)
    && (forall id :: id in before && id !in after ==> Due(bucket, cutoff, before[id]))
  }

  lemma ShortBatchIsAllDue(was: map<Id, Row>, bucket: Bucket, cutoff: int, limit: nat, batch: seq<Entry>)
    requires IsBatch(was, bucket, cutoff, limit, batch) && |batch| < limit
    ensures Ids(batch) == DueIds(was, bucket, cutoff)
  {
  }

  /** Emptying what is left of the bucket is one direct DELETE of the whole bucket. */
  lemma Drained(before: map<Id, Row>, was: map<Id, Row>, bucket: Bucket, cutoff: int)
    requires Shrunk(before, was, bucket, cutoff)
    ensures was - DueIds(was, bucket, cutoff) == DirectDelete(before, bucket, cutoff)
    ensures |DueIds(before, bucket, cutoff)| == |before| - |was - DueIds(was, bucket, cutoff)|
  {
    assert DirectDelete(before, bucket, cutoff) == before - DueIds(before, bucket, cutoff);
    MinusCount(before, DueIds(before, bucket, cutoff));
  }

  lemma BatchCount(was: map<Id, Row>, batch: seq<Entry>)
    requires DistinctIds(batch) && Holds(was, batch)
    ensures |was - Ids(batch)| == |was| - |batch|
  {
    IdsCount(batch);
    MinusCount(was, Ids(batch));
  }

  /** `rows` is `n` times `size`. */
  ghost predicate FullBatches(n: nat, size: nat, rows: nat) {
    if n == 0 then rows == 0 else rows >= size && FullBatches(n - 1, size, rows - size)
  }

  /** `n` transactions, all but the last of a full batch. */
  ghost predicate LastBatchShort(n: nat, size: nat, rows: nat) {
    if n <= 1 then n == 1 && rows < size else rows >= size && LastBatchShort(n - 1, size, rows - size)
  }

  lemma {:induction false} CountBatch(n: nat, size: nat, rows: nat, batch: nat)
    requires FullBatches(n, size, rows)
    ensures batch == size ==> FullBatches(n + 1, size, rows + batch)
    ensures batch < size ==> LastBatchShort(n + 1, size, rows + batch)
  {
    if n > 0 && batch < size {
      CountBatch(n - 1, size, rows - size, batch);
    }
  }

  lemma {:induction false} LastBatchShortMeaning(n: nat, size: nat, rows: nat)
    requires LastBatchShort(n, size, rows)
    ensures n >= 1 && (n - 1) * size <= rows < n * size
  {
    if n > 1 {
      LastBatchShortMeaning(n - 1, size, rows - size);
      assert (n - 1) * size == (n - 2) * size + size && n * size == (n - 1) * size + size;
    }
  }

  lemma NothingDoneYet(archive: seq<Line>, table: map<Id, Row>, size: nat)
    ensures ArchivedExactly(archive, archive, table, table) && FullBatches(0, size, 0)
  {
  }

  lemma LaterCutoff(before: map<Id, Row>, table: map<Id, Row>, bucket: Bucket, clock: nat -> int, days: int, txs: nat,
                    rounds: nat)
    requires Monotone(clock) && txs >= rounds + 1
    requires rounds > 0 ==> Shrunk(before, table, bucket, Cutoff(clock(txs - 2), days))
    requires rounds == 0 ==> table == before
    ensures Shrunk(before, table, bucket, Cutoff(clock(txs - 1), days))
  {
    if rounds > 0 {
      assert clock(txs - 2) <= clock(txs - 1);
    }
  }

  /** After a failed write: what was removed is archived, and the torn batch is still in the table. */
  lemma PartialLines(start: seq<Line>, was: seq<Line>, file: File, torn: seq<Entry>, before: map<Id, Row>,
                     after: map<Id, Row>)
    requires ArchivedExactly(start, was, before, after) && Holds(after, torn)
    ensures FailedCleanly(start, was + Tagged(file, torn), before, after)
  {
    var archive := was + Tagged(file, torn);
    assert archive[|start|..|was|] == was[|start|..];
    assert forall i :: 0 <= i < |torn| ==> archive[|was| + i] == Line(file, torn[i]);
  }

  /** Since `start` the archive has gained exactly the rows that left the table, each once. */
  ghost predicate ArchivedExactly(start: seq<Line>, archive: seq<Line>, before: map<Id, Row>, after: map<Id, Row>) {
    start <= archive && Moved(archive[|start|..], before, after)
  }

  lemma Advance(before: map<Id, Row>, was: map<Id, Row>, start: seq<Line>, archive: seq<Line>, file: File,
                batch: seq<Entry>)
    requires Holds(was, batch) && DistinctIds(batch) && ArchivedExactly(start, archive, before, was)
    ensures ArchivedExactly(start, archive + Tagged(file, batch), before, was - Ids(batch))
  {
    BatchMoved(file, batch, was);
    MovedInTurn(archive[|start|..], Tagged(file, batch), before, was, was - Ids(batch));
    assert (archive + Tagged(file, batch))[|start|..] == archive[|start|..] + Tagged(file, batch);
  }

  lemma BatchShrinks(before: map<Id, Row>, was: map<Id, Row>, bucket: Bucket, cutoff: int, limit: nat,
                     batch: seq<Entry>)
    requires Shrunk(before, was, bucket, cutoff) && IsBatch(was, bucket, cutoff, limit, batch)
    ensures Holds(before, batch) && Shrunk(before, was - Ids(batch), bucket, cutoff)
    ensures |batch| < limit ==> Emptied(before, was - Ids(batch), bucket, cutoff, |before| - |was - Ids(batch)|)
  {
    if |batch| < limit {
      ShortBatchIsAllDue(was, bucket, cutoff, limit, batch);
      Drained(before, was, bucket, cutoff);
    }
  }

  lemma ArchivedInTurn(start: seq<Line>, mid: seq<Line>, end: seq<Line>, a: map<Id, Row>, b: map<Id, Row>,
                       c: map<Id, Row>)
    requires ArchivedExactly(start, mid, a, b) && ArchivedExactly(mid, end, b, c)
    ensures ArchivedExactly(start, end, a, c)
  {
    MovedInTurn(mid[|start|..], end[|mid|..], a, b, c);
    assert end[|start|..] == mid[|start|..] + end[|mid|..];
  }

  lemma FailedInTurn(start: seq<Line>, mid: seq<Line>, end: seq<Line>, a: map<Id, Row>, b: map<Id, Row>,
                     c: map<Id, Row>)
    requires ArchivedExactly(start, mid, a, b) && FailedCleanly(mid, end, b, c)
    ensures FailedCleanly(start, end, a, c)
  {
    var m :| |mid| <= m <= |end| && Moved(end[|mid|..m], b, c)
               && forall i :: m <= i < |end| ==> end[i].entry.id in c && c[end[i].entry.id] == end[i].entry.row;
    assert end[..m][|mid|..] == end[|mid|..m];
    assert mid == end[..m][..|mid|];
    ArchivedInTurn(start, mid, end[..m], a, b, c);
    assert end[..m][|start|..] == end[|start|..m];
  }

  /** Days since the epoch, as `_archive_path` puts in the file name. */
  function FileFor(bucket: Bucket, now: int): File {
    File(if bucket.OneEvent? && bucket.event != "" then SafeName(bucket.event) else "_default", now / DAY)
  }

  function SafeName(s: string): (r: string)
    ensures '/' !in r && ('/' !in s ==> r == s)
  {
    seq(|s|, i requires 0 <= i < |s| => if s[i] == '/' then '_' else s[i])
  }

  /** The file name of an event: the event with its slashes replaced. */
  predicate NamedAfter(event: string, name: string) {
    && |name| == |event|
    && forall j :: 0 <= j < |event| ==> name[j] == if event[j] == '/' then '_' else event[j]
  }

  /** The line is of the bucket and lies in the file of that bucket and day (in UTC, days of 86400 seconds). */
  predicate FiledIn(line: Line, bucket: Bucket, now: int) {
    && line.file.day == now / 86400
    && match bucket
       case OneEvent(event) =>
         && line.entry.row.event == event
         && if event == "" then line.file.name == "_default" else NamedAfter(event, line.file.name)
       case AllExcept(excluded) => line.entry.row.event !in excluded && line.file.name == "_default"
  }

  /** It was filed by one of the transactions `[from, to)`. */
  ghost predicate FiledDuring(line: Line, bucket: Bucket, clock: nat -> int, from: nat, to: nat) {
    exists k: nat :: from <= k < to && FiledIn(line, bucket, clock(k))
  }

  ghost predicate AllFiled(archive: seq<Line>, start: nat, bucket: Bucket, clock: nat -> int, from: nat, to: nat) {
    forall i :: start <= i < |archive| ==> FiledDuring(archive[i], bucket, clock, from, to)
  }

  /** Where the row of an event is archived: under its own name if it has an override, else in the fallback file. */
  predicate FiledByEvent(line: Line, overrides: Overrides, now: int) {
    var event := line.entry.row.event;
    && line.file.day == now / 86400
    && if event != "" && exists i :: 0 <= i < |overrides| && overrides[i].0 == event
       then NamedAfter(event, line.file.name)
       else line.file.name == "_default"
  }

  ghost predicate FiledByEventDuring(line: Line, overrides: Overrides, clock: nat -> int, from: nat, to: nat) {
    exists k: nat :: from <= k < to && FiledByEvent(line, overrides, clock(k))
  }

  ghost predicate AllFiledByEvent(archive: seq<Line>, start: nat, overrides: Overrides, clock: nat -> int, from: nat,
                                  to: nat) {
    forall i :: start <= i < |archive| ==> FiledByEventDuring(archive[i], overrides, clock, from, to)
  }

  lemma TaggedIsFiled(bucket: Bucket, now: int, cutoff: int, limit: nat, batch: seq<Entry>, was: map<Id, Row>)
    requires IsBatch(was, bucket, cutoff, limit, batch)
    ensures forall i :: 0 <= i < |batch| ==> FiledIn(Line(FileFor(bucket, now), batch[i]), bucket, now)
  {
    hide IsBatch;
    forall i | 0 <= i < |batch| ensures bucket.Covers(batch[i].row.event) {
      BatchIsDue(was, bucket, cutoff, limit, batch, i);
    }
  }

  lemma BatchIsDue(was: map<Id, Row>, bucket: Bucket, cutoff: int, limit: nat, batch: seq<Entry>, i: nat)
    requires IsBatch(was, bucket, cutoff, limit, batch) && i < |batch|
    ensures Due(bucket, cutoff, batch[i].row)
  {
  }

  lemma BatchShape(was: map<Id, Row>, bucket: Bucket, cutoff: int, limit: nat, batch: seq<Entry>, wrote: seq<Entry>)
    requires IsBatch(was, bucket, cutoff, limit, batch) && wrote <= batch
    ensures |batch| <= limit && DistinctIds(batch) && Holds(was, batch) && Holds(was, wrote)
  {
  }

  /** What was written of a batch, appended to lines already filed. */
  lemma FiledOneMore(archive: seq<Line>, start: nat, bucket: Bucket, clock: nat -> int, from: nat, k: nat, cutoff: int,
                     limit: nat, batch: seq<Entry>, was: map<Id, Row>, wrote: seq<Entry>)
    requires start <= |archive| && from <= k && wrote <= batch
    requires AllFiled(archive, start, bucket, clock, from, k) && IsBatch(was, bucket, cutoff, limit, batch)
    ensures AllFiled(archive + Tagged(FileFor(bucket, clock(k)), wrote), start, bucket, clock, from, k + 1)
  {
    hide IsBatch, FiledIn;
    TaggedIsFiled(bucket, clock(k), cutoff, limit, batch, was);
    var lines := Tagged(FileFor(bucket, clock(k)), wrote);
    var all := archive + lines;
    forall i | start <= i < |all| ensures FiledDuring(all[i], bucket, clock, from, k + 1) {
      if i < |archive| {
        assert FiledDuring(archive[i], bucket, clock, from, k);
      } else {
        assert all[i] == Line(FileFor(bucket, clock(k)), batch[i - |archive|]);
      }
    }
  }

  lemma FiledByBucket(line: Line, overrides: Overrides, i: nat, now: int)
    requires i <= |overrides| && FiledIn(line, BucketOf(overrides, i), now)
    ensures FiledByEvent(line, overrides, now)
  {
    var event := line.entry.row.event;
    if i < |overrides| {
      assert overrides[i].0 == event;
    } else {
      assert forall j :: 0 <= j < |overrides| ==> overrides[j].0 in Keys(overrides);
    }
  }

  /** The lines of one bucket appended to lines filed by their events. */
  lemma FiledBucketAfterBucket(was: seq<Line>, archive: seq<Line>, start: nat, overrides: Overrides, i: nat,
                               clock: nat -> int, from: nat, mid: nat, to: nat)
    requires i <= |overrides| && start <= |was| && was <= archive && from <= mid <= to
    requires AllFiledByEvent(was, start, overrides, clock, from, mid)
    requires AllFiled(archive, |was|, BucketOf(overrides, i), clock, mid, to)
    ensures AllFiledByEvent(archive, start, overrides, clock, from, to)
  {
    hide FiledIn, FiledByEvent, BucketOf;
    forall j | start <= j < |archive| ensures FiledByEventDuring(archive[j], overrides, clock, from, to) {
      if j < |was| {
        assert FiledByEventDuring(was[j], overrides, clock, from, mid);
        var k: nat :| from <= k < mid && FiledByEvent(was[j], overrides, clock(k));
        assert archive[j] == was[j];
      } else {
        assert FiledDuring(archive[j], BucketOf(overrides, i), clock, mid, to);
        var k: nat :| mid <= k < to && FiledIn(archive[j], BucketOf(overrides, i), clock(k));
        FiledByBucket(archive[j], overrides, i, clock(k));
      }
    }
  }

  class AuditStore {
    var table: map<Id, Row>
    var archive: seq<Line>
    var nextId: nat
    var txs: nat                     // transactions begun so far
    const clock: nat -> int          // NOW() in each transaction
    const disk: nat -> Option<nat>   // whether the write of a transaction fails, and after how many lines

    ghost predicate Valid()
      reads this
    {
      Monotone(clock) && forall id :: id in table ==> id < nextId
    }

    constructor (table: map<Id, Row>, nextId: nat, clock: nat -> int, disk: nat -> Option<nat>)
      requires Monotone(clock) && forall id :: id in table ==> id < nextId
      ensures Valid() && this.table == table && this.nextId == nextId && archive == [] && txs == 0
      ensures this.clock == clock && this.disk == disk
    {
      this.table, this.nextId, this.clock, this.disk := table, nextId, clock, disk;
      archive, txs := [], 0;
    }

    /** One batch for a sole worker: no row is locked by anyone else. */
    method SelectBatch(bucket: Bucket, cutoff: int, limit: nat) returns (batch: seq<Entry>)
      ensures IsBatch(table, bucket, cutoff, limit, batch)
      ensures forall i :: 0 <= i < |batch| ==>
                && batch[i].id in table && batch[i].row == table[batch[i].id]
                && bucket.Covers(batch[i].row.event) && batch[i].row.createdAt < cutoff
      ensures forall i, j :: 0 <= i < j < |batch| ==>
                batch[i].id != batch[j].id && batch[i].row.createdAt <= batch[j].row.createdAt
      ensures |batch| <= limit
      ensures forall id :: id in table && bucket.Covers(table[id].event) && table[id].createdAt < cutoff ==>
                || id in Ids(batch)
                || (|batch| == limit && (batch != [] ==> batch[|batch| - 1].row.createdAt <= table[id].createdAt))
    {
      batch := [];
      var rest := DueIds(table, bucket, cutoff);
      while |batch| < limit && rest != {}
        invariant |batch| <= limit && Picking(table, bucket, cutoff, batch, rest)
        decreases rest
      {
        OldestExists(table, rest);
        var id :| id in rest && forall o :: o in rest ==> table[id].createdAt <= table[o].createdAt;
        Pick(table, bucket, cutoff, batch, rest, id);
        batch, rest := batch + [Entry(id, table[id])], rest - {id};
      }
    }

    /** Appends the lines one by one, then flushes. A failing disk leaves a prefix of them in the file,
        which is all of them when it is the flush that raises. */
    method AppendLines(file: File, batch: seq<Entry>, fault: Option<nat>) returns (ok: bool)
      modifies this`archive
      ensures ok <==> fault.None?
      ensures archive == old(archive) + Tagged(file, if ok then batch else batch[..Min(fault.value, |batch|)])
    {
      var i := 0;
      while i < |batch| && (fault.None? || i < fault.value)
        invariant 0 <= i <= |batch| && (fault.Some? ==> i <= fault.value)
        invariant archive == old(archive) + Tagged(file, batch[..i])
      {
        archive := archive + [Line(file, batch[i])];
        assert Tagged(file, batch[..i + 1]) == Tagged(file, batch[..i]) + [Line(file, batch[i])];
        i := i + 1;
      }
      ok := fault.None?;
      assert batch[..|batch|] == batch;
    }

    /** One transaction of the loop: select, append, delete, commit, or roll back if the write fails. `wrote` is
        the part of the batch that is in the file afterwards. */
    method ArchiveBatch(bucket: Bucket, days: int, limit: nat)
      returns (n: Result<nat, Failure>, ghost batch: seq<Entry>, ghost wrote: seq<Entry>)
      requires Valid()
      modifies this`table, this`archive, this`txs
      ensures Valid() && txs == old(txs) + 1
      ensures IsBatch(old(table), bucket, Cutoff(clock(old(txs)), days), limit, batch)
      ensures archive == old(archive) + Tagged(FileFor(bucket, clock(old(txs))), wrote) && wrote <= batch
      ensures n.Ok? ==> n.value == |batch| && wrote == batch && table == old(table) - Ids(batch)
      ensures n.Err? ==> n.error == WriteFailed && table == old(table)
      ensures n.Err? <==> batch != [] && disk(old(txs)).Some?
      ensures n.Err? ==> |wrote| == Min(disk(old(txs)).value, |batch|)
    {
      var now, fault := clock(txs), disk(txs);
      txs := txs + 1;
      var rows := SelectBatch(bucket, Cutoff(now, days), limit);
      batch, wrote := rows, rows;
      if rows == [] {
        assert Tagged(FileFor(bucket, now), rows) == [] && table - Ids(rows) == table;
        return Ok(0), batch, wrote;
      }
      var ok := AppendLines(FileFor(bucket, now), rows, fault);
      if !ok {
        return Err(WriteFailed), batch, batch[..Min(fault.value, |batch|)];
      }
      var rowcount := Rowcount(table, rows);
      RowcountAll(table, rows);
      table := table - Ids(rows);
      return Ok(rowcount), batch, wrote;
    }

    /** One batch, seen from the start of the loop. */
    method Round(bucket: Bucket, days: int, limit: nat, ghost before: map<Id, Row>, ghost start: seq<Line>,
                 ghost from: nat)
      returns (n: Result<nat, Failure>)
      requires Valid() && ArchivedExactly(start, archive, before, table)
      requires Shrunk(before, table, bucket, Cutoff(clock(txs), days))
      requires |start| <= |archive| && from <= txs && AllFiled(archive, |start|, bucket, clock, from, txs)
      modifies this`table, this`archive, this`txs
      ensures Valid() && txs == old(txs) + 1
      ensures old(archive) <= archive && AllFiled(archive, |start|, bucket, clock, from, txs)
      ensures n.Ok? ==>
        && n.value <= limit && |old(table)| == |table| + n.value
        && ArchivedExactly(start, archive, before, table)
        && Shrunk(before, table, bucket, Cutoff(clock(txs - 1), days))
        && (n.value < limit ==> Emptied(before, table, bucket, Cutoff(clock(txs - 1), days), |before| - |table|))
      ensures n.Err? ==>
        n.error == WriteFailed && table == old(table) && disk(txs - 1).Some?
          && FailedCleanly(start, archive, before, table)
    {
      hide *;
      ghost var file, cutoff, was := FileFor(bucket, clock(txs)), Cutoff(clock(txs), days), table;
      ghost var batch, wrote;
      n, batch, wrote := ArchiveBatch(bucket, days, limit);
      BatchShape(was, bucket, cutoff, limit, batch, wrote);
      FiledOneMore(old(archive), |start|, bucket, clock, from, txs - 1, cutoff, limit, batch, was, wrote);
      if n.Err? {
        PartialLines(start, old(archive), file, wrote, before, was);
      } else {
        BatchShrinks(before, was, bucket, cutoff, limit, batch);
        Advance(before, was, start, old(archive), file, batch);
        BatchCount(was, batch);
      }
    }

    /** The batched loop does, at the clock of its last transaction, what one direct DELETE does;
        a failing write stops it with every removed row archived. */
    method ArchiveThenPrune(bucket: Bucket, days: int, archiveDir: string, batchSize: nat)
      returns (r: Result<(nat, nat), Failure>)
      requires Valid() && batchSize >= 1
      modifies this`table, this`archive, this`txs
      ensures Valid() && old(txs) <= txs
      ensures archiveDir == "" <==> r.Err? && r.error.ArchiveDirUnset?
      ensures archiveDir == "" ==> table == old(table) && archive == old(archive) && txs == old(txs)
      ensures r.Ok? ==>
        && old(txs) < txs
        && LastBatchShort(txs - old(txs), batchSize, r.value.1)
        && Emptied(old(table), table, bucket, Cutoff(clock(txs - 1), days), r.value.1)
        && r.value.0 == r.value.1
        && ArchivedExactly(old(archive), archive, old(table), table)
      ensures r.Err? && r.error.WriteFailed? ==>
        && old(txs) < txs && disk(txs - 1).Some?
        && Shrunk(old(table), table, bucket, Cutoff(clock(txs - 1), days))
        && FailedCleanly(old(archive), archive, old(table), table)
      ensures old(archive) <= archive && AllFiled(archive, |old(archive)|, bucket, clock, old(txs), txs)
    {
      hide ArchivedExactly, FailedCleanly, Shrunk, LastBatchShort, FullBatches, Emptied, Monotone, FiledDuring;
      if archiveDir == "" {
        return Err(ArchiveDirUnset);
      }
      NothingDoneYet(archive, table, batchSize);
      var archived: nat, deleted: nat := 0, 0;
      ghost var before, start := table, archive;
      ghost var rounds: nat := 0;
      while true
        invariant Valid() && txs == old(txs) + rounds && archived == deleted && FullBatches(rounds, batchSize, deleted)
        invariant ArchivedExactly(start, archive, before, table)
        invariant if rounds == 0 then table == before else Shrunk(before, table, bucket, Cutoff(clock(txs - 1), days))
        invariant |before| == |table| + deleted
        invariant start <= archive && AllFiled(archive, |start|, bucket, clock, old(txs), txs)
        decreases |table|
      {
        LaterCutoff(before, table, bucket, clock, days, txs + 1, rounds);
        var n := Round(bucket, days, batchSize, before, start, old(txs));
        if n.Err? {
          return Err(WriteFailed);
        }
        CountBatch(rounds, batchSize, deleted, n.value);
        archived, deleted := archived + n.value, deleted + n.value;
        if n.value < batchSize {
          break;
        }
        rounds := rounds + 1;
      }
      r := Ok((archived, deleted));
    }

    /** One iteration of the archiving branch: one archiver call and its two dictionary entries. */
    method ArchiveNextBucket(settings: Settings, i: nat, perEvent: Tally,
                             ghost before: map<Id, Row>, ghost start: seq<Line>, ghost cutoffs: seq<int>)
      returns (r: Result<Tally, Failure>, ghost cutoff: int)
      requires Valid() && DistinctKeys(settings.overrides) && settings.batchSize >= 1 && settings.archiveDir != ""
      requires i == |cutoffs| <= |settings.overrides|
      requires Swept(before, table, settings.overrides, cutoffs, i, perEvent)
      requires ArchivedExactly(start, archive, before, table)
      modifies this`table, this`archive, this`txs
      ensures Valid() && old(txs) < txs && cutoff == Cutoff(clock(txs - 1), PeriodAt(settings, i))
      ensures r.Ok? ==>
        && Swept(before, table, settings.overrides, cutoffs + [cutoff], i + 1, r.value)
        && ArchivedExactly(start, archive, before, table)
      ensures r.Err? ==> r.error == WriteFailed && FailedCleanly(start, archive, before, table)
      ensures old(archive) <= archive
      ensures AllFiled(archive, |old(archive)|, BucketOf(settings.overrides, i), clock, old(txs), txs)
    {
      hide FiledDuring;
      ghost var was, lines := table, archive;
      var bucket := BucketOf(settings.overrides, i);
      var out := ArchiveThenPrune(bucket, PeriodAt(settings, i), settings.archiveDir, settings.batchSize);
      assert out.Ok? || out.error.WriteFailed?;
      cutoff := Cutoff(clock(txs - 1), PeriodAt(settings, i));
      if out.Err? {
        FailedInTurn(start, lines, archive, before, was, table);
        return Err(WriteFailed), cutoff;
      }
      ArchivedInTurn(start, lines, archive, before, was, table);
      SweepByBatches(before, was, table, settings.overrides, cutoffs, cutoff, perEvent, out.value.1);
      return Ok(Put(perEvent, BucketName(settings.overrides, i), out.value.1)), cutoff;
    }

    /** The archiving branch of `prune_once`: one archiver call for each bucket, fallback last. */
    method ArchiveBuckets(settings: Settings) returns (r: Result<Tally, Failure>, ghost cutoffs: seq<int>)
      requires Valid() && DistinctKeys(settings.overrides) && settings.batchSize >= 1 && settings.archiveDir != ""
      modifies this`table, this`archive, this`txs
      ensures Valid() && old(txs) < txs
      ensures r.Ok? ==>
        && |cutoffs| == |settings.overrides| + 1
        && TakenBetween(settings, cutoffs, clock(old(txs)), clock(txs - 1))
        && r.value == TallyAll(old(table), settings.overrides, cutoffs)
        && table == Survivors(old(table), settings.overrides, cutoffs)
        && ArchivedExactly(old(archive), archive, old(table), table)
      ensures r.Err? ==> r.error == WriteFailed && FailedCleanly(old(archive), archive, old(table), table)
      ensures old(archive) <= archive
      ensures AllFiledByEvent(archive, |old(archive)|, settings.overrides, clock, old(txs), txs)
    {
      hide ArchivedExactly, FailedCleanly, Gone, TallyFirst, TakenBetween, DistinctKeys, FiledByEvent, AllFiled,
        BucketOf;
      var overrides := settings.overrides;
      r := Ok([]);
      cutoffs := [];
      NothingSwept(table, overrides, cutoffs);
      NothingDoneYet(archive, table, settings.batchSize);
      var i := 0;
      while i <= |overrides|
        invariant Valid() && 0 <= i == |cutoffs| <= |overrides| + 1 && old(txs) <= txs && (i > 0 ==> old(txs) < txs)
        invariant i > 0 ==> TakenBetween(settings, cutoffs, clock(old(txs)), clock(txs - 1))
        invariant r.Ok? && Swept(old(table), table, overrides, cutoffs, i, r.value)
        invariant ArchivedExactly(old(archive), archive, old(table), table)
        invariant old(archive) <= archive
        invariant AllFiledByEvent(archive, |old(archive)|, overrides, clock, old(txs), txs)
      {
        ghost var first, cutoff, lines := txs, 0, archive;
        r, cutoff := ArchiveNextBucket(settings, i, r.value, old(table), old(archive), cutoffs);
        FiledBucketAfterBucket(lines, archive, |old(archive)|, overrides, i, clock, old(txs), first, txs);
        if r.Err? {
          return;
        }
        TakenStep(settings, cutoffs, cutoff, clock, old(txs), first, txs);
        cutoffs := cutoffs + [cutoff];
        i := i + 1;
      }
    }

    /** The plain branch: one DELETE for each bucket, all in the same transaction. */
    method DeleteBuckets(settings: Settings) returns (perEvent: Tally)
      requires Valid() && DistinctKeys(settings.overrides)
      modifies this`table, this`txs
      ensures Valid() && txs == old(txs) + 1
      ensures var cutoffs := Cutoffs(settings.overrides, settings.globalDays, clock(old(txs)));
              && perEvent == TallyAll(old(table), settings.overrides, cutoffs)
              && table == Survivors(old(table), settings.overrides, cutoffs)
    {
      hide DirectDelete, DueIds, Due, DistinctKeys;
      var overrides, now := settings.overrides, clock(txs);
      txs := txs + 1;
      perEvent := [];
      ghost var before, cutoffs := table, Cutoffs(overrides, settings.globalDays, now);
      NothingSwept(before, overrides, cutoffs);
      var i := 0;
      while i <= |overrides|
        invariant Valid() && 0 <= i <= |overrides| + 1 && txs == old(txs) + 1
        invariant Swept(before, table, overrides, cutoffs, i, perEvent)
      {
        var bucket, cutoff := BucketOf(overrides, i), Cutoff(now, PeriodAt(settings, i));
        SweepDirectly(before, table, overrides, cutoffs, i, perEvent);
        var rowcount := |DueIds(table, bucket, cutoff)|;
        table := DirectDelete(table, bucket, cutoff);
        perEvent := Put(perEvent, BucketName(overrides, i), rowcount);
        i := i + 1;
      }
    }

    /** Best-effort `audit_log.record`: the row is missing when the insert failed. */
    method Record(event: string, metadata: Json.Json, ok: bool)
      requires Valid() && txs > 0
      modifies this`table, this`nextId
      ensures Valid()
      ensures ok ==>
        && nextId == old(nextId) + 1
        && table == old(table)[old(nextId) := SystemRow(event, metadata, clock(txs - 1))]
      ensures !ok ==> nextId == old(nextId) && table == old(table)
    {
      if ok {
        table := table[nextId := SystemRow(event, metadata, clock(txs - 1))];
        nextId := nextId + 1;
      }
    }

    /** The summary events, after the deletes: `audit_log.pruned`, and `audit_log.archived` when archiving. */
    method RecordSummaries(settings: Settings, result: PruneResult, prunedOk: bool, archivedOk: bool)
      requires Valid() && txs > 0 && result.total != 0
      modifies this`table, this`nextId
      ensures Valid() && Issued(table, 0, old(nextId)) == old(table)
      ensures var rows := SummaryRows(settings, result, prunedOk, archivedOk, clock(txs - 1));
              nextId == old(nextId) + |rows| && Recorded(table, old(nextId), rows)
    {
      hide PrunedSummary, ArchivedSummary;
      Record("audit_log.pruned", PrunedSummary(settings, result), prunedOk);
      if Archiving(settings) {
        Record("audit_log.archived", ArchivedSummary(settings, result), archivedOk);
      }
    }

    /** `prune_once`. Both modes leave the same rows and report the same counts, computed with the
        `cutoffs` of their transactions; with a clock that stands still these are the same cutoffs. */
    method PruneOnce(settings: Settings, lockAcquired: bool, prunedOk: bool, archivedOk: bool)
      returns (r: Result<PruneResult, Failure>, ghost cutoffs: seq<int>)
      requires Valid() && DistinctKeys(settings.overrides) && settings.batchSize >= 1
      modifies this
      ensures Valid()
      ensures !(settings.enabled && lockAcquired) ==>
        r == Ok(PruneResult(0, [], [])) && table == old(table) && archive == old(archive) && nextId == old(nextId)
      ensures settings.enabled && lockAcquired && r.Ok? ==>
        && old(txs) < txs
        && Pruned(settings, old(table), Issued(table, 0, old(nextId)), r.value, cutoffs, clock(old(txs)),
                  clock(txs - 1))
        && (if settings.archiveEnabled && settings.archiveDir != ""
            then ArchivedExactly(old(archive), archive, old(table), Issued(table, 0, old(nextId)))
            else archive == old(archive))
      ensures settings.enabled && lockAcquired && r.Ok? ==>
        var rows := SummaryRows(settings, r.value, prunedOk, archivedOk, clock(txs - 1));
        nextId == old(nextId) + |rows| && Recorded(table, old(nextId), rows)
      ensures r.Err? ==>
        && r.error == WriteFailed && settings.archiveEnabled && settings.archiveDir != ""
        && FailedCleanly(old(archive), archive, old(table), table)
      ensures old(archive) <= archive
      ensures AllFiledByEvent(archive, |old(archive)|, settings.overrides, clock, old(txs), txs)
    {
      hide FiledByEvent, ArchivedExactly, FailedCleanly, Survivors, TallyAll, PrunedSummary, ArchivedSummary;
      cutoffs := [];
      if !settings.enabled || !lockAcquired {
        return Ok(PruneResult(0, [], [])), cutoffs;
      }
      var perEvent: Tally, perEventArchived: Tally := [], [];
      if Archiving(settings) {
        var out;
        out, cutoffs := ArchiveBuckets(settings);
        if out.Err? {
          return Err(WriteFailed), cutoffs;
        }
        perEvent, perEventArchived := out.value, out.value;
      } else {
        cutoffs := Cutoffs(settings.overrides, settings.globalDays, clock(txs));
        perEvent := DeleteBuckets(settings);
      }
      ghost var ended := txs;
      assert Issued(table, 0, nextId) == table;
      var result := PruneResult(Total(perEvent), perEvent, perEventArchived);
      if result.total != 0 || Total(perEventArchived) != 0 {
        txs := txs + 1;
        RecordSummaries(settings, result, prunedOk, archivedOk);
      }
      LaterEnd(settings, cutoffs, clock, old(txs), ended, txs);
      r := Ok(result);
    }
  }

  predicate Archiving(settings: Settings) {
    settings.archiveEnabled && settings.archiveDir != ""
  }

  function PeriodAt(settings: Settings, i: nat): int
    requires i <= |settings.overrides|
  {
    if i < |settings.overrides| then settings.overrides[i].1 else settings.globalDays
  }

  /** The rows whose key was issued in `[lo, hi)`. */
  function Issued(table: map<Id, Row>, lo: nat, hi: nat): map<Id, Row> {
    map id | id in table && lo <= id < hi :: table[id]
  }

  /** Every cutoff was taken at some moment between the two clock readings. */
  ghost predicate TakenBetween(settings: Settings, cutoffs: seq<int>, first: int, last: int) {
    && |cutoffs| <= |settings.overrides| + 1
    && forall i :: 0 <= i < |cutoffs| ==>
         Cutoff(first, PeriodAt(settings, i)) <= cutoffs[i] <= Cutoff(last, PeriodAt(settings, i))
  }

  /** What a prune that ran between the two clock readings leaves of the rows there were, and what it returns. */
  ghost predicate Pruned(settings: Settings, before: map<Id, Row>, left: map<Id, Row>, result: PruneResult,
                         cutoffs: seq<int>, first: int, last: int) {
    && |cutoffs| == |settings.overrides| + 1
    && TakenBetween(settings, cutoffs, first, last)
    && (!Archiving(settings) ==> cutoffs == Cutoffs(settings.overrides, settings.globalDays, first))
    && left == Survivors(before, settings.overrides, cutoffs)
    && result.perEvent == TallyAll(before, settings.overrides, cutoffs)
    && result.perEventArchived == (if Archiving(settings) then result.perEvent else [])
    && result.total == Total(result.perEvent)
  }

  lemma TakenStep(settings: Settings, cutoffs: seq<int>, cutoff: int, clock: nat -> int, begin: nat, mid: nat, end: nat)
    requires Monotone(clock) && |cutoffs| <= |settings.overrides| && begin <= mid < end
    requires |cutoffs| > 0 ==> begin < mid && TakenBetween(settings, cutoffs, clock(begin), clock(mid - 1))
    requires cutoff == Cutoff(clock(end - 1), PeriodAt(settings, |cutoffs|))
    ensures TakenBetween(settings, cutoffs + [cutoff], clock(begin), clock(end - 1))
  {
    assert clock(begin) <= clock(end - 1);
    if |cutoffs| > 0 {
      assert clock(mid - 1) <= clock(end - 1);
    }
  }

  lemma LaterEnd(settings: Settings, cutoffs: seq<int>, clock: nat -> int, begin: nat, mid: nat, end: nat)
    requires Monotone(clock) && begin < mid <= end && TakenBetween(settings, cutoffs, clock(begin), clock(mid - 1))
    ensures TakenBetween(settings, cutoffs, clock(begin), clock(end - 1))
  {
    assert clock(mid - 1) <= clock(end - 1);
  }

  /** The first `n` buckets are done. */
  ghost predicate Swept(before: map<Id, Row>, table: map<Id, Row>, overrides: Overrides, cutoffs: seq<int>, n: nat,
                        perEvent: Tally)
    requires n <= |cutoffs| <= |overrides| + 1
  {
    && table == before - Gone(before, overrides, cutoffs, n)
    && perEvent == TallyFirst(before, overrides, cutoffs, n)
  }

  lemma NothingSwept(table: map<Id, Row>, overrides: Overrides, cutoffs: seq<int>)
    requires |cutoffs| <= |overrides| + 1
    ensures Swept(table, table, overrides, cutoffs, 0, [])
  {
    assert Gone(table, overrides, cutoffs, 0) == {};
  }

  lemma SweepDirectly(before: map<Id, Row>, was: map<Id, Row>, overrides: Overrides, cutoffs: seq<int>, n: nat,
                      perEvent: Tally)
    requires DistinctKeys(overrides) && n < |cutoffs| <= |overrides| + 1
    requires Swept(before, was, overrides, cutoffs, n, perEvent)
    ensures var bucket := BucketOf(overrides, n);
            Swept(before, DirectDelete(was, bucket, cutoffs[n]), overrides, cutoffs, n + 1,
                  Put(perEvent, BucketName(overrides, n), |DueIds(was, bucket, cutoffs[n])|))
  {
    BucketUntouched(before, overrides, cutoffs, n);
  }

  lemma SweepByBatches(before: map<Id, Row>, was: map<Id, Row>, table: map<Id, Row>, overrides: Overrides,
                       cutoffs: seq<int>, cutoff: int, perEvent: Tally, n: nat)
    requires DistinctKeys(overrides) && |cutoffs| <= |overrides|
    requires Swept(before, was, overrides, cutoffs, |cutoffs|, perEvent)
    requires Emptied(was, table, BucketOf(overrides, |cutoffs|), cutoff, n)
    ensures Swept(before, table, overrides, cutoffs + [cutoff], |cutoffs| + 1,
                  Put(perEvent, BucketName(overrides, |cutoffs|), n))
  {
    LaterBucketIrrelevant(before, overrides, cutoffs, cutoff, |cutoffs|);
    SweepDirectly(before, was, overrides, cutoffs + [cutoff], |cutoffs|, perEvent);
  }

  lemma FrozenCutoffs(settings: Settings, cutoffs: seq<int>, now: int)
    requires |cutoffs| == |settings.overrides| + 1 && TakenBetween(settings, cutoffs, now, now)
    ensures cutoffs == Cutoffs(settings.overrides, settings.globalDays, now)
  {
    var plain := Cutoffs(settings.overrides, settings.globalDays, now);
    assert forall i :: 0 <= i < |cutoffs| ==> cutoffs[i] == plain[i];
  }

  /** What a prune leaves, in either mode: with the period of its own event, a row that was past it when the
      prune began is gone, and one not past it when the prune ended is there as it was; the plain mode
      goes by the clock at its beginning alone. */
  lemma WhatSurvives(settings: Settings, before: map<Id, Row>, left: map<Id, Row>, result: PruneResult,
                     cutoffs: seq<int>, first: int, last: int, id: Id, days: int)
    requires Pruned(settings, before, left, result, cutoffs, first, last) && DistinctKeys(settings.overrides)
    requires id in before && IsPeriodOf(settings.overrides, settings.globalDays, before[id].event, days)
    ensures before[id].createdAt < first - days * 86400 ==> id !in left
    ensures before[id].createdAt >= last - days * 86400 ==> id in left
    ensures !(settings.archiveEnabled && settings.archiveDir != "") ==>
              (id in left <==> before[id].createdAt >= first - days * 86400)
    ensures left.Keys <= before.Keys && (id in left ==> left[id] == before[id])
  {
    AdvancingClockBounds(before, settings, cutoffs, first, last);
    SurvivesIffRecent(before, settings.overrides, settings.globalDays, first, id, days);
    SurvivesIffRecent(before, settings.overrides, settings.globalDays, last, id, days);
    hide Gone, TakenBetween, Cutoffs, TallyAll, IsPeriodOf;
  }

  /** While the clock stands still the archiving prune refines the plain one: from one table, with
      the same periods, both leave the same rows and return the same total and the same counts. */
  lemma FrozenClockRefinesPlain(plain: Settings, archiving: Settings, before: map<Id, Row>, now: int,
                                left: map<Id, Row>, p: PruneResult, cutoffs: seq<int>,
                                left': map<Id, Row>, q: PruneResult, cutoffs': seq<int>)
    requires plain.overrides == archiving.overrides && plain.globalDays == archiving.globalDays
    requires Pruned(plain, before, left, p, cutoffs, now, now)
    requires Pruned(archiving, before, left', q, cutoffs', now, now)
    ensures left == left' && p.total == q.total && p.perEvent == q.perEvent
  {
    hide Survivors, TallyAll, Total;
    FrozenCutoffs(plain, cutoffs, now);
    FrozenCutoffs(archiving, cutoffs', now);
  }

  /** While the clock advances, every row expired when the prune began is gone and every row not
      yet expired when it ended has survived. */
  lemma AdvancingClockBounds(table: map<Id, Row>, settings: Settings, cutoffs: seq<int>, first: int, last: int)
    requires |cutoffs| == |settings.overrides| + 1 && TakenBetween(settings, cutoffs, first, last)
    ensures Removed(table, settings.overrides, Cutoffs(settings.overrides, settings.globalDays, first)) <=
            Removed(table, settings.overrides, cutoffs) <=
            Removed(table, settings.overrides, Cutoffs(settings.overrides, settings.globalDays, last))
  {
    var lo := Cutoffs(settings.overrides, settings.globalDays, first);
    var hi := Cutoffs(settings.overrides, settings.globalDays, last);
    assert forall i :: 0 <= i < |cutoffs| ==> lo[i] <= cutoffs[i] <= hi[i];
  }
}
