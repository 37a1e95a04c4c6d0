/** Any number of archivers working on one audit table and one append-only archive, with row
    inserts and updates, failing or partial file writes, and crashes interleaved at will. */
module ArchiveProtocol {
  import opened AuditTable

  type Worker = nat

  /** Where a worker's open transaction stands; a worker with none is absent from `workers`.
      The rows of `batch` stay locked until the transaction ends. */
  datatype Phase =
    | Writing(file: File, batch: seq<Entry>, written: nat)
    | Deleted(file: File, batch: seq<Entry>, rowcount: nat)

  /** `table` is the committed table; `issued` holds every primary key generated so far. */
  datatype State = State(table: map<Id, Row>, issued: set<Id>, archive: seq<Line>, workers: map<Worker, Phase>)

  datatype Event =
    | Insert(id: Id, row: Row)
    | Update(id: Id, row: Row)
    | Select(w: Worker, bucket: Bucket, cutoff: int, limit: nat, file: File, batch: seq<Entry>)
    | AppendLine(w: Worker)
    | Delete(w: Worker)
    | Commit(w: Worker)
    | Abort(w: Worker)  // the write raised, the connection dropped, or the process died

  function Locked(s: State): set<Id> {
    set w, id | w in s.workers && id in Ids(s.workers[w].batch) :: id
  }

  function Free(s: State): map<Id, Row> {
    map id | id in s.table && id !in Locked(s) :: s.table[id]
  }

  ghost predicate Enabled(s: State, ev: Event) {
    match ev
    case Insert(id, row) => id !in s.issued
    case Update(id, row) => id in s.table && id !in Locked(s)
    case Select(w, bucket, cutoff, limit, file, batch) =>
      w !in s.workers && batch != [] && IsBatch(Free(s), bucket, cutoff, limit, batch)
    case AppendLine(w) =>
      w in s.workers && s.workers[w].Writing? && s.workers[w].written < |s.workers[w].batch|
    case Delete(w) =>
      w in s.workers && s.workers[w].Writing? && s.workers[w].written == |s.workers[w].batch|
    case Commit(w) => w in s.workers && s.workers[w].Deleted?
    case Abort(w) => w in s.workers
  }

  ghost function Step(s: State, ev: Event): State
    requires Enabled(s, ev)
  {
    match ev
    case Insert(id, row) => s.(table := s.table[id := row], issued := s.issued + {id})
    case Update(id, row) => s.(table := s.table[id := row])
    case Select(w, bucket, cutoff, limit, file, batch) => s.(workers := s.workers[w := Writing(file, batch, 0)])
    case AppendLine(w) =>
      var p := s.workers[w];
      s.(archive := s.archive + [Line(p.file, p.batch[p.written])],
         workers := s.workers[w := p.(written := p.written + 1)])
    case Delete(w) =>
      var p := s.workers[w];
      s.(workers := s.workers[w := Deleted(p.file, p.batch, Rowcount(s.table, p.batch))])
    case Commit(w) => s.(table := s.table - Ids(s.workers[w].batch), workers := s.workers - {w})
    case Abort(w) => s.(workers := s.workers - {w})
  }

  /** Before the first archiver starts: no open transaction, an empty archive. */
  ghost predicate Initial(s: State) {
    s.issued == s.table.Keys && s.archive == [] && s.workers == map[]
  }

  ghost predicate Valid(s0: State, run: seq<Event>)
    decreases |run|, 0
  {
    run != [] ==> Valid(s0, Prefix(run)) && Enabled(Exec(s0, Prefix(run)), Last(run))
  }

  ghost function Exec(s0: State, run: seq<Event>): State
    requires Valid(s0, run)
    decreases |run|, 1
  {
    if run == [] then s0 else Step(Exec(s0, Prefix(run)), Last(run))
  }

  function Prefix(run: seq<Event>): seq<Event>
    requires run != []
  {
    run[..|run| - 1]
  }

  function Last(run: seq<Event>): Event
    requires run != []
  {
    run[|run| - 1]
  }

  // ---------------------------------------------------------------------------------------
  // What a run did to one row, read off the run itself
  // ---------------------------------------------------------------------------------------

  /** The file copies of `id` in the archive. */
  function Copies(archive: seq<Line>, id: Id): nat {
    if archive == [] then 0
    else Copies(archive[..|archive| - 1], id) + (if archive[|archive| - 1].entry.id == id then 1 else 0)
  }

  /** The write of this transaction has already put `id` in the file. */
  ghost predicate Reached(p: Phase, id: Id) {
    match p
    case Writing(_, batch, written) => exists i :: 0 <= i < written && i < |batch| && batch[i].id == id
    case Deleted(_, batch, _) => id in Ids(batch)
  }

  ghost predicate InFlight(s: State, id: Id) {
    exists w :: w in s.workers && Reached(s.workers[w], id)
  }

  /** How many transactions of the run deleted `id` and committed. */
  ghost function CommittedDeletes(s0: State, run: seq<Event>, id: Id): nat
    requires Valid(s0, run)
  {
    if run == [] then 0
    else
      var s := Exec(s0, Prefix(run));
      CommittedDeletes(s0, Prefix(run), id) +
      (if Last(run).Commit? && id in Ids(s.workers[Last(run).w].batch) then 1 else 0)
  }

  /** How many transactions of the run were rolled back after their write had reached `id`. */
  ghost function AbortedWrites(s0: State, run: seq<Event>, id: Id): nat
    requires Valid(s0, run)
  {
    if run == [] then 0
    else
      var s := Exec(s0, Prefix(run));
      AbortedWrites(s0, Prefix(run), id) +
      (if Last(run).Abort? && Reached(s.workers[Last(run).w], id) then 1 else 0)
  }

  ghost predicate Archived(archive: seq<Line>, id: Id, row: Row) {
    exists file :: Line(file, Entry(id, row)) in archive
  }

  /** The k-th step of the run took `id` out of the table. */
  ghost predicate LeavesAt(s0: State, run: seq<Event>, k: nat, id: Id)
    requires Valid(s0, run)
  {
    && k < |run|
    && Valid(s0, run[..k])
    && Valid(s0, run[..k + 1])
    && id in Exec(s0, run[..k]).table
    && id !in Exec(s0, run[..k + 1]).table
  }

  // ---------------------------------------------------------------------------------------
  // What every step keeps
  // ---------------------------------------------------------------------------------------

  ghost predicate GoodPhase(s: State, p: Phase) {
    && DistinctIds(p.batch)
    && Holds(s.table, p.batch)
    && match p
       case Writing(file, batch, written) =>
         written <= |batch| && forall i :: 0 <= i < written ==> Line(file, batch[i]) in s.archive
       case Deleted(file, batch, rowcount) =>
         rowcount == |batch| && forall i :: 0 <= i < |batch| ==> Line(file, batch[i]) in s.archive
  }

  ghost predicate Inv(s: State) {
    && s.table.Keys <= s.issued
    && (forall w :: w in s.workers ==> GoodPhase(s, s.workers[w]))
    && (forall v, w :: v in s.workers && w in s.workers && v != w
          ==> Ids(s.workers[v].batch) !! Ids(s.workers[w].batch))
  }

  lemma LockedIds(s: State, w: Worker)
    requires w in s.workers
    ensures Ids(s.workers[w].batch) <= Locked(s)
  {
  }

  /** A step leaves the rows held by an idle transaction alone, and the archive only grows. */
  lemma OthersUntouched(s: State, ev: Event, v: Worker)
    requires Inv(s) && Enabled(s, ev)
    requires v in s.workers && v in Step(s, ev).workers && Step(s, ev).workers[v] == s.workers[v]
    ensures GoodPhase(Step(s, ev), s.workers[v])
  {
    var batch := s.workers[v].batch;
    LockedIds(s, v);
    if ev.Commit? {
      assert Ids(batch) !! Ids(s.workers[ev.w].batch);
    }
    forall i | 0 <= i < |batch|
      ensures batch[i].id in Step(s, ev).table && Step(s, ev).table[batch[i].id] == batch[i].row
    {
      assert batch[i].id in Ids(batch);
    }
  }

  lemma OwnPhaseGood(s: State, ev: Event)
    requires Inv(s) && Enabled(s, ev) && !ev.Insert? && !ev.Update?
    ensures ev.w in Step(s, ev).workers ==> GoodPhase(Step(s, ev), Step(s, ev).workers[ev.w])
  {
    if ev.Delete? {
      RowcountAll(s.table, s.workers[ev.w].batch);
    }
  }

  lemma StillDisjoint(s: State, ev: Event, v: Worker, w: Worker)
    requires Inv(s) && Enabled(s, ev)
    requires v in Step(s, ev).workers && w in Step(s, ev).workers && v != w
    ensures Ids(Step(s, ev).workers[v].batch) !! Ids(Step(s, ev).workers[w].batch)
  {
    if ev.Select? {
      if v in s.workers { LockedIds(s, v); }
      if w in s.workers { LockedIds(s, w); }
    }
  }

  lemma {:induction false} StepKeepsInv(s: State, ev: Event)
    requires Inv(s) && Enabled(s, ev)
    ensures Inv(Step(s, ev))
  {
    var t := Step(s, ev);
    if !ev.Insert? && !ev.Update? {
      OwnPhaseGood(s, ev);
    }
    forall v | v in t.workers ensures GoodPhase(t, t.workers[v]) {
      if v in s.workers && s.workers[v] == t.workers[v] {
        OthersUntouched(s, ev, v);
      }
    }
    forall v, w | v in t.workers && w in t.workers && v != w
      ensures Ids(t.workers[v].batch) !! Ids(t.workers[w].batch)
    {
      StillDisjoint(s, ev, v, w);
    }
  }

  lemma {:induction false} RunKeepsInv(s0: State, run: seq<Event>)
    requires Initial(s0) && Valid(s0, run)
    ensures Inv(Exec(s0, run))
  {
    if run != [] {
      RunKeepsInv(s0, Prefix(run));
      StepKeepsInv(Exec(s0, Prefix(run)), Last(run));
    }
  }

  // ---------------------------------------------------------------------------------------
  // Main results
  // ---------------------------------------------------------------------------------------

  /** The DELETE of a worker never finds a row gone: what it archived is what it deletes. */
  lemma DeleteRemovesTheWholeBatch(s0: State, run: seq<Event>, w: Worker)
    requires Initial(s0) && Valid(s0, run)
    requires w in Exec(s0, run).workers && Exec(s0, run).workers[w].Deleted?
    ensures Exec(s0, run).workers[w].rowcount == |Exec(s0, run).workers[w].batch|
  {
    RunKeepsInv(s0, run);
  }

  /** A rolled-back batch is untouched, and every one of its rows can be picked up again. */
  lemma AbortedRowsAreFreeAgain(s0: State, run: seq<Event>, w: Worker)
    requires Initial(s0) && Valid(s0, run) && w in Exec(s0, run).workers
    ensures var s := Exec(s0, run);
            var t := Step(s, Abort(w));
            t.table == s.table && Holds(Free(t), s.workers[w].batch)
  {
    RunKeepsInv(s0, run);
    var s := Exec(s0, run);
    var t := Step(s, Abort(w));
    var batch := s.workers[w].batch;
    forall i | 0 <= i < |batch| ensures batch[i].id !in Locked(t) {
      assert batch[i].id in Ids(batch);
      forall v | v in t.workers ensures batch[i].id !in Ids(t.workers[v].batch) {
        assert Ids(s.workers[v].batch) !! Ids(batch);
      }
    }
  }

  lemma CopiesAppend(archive: seq<Line>, l: Line, id: Id)
    ensures Copies(archive + [l], id) == Copies(archive, id) + (if l.entry.id == id then 1 else 0)
  {
    assert (archive + [l])[..|archive|] == archive;
  }

  function AsNat(b: bool): nat { if b then 1 else 0 }

  /** One step of the copy count. */
  lemma {:induction false} StepCounts(s: State, ev: Event, id: Id)
    requires Inv(s) && Enabled(s, ev)
    ensures var t := Step(s, ev);
            Copies(t.archive, id) + AsNat(InFlight(s, id)) ==
            Copies(s.archive, id) + AsNat(InFlight(t, id))
            + AsNat(ev.Commit? && id in Ids(s.workers[ev.w].batch))
            + AsNat(ev.Abort? && Reached(s.workers[ev.w], id))
  {
    hide Inv, Enabled, Copies, Reached, Ids;
    if ev.Insert? || ev.Update? {
      assert Step(s, ev).workers == s.workers && Step(s, ev).archive == s.archive;
    } else {
      OthersStay(s, ev);
      if v: Worker :| v in s.workers && v != ev.w && Reached(s.workers[v], id) {
        OtherOwner(s, ev, v, id);
      } else {
        assert InFlight(s, id) <==> ev.w in s.workers && Reached(s.workers[ev.w], id);
        assert InFlight(Step(s, ev), id) <==> ev.w in Step(s, ev).workers && Reached(Step(s, ev).workers[ev.w], id);
        OwnStep(s, ev, id);
      }
    }
  }

  lemma OthersStay(s: State, ev: Event)
    requires Enabled(s, ev) && !ev.Insert? && !ev.Update?
    ensures forall v :: v != ev.w ==> (v in s.workers <==> v in Step(s, ev).workers)
    ensures forall v :: v != ev.w && v in s.workers ==> s.workers[v] == Step(s, ev).workers[v]
  {
    hide IsBatch;
  }

  /** The row is in flight with a worker other than the one that moves. */
  lemma OtherOwner(s: State, ev: Event, v: Worker, id: Id)
    requires Inv(s) && Enabled(s, ev) && !ev.Insert? && !ev.Update?
    requires v in s.workers && v != ev.w && Reached(s.workers[v], id)
    ensures Copies(Step(s, ev).archive, id) == Copies(s.archive, id)
    ensures InFlight(s, id) && InFlight(Step(s, ev), id)
    ensures ev.Commit? ==> id !in Ids(s.workers[ev.w].batch)
    ensures ev.Abort? ==> !Reached(s.workers[ev.w], id)
  {
    var w := ev.w;
    assert id in Ids(s.workers[v].batch);
    assert v in Step(s, ev).workers && Step(s, ev).workers[v] == s.workers[v];
    if w in s.workers {
      assert Ids(s.workers[v].batch) !! Ids(s.workers[w].batch);
      assert id !in Ids(s.workers[w].batch);
      if ev.AppendLine? {
        var p := s.workers[w];
        assert p.batch[p.written].id in Ids(p.batch);
        CopiesAppend(s.archive, Line(p.file, p.batch[p.written]), id);
      }
    }
  }

  /** The moving worker is the only one that can have the row in flight. */
  lemma OwnStep(s: State, ev: Event, id: Id)
    requires Inv(s) && Enabled(s, ev) && !ev.Insert? && !ev.Update?
    ensures var t := Step(s, ev);
            Copies(t.archive, id) + AsNat(ev.w in s.workers && Reached(s.workers[ev.w], id)) ==
            Copies(s.archive, id) + AsNat(ev.w in t.workers && Reached(t.workers[ev.w], id))
            + AsNat(ev.Commit? && id in Ids(s.workers[ev.w].batch))
            + AsNat(ev.Abort? && Reached(s.workers[ev.w], id))
  {
    var w := ev.w;
    match ev {
      case Select(_, _, _, _, _, _) =>
      case AppendLine(_) =>
        var p := s.workers[w];
        var q := p.(written := p.written + 1);
        CopiesAppend(s.archive, Line(p.file, p.batch[p.written]), id);
        assert Reached(q, id) <==> Reached(p, id) || p.batch[p.written].id == id;
      case Delete(_) =>
        var p := s.workers[w];
        assert Reached(p, id) <==> id in Ids(p.batch);
      case Commit(_) =>
      case Abort(_) =>
    }
  }

  /** Conservation: in every reachable state the file copies of a row are its committed deletes,
      plus the rolled-back attempts whose write had reached it, plus one if an open transaction
      has written it. */
  lemma {:induction false} CopiesAreAccountedFor(s0: State, run: seq<Event>, id: Id)
    requires Initial(s0) && Valid(s0, run)
    ensures Copies(Exec(s0, run).archive, id) ==
            CommittedDeletes(s0, run, id) + AbortedWrites(s0, run, id) + AsNat(InFlight(Exec(s0, run), id))
  {
    if run != [] {
      CopiesAreAccountedFor(s0, Prefix(run), id);
      RunKeepsInv(s0, Prefix(run));
      StepCounts(Exec(s0, Prefix(run)), Last(run), id);
    }
  }

  /** A row is deleted at most once, and exactly once if it is gone. */
  lemma {:induction false} DeletedAtMostOnce(s0: State, run: seq<Event>, id: Id)
    requires Initial(s0) && Valid(s0, run)
    ensures id in Exec(s0, run).table.Keys || id !in Exec(s0, run).issued ==> CommittedDeletes(s0, run, id) == 0
    ensures id in Exec(s0, run).issued && id !in Exec(s0, run).table ==> CommittedDeletes(s0, run, id) == 1
  {
    if run != [] {
      DeletedAtMostOnce(s0, Prefix(run), id);
      RunKeepsInv(s0, Prefix(run));
      var s := Exec(s0, Prefix(run));
      if Last(run).Commit? {
        assert id in Ids(s.workers[Last(run).w].batch) ==> id in s.table;
      }
    }
  }

  /** The only step that takes a row out of the table finds it archived as it stands. */
  lemma LeavingRowIsArchived(s: State, ev: Event, id: Id)
    requires Inv(s) && Enabled(s, ev) && id in s.table && id !in Step(s, ev).table
    ensures Archived(Step(s, ev).archive, id, s.table[id])
  {
    var p := s.workers[ev.w];
    assert id in Ids(p.batch);
    var i :| 0 <= i < |p.batch| && p.batch[i].id == id;
    assert p.batch[i] == Entry(id, s.table[id]);
  }

  lemma ArchiveGrows(s: State, ev: Event, id: Id, row: Row)
    requires Enabled(s, ev) && Archived(s.archive, id, row)
    ensures Archived(Step(s, ev).archive, id, row)
  {
    var file :| Line(file, Entry(id, row)) in s.archive;
    assert Line(file, Entry(id, row)) in Step(s, ev).archive;
  }

  /** Safety: a row that the table ever held and that is no longer there left it at some step,
      and the archive holds it with the content it had at that step. */
  lemma {:induction false} NoRowIsLost(s0: State, run: seq<Event>, id: Id)
    requires Initial(s0) && Valid(s0, run)
    requires id in Exec(s0, run).issued && id !in Exec(s0, run).table
    ensures exists k: nat ::
              && LeavesAt(s0, run, k, id)
              && Archived(Exec(s0, run).archive, id, Exec(s0, run[..k]).table[id])
  {
    hide Enabled, Archived, Inv;
    var s := Exec(s0, Prefix(run));
    assert run[..|run| - 1 + 1] == run;
    RunKeepsInv(s0, Prefix(run));
    if id in s.table {
      LeavingRowIsArchived(s, Last(run), id);
      assert LeavesAt(s0, run, |run| - 1, id);
    } else {
      NoRowIsLost(s0, Prefix(run), id);
      var k: nat :| LeavesAt(s0, Prefix(run), k, id) && Archived(s.archive, id, Exec(s0, Prefix(run)[..k]).table[id]);
      assert Prefix(run)[..k] == run[..k] && Prefix(run)[..k + 1] == run[..k + 1];
      ArchiveGrows(s, Last(run), id, Exec(s0, run[..k]).table[id]);
      assert LeavesAt(s0, run, k, id);
    }
  }

  // ---------------------------------------------------------------------------------------
  // The short-circuit exit
  // ---------------------------------------------------------------------------------------

  /** What a short batch, an empty one included, leaves due is exactly what open transactions have locked: the
      bucket is drained exactly when nobody else holds a due row. */
  lemma ShortSelectLeavesLocked(s: State, bucket: Bucket, cutoff: int, limit: nat, batch: seq<Entry>)
    requires IsBatch(Free(s), bucket, cutoff, limit, batch) && |batch| < limit
    ensures var due := DueIds(s.table, bucket, cutoff);
            due - Ids(batch) == due * Locked(s) && (due <= Ids(batch) <==> due * Locked(s) == {})
  {
    var due, free := DueIds(s.table, bucket, cutoff), Free(s);
    hide Locked;
    assert DueIds(free, bucket, cutoff) == due - Locked(s);
    forall id | id in Ids(batch) ensures id in free.Keys {
      var i :| 0 <= i < |batch| && batch[i].id == id;
    }
    assert free.Keys == s.table.Keys - Locked(s);
    assert DueIds(free, bucket, cutoff) <= Ids(batch);
    forall id | id in due ensures id in Ids(batch) <==> id !in Locked(s) {
      assert id in Ids(batch) ==> id in free.Keys;
    }
    SetSplit(due, Ids(batch), Locked(s));
  }

  lemma SetSplit(due: set<Id>, taken: set<Id>, locked: set<Id>)
    requires forall id :: id in due ==> (id in taken <==> id !in locked)
    ensures due - taken == due * locked && (due <= taken <==> due * locked == {})
  {
    if due * locked == {} {
      forall id | id in due ensures id in taken {
        assert id !in due * locked;
      }
    }
  }

  /** Between its SELECT and the end of its transaction a worker holds the batch it selected. */
  lemma {:induction false} BatchIsHeld(s0: State, run: seq<Event>, k: nat)
    requires Valid(s0, run) && k < |run| && run[k].Select?
    requires forall i :: k < i < |run| ==> run[i] != Commit(run[k].w) && run[i] != Abort(run[k].w)
    ensures run[k].w in Exec(s0, run).workers && Exec(s0, run).workers[run[k].w].batch == run[k].batch
  {
    hide Enabled;
    if k + 1 < |run| {
      assert Prefix(run)[k] == run[k];
      BatchIsHeld(s0, Prefix(run), k);
      HeldByStep(Exec(s0, Prefix(run)), Last(run), run[k].w);
    }
  }

  lemma HeldByStep(s: State, ev: Event, w: Worker)
    requires Enabled(s, ev) && w in s.workers && ev != Commit(w) && ev != Abort(w)
    ensures w in Step(s, ev).workers && Step(s, ev).workers[w].batch == s.workers[w].batch
  {
    hide IsBatch;
  }

  lemma IssuedGrows(s: State, ev: Event)
    requires Enabled(s, ev)
    ensures s.issued <= Step(s, ev).issued
  {
    hide IsBatch;
  }

  lemma {:induction false} BeforeIsValid(s0: State, run: seq<Event>, k: nat)
    requires Valid(s0, run) && k <= |run|
    ensures Valid(s0, run[..k])
    ensures k < |run| ==> Enabled(Exec(s0, run[..k]), run[k])
    ensures Exec(s0, run[..k]).issued <= Exec(s0, run).issued
  {
    hide Enabled;
    if k < |run| {
      BeforeIsValid(s0, Prefix(run), k);
      IssuedGrows(Exec(s0, Prefix(run)), Last(run));
      assert Exec(s0, run) == Step(Exec(s0, Prefix(run)), Last(run));
      assert Prefix(run)[..k] == run[..k];
      assert k == |run| - 1 ==> run[..k] == Prefix(run) && run[k] == Last(run);
      assert k < |run| - 1 ==> Prefix(run)[k] == run[k];
    } else {
      assert run[..k] == run;
    }
  }

  /** At the exit after a short batch a row that was due at its SELECT is still there exactly if another worker
      had it locked at that moment and no transaction has deleted it since. */
  lemma LeftByAShortBatch(s0: State, run: seq<Event>, k: nat, id: Id)
    requires Initial(s0) && Valid(s0, run) && k + 1 < |run|
    requires run[k].Select? && |run[k].batch| < run[k].limit && Last(run) == Commit(run[k].w)
    requires forall i :: k < i < |run| - 1 ==> run[i] != Commit(run[k].w) && run[i] != Abort(run[k].w)
    ensures Valid(s0, run[..k]) && run[k].w !in Exec(s0, run[..k]).workers
    ensures var s := Exec(s0, run[..k]);
            id in DueIds(s.table, run[k].bucket, run[k].cutoff) ==>
              (id in Exec(s0, run).table <==> id in Locked(s) && CommittedDeletes(s0, run, id) == 0)
  {
    hide Locked, IsBatch, CommittedDeletes;
    BeforeIsValid(s0, run, k);
    var s, mid := Exec(s0, run[..k]), Exec(s0, Prefix(run));
    RunKeepsInv(s0, run[..k]);
    RunKeepsInv(s0, run);
    DeletedAtMostOnce(s0, run, id);
    ShortSelectLeavesLocked(s, run[k].bucket, run[k].cutoff, run[k].limit, run[k].batch);
    assert Prefix(run)[k] == run[k];
    BatchIsHeld(s0, Prefix(run), k);
    assert Exec(s0, run).table == mid.table - Ids(run[k].batch);
    var due := DueIds(s.table, run[k].bucket, run[k].cutoff);
    if id in due {
      assert id in s.issued;
      assert id in due - Ids(run[k].batch) <==> id in due * Locked(s);
    }
  }

  lemma Extend(s0: State, run: seq<Event>, ev: Event)
    requires Valid(s0, run) && Enabled(Exec(s0, run), ev)
    ensures Valid(s0, run + [ev]) && Exec(s0, run + [ev]) == Step(Exec(s0, run), ev)
  {
    hide Enabled;
    assert Prefix(run + [ev]) == run && Last(run + [ev]) == ev;
  }

  lemma SmallBatches(e: Entry, f: Entry)
    ensures Ids([e]) == {e.id} && Ids([e, f]) == {e.id, f.id}
  {
    IdsAppend([], e);
    IdsAppend([e], f);
    assert [] + [e] == [e] && [e] + [f] == [e, f];
  }

  /** Three due rows. */
  ghost function ThreeRows(row: Row): State {
    State(map[1 := row, 2 := row, 3 := row], {1, 2, 3}, [], map[])
  }

  lemma FirstSelects(s: State, row: Row, bucket: Bucket, cutoff: int, file: File)
    requires Due(bucket, cutoff, row) && s == ThreeRows(row)
    ensures Enabled(s, Select(1, bucket, cutoff, 2, file, [Entry(1, row), Entry(2, row)]))
  {
    var batch := [Entry(1, row), Entry(2, row)];
    assert Free(s) == s.table;
  }

  lemma SecondSelects(s: State, row: Row, bucket: Bucket, cutoff: int, file: File)
    requires Due(bucket, cutoff, row) && s.table == ThreeRows(row).table
    requires s.workers == map[1 := Writing(file, [Entry(1, row), Entry(2, row)], 0)]
    ensures Enabled(s, Select(2, bucket, cutoff, 2, file, [Entry(3, row)]))
  {
    SmallBatches(Entry(1, row), Entry(2, row));
    SmallBatches(Entry(3, row), Entry(3, row));
    assert Ids(s.workers[1].batch) == {1, 2};
    assert Locked(s) == {1, 2};
    assert Free(s) == map[3 := row];
  }

  /** With a rival the exit may come too early: the second worker's batch is short, it commits and leaves, and
      then the first one rolls back. */
  lemma RivalsMayLeaveDueRows(row: Row, bucket: Bucket, cutoff: int, file: File) returns (s0: State, run: seq<Event>)
    requires Due(bucket, cutoff, row)
    ensures Initial(s0) && Valid(s0, run)
    ensures |run| == 6 && run[1] == Select(2, bucket, cutoff, 2, file, [Entry(3, row)]) && run[4] == Commit(2)
    ensures Exec(s0, run).workers == map[] && DueIds(Exec(s0, run).table, bucket, cutoff) == {1, 2}
  {
    hide IsBatch, Enabled, Valid, Exec, Due;
    s0 := ThreeRows(row);
    EmptyRun(s0);
    var first := Select(1, bucket, cutoff, 2, file, [Entry(1, row), Entry(2, row)]);
    var second := Select(2, bucket, cutoff, 2, file, [Entry(3, row)]);
    FirstSelects(s0, row, bucket, cutoff, file);
    Extend(s0, [], first);
    SecondSelects(Step(s0, first), row, bucket, cutoff, file);
    Extend(s0, [] + [first], second);
    run := [] + [first] + [second];
    var tail := [AppendLine(2), Delete(2), Commit(2), Abort(1)];
    SecondLeaves(s0, run, row, file);
    run := run + tail;
    TwoRowsDue(Exec(s0, run).table, row, bucket, cutoff);
  }

  lemma TwoRowsDue(table: map<Id, Row>, row: Row, bucket: Bucket, cutoff: int)
    requires table == map[1 := row, 2 := row] && Due(bucket, cutoff, row)
    ensures DueIds(table, bucket, cutoff) == {1, 2}
  {
  }

  lemma EmptyRun(s0: State)
    ensures Valid(s0, []) && Exec(s0, []) == s0
  {
  }

  lemma SecondLeaves(s0: State, run: seq<Event>, row: Row, file: File)
    requires Valid(s0, run) && Exec(s0, run).table == ThreeRows(row).table
    requires Exec(s0, run).workers ==
             map[1 := Writing(file, [Entry(1, row), Entry(2, row)], 0), 2 := Writing(file, [Entry(3, row)], 0)]
    ensures var t := run + [AppendLine(2), Delete(2), Commit(2), Abort(1)];
            Valid(s0, t) && Exec(s0, t).workers == map[] && Exec(s0, t).table == map[1 := row, 2 := row]
  {
    hide Valid, Exec, Rowcount, IsBatch, Ids;
    SmallBatches(Entry(3, row), Entry(3, row));
    Extend(s0, run, AppendLine(2));
    Extend(s0, run + [AppendLine(2)], Delete(2));
    Extend(s0, run + [AppendLine(2)] + [Delete(2)], Commit(2));
    Extend(s0, run + [AppendLine(2)] + [Delete(2)] + [Commit(2)], Abort(1));
    assert run + [AppendLine(2)] + [Delete(2)] + [Commit(2)] + [Abort(1)]
           == run + [AppendLine(2), Delete(2), Commit(2), Abort(1)];
  }
}
