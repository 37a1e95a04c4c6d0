/** Many workers on one `agent_run` table: each works in a transaction that may insert rows and
    process several of them before it commits or rolls back, and may crash at any point. */
module QueueWorkers {
  import opened Prelude
  import opened AgentRuns

  type Worker = nat

  /** A run as it stands and, as histories, as it was enqueued, the turn that finished it, and the
      side-effect writes (comment, notifications, lessons) made for it. */
  datatype Row = Row(run: Run, request: Run, turn: Option<Turn>, effects: seq<Effect>)

  function Enqueued(run: Run): Row { Row(run, run, None, []) }

  /** What the workers only read: the environment, and every comment a run may have been started from. */
  datatype World = World(env: Env, origins: map<Id, Comment>)

  /** The committed table, each worker's own uncommitted versions of the rows it has locked or inserted,
      and histories: how often a run was committed as finished, the side effects committed for it, the
      number of commits, and the commit at which a run was finished. */
  datatype State = State(
    world: World,
    committed: map<Id, Row>,
    open: map<Worker, map<Id, Row>>,
    finished: map<Id, nat>,
    written: map<Id, seq<Effect>>,
    commits: nat,
    doneAt: map<Id, nat>)

  datatype Step =
    | Insert(w: Worker, id: Id, run: Run)
    | Claim(w: Worker, id: Id)
    | Finish(w: Worker, id: Id, turn: Turn)
    | Commit(w: Worker)
    | Rollback(w: Worker)

  function Own(s: State, w: Worker): map<Id, Row> {
    if w in s.open then s.open[w] else map[]
  }

  function Get(counts: map<Id, nat>, id: Id): nat {
    if id in counts then counts[id] else 0
  }

  function WrittenFor(written: map<Id, seq<Effect>>, id: Id): seq<Effect> {
    if id in written then written[id] else []
  }

  predicate Final(row: Row) {
    row.run.status == Done || row.run.status == Error
  }

  function Visible(s: State, w: Worker): map<Id, Row> {
    s.committed + Own(s, w)
  }

  ghost predicate LockedByOther(s: State, w: Worker, id: Id) {
    exists v :: v != w && id in Own(s, v)
  }

  /** What FOR UPDATE SKIP LOCKED may pick for this worker. */
  ghost predicate Claimable(s: State, w: Worker, id: Id) {
    id in Visible(s, w) && Visible(s, w)[id].run.status == Pending && !LockedByOther(s, w, id)
  }

  predicate Earlier(a: Id, x: Row, b: Id, y: Row) {
    x.run.enqueuedAt < y.run.enqueuedAt || (x.run.enqueuedAt == y.run.enqueuedAt && a < b)
  }

  /** The writes of a turn, up to the one that raises. */
  function Writes(world: World, id: Id, run: Run, turn: Turn): seq<Effect> {
    if turn.outcome.Success? then Reached(Effects(world.env, world.origins, id, run, turn), turn.failsAfter) else []
  }

  /** The row as `process_one` leaves it in its transaction, with the writes it made. */
  function Finished(world: World, id: Id, row: Row, turn: Turn): Row {
    var effects := Writes(world, id, row.run, turn);
    var closed := Closed(Answered(row.run, turn), turn);
    Row(if effects != [] then closed.(comment := Some(turn.comment)) else closed, row.request, Some(turn), effects)
  }

  ghost predicate Enabled(s: State, step: Step) {
    match step
    case Insert(w, id, run) =>
      // the primary key and the unique key, against committed rows and rows of open transactions
      && run.status == Pending && run.key == KeyOf(s.world.env, run.agent, run.ticket, run.prompt)
      && id !in s.committed && (forall v :: id !in Own(s, v))
      && (forall r :: r in s.committed ==> s.committed[r].run.key != run.key)
      && (forall v, r :: r in Own(s, v) ==> Own(s, v)[r].run.key != run.key)
    case Claim(w, id) =>
      && Claimable(s, w, id)
      && (forall o :: Claimable(s, w, o) && o != id ==> Earlier(id, Visible(s, w)[id], o, Visible(s, w)[o]))
      && (forall r :: r in Own(s, w) ==> Own(s, w)[r].run.status != Running)
    case Finish(w, id, _) =>
      id in Own(s, w) && Own(s, w)[id].run.status == Running
    case Commit(w) =>
      forall r :: r in Own(s, w) ==> Own(s, w)[r].run.status != Running
    case Rollback(w) => true
  }

  function With(s: State, w: Worker, id: Id, row: Row): State {
    s.(open := s.open[w := Own(s, w)[id := row]])
  }

  function Counting(counts: map<Id, nat>, own: map<Id, Row>): map<Id, nat> {
    map id | id in counts.Keys + own.Keys :: Get(counts, id) + if id in own && Final(own[id]) then 1 else 0
  }

  function Writing(written: map<Id, seq<Effect>>, own: map<Id, Row>): map<Id, seq<Effect>> {
    map id | id in written.Keys + own.Keys :: WrittenFor(written, id)
      + if id in own && Final(own[id]) then own[id].effects else []
  }

  function Next(s: State, step: Step): State {
    match step
    case Insert(w, id, run) => With(s, w, id, Enqueued(run))
    case Claim(w, id) => if id in Visible(s, w) then With(s, w, id, Claimed(Visible(s, w)[id])) else s
    case Finish(w, id, turn) =>
      if id in Own(s, w) then With(s, w, id, Finished(s.world, id, Own(s, w)[id], turn)) else s
    case Commit(w) =>
      var own := Own(s, w);
      State(s.world, s.committed + own, s.open[w := map[]], Counting(s.finished, own), Writing(s.written, own),
            s.commits + 1, s.doneAt + map id | id in own && Final(own[id]) :: s.commits)
    case Rollback(w) => s.(open := s.open[w := map[]])
  }

  function Claimed(row: Row): Row { row.(run := row.run.(status := Running)) }

  function Init(world: World): State { State(world, map[], map[], map[], map[], 0, map[]) }

  // ---------------------------------------------------------------------------------------
  // Invariants
  // ---------------------------------------------------------------------------------------

  /** Nobody but its own transaction ever sees a running row. */
  ghost predicate NeverRunning(s: State) {
    forall id :: id in s.committed ==> s.committed[id].run.status != Running
  }

  /** The same request, as enqueued and in the columns that are set only then. */
  predicate SameRequest(a: Row, b: Row) {
    && a.request == b.request
    && a.run.agent == b.run.agent && a.run.ticket == b.run.ticket && a.run.prompt == b.run.prompt
    && a.run.key == b.run.key && a.run.enqueuedAt == b.run.enqueuedAt
  }

  /** A transaction holds only rows that are its own inserts or are still pending for everybody else. */
  ghost predicate HeldArePending(s: State) {
    forall w, id :: id in Own(s, w) && id in s.committed ==>
      s.committed[id].run.status == Pending && SameRequest(s.committed[id], Own(s, w)[id])
  }

  /** No row is held by two workers. */
  ghost predicate HeldOnce(s: State) {
    forall v, w, id :: id in Own(s, v) && id in Own(s, w) ==> v == w
  }

  /** At most one row per key, counting the rows of open transactions. */
  ghost predicate UniqueKeys(s: State) {
    && (forall a, b :: a in s.committed && b in s.committed && s.committed[a].run.key == s.committed[b].run.key ==>
          a == b)
    && (forall w, a, b :: a in Own(s, w) && b in s.committed && Own(s, w)[a].run.key == s.committed[b].run.key ==>
          a == b)
    && (forall v, a, w, b :: a in Own(s, v) && b in Own(s, w) && Own(s, v)[a].run.key == Own(s, w)[b].run.key ==>
          a == b)
  }

  ghost predicate CountedAt(s: State, id: Id) {
    && Get(s.finished, id) == (if id in s.committed && Final(s.committed[id]) then 1 else 0)
    && WrittenFor(s.written, id)
       == (if id in s.committed && Final(s.committed[id]) then s.committed[id].effects else [])
    && (id in s.doneAt <==> id in s.committed && Final(s.committed[id]))
    && (id in s.doneAt ==> s.doneAt[id] < s.commits)
  }

  /** A run was committed as finished once if its row is final and never otherwise, and the committed
      side effects are those of that one time. */
  ghost predicate Counted(s: State) {
    forall id :: CountedAt(s, id)
  }

  /** The key is that of the request; a row that is not final is as it was enqueued but for its status, and a
      final one is what its one turn made of that. */
  ghost predicate Earned(world: World, id: Id, row: Row) {
    && row.run.key == KeyOf(world.env, row.run.agent, row.run.ticket, row.run.prompt)
    && if Final(row) then row.turn.Some? && row == Finished(world, id, Claimed(Enqueued(row.request)), row.turn.value)
       else row == Enqueued(row.request).(run := row.request.(status := row.run.status))
  }

  ghost predicate AllEarned(s: State) {
    && (forall id :: id in s.committed ==> Earned(s.world, id, s.committed[id]))
    && (forall w, id :: id in Own(s, w) ==> Earned(s.world, id, Own(s, w)[id]))
  }

  ghost predicate Inv(s: State) {
    NeverRunning(s) && HeldArePending(s) && HeldOnce(s) && UniqueKeys(s) && Counted(s) && AllEarned(s)
  }

  lemma InitInv(world: World)
    ensures Inv(Init(world))
  {
  }

  /** The new `Own` of every worker. */
  lemma OwnAfter(s: State, step: Step, v: Worker)
    ensures var own := Own(s, v);
            Own(Next(s, step), v) ==
            if v != step.w then own
            else match step
                 case Insert(w, id, run) => own[id := Enqueued(run)]
                 case Claim(w, id) => if id in Visible(s, w) then own[id := Claimed(Visible(s, w)[id])] else own
                 case Finish(w, id, turn) => if id in own then own[id := Finished(s.world, id, own[id], turn)] else own
                 case Commit(_) => map[]
                 case Rollback(_) => map[]
  {
    hide Finished, Claimed;
  }

  lemma FinishedKeepsRequest(world: World, id: Id, row: Row, turn: Turn)
    ensures var after := Finished(world, id, row, turn);
            SameRequest(row, after) && Final(after) && after.turn == Some(turn)
  {
    hide Effects, Reached;
  }

  ghost predicate ClaimedFree(s: State, step: Step) {
    step.Claim? ==> forall v :: v != step.w ==> step.id !in Own(s, v)
  }

  lemma ClaimIsFree(s: State, step: Step)
    requires Enabled(s, step)
    ensures ClaimedFree(s, step)
  {
    if step.Claim? {
      assert Claimable(s, step.w, step.id);
    }
  }

  lemma HeldOncePreserved(s: State, step: Step)
    requires HeldOnce(s) && Enabled(s, step)
    ensures HeldOnce(Next(s, step))
  {
    hide Next;
    ClaimIsFree(s, step);
    var s' := Next(s, step);
    forall v, w, id | id in Own(s', v) && id in Own(s', w) ensures v == w {
      OwnAfter(s, step, v);
      OwnAfter(s, step, w);
    }
  }

  lemma CommittedAfter(s: State, step: Step)
    ensures Next(s, step).committed == if step.Commit? then s.committed + Own(s, step.w) else s.committed
  {
  }

  lemma HeldArePendingPreserved(s: State, step: Step)
    requires HeldArePending(s) && HeldOnce(s) && Enabled(s, step)
    ensures HeldArePending(Next(s, step))
  {
    hide Next, Finished;
    var s' := Next(s, step);
    CommittedAfter(s, step);
    forall v, id | id in Own(s', v) && id in s'.committed
      ensures s'.committed[id].run.status == Pending && SameRequest(s'.committed[id], Own(s', v)[id])
    {
      OwnAfter(s, step, v);
      if step.Finish? && id in Own(s, v) {
        FinishedKeepsRequest(s.world, id, Own(s, v)[id], step.turn);
      }
      assert step.Commit? && v != step.w ==> id !in Own(s, step.w);
    }
  }

  lemma NeverRunningPreserved(s: State, step: Step)
    requires NeverRunning(s) && Enabled(s, step)
    ensures NeverRunning(Next(s, step))
  {
  }

  /** Every version of a row in `s'` but an inserted one has the key of a version in `s`. */
  lemma KeysAfter(s: State, step: Step, v: Worker, id: Id)
    requires Enabled(s, step) && id in Own(Next(s, step), v)
    ensures var key := Own(Next(s, step), v)[id].run.key;
            if step.Insert? && v == step.w && id == step.id then key == step.run.key
            else if id in Own(s, v) then key == Own(s, v)[id].run.key
            else id in s.committed && key == s.committed[id].run.key
  {
    hide Next, Finished;
    OwnAfter(s, step, v);
    if step.Finish? && id in Own(s, v) {
      FinishedKeepsRequest(s.world, id, Own(s, v)[id], step.turn);
    }
  }

  lemma UniqueKeysPreserved(s: State, step: Step)
    requires UniqueKeys(s) && HeldOnce(s) && Enabled(s, step)
    ensures UniqueKeys(Next(s, step))
  {
    hide Next, Own, Enabled, HeldOnce;
    var s' := Next(s, step);
    CommittedAfter(s, step);
    if step.Commit? {
      CommitKeys(s, step.w);
    }
    forall v, a, b | a in Own(s', v) && b in s'.committed && Own(s', v)[a].run.key == s'.committed[b].run.key
      ensures a == b
    {
      OpenAgainstCommitted(s, step, v, a, b);
    }
    forall v, a, w, b | a in Own(s', v) && b in Own(s', w) && Own(s', v)[a].run.key == Own(s', w)[b].run.key
      ensures a == b
    {
      OpenAgainstOpen(s, step, v, a, w, b);
    }
  }

  lemma OpenAgainstCommitted(s: State, step: Step, v: Worker, a: Id, b: Id)
    requires UniqueKeys(s) && Enabled(s, step)
    requires a in Own(Next(s, step), v) && b in Next(s, step).committed
    requires Own(Next(s, step), v)[a].run.key == Next(s, step).committed[b].run.key
    ensures a == b
  {
    hide Next, Own;
    CommittedAfter(s, step);
    KeysAfter(s, step, v, a);
  }

  lemma OpenAgainstOpen(s: State, step: Step, v: Worker, a: Id, w: Worker, b: Id)
    requires UniqueKeys(s) && Enabled(s, step)
    requires a in Own(Next(s, step), v) && b in Own(Next(s, step), w)
    requires Own(Next(s, step), v)[a].run.key == Own(Next(s, step), w)[b].run.key
    ensures a == b
  {
    hide Next, Own;
    KeysAfter(s, step, v, a);
    KeysAfter(s, step, w, b);
  }

  lemma CommitKeys(s: State, w: Worker)
    requires UniqueKeys(s)
    ensures var after := s.committed + Own(s, w);
            forall a, b :: a in after && b in after && after[a].run.key == after[b].run.key ==> a == b
  {
    hide Own;
  }

  lemma CountingGet(counts: map<Id, nat>, own: map<Id, Row>, id: Id)
    ensures Get(Counting(counts, own), id) == Get(counts, id) + if id in own && Final(own[id]) then 1 else 0
  {
  }

  lemma WritingGet(written: map<Id, seq<Effect>>, own: map<Id, Row>, id: Id)
    ensures WrittenFor(Writing(written, own), id) == WrittenFor(written, id)
            + if id in own && Final(own[id]) then own[id].effects else []
  {
  }

  lemma HeldIsPending(s: State, w: Worker, id: Id)
    requires HeldArePending(s)
    ensures id in Own(s, w) && id in s.committed ==> !Final(s.committed[id])
  {
    hide Own;
  }

  lemma CommitCounts(s: State, w: Worker, id: Id)
    requires CountedAt(s, id) && HeldArePending(s)
    ensures CountedAt(Next(s, Commit(w)), id)
  {
    hide HeldArePending, Counting, Writing, Own, Get, WrittenFor, Final;
    HeldIsPending(s, w, id);
    CountingGet(s.finished, Own(s, w), id);
    WritingGet(s.written, Own(s, w), id);
  }

  lemma CountedPreserved(s: State, step: Step)
    requires Counted(s) && HeldArePending(s) && Enabled(s, step)
    ensures Counted(Next(s, step))
  {
    hide Own, Enabled, HeldArePending, Get, WrittenFor, Counting, Writing;
    forall id ensures CountedAt(Next(s, step), id) {
      assert CountedAt(s, id);
      if step.Commit? {
        CommitCounts(s, step.w, id);
      }
    }
  }

  lemma SameWorld(s: State, step: Step)
    ensures Next(s, step).world == s.world
  {
    hide Finished, Claimed, Counting, Writing;
  }

  lemma NewVersionEarned(s: State, step: Step, v: Worker, id: Id)
    requires AllEarned(s) && Enabled(s, step) && id in Own(Next(s, step), v)
    ensures Earned(s.world, id, Own(Next(s, step), v)[id])
  {
    hide Next, Finished, KeyOf;
    OwnAfter(s, step, v);
    if step.Finish? && v == step.w && id == step.id {
      FinishedKeepsRequest(s.world, id, Own(s, v)[id], step.turn);
    }
  }

  lemma AllEarnedPreserved(s: State, step: Step)
    requires AllEarned(s) && Enabled(s, step)
    ensures AllEarned(Next(s, step))
  {
    CommittedAfter(s, step);
    assert Next(s, step).world == s.world;
    hide Next, Enabled, Earned, Own;
    forall v, id | id in Own(Next(s, step), v) ensures Earned(s.world, id, Own(Next(s, step), v)[id]) {
      NewVersionEarned(s, step, v, id);
    }
  }

  lemma StepKeepsInv(s: State, step: Step)
    requires Inv(s) && Enabled(s, step)
    ensures Inv(Next(s, step)) && Next(s, step).world == s.world
  {
    SameWorld(s, step);
    hide Next, Enabled, NeverRunning, HeldArePending, HeldOnce, UniqueKeys, Counted, AllEarned;
    AllEarnedPreserved(s, step);
    NeverRunningPreserved(s, step);
    HeldArePendingPreserved(s, step);
    HeldOncePreserved(s, step);
    UniqueKeysPreserved(s, step);
    CountedPreserved(s, step);
  }

  // ---------------------------------------------------------------------------------------
  // Whole runs
  // ---------------------------------------------------------------------------------------

  ghost predicate IsRun(s: State, steps: seq<Step>, after: State)
    decreases steps
  {
    if steps == [] then after == s
    else Enabled(s, steps[0]) && IsRun(Next(s, steps[0]), steps[1..], after)
  }

  /** A committed row stays, keeps its request, and its status only goes from pending to done or error;
      once there nothing about it changes. */
  ghost predicate OnlyForward(s: State, after: State) {
    forall id :: id in s.committed ==>
      && id in after.committed
      && SameRequest(s.committed[id], after.committed[id])
      && (Final(s.committed[id]) ==> after.committed[id] == s.committed[id])
  }

  lemma StepForward(s: State, step: Step)
    requires HeldArePending(s)
    ensures OnlyForward(s, Next(s, step))
  {
    CommittedAfter(s, step);
    hide Next, Own;
  }

  /** Over every run of any number of workers, interleaved and crashing at any point: committed rows
      move only pending to done or error, and everything that is final stays final. */
  lemma {:induction false} RunOnlyForward(s: State, steps: seq<Step>, after: State)
    requires Inv(s) && IsRun(s, steps, after)
    ensures Inv(after) && OnlyForward(s, after) && after.world == s.world
    decreases steps
  {
    hide Next, Enabled, Inv;
    if steps != [] {
      StepKeepsInv(s, steps[0]);
      InvHeld(s);
      StepForward(s, steps[0]);
      RunOnlyForward(Next(s, steps[0]), steps[1..], after);
    }
  }

  lemma InvHeld(s: State)
    requires Inv(s)
    ensures HeldArePending(s)
  {
  }

  /** In every reachable state: no row is committed as running, at most one row carries a key or belongs to
      an agent, ticket and prompt, no row is held by two workers, and a row was finished at most once,
      exactly once if it is final. */
  lemma ReachableState(world: World, steps: seq<Step>, s: State)
    requires IsRun(Init(world), steps, s)
    ensures forall id :: id in s.committed ==> s.committed[id].run.status != Running
    ensures forall a, b ::
              a in s.committed && b in s.committed && s.committed[a].run.key == s.committed[b].run.key ==> a == b
    ensures forall a, b ::
              a in s.committed && b in s.committed && SameTriple(s.committed[a].run, s.committed[b].run) ==> a == b
    ensures forall v, w, id :: id in Own(s, v) && id in Own(s, w) ==> v == w
    ensures forall id ::
              && Get(s.finished, id) <= 1
              && (Get(s.finished, id) == 1 <==> id in s.committed && Final(s.committed[id]))
  {
    hide IsRun, Own, KeyOf;
    InitInv(world);
    RunOnlyForward(Init(world), steps, s);
    forall id ensures Get(s.finished, id) == if id in s.committed && Final(s.committed[id]) then 1 else 0 {
      assert CountedAt(s, id);
    }
    forall a, b | a in s.committed && b in s.committed && SameTriple(s.committed[a].run, s.committed[b].run)
      ensures a == b
    {
      assert Earned(s.world, a, s.committed[a]) && Earned(s.world, b, s.committed[b]);
    }
  }

  predicate SameTriple(a: Run, b: Run) {
    a.agent == b.agent && a.ticket == b.ticket && a.prompt == b.prompt
  }

  /** In every reachable state the side effects in the committed tables are, run by run, exactly those of
      the one turn that finished it: none for a run that is not final, and for a final one what
      that turn writes for the run as it was enqueued, however workers interleaved and however often the
      run was claimed in vain. */
  lemma SideEffectsOfOneTurn(world: World, steps: seq<Step>, s: State, id: Id)
    requires IsRun(Init(world), steps, s)
    ensures !(id in s.committed && Final(s.committed[id])) ==> WrittenFor(s.written, id) == []
    ensures id in s.committed ==> (Final(s.committed[id]) <==> s.committed[id].turn.Some?)
    ensures id in s.committed && Final(s.committed[id]) ==>
              var row := s.committed[id];
              && row == Finished(world, id, Claimed(Enqueued(row.request)), row.turn.value)
              && WrittenFor(s.written, id) == Writes(world, id, row.request, row.turn.value)
  {
    hide IsRun, Writes, Closed, Answered, KeyOf;
    InitInv(world);
    RunOnlyForward(Init(world), steps, s);
    assert CountedAt(s, id);
    if id in s.committed {
      assert Earned(world, id, s.committed[id]);
      if Final(s.committed[id]) {
        StatusIsNotWritten(world, id, s.committed[id].request, Running, s.committed[id].turn.value);
      }
    }
  }

  lemma StatusIsNotWritten(world: World, id: Id, run: Run, status: Status, turn: Turn)
    ensures Writes(world, id, run.(status := status), turn) == Writes(world, id, run, turn)
  {
    hide Reached;
    if turn.outcome.Success? {
      var other := run.(status := status);
      assert Learns(world.env, id, other, turn.outcome.lessons) == Learns(world.env, id, run, turn.outcome.lessons);
      assert Notices(world.env, world.origins, other, turn.comment)
             == Notices(world.env, world.origins, run, turn.comment);
    }
  }

  /** `id` was enqueued as `request`, and with a turn it was finished by that turn, in the steps of this run. */
  ghost predicate TracedTo(steps: seq<Step>, id: Id, row: Row) {
    && (exists w :: Insert(w, id, row.request) in steps)
    && (row.turn.Some? ==> exists w :: Finish(w, id, row.turn.value) in steps)
  }

  ghost predicate IsVersion(s: State, id: Id, row: Row) {
    (id in s.committed && s.committed[id] == row) || exists v :: id in Own(s, v) && Own(s, v)[id] == row
  }

  lemma VersionOf(s: State, w: Worker, id: Id)
    requires id in Visible(s, w)
    ensures IsVersion(s, id, Visible(s, w)[id])
  {
  }

  lemma StepVersions(s: State, step: Step, id: Id, row: Row) returns (was: Row)
    requires Enabled(s, step) && IsVersion(Next(s, step), id, row)
    ensures (step.Insert? && step.id == id && row == Enqueued(step.run))
            || (IsVersion(s, id, was) && was.request == row.request
                && (was.turn == row.turn || (step.Finish? && step.id == id && row.turn == Some(step.turn))))
  {
    hide Next, Writes, Closed, Answered, Own;
    var s' := Next(s, step);
    CommittedAfter(s, step);
    was := row;
    if id in s'.committed && s'.committed[id] == row {
      assert step.Commit? && id in Own(s, step.w) ==> Own(s, step.w)[id] == row;
    } else {
      var v :| id in Own(s', v) && Own(s', v)[id] == row;
      OwnAfter(s, step, v);
      if v == step.w && step.Claim? && step.id == id {
        was := Visible(s, v)[id];
        VersionOf(s, v, id);
      } else if v == step.w && step.Finish? && step.id == id {
        was := Own(s, v)[id];
      }
    }
  }

  lemma {:induction false} RowsAreTraced(steps: seq<Step>, s: State, more: seq<Step>, after: State)
    requires (forall id, row :: IsVersion(s, id, row) ==> TracedTo(steps, id, row)) && IsRun(s, more, after)
    ensures forall id, row :: IsVersion(after, id, row) ==> TracedTo(steps + more, id, row)
    decreases more
  {
    hide Next, Enabled, IsVersion;
    if more == [] {
      assert steps + more == steps;
    } else {
      var step, s' := more[0], Next(s, more[0]);
      forall id, row | IsVersion(s', id, row) ensures TracedTo(steps + [step], id, row) {
        StepTraced(steps, s, step, id, row);
      }
      RowsAreTraced(steps + [step], s', more[1..], after);
      assert steps + more == steps + [step] + more[1..];
    }
  }

  lemma StepTraced(steps: seq<Step>, s: State, step: Step, id: Id, row: Row)
    requires forall i, r :: IsVersion(s, i, r) ==> TracedTo(steps, i, r)
    requires Enabled(s, step) && IsVersion(Next(s, step), id, row)
    ensures TracedTo(steps + [step], id, row)
  {
    hide Next, Enabled, IsVersion;
    var was := StepVersions(s, step, id, row);
    var longer := steps + [step];
    assert longer[|steps|] == step;
    assert forall x :: x in steps ==> x in longer;
    if step.Insert? && step.id == id && row == Enqueued(step.run) {
      assert Insert(step.w, id, row.request) in longer;
    } else {
      assert TracedTo(steps, id, was);
      var w :| Insert(w, id, was.request) in steps;
      assert Insert(w, id, row.request) in longer;
      if was.turn == row.turn && row.turn.Some? {
        var v :| Finish(v, id, row.turn.value) in steps;
        assert Finish(v, id, row.turn.value) in longer;
      } else if row.turn.Some? {
        assert Finish(step.w, id, row.turn.value) in longer;
      }
    }
  }

  /** The request of a row is the run some step of the history inserted, and its turn that of a step that
      finished it. */
  lemma RowsComeFromSteps(world: World, steps: seq<Step>, s: State, id: Id)
    requires IsRun(Init(world), steps, s) && id in s.committed
    ensures TracedTo(steps, id, s.committed[id])
  {
    hide IsRun, TracedTo;
    RowsAreTraced([], Init(world), steps, s);
    assert [] + steps == steps;
    assert IsVersion(s, id, s.committed[id]);
  }

  /** A crash loses nothing: whatever the worker had claimed is pending and free again. */
  lemma CrashFreesRows(s: State, w: Worker, id: Id)
    requires Inv(s) && id in Own(s, w) && id in s.committed
    ensures forall v :: Claimable(Next(s, Rollback(w)), v, id)
    ensures Next(s, Rollback(w)).committed == s.committed
    ensures WrittenFor(Next(s, Rollback(w)).written, id) == []
  {
    var s' := Next(s, Rollback(w));
    hide UniqueKeys, NeverRunning, AllEarned;
    assert CountedAt(s, id);
    forall v ensures Claimable(s', v, id) {
      OwnAfter(s, Rollback(w), v);
      assert v != w ==> id !in Own(s, v);
      forall u | u != v ensures id !in Own(s', u) {
        OwnAfter(s, Rollback(w), u);
        assert u != w ==> id !in Own(s, u);
      }
    }
  }

  // ---------------------------------------------------------------------------------------
  // A turn in a transaction is one call of `process_one`
  // ---------------------------------------------------------------------------------------

  lemma {:induction false} RunsDoNotMatter(db: Db, runs: map<Id, Run>, es: seq<Effect>)
    ensures var (a, b) := (ApplyAll(db, es), ApplyAll(db.(runs := runs), es));
            a.comments == b.comments && a.notifications == b.notifications && a.lessons == b.lessons
    decreases es
  {
    if es != [] {
      RunsDoNotMatter(Apply(db, es[0]), Apply(db.(runs := runs), es[0]).runs, es[1..]);
    }
  }

  lemma {:induction false} OnlyPostsLink(db: Db, es: seq<Effect>)
    requires forall i :: 0 <= i < |es| ==> !es[i].Post?
    ensures ApplyAll(db, es).runs == db.runs
    decreases es
  {
    if es != [] {
      OnlyPostsLink(Apply(db, es[0]), es[1..]);
    }
  }

  /** The row a worker leaves in its transaction, and the writes it makes, are those of the sole worker's
      call on the same run. */
  lemma FinishedIsProcessOne(world: World, db: Db, id: Id, turn: Turn)
    requires id in db.runs && db.comments == world.origins
    ensures var after := Processed(world.env, db, id, turn);
            var row := Finished(world, id, Claimed(Enqueued(db.runs[id])), turn);
            var wrote := ApplyAll(db, row.effects);
            && id in after.runs && after.runs[id] == row.run && row.turn == Some(turn) && row.request == db.runs[id]
            && after.comments == wrote.comments && after.notifications == wrote.notifications
            && after.lessons == wrote.lessons
  {
    hide BodyToPost, LessonOf, Responded, Invoked, ApplyAll, KeyOf;
    var run := db.runs[id];
    var answered := db.(runs := db.runs[id := Answered(run, turn)]);
    StatusIsNotWritten(world, id, run, Running, turn);
    var es := Writes(world, id, run, turn);
    RunsDoNotMatter(db, answered.runs, es);
    if es != [] {
      assert es[0] == Post(turn.comment, Comment(run.ticket, run.agent, true, BodyToPost(world.env, run, turn.outcome)),
                           id);
      assert forall i :: 0 <= i < |es[1..]| ==> es[1..][i] == es[i + 1] && !es[i + 1].Post?;
      OnlyPostsLink(Apply(answered, es[0]), es[1..]);
      ApplyFirst(answered, es);
    } else {
      NothingApplied(answered);
    }
  }

  lemma ApplyFirst(db: Db, es: seq<Effect>)
    requires es != []
    ensures ApplyAll(db, es) == ApplyAll(Apply(db, es[0]), es[1..])
  {
  }

  lemma NothingApplied(db: Db)
    ensures ApplyAll(db, []) == db
  {
  }

  // ---------------------------------------------------------------------------------------
  // Queue order
  // ---------------------------------------------------------------------------------------

  ghost predicate VisiblePending(s: State, w: Worker, id: Id) {
    id in Visible(s, w) && Visible(s, w)[id].run.status == Pending
  }

  /** Before every other pending row the worker sees. */
  ghost predicate OldestVisible(s: State, w: Worker, id: Id) {
    && VisiblePending(s, w, id)
    && forall o :: VisiblePending(s, w, o) && o != id ==>
         var (mine, other) := (Visible(s, w)[id].run.enqueuedAt, Visible(s, w)[o].run.enqueuedAt);
         mine < other || (mine == other && id < o)
  }

  /** A worker claims the oldest pending row it sees exactly when no older one is held by another worker. */
  lemma ClaimsOldestIff(s: State, w: Worker, id: Id)
    requires Enabled(s, Claim(w, id))
    ensures OldestVisible(s, w, id) <==>
            forall o :: VisiblePending(s, w, o) && LockedByOther(s, w, o) ==>
                var (mine, other) := (Visible(s, w)[id].run.enqueuedAt, Visible(s, w)[o].run.enqueuedAt);
                mine < other || (mine == other && id <= o)
  {
    hide Own, Visible, LockedByOther;
    if forall o :: VisiblePending(s, w, o) && LockedByOther(s, w, o) ==>
        !Earlier(o, Visible(s, w)[o], id, Visible(s, w)[id]) {
      forall o | VisiblePending(s, w, o) && o != id ensures Earlier(id, Visible(s, w)[id], o, Visible(s, w)[o]) {
        assert !LockedByOther(s, w, o) ==> Claimable(s, w, o);
      }
    }
  }

  /** In particular a worker without rivals. */
  lemma SoleWorkerClaimsOldest(s: State, w: Worker, id: Id)
    requires Enabled(s, Claim(w, id)) && forall v :: v != w ==> Own(s, v) == map[]
    ensures OldestVisible(s, w, id)
  {
    hide Enabled, Own, Visible, OldestVisible;
    ClaimsOldestIff(s, w, id);
  }

  /** With `b` finished, `a`, if it is earlier, is finished too, and not later. */
  ghost predicate PairInOrder(s: State, a: Id, b: Id) {
    && b in s.doneAt && b in s.committed && a in s.committed
    && (|| s.committed[a].run.enqueuedAt < s.committed[b].run.enqueuedAt
        || (s.committed[a].run.enqueuedAt == s.committed[b].run.enqueuedAt && a < b))
    ==> a in s.doneAt && s.doneAt[a] <= s.doneAt[b]
  }

  /** Rows are finished in queue order. */
  ghost predicate DoneInOrder(s: State) {
    forall a, b :: PairInOrder(s, a, b)
  }

  /** The commit does not finish `b` while the earlier `a` stays pending, and does not bring in `a` when the
      later `b` is already finished. */
  ghost predicate PairInTurn(s: State, w: Worker, a: Id, b: Id) {
    var own, after := Own(s, w), s.committed + Own(s, w);
    && (b in own && Final(own[b]) && a in after && !Final(after[a]) ==> !Earlier(a, after[a], b, own[b]))
    && (a in own && a !in s.committed && b in s.doneAt && b in s.committed ==> !Earlier(a, own[a], b, s.committed[b]))
  }

  /** A commit finishes no row while an earlier one stays pending, and brings in no row earlier than one
      that is already finished. */
  ghost predicate NextInTurn(s: State, step: Step) {
    step.Commit? ==> forall a, b :: PairInTurn(s, step.w, a, b)
  }

  ghost predicate InTurn(s: State, steps: seq<Step>)
    decreases steps
  {
    steps == [] || (NextInTurn(s, steps[0]) && InTurn(Next(s, steps[0]), steps[1..]))
  }

  /** The finishing commits come in queue order exactly when each of them happens in its turn, over every
      run of any number of workers. */
  lemma DoneInOrderIffInTurn(world: World, steps: seq<Step>, s: State)
    requires IsRun(Init(world), steps, s)
    ensures DoneInOrder(s) <==> InTurn(Init(world), steps)
  {
    hide IsRun, InTurn;
    InitInv(world);
    RunInOrder(Init(world), steps, s);
  }

  lemma {:induction false} RunInOrder(s: State, steps: seq<Step>, after: State)
    requires Inv(s) && IsRun(s, steps, after)
    ensures DoneInOrder(after) <==> DoneInOrder(s) && InTurn(s, steps)
    decreases steps
  {
    hide Next, Enabled, Inv, DoneInOrder, NextInTurn;
    if steps != [] {
      StepKeepsInv(s, steps[0]);
      StepInOrder(s, steps[0]);
      RunInOrder(Next(s, steps[0]), steps[1..], after);
    }
  }

  lemma StepInOrder(s: State, step: Step)
    requires Inv(s) && Enabled(s, step)
    ensures DoneInOrder(Next(s, step)) <==> DoneInOrder(s) && NextInTurn(s, step)
  {
    hide Next, Enabled, Inv, PairInOrder, PairInTurn;
    forall a, b
      ensures PairInOrder(Next(s, step), a, b) <==>
              PairInOrder(s, a, b) && (step.Commit? ==> PairInTurn(s, step.w, a, b))
    {
      if step.Commit? {
        CommitPair(s, step.w, a, b);
      } else {
        QuietPair(s, step, a, b);
      }
    }
    if DoneInOrder(s) && NextInTurn(s, step) {
      forall a, b ensures PairInOrder(Next(s, step), a, b) {
        assert PairInOrder(s, a, b);
      }
    }
    if DoneInOrder(Next(s, step)) {
      forall a, b ensures PairInOrder(s, a, b) && (step.Commit? ==> PairInTurn(s, step.w, a, b)) {
        assert PairInOrder(Next(s, step), a, b);
      }
    }
  }

  lemma QuietPair(s: State, step: Step, a: Id, b: Id)
    requires !step.Commit?
    ensures PairInOrder(Next(s, step), a, b) <==> PairInOrder(s, a, b)
  {
    hide Finished, Claimed, Own, Visible;
  }

  lemma CommitPair(s: State, w: Worker, a: Id, b: Id)
    requires Inv(s) && Enabled(s, Commit(w))
    ensures PairInOrder(Next(s, Commit(w)), a, b) <==> PairInOrder(s, a, b) && PairInTurn(s, w, a, b)
  {
    hide UniqueKeys, AllEarned, HeldOnce, Own, Counting, Writing, Get, WrittenFor, NeverRunning;
    assert CountedAt(s, a) && CountedAt(s, b);
    var own := Own(s, w);
    assert a in own && a in s.committed ==> SameRequest(s.committed[a], own[a]) && !Final(s.committed[a]);
    assert b in own && b in s.committed ==> SameRequest(s.committed[b], own[b]) && !Final(s.committed[b]);
  }

  // ---------------------------------------------------------------------------------------
  // A run that overtakes
  // ---------------------------------------------------------------------------------------

  lemma {:induction false} RunConcat(s: State, a: seq<Step>, mid: State, b: seq<Step>, after: State)
    requires IsRun(s, a, mid) && IsRun(mid, b, after)
    ensures IsRun(s, a + b, after)
    decreases a
  {
    hide Enabled, Next;
    if a == [] {
      assert a + b == b;
    } else {
      RunConcat(Next(s, a[0]), a[1..], mid, b, after);
      assert (a + b)[0] == a[0] && (a + b)[1..] == a[1..] + b;
    }
  }

  lemma OneStep(s: State, step: Step)
    requires Enabled(s, step)
    ensures IsRun(s, [step], Next(s, step))
  {
    hide Enabled, Next;
    assert [step][1..] == [];
  }

  /** Two pending rows, the first enqueued before the second. */
  ghost predicate BothPending(s: State, first: Run, second: Run) {
    && first.status == Pending && second.status == Pending && first.enqueuedAt < second.enqueuedAt
    && s.committed == map[1 := Enqueued(first), 2 := Enqueued(second)]
  }

  lemma FirstInserted(world: World, first: Run) returns (a: State)
    requires first.status == Pending && first.key == KeyOf(world.env, first.agent, first.ticket, first.prompt)
    ensures IsRun(Init(world), [Insert(0, 1, first)], a)
    ensures a.world == world && a.committed == map[] && Own(a, 0) == map[1 := Enqueued(first)]
    ensures forall v :: v != 0 ==> Own(a, v) == map[]
  {
    hide KeyOf;
    a := Next(Init(world), Insert(0, 1, first));
    OneStep(Init(world), Insert(0, 1, first));
    forall v { OwnAfter(Init(world), Insert(0, 1, first), v); }
  }

  lemma SecondInserted(a: State, first: Run, second: Run) returns (b: State)
    requires second.status == Pending && second.key == KeyOf(a.world.env, second.agent, second.ticket, second.prompt)
    requires first.key != second.key
    requires a.committed == map[] && Own(a, 0) == map[1 := Enqueued(first)] && forall v :: v != 0 ==> Own(a, v) == map[]
    ensures IsRun(a, [Insert(0, 2, second)], b)
    ensures b.committed == map[] && Own(b, 0) == map[1 := Enqueued(first), 2 := Enqueued(second)]
            && forall v :: v != 0 ==> Own(b, v) == map[]
  {
    hide KeyOf, Own;
    b := Next(a, Insert(0, 2, second));
    OneStep(a, Insert(0, 2, second));
    forall v { OwnAfter(a, Insert(0, 2, second), v); }
  }

  lemma BothCommitted(b: State, first: Run, second: Run) returns (c: State)
    requires first.status == Pending && second.status == Pending && first.enqueuedAt < second.enqueuedAt
    requires b.committed == map[] && Own(b, 0) == map[1 := Enqueued(first), 2 := Enqueued(second)]
             && forall v :: v != 0 ==> Own(b, v) == map[]
    ensures IsRun(b, [Commit(0)], c) && BothPending(c, first, second) && forall v :: Own(c, v) == map[]
  {
    hide Own, Counting, Writing;
    c := Next(b, Commit(0));
    OneStep(b, Commit(0));
    forall v { OwnAfter(b, Commit(0), v); }
  }

  lemma FirstClaims(s: State, first: Run, second: Run) returns (after: State)
    requires BothPending(s, first, second) && forall v :: Own(s, v) == map[]
    ensures IsRun(s, [Claim(1, 1)], after) && BothPending(after, first, second)
    ensures Own(after, 1).Keys == {1} && forall v :: v != 1 ==> Own(after, v) == map[]
  {
    hide Own;
    after := Next(s, Claim(1, 1));
    assert Visible(s, 1) == s.committed;
    OneStep(s, Claim(1, 1));
    forall v { OwnAfter(s, Claim(1, 1), v); }
  }

  lemma SecondClaims(s: State, first: Run, second: Run) returns (after: State)
    requires BothPending(s, first, second) && Own(s, 1).Keys == {1} && forall v :: v != 1 ==> Own(s, v) == map[]
    ensures IsRun(s, [Claim(2, 2)], after) && BothPending(after, first, second)
    ensures Own(after, 2) == map[2 := Claimed(Enqueued(second))]
  {
    hide Own;
    after := Next(s, Claim(2, 2));
    assert Visible(s, 2) == s.committed;
    assert LockedByOther(s, 2, 1);
    OneStep(s, Claim(2, 2));
    OwnAfter(s, Claim(2, 2), 2);
  }

  lemma SecondFinishes(s: State, first: Run, second: Run, turn: Turn) returns (after: State)
    requires BothPending(s, first, second) && Own(s, 2) == map[2 := Claimed(Enqueued(second))]
    ensures IsRun(s, [Finish(2, 2, turn)], after) && BothPending(after, first, second)
    ensures Own(after, 2).Keys == {2} && Final(Own(after, 2)[2]) && Own(after, 2)[2].run.enqueuedAt == second.enqueuedAt
  {
    hide Own, Finished;
    after := Next(s, Finish(2, 2, turn));
    OneStep(s, Finish(2, 2, turn));
    OwnAfter(s, Finish(2, 2, turn), 2);
    FinishedKeepsRequest(s.world, 2, Claimed(Enqueued(second)), turn);
  }

  lemma SecondCommits(s: State, first: Run, second: Run) returns (after: State)
    requires BothPending(s, first, second) && Own(s, 2).Keys == {2} && Final(Own(s, 2)[2])
             && Own(s, 2)[2].run.enqueuedAt == second.enqueuedAt
    ensures IsRun(s, [Commit(2)], after)
    ensures after.committed.Keys == {1, 2} && after.committed[1] == Enqueued(first) && Final(after.committed[2])
    ensures after.committed[2].run.enqueuedAt == second.enqueuedAt
  {
    hide Own, Counting, Writing;
    after := Next(s, Commit(2));
    OneStep(s, Commit(2));
  }

  /** With two workers order may indeed be lost: of two rows the second is finished while the first, enqueued
      and claimed before it, is still pending for everybody else. */
  lemma CommitsMayOvertake(world: World, first: Run, second: Run, turn: Turn) returns (steps: seq<Step>, s: State)
    requires first.status == Pending && second.status == Pending && first.enqueuedAt < second.enqueuedAt
             && first.key != second.key
    requires first.key == KeyOf(world.env, first.agent, first.ticket, first.prompt)
    requires second.key == KeyOf(world.env, second.agent, second.ticket, second.prompt)
    ensures IsRun(Init(world), steps, s) && s.committed.Keys == {1, 2}
    ensures s.committed[1].run == first && Final(s.committed[2]) && !DoneInOrder(s)
  {
    hide Next, Own, Enabled, IsRun, KeyOf, DoneInOrder;
    var a := FirstInserted(world, first);
    var b := SecondInserted(a, first, second);
    var c := BothCommitted(b, first, second);
    var d := FirstClaims(c, first, second);
    var e := SecondClaims(d, first, second);
    var f := SecondFinishes(e, first, second, turn);
    s := SecondCommits(f, first, second);
    RunConcat(Init(world), [Insert(0, 1, first)], a, [Insert(0, 2, second)], b);
    steps := [Insert(0, 1, first)] + [Insert(0, 2, second)];
    RunConcat(Init(world), steps, b, [Commit(0)], c);
    steps := steps + [Commit(0)];
    RunConcat(Init(world), steps, c, [Claim(1, 1)], d);
    steps := steps + [Claim(1, 1)];
    RunConcat(Init(world), steps, d, [Claim(2, 2)], e);
    steps := steps + [Claim(2, 2)];
    RunConcat(Init(world), steps, e, [Finish(2, 2, turn)], f);
    steps := steps + [Finish(2, 2, turn)];
    RunConcat(Init(world), steps, f, [Commit(2)], s);
    steps := steps + [Commit(2)];
    Overtaken(world, steps, s, first);
  }

  lemma Overtaken(world: World, steps: seq<Step>, s: State, first: Run)
    requires IsRun(Init(world), steps, s) && s.committed.Keys == {1, 2}
    requires first.status == Pending && s.committed[1].run == first && Final(s.committed[2])
             && first.enqueuedAt < s.committed[2].run.enqueuedAt
    ensures !DoneInOrder(s)
  {
    hide IsRun, KeyOf;
    InitInv(world);
    RunOnlyForward(Init(world), steps, s);
    assert CountedAt(s, 1) && CountedAt(s, 2);
    assert !PairInOrder(s, 1, 2);
  }
}
