/** The in-process event bus: bounded queues per subscriber, and per-session staging so that only
    committed sessions publish. */
module Events {
  import opened Prelude
  import opened Sequences

  type Session = nat

  /** The envelope of `_build_envelope`. */
  datatype Event = Event(
    event: string,
    ticket: Option<nat>,
    project: Option<nat>,
    correlation: string,
    occurredAt: int,
    payload: string)

  const QUEUE_MAX := 256

  // ---------------------------------------------------------------------------------------
  // One subscriber's queue
  // ---------------------------------------------------------------------------------------

  /** The queue, and three histories: what the subscriber took, what was published while it was
      subscribed, and how many of those were dropped. */
  datatype Box = Box(queued: seq<Event>, taken: seq<Event>, offered: seq<Event>, dropped: nat)

  const EMPTY := Box([], [], [], 0)

  /** `put_nowait`: a full queue drops the new event. */
  function Offer(b: Box, e: Event): Box {
    if |b.queued| < QUEUE_MAX
    then b.(queued := b.queued + [e], offered := b.offered + [e])
    else b.(offered := b.offered + [e], dropped := b.dropped + 1)
  }

  function Take(b: Box): Box {
    if b.queued == [] then b else b.(queued := b.queued[1..], taken := b.taken + [b.queued[0]])
  }

  datatype BoxOp = Offered(event: Event) | Taken

  function RunBox(b: Box, ops: seq<BoxOp>): Box
    decreases ops
  {
    if ops == [] then b
    else RunBox(match ops[0] case Offered(e) => Offer(b, e) case Taken => Take(b), ops[1..])
  }

  /** What a subscriber has and had: at most 256 queued; taken plus queued are, in order, what was
      published while it was subscribed less the dropped events; nothing is missing if none was. */
  ghost predicate BoxInv(b: Box) {
    && |b.queued| <= QUEUE_MAX
    && Subsequence(b.taken + b.queued, b.offered)
    && |b.offered| == |b.taken| + |b.queued| + b.dropped
    && (b.dropped == 0 ==> b.taken + b.queued == b.offered)
  }

  lemma OfferKeepsInv(b: Box, e: Event)
    requires BoxInv(b)
    ensures BoxInv(Offer(b, e))
  {
    var all := b.taken + b.queued;
    AddedAtEnd(e, all, b.offered);
    if |b.queued| < QUEUE_MAX {
      assert b.taken + (b.queued + [e]) == all + [e];
    }
  }

  lemma TakeKeepsInv(b: Box)
    requires BoxInv(b)
    ensures BoxInv(Take(b))
  {
    if b.queued != [] {
      assert b.taken + [b.queued[0]] + b.queued[1..] == b.taken + b.queued;
    }
  }

  lemma {:induction false} BoxRunKeepsInv(b: Box, ops: seq<BoxOp>)
    requires BoxInv(b)
    ensures BoxInv(RunBox(b, ops))
    decreases ops
  {
    hide BoxInv;
    if ops != [] {
      match ops[0]
      case Offered(e) => OfferKeepsInv(b, e); BoxRunKeepsInv(Offer(b, e), ops[1..]);
      case Taken => TakeKeepsInv(b); BoxRunKeepsInv(Take(b), ops[1..]);
    }
  }

  function OfferedIn(ops: seq<BoxOp>): seq<Event> {
    if ops == [] then [] else (if ops[0].Offered? then [ops[0].event] else []) + OfferedIn(ops[1..])
  }

  /** The queue is full at none of the offers. */
  predicate NeverFull(b: Box, ops: seq<BoxOp>)
    decreases ops
  {
    ops == []
    || match ops[0]
       case Offered(e) => |b.queued| < QUEUE_MAX && NeverFull(Offer(b, e), ops[1..])
       case Taken => NeverFull(Take(b), ops[1..])
  }

  lemma {:induction false} RunBoxHistory(b: Box, ops: seq<BoxOp>)
    ensures RunBox(b, ops).offered == b.offered + OfferedIn(ops)
    ensures RunBox(b, ops).dropped >= b.dropped
    ensures RunBox(b, ops).dropped == b.dropped <==> NeverFull(b, ops)
    decreases ops
  {
    if ops != [] {
      match ops[0]
      case Offered(e) => RunBoxHistory(Offer(b, e), ops[1..]);
      case Taken => RunBoxHistory(Take(b), ops[1..]);
    }
  }

  /** Every offer of the run finds fewer than 256 events waiting. */
  ghost predicate AlwaysRoom(b: Box, ops: seq<BoxOp>) {
    forall k :: 0 <= k < |ops| && ops[k].Offered? ==> |RunBox(b, ops[..k]).queued| < 256
  }

  lemma {:induction false} NeverFullMeaning(b: Box, ops: seq<BoxOp>)
    ensures NeverFull(b, ops) <==> AlwaysRoom(b, ops)
    decreases ops
  {
    if ops != [] {
      var next := match ops[0] case Offered(e) => Offer(b, e) case Taken => Take(b);
      NeverFullMeaning(next, ops[1..]);
      hide NeverFull, Offer, Take, RunBox;
      forall k | 0 <= k < |ops| - 1 ensures RunBox(next, ops[1..][..k]) == RunBox(b, ops[..k + 1]) {
        assert ops[..k + 1][1..] == ops[1..][..k] && ops[..k + 1][0] == ops[0];
        RunBoxFirst(b, ops[..k + 1]);
      }
      RunBoxFirst(b, ops[..0]);
      RoomStep(b, next, ops);
      NeverFullStep(b, ops);
    }
  }

  lemma RunBoxFirst(b: Box, ops: seq<BoxOp>)
    ensures RunBox(b, ops)
            == if ops == [] then b
               else RunBox(match ops[0] case Offered(e) => Offer(b, e) case Taken => Take(b), ops[1..])
  {
  }

  lemma NeverFullStep(b: Box, ops: seq<BoxOp>)
    requires ops != []
    ensures NeverFull(b, ops) <==>
            (ops[0].Offered? ==> |b.queued| < 256)
            && NeverFull(match ops[0] case Offered(e) => Offer(b, e) case Taken => Take(b), ops[1..])
  {
  }

  lemma RoomStep(b: Box, next: Box, ops: seq<BoxOp>)
    requires ops != [] && RunBox(b, ops[..0]) == b
    requires forall k :: 0 <= k < |ops| - 1 ==> RunBox(next, ops[1..][..k]) == RunBox(b, ops[..k + 1])
    ensures AlwaysRoom(b, ops) <==> (ops[0].Offered? ==> |b.queued| < 256) && AlwaysRoom(next, ops[1..])
  {
    hide RunBox;
    if AlwaysRoom(b, ops) {
      forall k | 0 <= k < |ops[1..]| && ops[1..][k].Offered? ensures |RunBox(next, ops[1..][..k]).queued| < 256 {
        assert ops[1..][k] == ops[k + 1];
      }
    }
    if (ops[0].Offered? ==> |b.queued| < 256) && AlwaysRoom(next, ops[1..]) {
      forall k | 0 <= k < |ops| && ops[k].Offered? ensures |RunBox(b, ops[..k]).queued| < 256 {
        if k > 0 {
          assert ops[1..][k - 1] == ops[k];
        }
      }
    }
  }

  /** What a queue has accepted it keeps and hands out in that order: later offers, also to a full queue,
      only add behind. */
  lemma {:induction false} AcceptedStays(b: Box, ops: seq<BoxOp>)
    ensures b.taken + b.queued <= RunBox(b, ops).taken + RunBox(b, ops).queued
    ensures b.taken <= RunBox(b, ops).taken
    decreases ops
  {
    if ops != [] {
      var next := match ops[0] case Offered(e) => Offer(b, e) case Taken => Take(b);
      AcceptedStays(next, ops[1..]);
      hide RunBox;
      AcceptedOneMore(b, ops[0], next);
      assert RunBox(b, ops) == RunBox(next, ops[1..]) by {
        RunBoxFirst(b, ops);
      }
    }
  }

  lemma AcceptedOneMore(b: Box, op: BoxOp, next: Box)
    requires next == match op case Offered(e) => Offer(b, e) case Taken => Take(b)
    ensures b.taken + b.queued <= next.taken + next.queued && b.taken <= next.taken
  {
    if op.Offered? {
      assert b.taken + (b.queued + [op.event]) == b.taken + b.queued + [op.event];
    } else if b.queued != [] {
      assert b.taken + [b.queued[0]] + b.queued[1..] == b.taken + b.queued;
    }
  }

  /** One queue by itself, over every interleaving of offers and takes: the subscriber sees an in-order
      subsequence of what was published, all of it exactly when every offer found fewer than 256 events
      waiting, and never has more than 256 of them. */
  lemma BoxSees(ops: seq<BoxOp>)
    ensures var b := RunBox(EMPTY, ops);
            && |b.queued| <= 256
            && Subsequence(b.taken + b.queued, OfferedIn(ops))
            && (b.taken + b.queued == OfferedIn(ops) <==> AlwaysRoom(EMPTY, ops))
  {
    hide AlwaysRoom;
    BoxRunKeepsInv(EMPTY, ops);
    RunBoxHistory(EMPTY, ops);
    NeverFullMeaning(EMPTY, ops);
    assert EMPTY.offered + OfferedIn(ops) == OfferedIn(ops);
  }

  // ---------------------------------------------------------------------------------------
  // Sessions
  // ---------------------------------------------------------------------------------------

  datatype Phase = Open | Committed | Flushed | RolledBack

  /** The staging dictionary and, as histories, the phase of each session, everything it staged, the
      order of commits and of flushes, and everything published. */
  datatype Sessions = Sessions(
    staged: map<Session, seq<Event>>,
    phase: map<Session, Phase>,
    history: map<Session, seq<Event>>,
    commits: seq<Session>,
    flushes: seq<Session>,
    published: seq<Event>)

  const START := Sessions(map[], map[], map[], [], [], [])

  function PhaseOf(s: Sessions, x: Session): Phase { if x in s.phase then s.phase[x] else Open }

  function HistoryOf(s: Sessions, x: Session): seq<Event> { if x in s.history then s.history[x] else [] }

  function StagedOf(s: Sessions, x: Session): seq<Event> { if x in s.staged then s.staged[x] else [] }

  /** The commit takes effect and the flush that follows it are separate steps: other sessions may
      run in between, and the process may die there. */
  datatype Step = Stage(x: Session, event: Event) | Commit(x: Session) | Flush(x: Session) | Rollback(x: Session)

  predicate Enabled(s: Sessions, step: Step) {
    match step
    case Stage(x, _) => PhaseOf(s, x) == Open
    case Commit(x) => PhaseOf(s, x) == Open
    case Flush(x) => PhaseOf(s, x) == Committed
    case Rollback(x) => PhaseOf(s, x) == Open
  }

  function Next(s: Sessions, step: Step): Sessions {
    match step
    case Stage(x, e) =>
      s.(staged := s.staged[x := StagedOf(s, x) + [e]], history := s.history[x := HistoryOf(s, x) + [e]])
    case Commit(x) => s.(phase := s.phase[x := Committed], commits := s.commits + [x])
    case Flush(x) =>
      s.(staged := s.staged - {x}, phase := s.phase[x := Flushed], flushes := s.flushes + [x],
         published := s.published + StagedOf(s, x))
    case Rollback(x) => s.(staged := s.staged - {x}, phase := s.phase[x := RolledBack])
  }

  ghost predicate IsRun(s: Sessions, steps: seq<Step>, after: Sessions)
    decreases steps
  {
    if steps == [] then after == s else Enabled(s, steps[0]) && IsRun(Next(s, steps[0]), steps[1..], after)
  }

  /** The events the sessions in `order` staged, one session after the other. */
  function Concat(s: Sessions, order: seq<Session>): seq<Event> {
    if order == [] then [] else Concat(s, order[..|order| - 1]) + HistoryOf(s, order[|order| - 1])
  }

  ghost predicate Distinct(order: seq<Session>) {
    forall i, j :: 0 <= i < j < |order| ==> order[i] != order[j]
  }

  ghost predicate PhasesFit(s: Sessions) {
    && Distinct(s.commits) && Distinct(s.flushes)
    && (forall x :: x in s.commits <==> PhaseOf(s, x) == Committed || PhaseOf(s, x) == Flushed)
    && (forall x :: x in s.flushes <==> PhaseOf(s, x) == Flushed)
    && (forall x :: (PhaseOf(s, x) == Open || PhaseOf(s, x) == Committed) ==> StagedOf(s, x) == HistoryOf(s, x))
    && (forall x :: (PhaseOf(s, x) == Flushed || PhaseOf(s, x) == RolledBack) ==> x !in s.staged)
  }

  ghost predicate Inv(s: Sessions) {
    PhasesFit(s) && s.published == Concat(s, s.flushes)
  }

  lemma {:induction false} ConcatSame(s: Sessions, s': Sessions, order: seq<Session>)
    requires forall i :: 0 <= i < |order| ==> HistoryOf(s', order[i]) == HistoryOf(s, order[i])
    ensures Concat(s', order) == Concat(s, order)
  {
    if order != [] {
      ConcatSame(s, s', order[..|order| - 1]);
    }
  }

  lemma DistinctAppend(order: seq<Session>, x: Session)
    requires Distinct(order) && x !in order
    ensures Distinct(order + [x]) && forall y :: y in order + [x] <==> y in order || y == x
  {
  }

  lemma PhasesKept(s: Sessions, step: Step)
    requires PhasesFit(s) && Enabled(s, step)
    ensures PhasesFit(Next(s, step))
  {
    match step
    case Stage(x, e) =>
    case Commit(x) =>
      DistinctAppend(s.commits, x);
      assert Next(s, step).commits == s.commits + [x];
    case Flush(x) =>
      DistinctAppend(s.flushes, x);
      assert Next(s, step).flushes == s.flushes + [x];
    case Rollback(x) =>
  }

  lemma CommittedHistoryKept(s: Sessions, step: Step)
    requires PhasesFit(s) && Enabled(s, step)
    ensures forall i :: 0 <= i < |s.commits| ==> HistoryOf(Next(s, step), s.commits[i]) == HistoryOf(s, s.commits[i])
    ensures !step.Stage? ==> HistoryOf(Next(s, step), step.x) == HistoryOf(s, step.x)
  {
    hide Distinct;
    forall i | 0 <= i < |s.commits| ensures HistoryOf(Next(s, step), s.commits[i]) == HistoryOf(s, s.commits[i]) {
      assert s.commits[i] in s.commits;
    }
  }

  lemma FlushedHistoryKept(s: Sessions, step: Step)
    requires PhasesFit(s) && Enabled(s, step)
    ensures forall i :: 0 <= i < |s.flushes| ==> HistoryOf(Next(s, step), s.flushes[i]) == HistoryOf(s, s.flushes[i])
    ensures step.Flush? ==> HistoryOf(Next(s, step), step.x) == StagedOf(s, step.x)
  {
    hide Distinct;
    forall i | 0 <= i < |s.flushes| ensures HistoryOf(Next(s, step), s.flushes[i]) == HistoryOf(s, s.flushes[i]) {
      assert s.flushes[i] in s.flushes;
    }
  }

  lemma StepKeepsInv(s: Sessions, step: Step)
    requires Inv(s) && Enabled(s, step)
    ensures Inv(Next(s, step))
  {
    hide PhasesFit, HistoryOf, StagedOf;
    PhasesKept(s, step);
    FlushedHistoryKept(s, step);
    var s' := Next(s, step);
    ConcatSame(s, s', s.flushes);
    if step.Flush? {
      assert s'.flushes[..|s'.flushes| - 1] == s.flushes;
    }
  }

  lemma {:induction false} RunKeepsInv(s: Sessions, steps: seq<Step>, after: Sessions)
    requires Inv(s) && IsRun(s, steps, after)
    ensures Inv(after)
    decreases steps
  {
    hide Inv, Next, Enabled;
    if steps != [] {
      StepKeepsInv(s, steps[0]);
      RunKeepsInv(Next(s, steps[0]), steps[1..], after);
    }
  }

  /** What the steps say: the events a session staged, and the order of commits and of flushes. */
  function StagedIn(steps: seq<Step>, x: Session): seq<Event> {
    if steps == [] then []
    else (if steps[0].Stage? && steps[0].x == x then [steps[0].event] else []) + StagedIn(steps[1..], x)
  }

  function CommitsIn(steps: seq<Step>): seq<Session> {
    if steps == [] then [] else (if steps[0].Commit? then [steps[0].x] else []) + CommitsIn(steps[1..])
  }

  function FlushesIn(steps: seq<Step>): seq<Session> {
    if steps == [] then [] else (if steps[0].Flush? then [steps[0].x] else []) + FlushesIn(steps[1..])
  }

  lemma {:induction false} HistoriesGrow(s: Sessions, steps: seq<Step>, after: Sessions)
    requires IsRun(s, steps, after)
    ensures forall x :: HistoryOf(after, x) == HistoryOf(s, x) + StagedIn(steps, x)
    ensures after.commits == s.commits + CommitsIn(steps) && after.flushes == s.flushes + FlushesIn(steps)
    decreases steps
  {
    hide Enabled, HistoryOf, StagedOf;
    if steps != [] {
      HistoriesGrow(Next(s, steps[0]), steps[1..], after);
      OneStepOfHistory(s, steps[0]);
      hide Next;
      forall x ensures HistoryOf(after, x) == HistoryOf(s, x) + StagedIn(steps, x) {
        Regroup(HistoryOf(s, x), if steps[0].Stage? && steps[0].x == x then [steps[0].event] else [],
                StagedIn(steps[1..], x));
      }
      Regroup(s.commits, if steps[0].Commit? then [steps[0].x] else [], CommitsIn(steps[1..]));
      Regroup(s.flushes, if steps[0].Flush? then [steps[0].x] else [], FlushesIn(steps[1..]));
    }
  }

  lemma OneStepOfHistory(s: Sessions, step: Step)
    ensures var s' := Next(s, step);
            && (forall x :: HistoryOf(s', x)
                            == HistoryOf(s, x) + if step.Stage? && step.x == x then [step.event] else [])
            && s'.commits == s.commits + (if step.Commit? then [step.x] else [])
            && s'.flushes == s.flushes + (if step.Flush? then [step.x] else [])
  {
  }

  /** The histories of a state are those of the steps that led there. */
  lemma HistoriesAreTheSteps(steps: seq<Step>, s: Sessions)
    requires IsRun(START, steps, s)
    ensures forall x :: HistoryOf(s, x) == StagedIn(steps, x)
    ensures s.commits == CommitsIn(steps) && s.flushes == FlushesIn(steps)
  {
    hide IsRun, StagedIn, CommitsIn, FlushesIn;
    HistoriesGrow(START, steps, s);
    var (none, nobody) := (START.published, START.commits);
    assert forall x :: none + StagedIn(steps, x) == StagedIn(steps, x);
    assert nobody + CommitsIn(steps) == CommitsIn(steps) && nobody + FlushesIn(steps) == FlushesIn(steps);
  }

  /** The events staged in the run by the sessions in `order`, one session after the other. */
  function StagedBy(steps: seq<Step>, order: seq<Session>): seq<Event> {
    if order == [] then [] else StagedBy(steps, order[..|order| - 1]) + StagedIn(steps, order[|order| - 1])
  }

  lemma {:induction false} ConcatIsStagedBy(s: Sessions, steps: seq<Step>, order: seq<Session>)
    requires forall x :: HistoryOf(s, x) == StagedIn(steps, x)
    ensures Concat(s, order) == StagedBy(steps, order)
  {
    hide HistoryOf, StagedIn;
    if order != [] {
      ConcatIsStagedBy(s, steps, order[..|order| - 1]);
    }
  }

  /** The same from the steps alone: flush by flush, the events of its session in the order of staging. */
  lemma PublishedIsWhatWasStaged(steps: seq<Step>, s: Sessions)
    requires IsRun(START, steps, s)
    ensures s.published == StagedBy(steps, FlushesIn(steps))
    ensures forall x :: x in FlushesIn(steps) ==> x in CommitsIn(steps)
    ensures forall x :: x in FlushesIn(steps) || PhaseOf(s, x) == RolledBack ==> x !in s.staged
    ensures forall x :: x !in FlushesIn(steps) && PhaseOf(s, x) != RolledBack ==> StagedOf(s, x) == StagedIn(steps, x)
  {
    hide IsRun, StagedIn, Concat;
    HistoriesAreTheSteps(steps, s);
    StartInv();
    RunKeepsInv(START, steps, s);
    ConcatIsStagedBy(s, steps, s.flushes);
  }

  /** In every reachable state the published sequence is, in order of flushing, everything the flushed
      sessions staged; every one of them had committed, and a rolled-back session contributes nothing. */
  lemma PublishedIsCommitted(steps: seq<Step>, s: Sessions)
    requires IsRun(START, steps, s)
    ensures s.published == Concat(s, s.flushes) && Distinct(s.flushes)
    ensures forall x :: x in s.flushes ==> x in s.commits
    ensures forall x :: PhaseOf(s, x) == RolledBack ==> x !in s.flushes && x !in s.commits
    ensures forall x :: x in s.commits && x !in s.flushes ==> StagedOf(s, x) == HistoryOf(s, x)
  {
    RunKeepsInv(START, steps, s);
  }

  /** The sessions flushed so far are the first ones that committed, in that order. */
  predicate FlushedInOrder(s: Sessions) {
    s.flushes <= s.commits
  }

  /** Every flush is that of the earliest committed session not yet flushed. */
  predicate InTurn(s: Sessions, steps: seq<Step>)
    decreases steps
  {
    steps == []
    || (NextInTurn(s, steps[0]) && InTurn(Next(s, steps[0]), steps[1..]))
  }

  predicate NextInTurn(s: Sessions, step: Step) {
    step.Flush? ==> |s.flushes| < |s.commits| && step.x == s.commits[|s.flushes|]
  }

  lemma PrefixWithout(a: seq<Session>, b: seq<Session>, x: Session)
    requires x !in a
    ensures a <= b + [x] <==> a <= b
  {
    var all := b + [x];
    assert all[|b|] == x;
    if a <= all {
      forall i | 0 <= i < |a| ensures all[i] in a {
        assert a[i] == all[i];
      }
      assert a == all[..|a|];
      assert |a| <= |b| ==> all[..|a|] == b[..|a|];
    }
  }

  lemma StepInTurn(s: Sessions, step: Step)
    requires PhasesFit(s) && Enabled(s, step)
    ensures FlushedInOrder(Next(s, step)) <==> FlushedInOrder(s) && NextInTurn(s, step)
  {
    var s' := Next(s, step);
    hide Distinct;
    match step
    case Stage(_, _) =>
    case Commit(x) =>
      PrefixWithout(s.flushes, s.commits, x);
    case Flush(x) =>
      assert |s.flushes| < |s.commits| ==>
               s.commits[..|s.flushes| + 1] == s.commits[..|s.flushes|] + [s.commits[|s.flushes|]];
    case Rollback(_) =>
  }

  lemma {:induction false} InOrderIffInTurn(s: Sessions, steps: seq<Step>, after: Sessions)
    requires Inv(s) && IsRun(s, steps, after)
    ensures FlushedInOrder(after) <==> FlushedInOrder(s) && InTurn(s, steps)
    decreases steps
  {
    hide Next, Enabled, FlushedInOrder, NextInTurn, PhasesFit;
    if steps != [] {
      StepKeepsInv(s, steps[0]);
      StepInTurn(s, steps[0]);
      InOrderIffInTurn(Next(s, steps[0]), steps[1..], after);
    }
  }

  /** The sessions flushed so far are the first ones that committed, in that order, exactly when every
      flush comes in its turn. */
  lemma FlushedInOrderIffInTurn(steps: seq<Step>, s: Sessions)
    requires IsRun(START, steps, s)
    ensures FlushedInOrder(s) <==> InTurn(START, steps)
  {
    hide InTurn, IsRun;
    StartInv();
    InOrderIffInTurn(START, steps, s);
  }

  // ---------------------------------------------------------------------------------------
  // The order of the published events: sessions that staged nothing do not matter
  // ---------------------------------------------------------------------------------------

  /** The sessions in `order` that staged anything. */
  function Loud(s: Sessions, order: seq<Session>): seq<Session> {
    if order == [] then []
    else
      var last := order[|order| - 1];
      Loud(s, order[..|order| - 1]) + if HistoryOf(s, last) != [] then [last] else []
  }

  function SignedBy(x: Session, events: seq<Event>): seq<(Session, Event)> {
    seq(|events|, i requires 0 <= i < |events| => (x, events[i]))
  }

  /** The events the sessions in `order` staged, each with its session. */
  function Signed(s: Sessions, order: seq<Session>): seq<(Session, Event)> {
    if order == [] then []
    else
      var last := order[|order| - 1];
      Signed(s, order[..|order| - 1]) + SignedBy(last, HistoryOf(s, last))
  }

  /** What has been published is what the committed sessions staged, in the order of their commits, up
      to some point: nothing has been overtaken or skipped. */
  predicate PublishedInOrder(s: Sessions) {
    Signed(s, s.flushes) <= Signed(s, s.commits)
  }

  /** Every flush that publishes anything is that of the earliest committed session with events not
      yet flushed. */
  predicate EventsInTurn(s: Sessions, steps: seq<Step>)
    decreases steps
  {
    steps == [] || (NextEventsInTurn(s, steps[0]) && EventsInTurn(Next(s, steps[0]), steps[1..]))
  }

  predicate NextEventsInTurn(s: Sessions, step: Step) {
    step.Flush? && HistoryOf(s, step.x) != [] ==>
      var done, due := Loud(s, s.flushes), Loud(s, s.commits);
      |done| < |due| && step.x == due[|done|]
  }

  lemma {:induction false} LoudSame(s: Sessions, s': Sessions, order: seq<Session>)
    requires forall i :: 0 <= i < |order| ==> HistoryOf(s', order[i]) == HistoryOf(s, order[i])
    ensures Loud(s', order) == Loud(s, order)
  {
    if order != [] {
      LoudSame(s, s', order[..|order| - 1]);
    }
  }

  lemma LoudAdd(s: Sessions, order: seq<Session>, x: Session)
    ensures Loud(s, order + [x]) == Loud(s, order) + if HistoryOf(s, x) != [] then [x] else []
  {
    assert (order + [x])[..|order|] == order;
  }

  lemma {:induction false} LoudWithin(s: Sessions, order: seq<Session>)
    ensures forall x :: x in Loud(s, order) <==> x in order && HistoryOf(s, x) != []
  {
    if order != [] {
      LoudWithin(s, order[..|order| - 1]);
      assert order == order[..|order| - 1] + [order[|order| - 1]];
    }
  }

  lemma PrefixAdd(a: seq<Session>, b: seq<Session>, x: Session)
    ensures a + [x] <= b <==> a <= b && |a| < |b| && x == b[|a|]
  {
    assert a <= b && |a| < |b| ==> b[..|a| + 1] == b[..|a|] + [b[|a|]];
    if a + [x] <= b {
      assert b[..|a| + 1][..|a|] == b[..|a|] && (a + [x])[..|a|] == a;
    }
  }

  lemma LoudStep(s: Sessions, step: Step)
    requires PhasesFit(s) && Enabled(s, step)
    ensures var s' := Next(s, step);
            Loud(s', s'.flushes) <= Loud(s', s'.commits) <==>
            Loud(s, s.flushes) <= Loud(s, s.commits) && NextEventsInTurn(s, step)
  {
    hide Distinct, Loud, HistoryOf, StagedOf;
    var s' := Next(s, step);
    CommittedHistoryKept(s, step);
    FlushedHistoryKept(s, step);
    LoudSame(s, s', s.commits);
    LoudSame(s, s', s.flushes);
    match step
    case Stage(_, _) =>
    case Commit(x) =>
      LoudAdd(s', s.commits, x);
      LoudWithin(s, s.flushes);
      assert x !in Loud(s, s.flushes);
      PrefixWithout(Loud(s, s.flushes), Loud(s, s.commits), x);
      assert Loud(s, s.commits) + [] == Loud(s, s.commits);
    case Flush(x) =>
      LoudAdd(s', s.flushes, x);
      PrefixAdd(Loud(s, s.flushes), Loud(s, s.commits), x);
      assert Loud(s, s.flushes) + [] == Loud(s, s.flushes);
    case Rollback(_) =>
  }

  lemma {:induction false} LoudInOrderIff(s: Sessions, steps: seq<Step>, after: Sessions)
    requires Inv(s) && IsRun(s, steps, after)
    ensures Loud(after, after.flushes) <= Loud(after, after.commits) <==>
            Loud(s, s.flushes) <= Loud(s, s.commits) && EventsInTurn(s, steps)
    decreases steps
  {
    hide Next, Enabled, NextEventsInTurn, PhasesFit, Loud;
    if steps != [] {
      StepKeepsInv(s, steps[0]);
      LoudStep(s, steps[0]);
      LoudInOrderIff(Next(s, steps[0]), steps[1..], after);
    }
  }

  /** Silent sessions add no event. */
  lemma {:induction false} LoudSpeaksForAll(s: Sessions, order: seq<Session>)
    ensures Signed(s, Loud(s, order)) == Signed(s, order) && Concat(s, Loud(s, order)) == Concat(s, order)
  {
    if order != [] {
      var front, last := order[..|order| - 1], order[|order| - 1];
      LoudSpeaksForAll(s, front);
      var loud := Loud(s, front);
      assert (loud + [last])[..|loud|] == loud && loud + [] == loud;
      assert HistoryOf(s, last) == [] ==> Concat(s, front) + HistoryOf(s, last) == Concat(s, front);
      assert HistoryOf(s, last) == [] ==> Signed(s, front) + SignedBy(last, HistoryOf(s, last)) == Signed(s, front);
    }
  }

  lemma SignedAdd(s: Sessions, order: seq<Session>, x: Session)
    ensures Signed(s, order + [x]) == Signed(s, order) + SignedBy(x, HistoryOf(s, x))
    ensures Concat(s, order + [x]) == Concat(s, order) + HistoryOf(s, x)
  {
    hide SignedBy, HistoryOf;
    assert (order + [x])[..|order|] == order;
  }

  lemma Regroup<T>(a: seq<T>, b: seq<T>, c: seq<T>)
    ensures a + b + c == a + (b + c)
  {
  }

  lemma {:induction false} SignedJoin(s: Sessions, a: seq<Session>, b: seq<Session>)
    ensures Signed(s, a + b) == Signed(s, a) + Signed(s, b) && Concat(s, a + b) == Concat(s, a) + Concat(s, b)
  {
    hide Signed, Concat, SignedBy, HistoryOf;
    if b == [] {
      SignedNone(s);
      assert a + b == a && Signed(s, a) + [] == Signed(s, a) && Concat(s, a) + [] == Concat(s, a);
    } else {
      var front, last := b[..|b| - 1], b[|b| - 1];
      SignedJoin(s, a, front);
      SignedAdd(s, a + front, last);
      SignedAdd(s, front, last);
      assert b == front + [last];
      Regroup(a, front, [last]);
      Regroup(Signed(s, a), Signed(s, front), SignedBy(last, HistoryOf(s, last)));
      Regroup(Concat(s, a), Concat(s, front), HistoryOf(s, last));
    }
  }

  lemma SignedNone(s: Sessions)
    ensures Signed(s, []) == [] && Concat(s, []) == []
  {
  }

  lemma SignedOne(s: Sessions, x: Session)
    ensures Signed(s, [x]) == SignedBy(x, HistoryOf(s, x))
  {
    hide SignedBy;
    SignedNone(s);
    SignedAdd(s, [], x);
    assert [] + [x] == [x] && [] + SignedBy(x, HistoryOf(s, x)) == SignedBy(x, HistoryOf(s, x));
  }

  /** Among sessions that staged something, the order of the events tells the order of the sessions. */
  lemma {:induction false} SignedPrefixIff(s: Sessions, a: seq<Session>, b: seq<Session>)
    requires forall x :: x in a || x in b ==> HistoryOf(s, x) != []
    ensures Signed(s, a) <= Signed(s, b) <==> a <= b
  {
    hide Signed, Concat;
    if a <= b {
      SignedJoin(s, a, b[|a|..]);
      assert b == a + b[|a|..];
    } else if Signed(s, a) <= Signed(s, b) {
      SignedTellsOrder(s, a, b);
    }
  }

  lemma {:induction false} SignedTellsOrder(s: Sessions, a: seq<Session>, b: seq<Session>)
    requires forall x :: x in a || x in b ==> HistoryOf(s, x) != []
    requires Signed(s, a) <= Signed(s, b)
    ensures a <= b
  {
    hide Signed, Concat, HistoryOf;
    if a != [] {
      var front, x := a[..|a| - 1], a[|a| - 1];
      assert a == front + [x];
      SignedJoin(s, front, [x]);
      SignedOne(s, x);
      SignedTellsOrder(s, front, b);
      var rest := b[|front|..];
      assert b == front + rest;
      SignedJoin(s, front, rest);
      var k := |Signed(s, front)|;
      assert Signed(s, b)[k] == Signed(s, a)[k] == (x, HistoryOf(s, x)[0]);
      HeadTells(s, rest, x);
      assert b[|front|] == rest[0];
      PrefixAdd(front, b, x);
    }
  }

  lemma HeadTells(s: Sessions, order: seq<Session>, x: Session)
    requires forall y :: y in order ==> HistoryOf(s, y) != []
    requires Signed(s, order) != [] && Signed(s, order)[0].0 == x
    ensures order != [] && order[0] == x
  {
    hide Signed, Concat, HistoryOf;
    SignedNone(s);
    if order != [] {
      SignedJoin(s, order[..1], order[1..]);
      assert order == order[..1] + order[1..] && order[..1] == [order[0]];
      SignedOne(s, order[0]);
    }
  }

  /** Publication follows commit order exactly when every flush with events comes in its turn, over every
      run; the published events are then the first of those committed. */
  lemma PublishedInCommitOrderIff(steps: seq<Step>, s: Sessions)
    requires IsRun(START, steps, s)
    ensures PublishedInOrder(s) <==> EventsInTurn(START, steps)
    ensures EventsInTurn(START, steps) ==> s.published <= Concat(s, s.commits)
  {
    hide EventsInTurn, IsRun, Signed, Concat, Loud;
    StartInv();
    LoudOfStart();
    LoudInOrderIff(START, steps, s);
    RunKeepsInv(START, steps, s);
    InOrderIffLoud(s);
  }

  lemma LoudOfStart()
    ensures Loud(START, START.flushes) <= Loud(START, START.commits)
  {
  }

  lemma InOrderIffLoud(s: Sessions)
    requires s.published == Concat(s, s.flushes)
    ensures PublishedInOrder(s) <==> Loud(s, s.flushes) <= Loud(s, s.commits)
    ensures PublishedInOrder(s) ==> s.published <= Concat(s, s.commits)
  {
    hide Signed, Concat, Loud, HistoryOf;
    var done, due := Loud(s, s.flushes), Loud(s, s.commits);
    LoudWithin(s, s.flushes);
    LoudWithin(s, s.commits);
    LoudSpeaksForAll(s, s.flushes);
    LoudSpeaksForAll(s, s.commits);
    SignedPrefixIff(s, done, due);
    if done <= due {
      SignedJoin(s, done, due[|done|..]);
      assert due == done + due[|done|..];
    }
  }

  /** In particular when the flushes come in turn, silent ones included. */
  lemma FlushesInTurnPublishInOrder(steps: seq<Step>, s: Sessions)
    requires IsRun(START, steps, s) && InTurn(START, steps)
    ensures EventsInTurn(START, steps) && PublishedInOrder(s)
    ensures |s.flushes| <= |s.commits| && s.published == Concat(s, s.commits[..|s.flushes|])
  {
    hide EventsInTurn, InTurn, IsRun, Signed, Concat;
    FlushedInOrderIffInTurn(steps, s);
    PublishedInCommitOrderIff(steps, s);
    StartInv();
    RunKeepsInv(START, steps, s);
    SignedJoin(s, s.flushes, s.commits[|s.flushes|..]);
    assert s.commits == s.flushes + s.commits[|s.flushes|..];
    assert s.commits[..|s.flushes|] == s.flushes;
  }

  /** No commit takes effect while another session has committed but not flushed. */
  predicate Prompt(s: Sessions, steps: seq<Step>)
    decreases steps
  {
    steps == [] || ((steps[0].Commit? ==> s.commits == s.flushes) && Prompt(Next(s, steps[0]), steps[1..]))
  }

  ghost predicate AtMostOneBehind(s: Sessions) {
    s.commits == s.flushes || (s.commits != [] && s.commits[..|s.commits| - 1] == s.flushes)
  }

  lemma {:induction false} PromptIsInTurn(s: Sessions, steps: seq<Step>, after: Sessions)
    requires Inv(s) && AtMostOneBehind(s) && IsRun(s, steps, after) && Prompt(s, steps)
    ensures InTurn(s, steps)
    decreases steps
  {
    hide Inv, Next, Enabled, AtMostOneBehind, NextInTurn;
    if steps != [] {
      StepKeepsInv(s, steps[0]);
      PromptStep(s, steps[0]);
      PromptIsInTurn(Next(s, steps[0]), steps[1..], after);
    }
  }

  lemma PromptStep(s: Sessions, step: Step)
    requires Inv(s) && AtMostOneBehind(s) && Enabled(s, step) && (step.Commit? ==> s.commits == s.flushes)
    ensures AtMostOneBehind(Next(s, step)) && NextInTurn(s, step)
  {
    hide Distinct, Concat;
    if step.Flush? {
      assert step.x in s.commits && step.x !in s.flushes;
      assert s.commits == s.commits[..|s.commits| - 1] + [s.commits[|s.commits| - 1]];
    } else if step.Commit? {
      assert (s.commits + [step.x])[..|s.commits|] == s.commits;
    }
  }

  /** And so when no commit comes between another commit and its flush. */
  lemma PromptFlushesPublishInCommitOrder(steps: seq<Step>, s: Sessions)
    requires IsRun(START, steps, s) && Prompt(START, steps)
    ensures PublishedInOrder(s)
    ensures |s.flushes| <= |s.commits| && s.published == Concat(s, s.commits[..|s.flushes|])
  {
    hide IsRun, Prompt, InTurn, PublishedInOrder;
    StartInv();
    PromptIsInTurn(START, steps, s);
    FlushesInTurnPublishInOrder(steps, s);
  }

  /** The states of the run in `FlushesMayOvertake`. */
  lemma OvertakingStates(a: Event, b: Event)
    returns (s1: Sessions, s2: Sessions, s3: Sessions, s4: Sessions, s5: Sessions, s: Sessions)
    ensures Enabled(START, Stage(1, a)) && s1 == Next(START, Stage(1, a))
    ensures Enabled(s1, Stage(2, b)) && s2 == Next(s1, Stage(2, b))
    ensures Enabled(s2, Commit(1)) && s3 == Next(s2, Commit(1))
    ensures Enabled(s3, Commit(2)) && s4 == Next(s3, Commit(2))
    ensures Enabled(s4, Flush(2)) && s5 == Next(s4, Flush(2))
    ensures Enabled(s5, Flush(1)) && s == Next(s5, Flush(1))
    ensures s.commits == [1, 2] && s.flushes == [2, 1] && s.published == [b, a]
    ensures HistoryOf(s, 1) == [a] && HistoryOf(s, 2) == [b]
  {
    s1 := Next(START, Stage(1, a));
    s2 := Next(s1, Stage(2, b));
    s3 := Next(s2, Commit(1));
    s4 := Next(s3, Commit(2));
    s5 := Next(s4, Flush(2));
    s := Next(s5, Flush(1));
  }

  /** The states of the run in `SilentSessionsMayBeLate`. */
  lemma SilentStates(e: Event) returns (s1: Sessions, s2: Sessions, s3: Sessions, s: Sessions)
    ensures Enabled(START, Commit(1)) && s1 == Next(START, Commit(1))
    ensures Enabled(s1, Stage(2, e)) && s2 == Next(s1, Stage(2, e))
    ensures Enabled(s2, Commit(2)) && s3 == Next(s2, Commit(2))
    ensures Enabled(s3, Flush(2)) && s == Next(s3, Flush(2))
    ensures s.commits == [1, 2] && s.flushes == [2] && s.published == [e]
    ensures HistoryOf(s, 1) == [] && HistoryOf(s, 2) == [e]
  {
    s1 := Next(START, Commit(1));
    s2 := Next(s1, Stage(2, e));
    s3 := Next(s2, Commit(2));
    s := Next(s3, Flush(2));
  }

  lemma SignedOfSilent(s: Sessions, e: Event)
    requires s.commits == [1, 2] && s.flushes == [2] && HistoryOf(s, 1) == [] && HistoryOf(s, 2) == [e]
    ensures PublishedInOrder(s) && !FlushedInOrder(s) && Concat(s, s.commits) == [e]
  {
    hide Signed, Concat, HistoryOf;
    SignedNone(s);
    SignedAdd(s, [], 1);
    SignedAdd(s, [1], 2);
    SignedAdd(s, [], 2);
    assert [] + [1] == [1] && [1] + [2] == [1, 2] && [] + [2] == [2];
    assert SignedBy(1, []) == [] && SignedBy(2, [e]) == [(2, e)];
    assert s.flushes[0] != s.commits[0];
  }

  /** A session that staged nothing may flush late, or never, without disturbing the order of the events. */
  lemma SilentSessionsMayBeLate(e: Event) returns (steps: seq<Step>, s: Sessions)
    ensures IsRun(START, steps, s) && s.commits == [1, 2] && s.flushes == [2] && !InTurn(START, steps)
    ensures PublishedInOrder(s) && s.published == Concat(s, s.commits) == [e]
  {
    hide Next, Enabled, IsRun, InTurn, HistoryOf, Signed, Concat, FlushedInOrder, PublishedInOrder;
    var s1, s2, s3;
    s1, s2, s3, s := SilentStates(e);
    NoSteps(s);
    Cons(s3, Flush(2), [], s);
    Cons(s2, Commit(2), [Flush(2)] + [], s);
    Cons(s1, Stage(2, e), [Commit(2)] + ([Flush(2)] + []), s);
    steps := [Stage(2, e)] + ([Commit(2)] + ([Flush(2)] + []));
    Cons(START, Commit(1), steps, s);
    steps := [Commit(1)] + steps;
    FlushedInOrderIffInTurn(steps, s);
    SignedOfSilent(s, e);
  }

  /** Otherwise it need not: session 2 commits after session 1 and publishes before it. */
  lemma FlushesMayOvertake(a: Event, b: Event) returns (steps: seq<Step>, s: Sessions)
    requires a != b
    ensures IsRun(START, steps, s) && s.commits == [1, 2] && s.flushes == [2, 1]
    ensures Concat(s, s.commits) == [a, b] && s.published == [b, a]
  {
    hide Next, Enabled, IsRun, HistoryOf;
    var s1, s2, s3, s4, s5;
    s1, s2, s3, s4, s5, s := OvertakingStates(a, b);
    assert s.commits[..1] == [1] && [1][..0] == [];
    assert Concat(s, [1]) == Concat(s, []) + HistoryOf(s, 1);
    NoSteps(s);
    Cons(s5, Flush(1), [], s);
    Cons(s4, Flush(2), [Flush(1)] + [], s);
    Cons(s3, Commit(2), [Flush(2)] + ([Flush(1)] + []), s);
    Cons(s2, Commit(1), [Commit(2)] + ([Flush(2)] + ([Flush(1)] + [])), s);
    Cons(s1, Stage(2, b), [Commit(1)] + ([Commit(2)] + ([Flush(2)] + ([Flush(1)] + []))), s);
    steps := [Stage(2, b)] + ([Commit(1)] + ([Commit(2)] + ([Flush(2)] + ([Flush(1)] + []))));
    Cons(START, Stage(1, a), steps, s);
    steps := [Stage(1, a)] + steps;
  }

  lemma NoSteps(s: Sessions)
    ensures IsRun(s, [], s)
  {
  }

  lemma Cons(s: Sessions, step: Step, rest: seq<Step>, after: Sessions)
    requires Enabled(s, step) && IsRun(Next(s, step), rest, after)
    ensures IsRun(s, [step] + rest, after)
  {
    assert ([step] + rest)[1..] == rest;
  }

  // ---------------------------------------------------------------------------------------
  // Sessions and subscribers together
  // ---------------------------------------------------------------------------------------

  type Sub = nat

  /** The sessions and every queue ever handed out: which are subscribed, and how much had been
      published when each was subscribed and when it was taken off. */
  datatype Bus = Bus(s: Sessions, boxes: map<Sub, Box>, live: set<Sub>, since: map<Sub, nat>, until: map<Sub, nat>)

  const SILENCE := Bus(START, map[], {}, map[], map[])

  datatype BusStep = OfSession(step: Step) | Subscribe(q: Sub) | Unsubscribe(q: Sub) | TakeFrom(q: Sub)

  predicate BusEnabled(b: Bus, step: BusStep) {
    match step
    case OfSession(t) => Enabled(b.s, t)
    case Subscribe(q) => q !in b.boxes
    case Unsubscribe(q) => q in b.boxes
    case TakeFrom(q) => q in b.boxes
  }

  function OfferAll(b: Box, es: seq<Event>): Box
    decreases es
  {
    if es == [] then b else OfferAll(Offer(b, es[0]), es[1..])
  }

  /** What a step of a session publishes. */
  function Publishes(s: Sessions, step: Step): seq<Event> {
    if step.Flush? then StagedOf(s, step.x) else []
  }

  function BusNext(b: Bus, step: BusStep): Bus {
    match step
    case OfSession(t) =>
      b.(s := Next(b.s, t),
         boxes := map q | q in b.boxes :: if q in b.live then OfferAll(b.boxes[q], Publishes(b.s, t)) else b.boxes[q])
    case Subscribe(q) =>
      b.(boxes := b.boxes[q := EMPTY], live := b.live + {q}, since := b.since[q := |b.s.published|])
    case Unsubscribe(q) =>
      if q in b.live then b.(live := b.live - {q}, until := b.until[q := |b.s.published|]) else b
    case TakeFrom(q) => if q in b.boxes then b.(boxes := b.boxes[q := Take(b.boxes[q])]) else b
  }

  ghost predicate IsBusRun(b: Bus, steps: seq<BusStep>, after: Bus)
    decreases steps
  {
    if steps == [] then after == b else BusEnabled(b, steps[0]) && IsBusRun(BusNext(b, steps[0]), steps[1..], after)
  }

  /** Where the subscription of `q` ends in the published sequence, so far. */
  function End(b: Bus, q: Sub): nat {
    if q in b.live then |b.s.published| else if q in b.until then b.until[q] else 0
  }

  /** The queue was offered exactly what was published while it was subscribed. */
  ghost predicate Follows(b: Bus, q: Sub)
    requires q in b.boxes
  {
    && q in b.since && b.since[q] <= End(b, q) <= |b.s.published|
    && b.boxes[q].offered == b.s.published[b.since[q]..End(b, q)]
    && BoxInv(b.boxes[q])
  }

  ghost predicate BusInv(b: Bus) {
    b.live <= b.boxes.Keys && forall q :: q in b.boxes ==> Follows(b, q)
  }

  lemma {:induction false} OfferAllMeaning(b: Box, es: seq<Event>)
    requires BoxInv(b)
    ensures BoxInv(OfferAll(b, es)) && OfferAll(b, es).offered == b.offered + es
    decreases es
  {
    hide BoxInv;
    if es == [] {
      assert b.offered + es == b.offered;
    } else {
      OfferKeepsInv(b, es[0]);
      OfferAllMeaning(Offer(b, es[0]), es[1..]);
      assert b.offered + [es[0]] + es[1..] == b.offered + es;
    }
  }

  lemma PublishedGrows(s: Sessions, step: Step)
    ensures Next(s, step).published == s.published + Publishes(s, step)
  {
    var none: seq<Event> := [];
    assert s.published + none == s.published;
  }

  lemma SessionFollows(b: Bus, t: Step, q: Sub)
    requires q in b.boxes && Follows(b, q)
    ensures Follows(BusNext(b, OfSession(t)), q)
  {
    hide BoxInv, Next, Publishes, Offer, OfferAll;
    PublishedGrows(b.s, t);
    var es := Publishes(b.s, t);
    OfferAllMeaning(b.boxes[q], es);
    Slices(b.s.published, es, b.since[q], End(b, q));
  }

  lemma Slices(a: seq<Event>, es: seq<Event>, from: nat, to: nat)
    requires from <= to <= |a|
    ensures (a + es)[from..to] == a[from..to]
    ensures to == |a| ==> (a + es)[from..|a + es|] == a[from..to] + es
  {
  }

  lemma StepFollows(b: Bus, step: BusStep, q: Sub)
    requires BusInv(b) && BusEnabled(b, step) && q in BusNext(b, step).boxes
    ensures Follows(BusNext(b, step), q)
  {
    hide BoxInv, Next, Publishes, Offer, OfferAll, Take;
    assert q in b.boxes ==> Follows(b, q);
    match step
    case OfSession(t) =>
      hide BusNext, Follows;
      SessionFollows(b, t, q);
    case Subscribe(p) =>
      EmptyBoxInv();
    case Unsubscribe(p) =>
    case TakeFrom(p) =>
      TakeKeepsInv(b.boxes[p]);
      TakeOffers(b.boxes[p]);
  }

  lemma TakeOffers(b: Box)
    ensures Take(b).offered == b.offered
  {
  }

  lemma EmptyBoxInv()
    ensures BoxInv(EMPTY)
  {
  }

  lemma {:induction false} BusRunKeepsInv(b: Bus, steps: seq<BusStep>, after: Bus)
    requires BusInv(b) && IsBusRun(b, steps, after)
    ensures BusInv(after)
    decreases steps
  {
    hide BusEnabled, Follows;
    if steps != [] {
      forall q | q in BusNext(b, steps[0]).boxes ensures Follows(BusNext(b, steps[0]), q) {
        StepFollows(b, steps[0], q);
      }
      BusRunKeepsInv(BusNext(b, steps[0]), steps[1..], after);
    }
  }

  function SessionSteps(steps: seq<BusStep>): seq<Step> {
    if steps == [] then []
    else (if steps[0].OfSession? then [steps[0].step] else []) + SessionSteps(steps[1..])
  }

  /** The sessions of a run of the bus go through a run of their own, so all that holds of those holds here. */
  lemma {:induction false} SessionsRun(b: Bus, steps: seq<BusStep>, after: Bus)
    requires IsBusRun(b, steps, after)
    ensures IsRun(b.s, SessionSteps(steps), after.s)
    decreases steps
  {
    hide Next, Enabled, Publishes, OfferAll;
    if steps != [] {
      SessionsRun(BusNext(b, steps[0]), steps[1..], after);
      var rest := SessionSteps(steps[1..]);
      if steps[0].OfSession? {
        Cons(b.s, steps[0].step, rest, after.s);
      } else {
        assert [] + rest == rest;
      }
    }
  }

  /** In every reachable state of sessions and subscribers a subscriber was offered exactly what has been
      published since it subscribed; what it took and what it has queued, at most 256 events, are an
      in-order subsequence of that, and all of it exactly when nothing was dropped. */
  lemma SubscriberSees(steps: seq<BusStep>, b: Bus, q: Sub)
    requires IsBusRun(SILENCE, steps, b) && q in b.live
    ensures q in b.boxes && q in b.since && b.since[q] <= |b.s.published|
    ensures b.s.published == Concat(b.s, b.s.flushes) && forall x :: x in b.s.flushes ==> x in b.s.commits
    ensures var box, seen := b.boxes[q], b.s.published[b.since[q]..];
            && box.offered == seen
            && |box.queued| <= 256
            && Subsequence(box.taken + box.queued, seen)
            && (box.taken + box.queued == seen <==> box.dropped == 0)
  {
    hide IsBusRun, IsRun, Concat;
    BusRunKeepsInv(SILENCE, steps, b);
    SessionsRun(SILENCE, steps, b);
    PublishedIsCommitted(SessionSteps(steps), b.s);
    assert Follows(b, q);
  }

  /** A subscription that is not taken off stays live, from where it began. */
  lemma {:induction false} StaysSubscribed(b: Bus, steps: seq<BusStep>, after: Bus, q: Sub)
    requires IsBusRun(b, steps, after) && q in b.live && q in b.boxes && q in b.since
    requires forall i :: 0 <= i < |steps| ==> steps[i] != Unsubscribe(q)
    ensures q in after.live && q in after.boxes && q in after.since && after.since[q] == b.since[q]
    decreases steps
  {
    hide Next, Enabled, Publishes, OfferAll, Take;
    if steps != [] {
      assert steps[0] != Unsubscribe(q);
      StaysSubscribed(BusNext(b, steps[0]), steps[1..], after, q);
    }
  }

  /** From its subscription on, and until it is taken off, a queue is offered everything that is
      published and nothing from before. */
  lemma SeesFromSubscription(before: seq<BusStep>, mid: Bus, q: Sub, later: seq<BusStep>, b: Bus)
    requires IsBusRun(SILENCE, before, mid) && q !in mid.boxes
    requires IsBusRun(BusNext(mid, Subscribe(q)), later, b)
    requires forall i :: 0 <= i < |later| ==> later[i] != Unsubscribe(q)
    ensures q in b.boxes && |mid.s.published| <= |b.s.published|
    ensures b.boxes[q].offered == b.s.published[|mid.s.published|..]
  {
    hide IsBusRun, IsRun, BoxInv;
    BusRunKeepsInv(SILENCE, before, mid);
    var next := BusNext(mid, Subscribe(q));
    forall p | p in next.boxes ensures Follows(next, p) {
      StepFollows(mid, Subscribe(q), p);
    }
    BusRunKeepsInv(next, later, b);
    StaysSubscribed(next, later, b, q);
    assert Follows(b, q);
  }

  /** And nothing once it has been taken off: its reader only empties it. */
  lemma {:induction false} NothingAfterUnsubscribe(b: Bus, steps: seq<BusStep>, after: Bus, q: Sub)
    requires q in b.boxes && IsBusRun(BusNext(b, Unsubscribe(q)), steps, after)
    ensures q in after.boxes && q !in after.live
    ensures after.boxes[q].offered == b.boxes[q].offered && after.boxes[q].dropped == b.boxes[q].dropped
    ensures after.boxes[q].taken + after.boxes[q].queued == b.boxes[q].taken + b.boxes[q].queued
  {
    StaysOff(BusNext(b, Unsubscribe(q)), steps, after, q);
  }

  lemma {:induction false} StaysOff(b: Bus, steps: seq<BusStep>, after: Bus, q: Sub)
    requires q in b.boxes && q !in b.live && IsBusRun(b, steps, after)
    ensures q in after.boxes && q !in after.live
    ensures after.boxes[q].offered == b.boxes[q].offered && after.boxes[q].dropped == b.boxes[q].dropped
    ensures after.boxes[q].taken + after.boxes[q].queued == b.boxes[q].taken + b.boxes[q].queued
    decreases steps
  {
    hide Next, Enabled, Publishes, OfferAll, Take;
    if steps != [] {
      TakeMoves(b.boxes[q]);
      StaysOff(BusNext(b, steps[0]), steps[1..], after, q);
    }
  }

  lemma TakeMoves(b: Box)
    ensures Take(b).offered == b.offered && Take(b).dropped == b.dropped
    ensures Take(b).taken + Take(b).queued == b.taken + b.queued
  {
    if b.queued != [] {
      assert b.taken + [b.queued[0]] + b.queued[1..] == b.taken + b.queued;
    }
  }

  /** What happens to one queue during a run, in order. */
  function BoxOps(b: Bus, steps: seq<BusStep>, q: Sub): seq<BoxOp>
    decreases steps
  {
    if steps == [] then []
    else
      (match steps[0]
       case OfSession(t) => if q in b.live then Offers(Publishes(b.s, t)) else []
       case TakeFrom(p) => if p == q then [Taken] else []
       case _ => [])
      + BoxOps(BusNext(b, steps[0]), steps[1..], q)
  }

  function Offers(es: seq<Event>): seq<BoxOp> {
    seq(|es|, i requires 0 <= i < |es| => Offered(es[i]))
  }

  lemma {:induction false} RunBoxConcat(b: Box, x: seq<BoxOp>, y: seq<BoxOp>)
    ensures RunBox(b, x + y) == RunBox(RunBox(b, x), y)
    decreases x
  {
    if x == [] {
      assert x + y == y;
    } else {
      assert (x + y)[0] == x[0] && (x + y)[1..] == x[1..] + y;
      RunBoxConcat(match x[0] case Offered(e) => Offer(b, e) case Taken => Take(b), x[1..], y);
    }
  }

  lemma {:induction false} RunOffers(b: Box, es: seq<Event>)
    ensures RunBox(b, Offers(es)) == OfferAll(b, es)
    decreases es
  {
    if es != [] {
      assert Offers(es)[0] == Offered(es[0]) && Offers(es)[1..] == Offers(es[1..]);
      RunOffers(Offer(b, es[0]), es[1..]);
    }
  }

  /** A queue goes through exactly its own offers and takes; with `BoxSees` this says when it is full. */
  lemma {:induction false} BoxRunsByItself(b: Bus, steps: seq<BusStep>, after: Bus, q: Sub)
    requires IsBusRun(b, steps, after) && q in b.boxes
    ensures q in after.boxes && after.boxes[q] == RunBox(b.boxes[q], BoxOps(b, steps, q))
    decreases steps
  {
    hide Next, Publishes, Offer, Take, Offers;
    if steps != [] {
      var step, next := steps[0], BusNext(b, steps[0]);
      var rest := BoxOps(next, steps[1..], q);
      BoxRunsByItself(next, steps[1..], after, q);
      var first: seq<BoxOp> := match step
        case OfSession(t) => if q in b.live then Offers(Publishes(b.s, t)) else []
        case TakeFrom(p) => if p == q then [Taken] else []
        case _ => [];
      RunBoxConcat(b.boxes[q], first, rest);
      if step.OfSession? && q in b.live {
        RunOffers(b.boxes[q], Publishes(b.s, step.step));
      }
      if step == TakeFrom(q) {
        assert [Taken][1..] == [];
        assert RunBox(b.boxes[q], [Taken]) == RunBox(Take(b.boxes[q]), []);
      }
    }
  }

  /** The run without what subscriber `p` does. */
  function Without(steps: seq<BusStep>, p: Sub): seq<BusStep> {
    if steps == [] then []
    else (if !steps[0].OfSession? && steps[0].q == p then [] else [steps[0]]) + Without(steps[1..], p)
  }

  /** The two states differ at most in what belongs to `p`. */
  ghost predicate SameBut(b: Bus, c: Bus, p: Sub) {
    && b.s == c.s
    && (forall q :: q != p ==> (q in b.boxes <==> q in c.boxes) && (q in b.live <==> q in c.live))
    && (forall q :: q != p && q in b.boxes ==> b.boxes[q] == c.boxes[q])
  }

  lemma SameButStep(b: Bus, c: Bus, step: BusStep, p: Sub)
    requires SameBut(b, c, p) && BusEnabled(b, step) && (step.OfSession? || step.q != p)
    ensures BusEnabled(c, step) && SameBut(BusNext(b, step), BusNext(c, step), p)
  {
    hide Next, Enabled, Publishes, Offer, Take, OfferAll;
  }

  lemma SameButSkip(b: Bus, c: Bus, step: BusStep, p: Sub)
    requires SameBut(b, c, p) && !step.OfSession? && step.q == p
    ensures SameBut(BusNext(b, step), c, p)
  {
    hide Next, Enabled, Publishes, Offer, Take, OfferAll;
  }

  /** No subscriber affects another: taking one out of a run, whether its queue was full or not, leaves
      sessions, publication and every other queue as they were. */
  lemma {:induction false} OthersDoNotMatter(b: Bus, c: Bus, steps: seq<BusStep>, after: Bus, p: Sub)
    returns (after': Bus)
    requires IsBusRun(b, steps, after) && SameBut(b, c, p)
    ensures IsBusRun(c, Without(steps, p), after') && SameBut(after, after', p)
    decreases steps
  {
    hide BusNext, BusEnabled, SameBut;
    if steps == [] {
      after' := c;
    } else {
      var step, rest := steps[0], Without(steps[1..], p);
      if !step.OfSession? && step.q == p {
        SameButSkip(b, c, step, p);
        after' := OthersDoNotMatter(BusNext(b, step), c, steps[1..], after, p);
        assert [] + rest == rest;
      } else {
        SameButStep(b, c, step, p);
        after' := OthersDoNotMatter(BusNext(b, step), BusNext(c, step), steps[1..], after, p);
        assert ([step] + rest)[1..] == rest;
      }
    }
  }

  // ---------------------------------------------------------------------------------------
  // The bus object
  // ---------------------------------------------------------------------------------------

  class Mailbox {
    var queued: seq<Event>
    ghost var taken: seq<Event>
    ghost var offered: seq<Event>
    ghost var dropped: nat

    constructor ()
      ensures Contents() == EMPTY
    {
      queued, taken, offered, dropped := [], [], [], 0;
    }

    ghost function Contents(): Box
      reads this
    {
      Box(queued, taken, offered, dropped)
    }

    method PutNowait(e: Event)
      modifies this
      ensures Contents() == Offer(old(Contents()), e)
      ensures queued == if |old(queued)| < 256 then old(queued) + [e] else old(queued)
    {
      offered := offered + [e];
      if |queued| < QUEUE_MAX {
        queued := queued + [e];
      } else {
        dropped := dropped + 1;
      }
    }

    method Get() returns (e: Option<Event>)
      modifies this
      ensures Contents() == Take(old(Contents()))
      ensures old(queued) == [] ==> e == None && queued == []
      ensures old(queued) != [] ==> e == Some(old(queued)[0]) && queued == old(queued)[1..]
    {
      if queued == [] {
        return None;
      }
      e := Some(queued[0]);
      taken := taken + [queued[0]];
      queued := queued[1..];
    }
  }

  class Hub {
    var subscribers: set<Mailbox>
    var staged: map<Session, seq<Event>>
    ghost var sessions: Sessions

    ghost predicate Valid()
      reads this
    {
      Inv(sessions) && staged == sessions.staged
    }

    constructor ()
      ensures Valid() && subscribers == {} && sessions == START
    {
      subscribers, staged, sessions := {}, map[], START;
      new;
      StartInv();
    }

    method Subscribe() returns (q: Mailbox)
      requires Valid()
      modifies this`subscribers
      ensures Valid() && fresh(q) && q.Contents() == EMPTY && subscribers == old(subscribers) + {q}
    {
      q := new Mailbox();
      subscribers := subscribers + {q};
    }

    method Unsubscribe(q: Mailbox)
      requires Valid()
      modifies this`subscribers
      ensures Valid() && subscribers == old(subscribers) - {q}
    {
      subscribers := subscribers - {q};
    }

    /** Every subscriber is offered the event on its own: what one's queue holds, full or not, makes no
        difference to the others. */
    method Publish(e: Event)
      modifies subscribers
      ensures forall q :: q in subscribers ==> q.Contents() == Offer(old(q.Contents()), e)
      ensures forall q :: q in subscribers ==>
                q.queued == if |old(q.queued)| < 256 then old(q.queued) + [e] else old(q.queued)
    {
      var rest := subscribers;
      while rest != {}
        invariant rest <= subscribers
        invariant forall q :: q in rest ==> q.Contents() == old(q.Contents())
        invariant forall q :: q in subscribers && q !in rest ==> q.Contents() == Offer(old(q.Contents()), e)
        invariant forall q :: q in subscribers && q !in rest ==>
                    q.queued == if |old(q.queued)| < 256 then old(q.queued) + [e] else old(q.queued)
        decreases rest
      {
        var q :| q in rest;
        rest := rest - {q};
        q.PutNowait(e);
      }
    }

    method StageEvent(x: Session, e: Event)
      requires Valid() && Enabled(sessions, Stage(x, e))
      modifies this
      ensures Valid() && subscribers == old(subscribers)
      ensures sessions == Next(old(sessions), Stage(x, e))
      ensures staged == old(staged)[x := (if x in old(staged) then old(staged)[x] else []) + [e]]
    {
      StepKeepsInv(sessions, Stage(x, e));
      staged := staged[x := (if x in staged then staged[x] else []) + [e]];
      sessions := Next(sessions, Stage(x, e));
    }

    /** The caller's commit succeeded. */
    ghost method CommitSession(x: Session)
      requires Valid() && Enabled(sessions, Commit(x))
      modifies this`sessions
      ensures Valid() && sessions == Next(old(sessions), Commit(x))
    {
      StepKeepsInv(sessions, Commit(x));
      sessions := Next(sessions, Commit(x));
    }

    method FlushSessionEvents(x: Session) returns (n: nat)
      requires Valid() && Enabled(sessions, Flush(x))
      modifies this, subscribers
      ensures Valid() && subscribers == old(subscribers)
      ensures sessions == Next(old(sessions), Flush(x))
      ensures n == |HistoryOf(old(sessions), x)| == if x in old(staged) then |old(staged)[x]| else 0
      ensures staged == old(staged) - {x}
      ensures forall q :: q in subscribers ==> q.Contents() == OfferAll(old(q.Contents()), HistoryOf(old(sessions), x))
    {
      hide Concat, OfferAll, Distinct, Offer;
      StepKeepsInv(sessions, Flush(x));
      var pending := if x in staged then staged[x] else [];
      assert pending == HistoryOf(sessions, x);
      staged := staged - {x};
      sessions := Next(sessions, Flush(x));
      PublishAll(pending);
      n := |pending|;
    }

    method PublishAll(es: seq<Event>)
      modifies subscribers
      ensures forall q :: q in subscribers ==> q.Contents() == OfferAll(old(q.Contents()), es)
    {
      hide Offer, OfferAll;
      NoOffers();
      assert es[..0] == [];
      for i := 0 to |es|
        invariant forall q :: q in subscribers ==> q.Contents() == OfferAll(old(q.Contents()), es[..i])
      {
        label Before:
        Publish(es[i]);
        assert es[..i + 1] == es[..i] + [es[i]];
        forall q | q in subscribers ensures q.Contents() == OfferAll(old(q.Contents()), es[..i + 1]) {
          OfferAllLast(old(q.Contents()), es[..i], es[i]);
        }
      }
      assert es[..|es|] == es;
    }

    /** Rollback path. */
    method DiscardSessionEvents(x: Session)
      requires Valid() && Enabled(sessions, Rollback(x))
      modifies this
      ensures Valid() && subscribers == old(subscribers)
      ensures sessions == Next(old(sessions), Rollback(x)) && staged == old(staged) - {x}
    {
      StepKeepsInv(sessions, Rollback(x));
      staged := staged - {x};
      sessions := Next(sessions, Rollback(x));
    }
  }

  lemma NoOffers()
    ensures forall b :: OfferAll(b, []) == b
  {
  }

  lemma StartInv()
    ensures Inv(START)
  {
  }

  lemma {:induction false} OfferAllLast(b: Box, es: seq<Event>, e: Event)
    ensures OfferAll(b, es + [e]) == Offer(OfferAll(b, es), e)
    decreases es
  {
    if es == [] {
      assert (es + [e])[1..] == [];
    } else {
      assert (es + [e])[1..] == es[1..] + [e];
      OfferAllLast(Offer(b, es[0]), es[1..], e);
    }
  }
}
