/** How many side effects interleaved workers leave behind: what a sole worker's drain would owe. */
module WorkerTotals {
  import opened AgentRuns
  import opened Prelude
  import opened QueueWorkers
  import opened RunAccounting

  function CostOf(es: seq<Effect>): Cost {
    if es == [] then Cost(0, 0, 0)
    else
      Plus(
        match es[0] {
          case Post(_, _, _) => Cost(1, 0, 0)
          case Notify(_) => Cost(0, 1, 0)
          case Learn(_, _, _) => Cost(0, 0, 1)
        },
        CostOf(es[1..]))
  }

  lemma {:induction false} CostConcat(a: seq<Effect>, b: seq<Effect>)
    ensures CostOf(a + b) == Plus(CostOf(a), CostOf(b))
    decreases a
  {
    if a == [] {
      assert a + b == b;
    } else {
      assert (a + b)[1..] == a[1..] + b;
      CostConcat(a[1..], b);
    }
  }

  lemma {:induction false} CostOfNotices(es: seq<Effect>)
    requires OnlyNotices(es)
    ensures CostOf(es) == Cost(0, |es|, 0)
    decreases es
  {
    if es != [] {
      CostOfNotices(es[1..]);
    }
  }

  lemma {:induction false} CostOfLessons(es: seq<Effect>)
    requires forall i :: 0 <= i < |es| ==> es[i].Learn?
    ensures CostOf(es) == Cost(0, 0, |es|)
    decreases es
  {
    if es != [] {
      CostOfLessons(es[1..]);
    }
  }

  lemma CostOfParts(post: Effect, notices: seq<Effect>, learns: seq<Effect>, failsAfter: Option<nat>)
    requires post.Post? && OnlyNotices(notices) && forall i :: 0 <= i < |learns| ==> learns[i].Learn?
    ensures var n, l := |notices|, |learns|;
            CostOf(Reached([post] + notices + learns, failsAfter)) ==
              if failsAfter.None? then Cost(1, n, l)
              else
                var k := failsAfter.value;
                Cost(Min(k, 1), if k == 0 then 0 else Min(k - 1, n),
                                   if k < 1 + n then 0 else Min(k - 1 - n, l))
  {
    hide CostOf;
    assert [post] + notices + learns == [post] + (notices + learns);
    ReachedConcat([post], notices + learns, failsAfter);
    CostOfNone(post);
    if failsAfter != Some(0) {
      var left := if failsAfter.Some? then Some(failsAfter.value - 1) else None;
      var rest := if failsAfter.Some? && failsAfter.value > |notices| then Some(failsAfter.value - 1 - |notices|)
                  else None;
      ReachedConcat(notices, learns, left);
      CostConcat([post], Reached(notices + learns, left));
      CostConcat(notices, Reached(learns, rest));
      CostOfNotices(notices);
      CostOfNotices(Reached(notices, left));
      CostOfLessons(Reached(learns, rest));
    }
  }

  lemma CostOfNone(post: Effect)
    requires post.Post?
    ensures CostOf([]) == Cost(0, 0, 0) && CostOf([post]) == Cost(1, 0, 0)
  {
    assert [post][1..] == [];
  }

  /** How many comments, notifications and lessons a turn writes: what the run owes, cut off where a
      write fails. */
  lemma WritesOwed(world: World, runs: map<Id, Run>, id: Id, run: Run, turn: Turn)
    ensures CostOf(Writes(world, id, run, turn)) == Added(world.env, Tables(world, runs), run, turn)
  {
    hide BodyToPost, LessonOf, Responded, Invoked;
    if turn.outcome.Success? {
      NoticesCount(world.env, Tables(world, runs), run, turn.comment);
      hide Notices, CostOf, Reached;
      var post := Post(turn.comment, Comment(run.ticket, run.agent, true, BodyToPost(world.env, run, turn.outcome)),
                       id);
      CostOfParts(post, Notices(world.env, world.origins, run, turn.comment),
                  Learns(world.env, id, run, turn.outcome.lessons), turn.failsAfter);
    } else {
      assert CostOf([]) == Cost(0, 0, 0);
    }
  }

  function Tables(world: World, runs: map<Id, Run>): Db { Db(runs, world.origins, [], map[]) }

  function Requests(s: State): map<Id, Run> {
    map id | id in s.committed :: s.committed[id].request
  }

  /** `q` lists the finished rows, each once. */
  ghost predicate ListsFinished(s: State, q: seq<Id>) {
    && (forall i, j :: 0 <= i < j < |q| ==> q[i] != q[j])
    && (forall id :: id in q <==> id in s.committed && s.committed[id].turn.Some?)
  }

  function Turns(s: State, q: seq<Id>): seq<Turn>
    requires forall i :: 0 <= i < |q| ==> q[i] in s.committed && s.committed[q[i]].turn.Some?
  {
    seq(|q|, i requires 0 <= i < |q| => s.committed[q[i]].turn.value)
  }

  function TotalWritten(s: State, q: seq<Id>): Cost {
    if q == [] then Cost(0, 0, 0)
    else Plus(CostOf(WrittenFor(s.written, q[0])), TotalWritten(s, q[1..]))
  }

  /** In every reachable state of any number of workers the comments, notifications and lessons there are
      number exactly what the finished rows owe, read off the rows as they were enqueued: the sum of
      a sole worker's drain. */
  lemma InterleavedTotals(world: World, steps: seq<Step>, s: State, q: seq<Id>)
    requires IsRun(Init(world), steps, s) && ListsFinished(s, q)
    ensures forall id :: id !in q ==> WrittenFor(s.written, id) == []
    ensures forall i :: 0 <= i < |q| ==> q[i] in s.committed && s.committed[q[i]].turn.Some?
    ensures TotalWritten(s, q) == TotalAdded(world.env, Tables(world, Requests(s)), q, Turns(s, q))
  {
    hide IsRun, Writes, Finished, WrittenFor;
    forall id ensures id !in q ==> WrittenFor(s.written, id) == [] {
      SideEffectsOfOneTurn(world, steps, s, id);
    }
    forall i | 0 <= i < |q| ensures q[i] in s.committed && s.committed[q[i]].turn.Some? {
      assert q[i] in q;
    }
    SumOverFinished(world, steps, s, q);
  }

  lemma {:induction false} SumOverFinished(world: World, steps: seq<Step>, s: State, q: seq<Id>)
    requires IsRun(Init(world), steps, s)
    requires forall i :: 0 <= i < |q| ==> q[i] in s.committed && s.committed[q[i]].turn.Some?
    ensures TotalWritten(s, q) == TotalAdded(world.env, Tables(world, Requests(s)), q, Turns(s, q))
    decreases q
  {
    hide IsRun, Writes, Finished, WrittenFor, Added, CostOf;
    if q != [] {
      SumOverFinished(world, steps, s, q[1..]);
      SideEffectsOfOneTurn(world, steps, s, q[0]);
      var row := s.committed[q[0]];
      WritesOwed(world, Requests(s), q[0], row.request, row.turn.value);
      assert Turns(s, q)[1..] == Turns(s, q[1..]);
    }
  }
}
