/** The queue object over the `agent_run` table: dedup on enqueue, and one claimed row per call. */
module RunQueue {
  import opened Prelude
  import opened AgentRuns

  /** Every effect belongs to run `id`, and a comment it posts has the given id. */
  ghost predicate About(es: seq<Effect>, id: Id, posted: Id) {
    forall i :: 0 <= i < |es| ==>
      match es[i]
      case Post(c, _, run) => run == id && c == posted
      case Notify(_) => true
      case Learn(run, _, _) => run == id
  }

  /** Nothing but the comment link of run `id` differs. */
  ghost predicate OnlyLinkChanged(before: map<Id, Run>, after: map<Id, Run>, id: Id)
    requires id in before
  {
    && id in after
    && after == before[id := after[id]]
    && after[id] == before[id].(comment := after[id].comment)
  }

  /** What a list of effects of one run may change at all. */
  ghost predicate Contained(db: Db, after: Db, id: Id, posted: Id)
    requires id in db.runs
  {
    && OnlyLinkChanged(db.runs, after.runs, id)
    && (after.runs[id].comment == db.runs[id].comment
        || (after.runs[id].comment.Some? && after.runs[id].comment.value in after.comments))
    && (forall c :: c in db.comments && c != posted ==> c in after.comments && after.comments[c] == db.comments[c])
    && (forall c :: c in after.comments ==> c in db.comments || c == posted)
    && (forall k :: k in after.lessons ==> k in db.lessons || k.0 == id)
  }

  lemma {:induction false} ApplyContained(db: Db, es: seq<Effect>, id: Id, posted: Id)
    requires id in db.runs && About(es, id, posted)
    ensures Contained(db, ApplyAll(db, es), id, posted)
    decreases es
  {
    if es != [] {
      var n := |es| - 1;
      assert es == es[..n] + [es[n]];
      ApplyContained(db, es[..n], id, posted);
      ApplyLast(db, es[..n], es[n]);
      hide ApplyAll;
    }
  }

  lemma EffectsAbout(env: Env, comments: map<Id, Comment>, id: Id, run: Run, turn: Turn)
    requires turn.outcome.Success?
    ensures About(Reached(Effects(env, comments, id, run, turn), turn.failsAfter), id, turn.comment)
  {
    hide BodyToPost, LessonOf, Responded, Invoked;
    assert About(Notices(env, comments, run, turn.comment), id, turn.comment);
    assert About(Learns(env, id, run, turn.outcome.lessons), id, turn.comment);
    assert About(Effects(env, comments, id, run, turn), id, turn.comment);
  }

  ghost predicate Settled(before: Run, after: Run, turn: Turn) {
    && after == before.(status := after.status, comment := after.comment, response := after.response,
                        error := after.error,
                        startedAt := Some(turn.started), finishedAt := Some(turn.finished))
    && after.status == (if turn.outcome.Success? then Done else Error)
    && after.response == (if turn.outcome.Success? then Some(turn.outcome.body) else before.response)
    && (turn.outcome.Raises? ==> after.error == Some(turn.outcome.message))
    && (turn.outcome.Failed? ==>
          var reason := turn.outcome.reason;
          after.error == if reason in {None, Some("")} then Some("provider returned status=error") else reason)
    && (turn.outcome.Success? && before.error.Some? ==> after.error == before.error)
    && (turn.outcome.Success? && before.error.None? ==>
          after.error == if turn.failsAfter.Some? then Some("side-effects failed: " + turn.failure) else None)
  }

  /** A processed row keeps its identity and its place in the table and ends `done` or `error`; every
      other row, comment and lesson stays as it was. */
  ghost predicate RowSettled(db: Db, after: Db, id: Id, turn: Turn)
    requires id in db.runs
  {
    && id in after.runs
    && after.runs == db.runs[id := after.runs[id]]
    && Settled(db.runs[id], after.runs[id], turn)
    && (forall c :: c in db.comments ==> c in after.comments && after.comments[c] == db.comments[c])
    && (forall c :: c in after.comments ==> c in db.comments || c == turn.comment)
    && (forall k :: k in after.lessons ==> k in db.lessons || (k.0 == id && after.runs[id].status == Done))
    && (after.runs[id].comment == db.runs[id].comment
        || (after.runs[id].comment.Some? && after.runs[id].comment.value in after.comments))
  }

  lemma ProcessedRow(env: Env, db: Db, id: Id, turn: Turn)
    requires id in db.runs && turn.comment !in db.comments
    ensures RowSettled(db, Processed(env, db, id, turn), id, turn)
  {
    hide ApplyAll, Effects, About, Reached;
    if turn.outcome.Success? {
      EffectsAbout(env, db.comments, id, db.runs[id], turn);
      var answered := db.(runs := db.runs[id := Answered(db.runs[id], turn)]);
      ApplyContained(answered, Reached(Effects(env, db.comments, id, db.runs[id], turn), turn.failsAfter), id,
                     turn.comment);
    }
  }

  lemma ProcessedValid(env: Env, db: Db, id: Id, turn: Turn)
    requires Valid(env, db) && id in db.runs && turn.comment !in db.comments && db.runs[id].status != Done
    ensures Valid(env, Processed(env, db, id, turn))
  {
    hide Processed, KeyOf;
    ProcessedRow(env, db, id, turn);
  }

  /** One call of `process_one`: nothing when no row is pending, otherwise the oldest pending row is
      processed. */
  ghost predicate Called(env: Env, db: Db, turn: Turn, claimed: Option<Id>, after: Db) {
    && turn.comment !in db.comments
    && (claimed.None? ==> after == db && forall r :: !IsPending(db.runs, r))
    && (claimed.Some? ==> IsOldest(db.runs, claimed.value) && after == Processed(env, db, claimed.value, turn))
  }

  lemma KeyText(env: Env, agent: Id, ticket: Id, prompt: string)
    ensures KeyOf(env, agent, ticket, prompt) == env.digest(env.uuid(agent) + ":" + env.uuid(ticket) + ":" + prompt)
  {
  }

  lemma SameEffects(env: Env, comments: map<Id, Comment>, id: Id, run: Run, run': Run, turn: Turn)
    requires turn.outcome.Success?
    requires run'.agent == run.agent && run'.ticket == run.ticket && run'.comment == run.comment
    ensures Effects(env, comments, id, run, turn) == Effects(env, comments, id, run', turn)
  {
    assert Learns(env, id, run, turn.outcome.lessons) == Learns(env, id, run', turn.outcome.lessons);
    hide Learns;
  }

  lemma SameNotices(env: Env, comments: map<Id, Comment>, run: Run, id: Id, comment: Comment)
    requires id !in comments && (run.comment.Some? ==> run.comment.value in comments)
    ensures Notices(env, comments[id := comment], run, id) == Notices(env, comments, run, id)
  {
  }

  lemma ApplyFew(db: Db, a: Effect, b: Effect)
    ensures ApplyAll(db, [a]) == Apply(db, a)
    ensures ApplyAll(db, [a, b]) == Apply(Apply(db, a), b)
  {
    assert [a][1..] == [] && [a, b][1..] == [b] && [b][1..] == [];
    hide Apply;
    assert ApplyAll(db, [a]) == ApplyAll(Apply(db, a), []);
    assert ApplyAll(db, [a, b]) == ApplyAll(Apply(db, a), [b]) == ApplyAll(Apply(Apply(db, a), b), []);
  }

  class Queue {
    const env: Env
    var runs: map<Id, Run>
    var comments: map<Id, Comment>
    var notifications: seq<Notification>
    var lessons: map<(Id, nat), Lesson>

    constructor (env: Env)
      ensures this.env == env && Contents() == Db(map[], map[], [], map[])
      ensures Valid(env, Contents())
    {
      this.env := env;
      runs, comments, notifications, lessons := map[], map[], [], map[];
    }

    function Contents(): Db
      reads this
    {
      Db(runs, comments, notifications, lessons)
    }

    /** The id of the row that carries the key, or a new pending row. `newId` and `now` are what the
        database assigns. */
    method Enqueue(agent: Id, ticket: Id, comment: Option<Id>, prompt: string, newId: Id, now: int) returns (id: Id)
      requires Valid(env, Contents())
      requires newId !in runs && (comment.Some? ==> comment.value in comments)
      modifies this`runs
      ensures Valid(env, Contents())
      ensures (exists r :: r in old(runs) && old(runs)[r].key == KeyOf(env, agent, ticket, prompt)) ==>
                runs == old(runs) && id in runs && runs[id].key == KeyOf(env, agent, ticket, prompt)
      ensures KeyOf(env, agent, ticket, prompt) == env.digest(env.uuid(agent) + ":" + env.uuid(ticket) + ":" + prompt)
      ensures (forall r :: r in old(runs) ==> old(runs)[r].key != KeyOf(env, agent, ticket, prompt)) ==>
                && id == newId
                && runs == old(runs)[newId :=
                                     Run(agent, ticket, comment, Pending, prompt, KeyOf(env, agent, ticket, prompt),
                                         now, None, None, None, None)]
    {
      KeyText(env, agent, ticket, prompt);
      hide KeyOf;
      var key := KeyOf(env, agent, ticket, prompt);
      if r :| r in runs && runs[r].key == key {
        return r;
      }
      runs := runs[newId := Run(agent, ticket, comment, Pending, prompt, key, now, None, None, None, None)];
      id := newId;
    }

    /** Claims the oldest pending row, runs the provider, records the result. */
    method ProcessOne(turn: Turn) returns (claimed: Option<Id>)
      requires Valid(env, Contents()) && turn.comment !in comments
      modifies this
      ensures Valid(env, Contents())
      ensures Called(env, old(Contents()), turn, claimed, Contents())
    {
      hide Keyed, UniqueKeys, LessonsOfDone, Processed;
      claimed := Oldest();
      if claimed.Some? {
        ProcessedValid(env, Contents(), claimed.value, turn);
        Process(claimed.value, turn);
      }
    }

    /** `SELECT ... WHERE status = 'pending' ORDER BY enqueued_at, id LIMIT 1`. */
    method Oldest() returns (r: Option<Id>)
      ensures r.None? ==> forall o :: o in runs ==> runs[o].status != Pending
      ensures r.Some? ==>
        && r.value in runs && runs[r.value].status == Pending
        && forall o :: o in runs && runs[o].status == Pending && o != r.value ==>
             || runs[r.value].enqueuedAt < runs[o].enqueuedAt
             || (runs[r.value].enqueuedAt == runs[o].enqueuedAt && r.value < o)
    {
      r := None;
      var rest := set o | o in runs && runs[o].status == Pending;
      while rest != {}
        invariant forall o :: o in rest ==> o in runs && runs[o].status == Pending
        invariant r.Some? ==> IsPending(runs, r.value) && r.value !in rest
        invariant forall o :: IsPending(runs, o) && o !in rest ==> r.Some? && (o == r.value || Before(runs, r.value, o))
        decreases rest
      {
        var o :| o in rest;
        rest := rest - {o};
        if r.None? || Before(runs, o, r.value) {
          r := Some(o);
        }
      }
      forall o | o in runs && runs[o].status == Pending
        ensures r.Some? && (o == r.value || Before(runs, r.value, o))
      {
        assert IsPending(runs, o);
      }
    }

    method Process(id: Id, turn: Turn)
      requires id in runs && turn.comment !in comments
      requires runs[id].comment.Some? ==> runs[id].comment.value in comments
      modifies this
      ensures Contents() == Processed(env, old(Contents()), id, turn)
    {
      hide ApplyAll, Effects, Reached, Apply;
      ghost var answered := runs[id := Answered(runs[id], turn)];
      runs := runs[id := runs[id].(status := Running, startedAt := Some(turn.started))];
      match turn.outcome {
        case Raises(message) =>
          runs := runs[id := runs[id].(status := Error, error := Some(message))];
          assert runs == answered;
        case Failed(reason) =>
          var text := if reason.Some? && reason.value != "" then reason.value else "provider returned status=error";
          runs := runs[id := runs[id].(status := Error, error := Some(text))];
          assert runs == answered;
        case Success(body, _, _, _) =>
          runs := runs[id := runs[id].(status := Done, response := Some(body))];
          assert runs == answered;
          SameEffects(env, comments, id, old(runs)[id], runs[id], turn);
          var raised := EmitSideEffects(id, turn);
          ghost var closed := runs[id := Closed(runs[id], turn)];
          if raised {
            var failure := if runs[id].error.None? then Some("side-effects failed: " + turn.failure)
                           else runs[id].error;
            runs := runs[id := runs[id].(error := failure)];
          }
          assert runs[id := runs[id].(finishedAt := Some(turn.finished))] == closed;
      }
      runs := runs[id := runs[id].(finishedAt := Some(turn.finished))];
    }

    /** The body of the inner `try`: comment, notifications, lessons. */
    method EmitSideEffects(id: Id, turn: Turn) returns (raised: bool)
      requires id in runs && turn.comment !in comments && turn.outcome.Success?
      requires runs[id].comment.Some? ==> runs[id].comment.value in comments
      modifies this
      ensures raised == turn.failsAfter.Some?
      ensures id in runs
      ensures Contents() == ApplyAll(old(Contents()),
                                     Reached(Effects(env, old(comments), id, old(runs)[id], turn), turn.failsAfter))
    {
      hide ApplyAll, Notices, Learns, BodyToPost;
      var run := runs[id];
      raised := turn.failsAfter.Some?;
      ghost var db := Contents();
      ghost var post := Post(turn.comment, Comment(run.ticket, run.agent, true, BodyToPost(env, run, turn.outcome)),
                             id);
      ghost var notices := Notices(env, comments, run, turn.comment);
      ghost var learns := Learns(env, id, run, turn.outcome.lessons);
      ReachedParts(db, post, notices, learns, turn.failsAfter);
      if turn.failsAfter == Some(0) {
        return;
      }
      var left := if raised then Some(turn.failsAfter.value - 1) else None;
      SameNotices(env, comments, run, turn.comment, post.comment);
      comments := comments[turn.comment := Comment(run.ticket, run.agent, true, BodyToPost(env, run, turn.outcome))];
      runs := runs[id := runs[id].(comment := Some(turn.comment))];
      assert Contents() == Apply(db, post);
      var stopped, writes := NotifyOwner(run, turn.comment, left);
      if stopped {
        return;
      }
      assert Contents() == ApplyAll(Apply(db, post), notices);
      left := if raised then Some(left.value - writes) else None;
      EmitLessons(id, run, turn.outcome.lessons, left);
    }

    method NotifyOwner(run: Run, comment: Id, left: Option<nat>) returns (stopped: bool, writes: nat)
      requires comment in comments
               && (run.comment.Some? ==> run.comment.value in comments && run.comment.value != comment)
      modifies this`notifications
      ensures Contents() == ApplyAll(old(Contents()), Reached(Notices(env, comments, run, comment), left))
      ensures !stopped ==> writes == |Notices(env, comments, run, comment)|
      ensures stopped == (left.Some? && left.value < |Notices(env, comments, run, comment)|)
    {
      stopped, writes := false, 0;
      ghost var db := Contents();
      if run.agent !in env.owners {
        return;
      }
      var owner := env.owners[run.agent];
      if left == Some(0) {
        return true, 0;
      }
      ghost var first := Notify(Responded(env, run, owner, comment));
      ApplyFew(db, first, first);
      notifications := notifications + [Responded(env, run, owner, comment)];
      writes := 1;
      if run.comment.Some? {
        var author := comments[run.comment.value].author;
        if author != owner {
          if left == Some(1) {
            return true, 1;
          }
          ApplyFew(db, first, Notify(Invoked(env, run, owner, author, run.comment.value, comment)));
          notifications := notifications + [Invoked(env, run, owner, author, run.comment.value, comment)];
          writes := 2;
        }
      }
    }

    method EmitLessons(id: Id, run: Run, emitted: seq<string>, left: Option<nat>)
      modifies this`lessons
      ensures Contents() == ApplyAll(old(Contents()), Reached(Learns(env, id, run, emitted), left))
    {
      hide ApplyAll, LessonOf;
      NoEffects(Contents());
      if run.ticket !in env.tickets {
        return;
      }
      ghost var db := Contents();
      ghost var es := Learns(env, id, run, emitted);
      var project := env.tickets[run.ticket].project;
      var i := 0;
      while i < |emitted|
        invariant 0 <= i <= |emitted|
        invariant left.Some? ==> i <= left.value
        invariant Contents() == ApplyAll(db, es[..i])
      {
        if left == Some(i) {
          return;
        }
        ApplyLast(db, es[..i], es[i]);
        assert es[..i + 1] == es[..i] + [es[i]];
        RecordAgentLesson(id, i, LessonOf(project, run.agent, emitted[i]));
        i := i + 1;
      }
      assert es[..i] == es;
    }

    /** `INSERT ... ON CONFLICT (agent_run_id, lesson_index) DO NOTHING`. */
    method RecordAgentLesson(id: Id, index: nat, lesson: Lesson)
      modifies this`lessons
      ensures Contents() == Apply(old(Contents()), Learn(id, index, lesson))
    {
      if (id, index) !in lessons {
        lessons := lessons[(id, index) := lesson];
      }
    }
  }

  lemma NoEffects(db: Db)
    ensures ApplyAll(db, []) == db
  {
  }

  lemma ReachedParts(db: Db, post: Effect, notices: seq<Effect>, learns: seq<Effect>, failsAfter: Option<nat>)
    ensures var left := if failsAfter.Some? then failsAfter.value - 1 else 0;
            var all := Reached([post] + notices + learns, failsAfter);
            ApplyAll(db, all) ==
            if failsAfter == Some(0) then db
            else if failsAfter.None? then ApplyAll(ApplyAll(Apply(db, post), notices), learns)
            else if left < |notices| then ApplyAll(Apply(db, post), Reached(notices, Some(left)))
            else ApplyAll(ApplyAll(Apply(db, post), notices), Reached(learns, Some(left - |notices|)))
  {
    var all := Reached([post] + notices + learns, failsAfter);
    assert [post] + notices + learns == [post] + (notices + learns);
    ReachedConcat([post], notices + learns, failsAfter);
    if failsAfter == Some(0) {
      assert all == [];
    } else {
      var left := if failsAfter.Some? then Some(failsAfter.value - 1) else None;
      ReachedConcat(notices, learns, left);
      assert all == [post] + Reached(notices + learns, left);
      var rest := if left.Some? && left.value >= |notices| then Some(left.value - |notices|) else None;
      ApplyConcat(Apply(db, post), notices, Reached(learns, rest));
      assert ApplyAll(db, all) == ApplyAll(Apply(db, post), all[1..]);
    }
  }
}
