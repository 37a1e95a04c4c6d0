/** What runs of the queue add up to: first in, first out, and exact side-effect totals. */
module RunAccounting {
  import opened Prelude
  import opened AgentRuns
  import opened RunQueue

  // ---------------------------------------------------------------------------------------
  // First in, first out
  // ---------------------------------------------------------------------------------------

  /** The reference queue: exactly the pending rows, by (enqueued_at, id). */
  ghost predicate IsQueue(runs: map<Id, Run>, q: seq<Id>) {
    && (forall i :: 0 <= i < |q| ==> IsPending(runs, q[i]))
    && (forall i, j :: 0 <= i < j < |q| ==> Before(runs, q[i], q[j]))
    && (forall r :: IsPending(runs, r) ==> r in q)
  }

  /** The reference queue restricted to the ids in `s`. */
  ghost predicate Lists(runs: map<Id, Run>, s: set<Id>, q: seq<Id>)
    requires s <= runs.Keys
  {
    && (forall i :: 0 <= i < |q| ==> q[i] in s)
    && (forall i, j :: 0 <= i < j < |q| ==> Before(runs, q[i], q[j]))
    && (forall r :: r in s ==> r in q)
  }

  lemma {:induction false} Listing(runs: map<Id, Run>, s: set<Id>) returns (q: seq<Id>)
    requires s <= runs.Keys
    ensures Lists(runs, s, q)
    decreases s
  {
    q := [];
    if s != {} {
      var first := FirstOf(runs, s);
      var rest := Listing(runs, s - {first});
      q := [first] + rest;
      forall i, j | 0 <= i < j < |q| ensures Before(runs, q[i], q[j]) {
        assert q[j] == rest[j - 1] && (i > 0 ==> q[i] == rest[i - 1]);
      }
      forall r | r in s ensures r in q {
        assert r == first || r in rest;
      }
    }
  }

  lemma {:induction false} FirstOf(runs: map<Id, Run>, s: set<Id>) returns (first: Id)
    requires s <= runs.Keys && s != {}
    ensures first in s && forall o :: o in s && o != first ==> Before(runs, first, o)
    decreases s
  {
    var some :| some in s;
    var rest := s - {some};
    first := some;
    if rest != {} {
      var other := FirstOf(runs, rest);
      if Before(runs, other, some) {
        first := other;
      }
      assert forall o :: o in s ==> o == some || o in rest;
    } else {
      assert s == {some};
    }
  }

  /** Every table has its reference queue. */
  lemma EveryTableHasAQueue(runs: map<Id, Run>) returns (q: seq<Id>)
    ensures IsQueue(runs, q)
  {
    var s := set r | r in runs && runs[r].status == Pending;
    q := Listing(runs, s);
  }

  /** A sequence of calls by one worker, each with its own turn and result. */
  ghost predicate Calls(env: Env, db: Db, turns: seq<Turn>, claimed: seq<Option<Id>>, after: Db)
    decreases turns
  {
    && |claimed| == |turns|
    && if turns == [] then after == db
       else exists mid :: Called(env, db, turns[0], claimed[0], mid) && Calls(env, mid, turns[1..], claimed[1..], after)
  }

  lemma HeadIsPending(runs: map<Id, Run>, q: seq<Id>)
    requires IsQueue(runs, q)
    ensures q != [] ==> IsPending(runs, q[0])
  {
  }

  lemma HeadIsOldest(runs: map<Id, Run>, q: seq<Id>, claimed: Option<Id>)
    requires IsQueue(runs, q)
    requires claimed.None? ==> forall r :: !IsPending(runs, r)
    requires claimed.Some? ==> IsOldest(runs, claimed.value)
    ensures claimed == if q == [] then None else Some(q[0])
  {
    HeadIsPending(runs, q);
    if claimed.Some? {
      var i :| 0 <= i < |q| && q[i] == claimed.value;
      assert i > 0 ==> Before(runs, q[0], q[i]);
    }
  }

  lemma RestIsQueue(runs: map<Id, Run>, q: seq<Id>, after: map<Id, Run>)
    requires IsQueue(runs, q) && q != []
    requires q[0] in after && after == runs[q[0] := after[q[0]]] && after[q[0]].status != Pending
    ensures IsQueue(after, q[1..])
  {
    forall i | 0 <= i < |q| - 1 ensures IsPending(after, q[1..][i]) {
      assert Before(runs, q[0], q[i + 1]);
    }
    forall r | IsPending(after, r) ensures r in q[1..] {
      assert IsPending(runs, r);
      var i :| 0 <= i < |q| && q[i] == r;
      assert q[1..][i - 1] == r;
    }
  }

  lemma ArrivalGoesLast(runs: map<Id, Run>, q: seq<Id>, id: Id, run: Run)
    requires IsQueue(runs, q) && id !in runs && run.status == Pending
    requires forall i :: 0 <= i < |q| ==> Before(runs[id := run], q[i], id)
    ensures IsQueue(runs[id := run], q + [id])
  {
    var after, q' := runs[id := run], q + [id];
    forall r | IsPending(after, r) ensures r in q' {
      if r != id {
        assert IsPending(runs, r);
      }
    }
    forall i, j | 0 <= i < j < |q'| ensures Before(after, q'[i], q'[j]) {
      assert i < |q| && q'[i] == q[i];
      assert j < |q| ==> Before(runs, q[i], q[j]);
    }
  }

  lemma CallStep(env: Env, db: Db, q: seq<Id>, turn: Turn, claimed: Option<Id>, after: Db)
    requires Valid(env, db) && IsQueue(db.runs, q) && Called(env, db, turn, claimed, after)
    ensures Valid(env, after)
    ensures claimed == if q == [] then None else Some(q[0])
    ensures q == [] ==> after == db
    ensures q != [] ==> q[0] in db.runs && after == Processed(env, db, q[0], turn)
                        && IsQueue(after.runs, q[1..]) && RowSettled(db, after, q[0], turn)
  {
    hide Valid, Processed, IsQueue;
    HeadIsOldest(db.runs, q, claimed);
    if q != [] {
      ProcessedRow(env, db, q[0], turn);
      ProcessedValid(env, db, q[0], turn);
      RestIsQueue(db.runs, q, after.runs);
    }
  }

  /** k calls process exactly the first k pending rows, oldest first, and leave the rest queued. */
  lemma {:induction false} FirstInFirstOut(env: Env, db: Db, q: seq<Id>, turns: seq<Turn>, claimed: seq<Option<Id>>,
                                           after: Db)
    requires Valid(env, db) && IsQueue(db.runs, q) && Calls(env, db, turns, claimed, after)
    ensures Valid(env, after)
    ensures forall i :: 0 <= i < |claimed| ==> claimed[i] == if i < |q| then Some(q[i]) else None
    ensures IsQueue(after.runs, q[Min(|turns|, |q|)..])
    decreases turns
  {
    hide Valid, IsQueue, Called, RowSettled, Processed;
    if turns == [] {
      assert q[0..] == q;
    } else {
      var mid :| Called(env, db, turns[0], claimed[0], mid) && Calls(env, mid, turns[1..], claimed[1..], after);
      CallStep(env, db, q, turns[0], claimed[0], mid);
      var rest := if q == [] then [] else q[1..];
      FirstInFirstOut(env, mid, rest, turns[1..], claimed[1..], after);
      assert rest[Min(|turns| - 1, |rest|)..] == q[Min(|turns|, |q|)..];
      forall i | 0 <= i < |claimed| ensures claimed[i] == if i < |q| then Some(q[i]) else None {
        if i > 0 { assert claimed[i] == claimed[1..][i - 1]; }
      }
    }
  }

  /** The rows a drain claims are pending when it starts, and come by (enqueued_at, id). */
  lemma ClaimedByAge(env: Env, db: Db, q: seq<Id>, turns: seq<Turn>, claimed: seq<Option<Id>>, after: Db, i: nat,
                     j: nat)
    requires Valid(env, db) && IsQueue(db.runs, q) && Calls(env, db, turns, claimed, after)
    requires i < j < |claimed| && claimed[j].Some?
    ensures claimed[i].Some? && claimed[i].value in db.runs && claimed[j].value in db.runs
    ensures var a, b := db.runs[claimed[i].value], db.runs[claimed[j].value];
            && a.status == Pending && b.status == Pending
            && (a.enqueuedAt < b.enqueuedAt || (a.enqueuedAt == b.enqueuedAt && claimed[i].value < claimed[j].value))
    ensures forall r :: r in db.runs && db.runs[r].status == Pending && Some(r) !in claimed ==>
              || db.runs[claimed[j].value].enqueuedAt < db.runs[r].enqueuedAt
              || (db.runs[claimed[j].value].enqueuedAt == db.runs[r].enqueuedAt && claimed[j].value < r)
  {
    hide Valid, Calls;
    FirstInFirstOut(env, db, q, turns, claimed, after);
    assert Before(db.runs, q[i], q[j]);
    forall k | 0 <= k < |q| && k < |claimed| ensures Some(q[k]) in claimed {
      assert claimed[k] == Some(q[k]);
    }
    forall r | r in db.runs && db.runs[r].status == Pending && Some(r) !in claimed ensures Before(db.runs, q[j], r) {
      assert IsPending(db.runs, r);
      var k :| 0 <= k < |q| && q[k] == r;
      assert k > j;
    }
  }

  // ---------------------------------------------------------------------------------------
  // Side-effect accounting
  // ---------------------------------------------------------------------------------------

  datatype Cost = Cost(comments: nat, notifications: nat, lessons: nat)

  function Plus(a: Cost, b: Cost): Cost {
    Cost(a.comments + b.comments, a.notifications + b.notifications, a.lessons + b.lessons)
  }

  function Sizes(db: Db): Cost { Cost(|db.comments|, |db.notifications|, |db.lessons|) }

  /** Notifications a run owes: none without a known owner, otherwise one for the answer and one more
      when somebody other than the owner wrote the comment that started it. */
  function NoticesOwed(env: Env, db: Db, run: Run): nat {
    if run.agent !in env.owners then 0
    else if run.comment.Some? && run.comment.value in db.comments
            && db.comments[run.comment.value].author != env.owners[run.agent]
    then 2 else 1
  }

  function LessonsOwed(env: Env, run: Run, outcome: Outcome): nat
    requires outcome.Success?
  {
    if run.ticket in env.tickets then |outcome.lessons| else 0
  }

  /** What one turn adds: the writes come in the order comment, notifications, lessons, and a failure
      cuts them off. */
  function Added(env: Env, db: Db, run: Run, turn: Turn): Cost {
    if !turn.outcome.Success? then Cost(0, 0, 0)
    else
      var n, l := NoticesOwed(env, db, run), LessonsOwed(env, run, turn.outcome);
      if turn.failsAfter.None? then Cost(1, n, l)
      else
        var k := turn.failsAfter.value;
        Cost(Min(k, 1), if k == 0 then 0 else Min(k - 1, n), if k < 1 + n then 0 else Min(k - 1 - n, l))
  }

  lemma NoticesCount(env: Env, db: Db, run: Run, comment: Id)
    ensures OnlyNotices(Notices(env, db.comments, run, comment))
    ensures |Notices(env, db.comments, run, comment)| == NoticesOwed(env, db, run)
  {
  }

  /** A successful run whose side effects do not fail: one agent comment, to which the row points;
      one `agent_responded` to a known owner, and one `agent_invoked_in_comment` exactly when the
      originating author is somebody else; lessons 0..n-1 of this run when the project is known. */
  lemma SideEffectsOfARun(env: Env, db: Db, id: Id, turn: Turn)
    requires Valid(env, db) && IsPending(db.runs, id) && turn.comment !in db.comments
    requires turn.outcome.Success? && turn.failsAfter.None?
    ensures var run, after := db.runs[id], Processed(env, db, id, turn);
            var comment := Comment(run.ticket, run.agent, true, BodyToPost(env, run, turn.outcome));
            && after.comments == db.comments[turn.comment := comment]
            && id in after.runs && after.runs[id].comment == Some(turn.comment)
            && after.notifications == db.notifications
                 + (if run.agent !in env.owners then []
                    else
                      var owner := env.owners[run.agent];
                      [Responded(env, run, owner, turn.comment)]
                      + match Outsider(db.comments, run, owner)
                        case None => []
                        case Some(author) => [Invoked(env, run, owner, author, run.comment.value, turn.comment)])
            && Learned(db.lessons, Learns(env, id, run, turn.outcome.lessons), id, after.lessons)
            && |Learns(env, id, run, turn.outcome.lessons)| == LessonsOwed(env, run, turn.outcome)
  {
    hide BodyToPost, LessonOf, ApplyAll, Learned, Keyed, UniqueKeys, Linked, Responded, Invoked, NotificationsIn;
    var run := db.runs[id];
    var answered := db.(runs := db.runs[id := Answered(run, turn)]);
    var post := Post(turn.comment, Comment(run.ticket, run.agent, true, BodyToPost(env, run, turn.outcome)), id);
    var notices, learns := Notices(env, db.comments, run, turn.comment), Learns(env, id, run, turn.outcome.lessons);
    EffectsInFull(answered, post, notices, learns, id);
    NoticesListed(env, db.comments, run, turn.comment);
  }

  /** Who is told what: the owner, if there is one, that the agent has responded; and the owner again, when
      somebody else wrote the comment the run was started from, that this person invoked the agent. */
  lemma WhoIsNotified(env: Env, db: Db, id: Id, turn: Turn)
    requires Valid(env, db) && IsPending(db.runs, id) && turn.comment !in db.comments
    requires turn.outcome.Success? && turn.failsAfter.None?
    ensures var run, before, after := db.runs[id], db.notifications, Processed(env, db, id, turn).notifications;
            && before <= after
            && var told := after[|before|..];
               && (run.comment.Some? ==> run.comment.value in db.comments)
               && |told| == (if run.agent !in env.owners then 0
                             else if run.comment.Some? && db.comments[run.comment.value].author != env.owners[run.agent]
                             then 2 else 1)
               && (|told| >= 1 ==>
                     && told[0].kind == AgentResponded
                     && told[0].recipient == env.owners[run.agent]
                     && told[0].actorIsAgent && told[0].actor == run.agent
                     && told[0].comment == turn.comment && told[0].excerpt == None)
               && (|told| == 2 ==>
                     && told[1].kind == AgentInvokedInComment
                     && told[1].recipient == env.owners[run.agent]
                     && !told[1].actorIsAgent && told[1].actor == db.comments[run.comment.value].author
                     && told[1].comment == run.comment.value
                     && told[1].excerpt == Some("response_comment_id:" + env.uuid(turn.comment)))
               && forall i :: 0 <= i < |told| ==>
                    && told[i].ticket == run.ticket
                    && told[i].display == if run.ticket in env.tickets then Some(env.tickets[run.ticket].display)
                       else None
  {
    hide Processed, Learned, Learns, BodyToPost, LessonsOwed, Keyed, UniqueKeys, LessonsOfDone;
    SideEffectsOfARun(env, db, id, turn);
  }

  /** `"\n- " + location` for each location. */
  function BulletText(locations: seq<string>): string {
    if locations == [] then "" else "\n- " + locations[0] + BulletText(locations[1..])
  }

  /** The comment a run posts: by the agent, on the ticket, under the new id, and structured exactly when the
      provider gave a summary and the agent has a handle and the ticket a display id. */
  lemma WhatIsPosted(env: Env, db: Db, id: Id, turn: Turn)
    requires Valid(env, db) && IsPending(db.runs, id) && turn.comment !in db.comments
    requires turn.outcome.Success? && turn.failsAfter.None?
    ensures var run, after, said := db.runs[id], Processed(env, db, id, turn), turn.outcome;
            && after.comments.Keys == db.comments.Keys + {turn.comment}
            && (forall c :: c in db.comments ==> after.comments[c] == db.comments[c])
            && id in after.runs && after.runs[id].comment == Some(turn.comment)
            && var posted := after.comments[turn.comment];
               && posted.ticket == run.ticket && posted.author == run.agent && posted.byAgent
               && posted.body ==
                  if && said.summary.Some? && said.summary.value != ""
                     && run.agent in env.handles && env.handles[run.agent] != ""
                     && run.ticket in env.tickets && env.tickets[run.ticket].display != ""
                  then "@" + env.handles[run.agent] + " finished on " + env.tickets[run.ticket].display
                       + "\n\n**Summary**: " + said.summary.value + "\n\n**Details**: " + said.body
                       + if said.locations == [] then "" else "\n\n**Locations**:" + BulletText(said.locations)
                  else said.body
  {
    hide Processed, Learned, Learns, LessonsOwed, Keyed, UniqueKeys, LessonsOfDone, Responded, Invoked, Outsider,
      BodyToPost, BulletText;
    SideEffectsOfARun(env, db, id, turn);
    BodyInFull(env, db.runs[id], turn.outcome);
  }

  lemma BodyInFull(env: Env, run: Run, said: Outcome)
    requires said.Success?
    ensures BodyToPost(env, run, said) ==
            if && said.summary.Some? && said.summary.value != ""
               && run.agent in env.handles && env.handles[run.agent] != ""
               && run.ticket in env.tickets && env.tickets[run.ticket].display != ""
            then "@" + env.handles[run.agent] + " finished on " + env.tickets[run.ticket].display
                 + "\n\n**Summary**: " + said.summary.value + "\n\n**Details**: " + said.body
                 + if said.locations == [] then "" else "\n\n**Locations**:" + BulletText(said.locations)
            else said.body
  {
    hide FormatStructured, BulletText;
    if && said.summary.Some? && said.summary.value != ""
       && run.agent in env.handles && env.handles[run.agent] != ""
       && run.ticket in env.tickets && env.tickets[run.ticket].display != ""
    {
      StructuredText(env.handles[run.agent], env.tickets[run.ticket].display, said.summary.value, said.body,
                     said.locations);
    }
  }

  lemma StructuredText(handle: string, display: string, summary: string, details: string, locations: seq<string>)
    ensures FormatStructured(handle, display, summary, details, locations) ==
            "@" + handle + " finished on " + display + "\n\n**Summary**: " + summary + "\n\n**Details**: " + details
            + if locations == [] then "" else "\n\n**Locations**:" + BulletText(locations)
  {
    hide Join, Bullets, BulletText;
    var headline, sum, det := "@" + handle + " finished on " + display, "**Summary**: " + summary,
      "**Details**: " + details;
    var five := [headline, "", sum, "", det];
    JoinFive(five);
    Spaced(headline, summary, details);
    if locations == [] {
      assert StructuredParts(handle, display, summary, details, locations) == five;
    } else {
      var tail := ["", "**Locations**:"] + Bullets(locations);
      assert StructuredParts(handle, display, summary, details, locations) == five + tail;
      BulletsLength(locations);
      JoinAppend(five, tail);
      LocationsText(locations);
      Regroup(Join(five), Join(tail), locations);
    }
  }

  lemma Spaced(headline: string, summary: string, details: string)
    ensures headline + "\n" + "" + "\n" + ("**Summary**: " + summary) + "\n" + "" + "\n" + ("**Details**: " + details)
            == headline + "\n\n**Summary**: " + summary + "\n\n**Details**: " + details
  {
    assert headline + "\n" + "" + "\n" + ("**Summary**: " + summary) == headline + "\n\n**Summary**: " + summary;
    var a := headline + "\n\n**Summary**: " + summary;
    assert a + "\n" + "" + "\n" + ("**Details**: " + details) == a + "\n\n**Details**: " + details;
  }

  lemma Regroup(a: string, tail: string, locations: seq<string>)
    requires "\n" + tail == "\n\n**Locations**:" + BulletText(locations)
    ensures a + "\n" + tail == a + ("\n\n**Locations**:" + BulletText(locations))
  {
    hide BulletText;
    assert a + "\n" + tail == a + ("\n" + tail);
  }

  lemma LocationsText(locations: seq<string>)
    requires locations != []
    ensures "\n" + Join(["", "**Locations**:"] + Bullets(locations)) == "\n\n**Locations**:" + BulletText(locations)
  {
    hide Join, Bullets, BulletText;
    assert Bullets(locations) != [] by { BulletsLength(locations); }
    JoinAppend(["", "**Locations**:"], Bullets(locations));
    JoinTwo("", "**Locations**:");
    JoinBullets(locations);
    var b := Join(Bullets(locations));
    assert "\n" + ("" + "\n" + "**Locations**:" + "\n" + b) == "\n\n**Locations**:" + ("\n" + b);
  }

  lemma BulletsLength(locations: seq<string>)
    ensures |Bullets(locations)| == |locations|
  {
  }

  lemma JoinTwo(a: string, b: string)
    ensures Join([a, b]) == a + "\n" + b
  {
    assert [a, b][1..] == [b];
  }

  lemma JoinFive(p: seq<string>)
    requires |p| == 5
    ensures Join(p) == p[0] + "\n" + p[1] + "\n" + p[2] + "\n" + p[3] + "\n" + p[4]
  {
    assert p[1..][1..] == p[2..] && p[2..][1..] == p[3..] && p[3..][1..] == p[4..] && p[4..] == [p[4]];
    assert Join(p[4..]) == p[4];
    assert Join(p[3..]) == p[3] + "\n" + p[4];
    assert Join(p[2..]) == p[2] + "\n" + (p[3] + "\n" + p[4]);
    assert Join(p[1..]) == p[1] + "\n" + (p[2] + "\n" + (p[3] + "\n" + p[4]));
  }

  lemma {:induction false} JoinAppend(a: seq<string>, b: seq<string>)
    requires a != [] && b != []
    ensures Join(a + b) == Join(a) + "\n" + Join(b)
  {
    if |a| == 1 {
      assert (a + b)[1..] == b;
    } else {
      assert (a + b)[1..] == a[1..] + b;
      JoinAppend(a[1..], b);
      assert a[0] + "\n" + (Join(a[1..]) + "\n" + Join(b)) == a[0] + "\n" + Join(a[1..]) + "\n" + Join(b);
    }
  }

  lemma {:induction false} JoinBullets(locations: seq<string>)
    requires locations != []
    ensures "\n" + Join(Bullets(locations)) == BulletText(locations)
  {
    if |locations| == 1 {
      assert BulletText(locations[1..]) == "";
    } else {
      assert Bullets(locations)[1..] == Bullets(locations[1..]);
      JoinBullets(locations[1..]);
      assert "\n" + ("- " + locations[0] + "\n" + Join(Bullets(locations[1..])))
             == "\n- " + locations[0] + ("\n" + Join(Bullets(locations[1..])));
    }
  }

  /** The lessons a run leaves: with its project known, one for each text emitted, under the index of the text,
      by the agent, and split at its first newline; otherwise none. */
  lemma WhatIsLearned(env: Env, db: Db, id: Id, turn: Turn)
    requires Valid(env, db) && IsPending(db.runs, id) && turn.comment !in db.comments
    requires turn.outcome.Success? && turn.failsAfter.None?
    ensures var run, after, texts := db.runs[id], Processed(env, db, id, turn).lessons, turn.outcome.lessons;
            && (forall k :: k in db.lessons ==> k in after && after[k] == db.lessons[k])
            && (run.ticket !in env.tickets ==> after == db.lessons)
            && (run.ticket in env.tickets ==>
                  && (forall k :: k in after && k !in db.lessons ==> k.0 == id && k.1 < |texts|)
                  && forall i: nat :: i < |texts| ==>
                       && (id, i) in after
                       && var lesson := after[(id, i)];
                          && lesson.project == env.tickets[run.ticket].project && lesson.agent == run.agent
                          && '\n' !in lesson.title
                          && if '\n' in texts[i] then texts[i] == lesson.title + "\n" + lesson.body
                             else lesson.title == texts[i] && lesson.body == "")
  {
    hide Processed, BodyToPost, LessonsOwed, Keyed, UniqueKeys, LessonsOfDone, Responded, Invoked, Outsider,
      SplitLesson;
    SideEffectsOfARun(env, db, id, turn);
    var run, after, texts := db.runs[id], Processed(env, db, id, turn).lessons, turn.outcome.lessons;
    assert OnlyLessons(Learns(env, id, run, texts), id);
    NothingLearned(db.lessons, Learns(env, id, run, texts), id, after);
    forall i: nat | i < |texts| && run.ticket in env.tickets
      ensures (id, i) in after && after[(id, i)] == LessonOf(env.tickets[run.ticket].project, run.agent, texts[i])
    {
      assert Learns(env, id, run, texts)[i].lesson == LessonOf(env.tickets[run.ticket].project, run.agent, texts[i]);
    }
  }

  lemma NothingLearned(before: map<(Id, nat), Lesson>, es: seq<Effect>, id: Id, after: map<(Id, nat), Lesson>)
    requires OnlyLessons(es, id) && Learned(before, es, id, after)
    ensures es == [] ==> after == before
  {
  }

  lemma NoticesListed(env: Env, comments: map<Id, Comment>, run: Run, comment: Id)
    ensures NotificationsIn(Notices(env, comments, run, comment)) ==
            if run.agent !in env.owners then []
            else
              var owner := env.owners[run.agent];
              [Responded(env, run, owner, comment)]
              + match Outsider(comments, run, owner)
                case None => []
                case Some(author) => [Invoked(env, run, owner, author, run.comment.value, comment)]
  {
    hide Responded, Invoked;
    TwoNotices(Notices(env, comments, run, comment));
  }

  lemma EffectsInFull(db: Db, post: Effect, notices: seq<Effect>, learns: seq<Effect>, id: Id)
    requires post.Post? && post.run == id && id in db.runs && OnlyNotices(notices) && OnlyLessons(learns, id)
    requires forall k :: k in db.lessons ==> k.0 != id
    ensures var after := ApplyAll(db, [post] + notices + learns);
            && after.runs == db.runs[id := db.runs[id].(comment := Some(post.id))]
            && after.comments == db.comments[post.id := post.comment]
            && after.notifications == db.notifications + NotificationsIn(notices)
            && Learned(db.lessons, learns, id, after.lessons)
  {
    hide ApplyAll, Learned;
    ReachedParts(db, post, notices, learns, None);
    ApplyNotices(Apply(db, post), notices);
    ApplyLessons(ApplyAll(Apply(db, post), notices), learns, id);
  }

  lemma TwoNotices(es: seq<Effect>)
    requires OnlyNotices(es) && |es| <= 2
    ensures NotificationsIn(es)
            == match |es| case 0 => [] case 1 => [es[0].notification] case _ => [es[0].notification, es[1].notification]
  {
    if |es| == 2 {
      assert es[1..][1..] == [];
    }
  }

  /** Every processed row adds exactly what its turn owes, a failed one the writes it got to. */
  lemma RunAdds(env: Env, db: Db, id: Id, turn: Turn)
    requires Valid(env, db) && IsPending(db.runs, id) && turn.comment !in db.comments
    ensures Sizes(Processed(env, db, id, turn)) == Plus(Sizes(db), Added(env, db, db.runs[id], turn))
  {
    hide BodyToPost, LessonOf, ApplyAll, Learned, Keyed, UniqueKeys, Linked, Notices, NoticesOwed, Answered, Closed;
    if turn.outcome.Success? {
      var run := db.runs[id];
      var answered := db.(runs := db.runs[id := Answered(run, turn)]);
      var post := Post(turn.comment, Comment(run.ticket, run.agent, true, BodyToPost(env, run, turn.outcome)), id);
      var notices, learns := Notices(env, db.comments, run, turn.comment), Learns(env, id, run, turn.outcome.lessons);
      NoticesCount(env, db, run, turn.comment);
      PartsAdd(answered, post, notices, learns, turn.failsAfter, id);
    }
  }

  lemma LearnedCount(before: map<(Id, nat), Lesson>, es: seq<Effect>, id: Id, after: map<(Id, nat), Lesson>)
    requires OnlyLessons(es, id) && Learned(before, es, id, after)
    ensures |after| == |before| + |es|
  {
  }

  lemma PartsAdd(db: Db, post: Effect, notices: seq<Effect>, learns: seq<Effect>, failsAfter: Option<nat>, id: Id)
    requires post.Post? && post.id !in db.comments && OnlyNotices(notices) && OnlyLessons(learns, id)
    requires forall k :: k in db.lessons ==> k.0 != id
    ensures var n, l, after := |notices|, |learns|, ApplyAll(db, Reached([post] + notices + learns, failsAfter));
            Sizes(after) == Plus(Sizes(db),
              if failsAfter.None? then Cost(1, n, l)
              else
                var k := failsAfter.value;
                Cost(Min(k, 1), if k == 0 then 0 else Min(k - 1, n), if k < 1 + n then 0 else Min(k - 1 - n, l)))
  {
    hide ApplyAll, Learned;
    ReachedParts(db, post, notices, learns, failsAfter);
    if failsAfter != Some(0) {
      var posted := Apply(db, post);
      assert |posted.comments| == |db.comments| + 1;
      var left := if failsAfter.Some? then Some(failsAfter.value - 1) else None;
      ApplyNotices(posted, Reached(notices, left));
      if left.None? || left.value >= |notices| {
        var rest := Reached(learns, if left.Some? then Some(left.value - |notices|) else None);
        var noticed := ApplyAll(posted, notices);
        ApplyLessons(noticed, rest, id);
        LearnedCount(noticed.lessons, rest, id, ApplyAll(noticed, rest).lessons);
      }
    }
  }

  /** The sum of what the processed rows owe, each read off the table before the drain. */
  function TotalAdded(env: Env, db: Db, q: seq<Id>, turns: seq<Turn>): Cost
    requires forall i :: 0 <= i < |q| ==> q[i] in db.runs
  {
    if q == [] || turns == [] then Cost(0, 0, 0)
    else Plus(Added(env, db, db.runs[q[0]], turns[0]), TotalAdded(env, db, q[1..], turns[1..]))
  }

  lemma OwesTheSame(env: Env, db: Db, after: Db, id: Id, turn: Turn, other: Id, later: Turn)
    requires id in db.runs && RowSettled(db, after, id, turn) && Linked(db)
    requires other in db.runs && other != id
    ensures other in after.runs && after.runs[other] == db.runs[other]
    ensures Added(env, after, db.runs[other], later) == Added(env, db, db.runs[other], later)
  {
    hide Settled, LessonsOwed;
    assert Outsider(after.comments, db.runs[other], 0) == Outsider(db.comments, db.runs[other], 0);
  }

  /** Processing one row changes nothing about what the others owe. */
  lemma {:induction false} OthersUnchanged(env: Env, db: Db, after: Db, id: Id, turn: Turn, q: seq<Id>,
                                           turns: seq<Turn>)
    requires id in db.runs && RowSettled(db, after, id, turn) && Linked(db)
    requires forall i :: 0 <= i < |q| ==> q[i] in db.runs && q[i] != id
    ensures forall i :: 0 <= i < |q| ==> q[i] in after.runs
    ensures TotalAdded(env, after, q, turns) == TotalAdded(env, db, q, turns)
    decreases q
  {
    hide RowSettled, Linked, Added;
    forall i | 0 <= i < |q| ensures q[i] in after.runs {
      OwesTheSame(env, db, after, id, turn, q[i], turn);
    }
    if q != [] && turns != [] {
      OthersUnchanged(env, db, after, id, turn, q[1..], turns[1..]);
      OwesTheSame(env, db, after, id, turn, q[0], turns[0]);
    }
  }

  /** Over a whole drain, whatever the answers and wherever side effects failed, the tables grow by
      exactly the sum of what the processed rows owe. */
  lemma {:induction false} DrainTotals(env: Env, db: Db, q: seq<Id>, turns: seq<Turn>, claimed: seq<Option<Id>>,
                                       after: Db)
    requires Valid(env, db) && IsQueue(db.runs, q) && Calls(env, db, turns, claimed, after)
    ensures forall i :: 0 <= i < |q| ==> q[i] in db.runs
    ensures Sizes(after) == Plus(Sizes(db), TotalAdded(env, db, q, turns))
    decreases turns
  {
    hide Valid, Called, Processed, Added, Sizes;
    assert forall i :: 0 <= i < |q| ==> IsPending(db.runs, q[i]);
    if turns != [] {
      var mid :| Called(env, db, turns[0], claimed[0], mid) && Calls(env, mid, turns[1..], claimed[1..], after);
      CallStep(env, db, q, turns[0], claimed[0], mid);
      if q == [] {
        DrainTotals(env, mid, q, turns[1..], claimed[1..], after);
      } else {
        DrainTotals(env, mid, q[1..], turns[1..], claimed[1..], after);
        CalledFresh(env, db, turns[0], claimed[0], mid);
        RunAdds(env, db, q[0], turns[0]);
        forall i | 0 <= i < |q[1..]| ensures q[1..][i] in db.runs && q[1..][i] != q[0] {
          assert Before(db.runs, q[0], q[i + 1]);
        }
        OthersUnchanged(env, db, mid, q[0], turns[0], q[1..], turns[1..]);
      }
    }
  }

  lemma CalledFresh(env: Env, db: Db, turn: Turn, claimed: Option<Id>, after: Db)
    requires Valid(env, db) && Called(env, db, turn, claimed, after)
    ensures turn.comment !in db.comments && Linked(db)
  {
  }
}
