/** The `agent_run` table, what a finished run leaves behind, and the queue as one pure step. */
module AgentRuns {
  import opened Prelude

  type Id = nat

  datatype Status = Pending | Running | Done | Error

  datatype Run = Run(
    agent: Id,
    ticket: Id,
    comment: Option<Id>,
    status: Status,
    prompt: string,
    key: string,
    enqueuedAt: int,
    startedAt: Option<int>,
    finishedAt: Option<int>,
    response: Option<string>,
    error: Option<string>)

  datatype Comment = Comment(ticket: Id, author: Id, byAgent: bool, body: string)

  datatype Kind = AgentResponded | AgentInvokedInComment

  datatype Notification = Notification(
    kind: Kind,
    recipient: Id,
    actorIsAgent: bool,
    actor: Id,
    ticket: Id,
    display: Option<string>,
    comment: Id,
    excerpt: Option<string>)

  datatype Lesson = Lesson(project: Id, agent: Id, title: string, body: string)

  datatype Db = Db(
    runs: map<Id, Run>,
    comments: map<Id, Comment>,
    notifications: seq<Notification>,
    lessons: map<(Id, nat), Lesson>)

  datatype Ticket = Ticket(display: string, project: Id)

  /** What the queue only reads (agents' owners and handles, tickets), and the two functions the
      model takes as given: printing a UUID and the key digest. */
  datatype Env = Env(
    owners: map<Id, Id>,
    handles: map<Id, string>,
    tickets: map<Id, Ticket>,
    uuid: Id -> string,
    digest: string -> string)

  /** How the provider call ended. */
  datatype Outcome =
    | Raises(message: string)
    | Failed(reason: Option<string>)
    | Success(body: string, summary: Option<string>, locations: seq<string>, lessons: seq<string>)

  /** What one call of `process_one` meets: the provider's outcome, the id the new comment gets, the
      clock at start and end, and, when the side effects raise, after how many of their writes and with
      what message. */
  datatype Turn = Turn(outcome: Outcome, comment: Id, started: int, finished: int, failsAfter: Option<nat>,
                       failure: string)

  // ---------------------------------------------------------------------------------------
  // Keys
  // ---------------------------------------------------------------------------------------

  function RawKey(env: Env, agent: Id, ticket: Id, prompt: string): string {
    env.uuid(agent) + ":" + env.uuid(ticket) + ":" + prompt
  }

  function KeyOf(env: Env, agent: Id, ticket: Id, prompt: string): string {
    env.digest(RawKey(env, agent, ticket, prompt))
  }

  /** Printed UUIDs identify the UUID and hold no colon. */
  ghost predicate LawfulUuids(env: Env) {
    && (forall i :: ':' !in env.uuid(i))
    && (forall i, j :: env.uuid(i) == env.uuid(j) ==> i == j)
  }

  lemma SplitAtColon(a: string, x: string, b: string, y: string)
    requires ':' !in a && ':' !in b && a + ":" + x == b + ":" + y
    ensures a == b && x == y
  {
    var s := a + ":" + x;
    forall i | 0 <= i < |a| ensures s[i] != ':' { assert s[i] == a[i]; }
    forall i | 0 <= i < |b| ensures s[i] != ':' { assert s[i] == b[i]; }
    assert s[|a|] == ':' && s[|b|] == ':';
    assert a == s[..|a|] && b == s[..|b|];
    assert x == s[|a| + 1..] && y == s[|b| + 1..];
  }

  /** The string that is digested determines agent, ticket and prompt, whatever the prompt holds. */
  lemma RawKeyInjective(env: Env, agent: Id, ticket: Id, prompt: string, agent': Id, ticket': Id, prompt': string)
    requires LawfulUuids(env)
    requires RawKey(env, agent, ticket, prompt) == RawKey(env, agent', ticket', prompt')
    ensures agent == agent' && ticket == ticket' && prompt == prompt'
  {
    var x, x' := env.uuid(ticket) + ":" + prompt, env.uuid(ticket') + ":" + prompt';
    assert RawKey(env, agent, ticket, prompt) == env.uuid(agent) + ":" + x;
    assert RawKey(env, agent', ticket', prompt') == env.uuid(agent') + ":" + x';
    SplitAtColon(env.uuid(agent), x, env.uuid(agent'), x');
    SplitAtColon(env.uuid(ticket), prompt, env.uuid(ticket'), prompt');
  }

  ghost predicate CollisionFree(env: Env) {
    forall s: string, t: string :: env.digest(s) == env.digest(t) ==> s == t
  }

  // ---------------------------------------------------------------------------------------
  // Side effects of a successful run
  // ---------------------------------------------------------------------------------------

  datatype Effect =
    | Post(id: Id, comment: Comment, run: Id)
    | Notify(notification: Notification)
    | Learn(run: Id, index: nat, lesson: Lesson)

  /** One write: a comment together with the link from the run, a notification, or a lesson that an
      existing one with the same run and index keeps out. */
  function Apply(db: Db, e: Effect): Db {
    match e
    case Post(id, comment, run) =>
      db.(comments := db.comments[id := comment],
          runs := if run in db.runs then db.runs[run := db.runs[run].(comment := Some(id))] else db.runs)
    case Notify(n) => db.(notifications := db.notifications + [n])
    case Learn(run, index, lesson) =>
      if (run, index) in db.lessons then db else db.(lessons := db.lessons[(run, index) := lesson])
  }

  function ApplyAll(db: Db, es: seq<Effect>): Db
    decreases es
  {
    if es == [] then db else ApplyAll(Apply(db, es[0]), es[1..])
  }

  /** `"\n".join(parts)`. */
  function Join(parts: seq<string>): string {
    if parts == [] then "" else if |parts| == 1 then parts[0] else parts[0] + "\n" + Join(parts[1..])
  }

  function Bullets(locations: seq<string>): seq<string> {
    seq(|locations|, i requires 0 <= i < |locations| => "- " + locations[i])
  }

  function StructuredParts(handle: string, display: string, summary: string, details: string,
                           locations: seq<string>): seq<string> {
    ["@" + handle + " finished on " + display, "", "**Summary**: " + summary, "", "**Details**: " + details]
    + if locations == [] then [] else ["", "**Locations**:"] + Bullets(locations)
  }

  function FormatStructured(handle: string, display: string, summary: string, details: string,
                            locations: seq<string>): string {
    Join(StructuredParts(handle, display, summary, details, locations))
  }

  /** The lines of a text. */
  function Lines(s: string): seq<string> {
    if s == "" then [""]
    else
      var rest := Lines(s[1..]);
      if s[0] == '\n' then [""] + rest else if rest == [] then [[s[0]]] else [[s[0]] + rest[0]] + rest[1..]
  }

  lemma {:induction false} LinesOfTwo(part: string, rest: string)
    ensures Lines(part + "\n" + rest) == Lines(part) + Lines(rest)
    ensures Lines(part) != []
  {
    var s := part + "\n" + rest;
    if part == "" {
      assert s[1..] == rest;
    } else {
      assert s[0] == part[0] && s[1..] == part[1..] + "\n" + rest;
      LinesOfTwo(part[1..], rest);
    }
  }

  function AllLines(parts: seq<string>): seq<string> {
    if parts == [] then [] else Lines(parts[0]) + AllLines(parts[1..])
  }

  lemma {:induction false} LinesOfJoin(parts: seq<string>)
    requires parts != []
    ensures Lines(Join(parts)) == AllLines(parts)
  {
    hide Lines;
    if |parts| == 1 {
      assert AllLines(parts) == Lines(parts[0]) + AllLines([]);
    } else {
      LinesOfJoin(parts[1..]);
      LinesOfTwo(parts[0], Join(parts[1..]));
    }
  }

  lemma {:induction false} AllLinesConcat(a: seq<string>, b: seq<string>)
    ensures AllLines(a + b) == AllLines(a) + AllLines(b)
  {
    hide Lines;
    if a == [] {
      assert a + b == b;
    } else {
      assert (a + b)[0] == a[0] && (a + b)[1..] == a[1..] + b;
      AllLinesConcat(a[1..], b);
    }
  }

  lemma LinesOfEmpty()
    ensures Lines("") == [""] && Lines("**Locations**:") == ["**Locations**:"]
  {
    LinesOfPlain("**Locations**:");
  }

  lemma {:induction false} LinesOfPlain(part: string)
    requires '\n' !in part
    ensures Lines(part) == [part]
  {
    if part != "" {
      LinesOfPlain(part[1..]);
      assert part == [part[0]] + part[1..];
    }
  }

  /** Read line by line, the structured comment is the headline, the summary, the details and one bullet
      per location, with blank lines between the sections, whatever line breaks these hold. */
  lemma StructuredLines(handle: string, display: string, summary: string, details: string, locations: seq<string>)
    ensures Lines(FormatStructured(handle, display, summary, details, locations))
            == Lines("@" + handle + " finished on " + display)
               + [""] + Lines("**Summary**: " + summary)
               + [""] + Lines("**Details**: " + details)
               + if locations == [] then [] else ["", "**Locations**:"] + AllLines(Bullets(locations))
  {
    hide Lines, Join;
    var parts := StructuredParts(handle, display, summary, details, locations);
    LinesOfJoin(parts);
    LinesOfEmpty();
    var headline, sum, det := "@" + handle + " finished on " + display, "**Summary**: " + summary,
      "**Details**: " + details;
    FiveLines([headline, "", sum, "", det]);
    if locations == [] {
      assert parts == [headline, "", sum, "", det];
    } else {
      var tail := ["", "**Locations**:"] + Bullets(locations);
      AllLinesConcat([headline, "", sum, "", det], tail);
      assert tail[0..] == tail && tail[2..] == Bullets(locations);
      AllLinesFrom(tail, 0);
      AllLinesFrom(tail, 1);
    }
  }

  lemma AllLinesAdd(parts: seq<string>, x: string)
    ensures AllLines(parts + [x]) == AllLines(parts) + Lines(x)
  {
    hide Lines;
    AllLinesConcat(parts, [x]);
    assert AllLines([x]) == Lines(x) + AllLines([]);
  }

  lemma FiveLines(p: seq<string>)
    requires |p| == 5
    ensures AllLines(p) == Lines(p[0]) + Lines(p[1]) + Lines(p[2]) + Lines(p[3]) + Lines(p[4])
  {
    hide Lines, AllLines;
    AllLinesOne(p[0]);
    AllLinesAdd([p[0]], p[1]);
    AllLinesAdd([p[0], p[1]], p[2]);
    AllLinesAdd([p[0], p[1], p[2]], p[3]);
    AllLinesAdd([p[0], p[1], p[2], p[3]], p[4]);
    assert [p[0]] + [p[1]] == [p[0], p[1]] && [p[0], p[1]] + [p[2]] == [p[0], p[1], p[2]];
    assert [p[0], p[1], p[2]] + [p[3]] == [p[0], p[1], p[2], p[3]] && [p[0], p[1], p[2], p[3]] + [p[4]] == p;
  }

  lemma AllLinesOne(x: string)
    ensures AllLines([x]) == Lines(x)
  {
    hide Lines;
    assert AllLines([x]) == Lines(x) + AllLines([]);
  }

  lemma AllLinesFrom(parts: seq<string>, k: nat)
    requires k < |parts|
    ensures AllLines(parts[k..]) == Lines(parts[k]) + AllLines(parts[k + 1..])
  {
    assert parts[k..][0] == parts[k] && parts[k..][1..] == parts[k + 1..];
  }

  function BodyToPost(env: Env, run: Run, outcome: Outcome): string
    requires outcome.Success?
  {
    if && outcome.summary.Some? && outcome.summary.value != ""
       && run.agent in env.handles && env.handles[run.agent] != ""
       && run.ticket in env.tickets && env.tickets[run.ticket].display != ""
    then FormatStructured(env.handles[run.agent], env.tickets[run.ticket].display, outcome.summary.value, outcome.body,
                          outcome.locations)
    else outcome.body
  }

  /** `lesson.split("\n", 1)`; without a newline the whole text is the title. */
  function SplitLesson(text: string): (r: (string, string))
    ensures '\n' !in r.0
    ensures if '\n' in text then text == r.0 + "\n" + r.1 else r == (text, "")
  {
    if text == "" then ("", "")
    else if text[0] == '\n' then ("", text[1..])
    else
      var (title, body) := SplitLesson(text[1..]);
      assert text == [text[0]] + text[1..];
      ([text[0]] + title, body)
  }

  function Responded(env: Env, run: Run, owner: Id, comment: Id): Notification {
    Notification(AgentResponded, owner, true, run.agent, run.ticket,
                 if run.ticket in env.tickets then Some(env.tickets[run.ticket].display) else None, comment, None)
  }

  function Invoked(env: Env, run: Run, owner: Id, author: Id, origin: Id, comment: Id): Notification {
    Notification(AgentInvokedInComment, owner, false, author, run.ticket,
                 if run.ticket in env.tickets then Some(env.tickets[run.ticket].display) else None, origin,
                 Some("response_comment_id:" + env.uuid(comment)))
  }

  /** The author of the comment the run was started from, when that is somebody else than the owner. */
  function Outsider(comments: map<Id, Comment>, run: Run, owner: Id): Option<Id> {
    if run.comment.Some? && run.comment.value in comments && comments[run.comment.value].author != owner
    then Some(comments[run.comment.value].author)
    else None
  }

  function Notices(env: Env, comments: map<Id, Comment>, run: Run, comment: Id): seq<Effect> {
    if run.agent !in env.owners then []
    else
      var owner := env.owners[run.agent];
      var outsider := Outsider(comments, run, owner);
      [Notify(Responded(env, run, owner, comment))]
      + if outsider.Some? then [Notify(Invoked(env, run, owner, outsider.value, run.comment.value, comment))] else []
  }

  function LessonOf(project: Id, agent: Id, text: string): Lesson {
    Lesson(project, agent, SplitLesson(text).0, SplitLesson(text).1)
  }

  function Learns(env: Env, id: Id, run: Run, lessons: seq<string>): seq<Effect> {
    if run.ticket in env.tickets
    then
      var project := env.tickets[run.ticket].project;
      seq(|lessons|, i requires 0 <= i < |lessons| => Learn(id, i, LessonOf(project, run.agent, lessons[i])))
    else []
  }

  /** Every write of a successful run, in order. */
  function Effects(env: Env, comments: map<Id, Comment>, id: Id, run: Run, turn: Turn): seq<Effect>
    requires turn.outcome.Success?
  {
    [Post(turn.comment, Comment(run.ticket, run.agent, true, BodyToPost(env, run, turn.outcome)), id)]
    + Notices(env, comments, run, turn.comment)
    + Learns(env, id, run, turn.outcome.lessons)
  }

  /** The writes that happen before the exception, if there is one. */
  function Reached(es: seq<Effect>, failsAfter: Option<nat>): seq<Effect> {
    if failsAfter.Some? && failsAfter.value < |es| then es[..failsAfter.value] else es
  }

  // ---------------------------------------------------------------------------------------
  // The queue as pure steps
  // ---------------------------------------------------------------------------------------

  predicate IsPending(runs: map<Id, Run>, id: Id) {
    id in runs && runs[id].status == Pending
  }

  /** `ORDER BY enqueued_at ASC, id ASC`. */
  predicate Before(runs: map<Id, Run>, a: Id, b: Id)
    requires a in runs && b in runs
  {
    runs[a].enqueuedAt < runs[b].enqueuedAt || (runs[a].enqueuedAt == runs[b].enqueuedAt && a < b)
  }

  ghost predicate IsOldest(runs: map<Id, Run>, id: Id) {
    IsPending(runs, id) && forall o :: IsPending(runs, o) && o != id ==> Before(runs, id, o)
  }

  /** The claimed row once the provider has answered. */
  function Answered(run: Run, turn: Turn): Run {
    var started := run.(startedAt := Some(turn.started));
    match turn.outcome
    case Raises(m) => started.(status := Error, error := Some(m))
    case Failed(reason) =>
      started.(status := Error, error := if reason.Some? && reason.value != "" then reason
               else Some("provider returned status=error"))
    case Success(body, _, _, _) => started.(status := Done, response := Some(body))
  }

  /** The row as the call leaves it; a failed side effect is noted unless an error is already there. */
  function Closed(run: Run, turn: Turn): Run {
    var finished := run.(finishedAt := Some(turn.finished));
    if turn.outcome.Success? && turn.failsAfter.Some? && run.error.None?
    then finished.(error := Some("side-effects failed: " + turn.failure))
    else finished
  }

  /** Everything one processed row changes. */
  function Processed(env: Env, db: Db, id: Id, turn: Turn): Db
    requires id in db.runs
  {
    var answered := db.(runs := db.runs[id := Answered(db.runs[id], turn)]);
    var acted :=
      if turn.outcome.Success?
      then ApplyAll(answered, Reached(Effects(env, db.comments, id, db.runs[id], turn), turn.failsAfter))
      else answered;
    if id in acted.runs then acted.(runs := acted.runs[id := Closed(acted.runs[id], turn)]) else acted
  }

  // ---------------------------------------------------------------------------------------
  // What every reachable table satisfies
  // ---------------------------------------------------------------------------------------

  ghost predicate Keyed(env: Env, runs: map<Id, Run>) {
    forall r :: r in runs ==> runs[r].key == KeyOf(env, runs[r].agent, runs[r].ticket, runs[r].prompt)
  }

  ghost predicate UniqueKeys(runs: map<Id, Run>) {
    forall r, s :: r in runs && s in runs && runs[r].key == runs[s].key ==> r == s
  }

  /** A run points at a comment that exists. */
  ghost predicate Linked(db: Db) {
    forall r :: r in db.runs && db.runs[r].comment.Some? ==> db.runs[r].comment.value in db.comments
  }

  /** Only a run that is done has lessons. */
  ghost predicate LessonsOfDone(db: Db) {
    forall k :: k in db.lessons ==> k.0 in db.runs && db.runs[k.0].status == Done
  }

  ghost predicate Valid(env: Env, db: Db) {
    Keyed(env, db.runs) && UniqueKeys(db.runs) && Linked(db) && LessonsOfDone(db)
  }

  /** At most one row per agent, ticket and prompt. */
  lemma OneRowPerTriple(env: Env, db: Db, r: Id, s: Id)
    requires Valid(env, db) && r in db.runs && s in db.runs
    requires db.runs[r].agent == db.runs[s].agent && db.runs[r].ticket == db.runs[s].ticket
             && db.runs[r].prompt == db.runs[s].prompt
    ensures r == s
  {
  }

  /** With a digest free of collisions only the same agent, ticket and prompt share a key, so no
      other request is swallowed. */
  lemma KeysIdentifyTriples(env: Env, db: Db, agent: Id, ticket: Id, prompt: string)
    requires Keyed(env, db.runs) && LawfulUuids(env) && CollisionFree(env)
    ensures forall r :: r in db.runs ==>
              (db.runs[r].key == KeyOf(env, agent, ticket, prompt)
               <==> db.runs[r].agent == agent && db.runs[r].ticket == ticket && db.runs[r].prompt == prompt)
  {
    hide LawfulUuids;
    forall r | r in db.runs && db.runs[r].key == KeyOf(env, agent, ticket, prompt)
      ensures db.runs[r].agent == agent && db.runs[r].ticket == ticket && db.runs[r].prompt == prompt
    {
      RawKeyInjective(env, db.runs[r].agent, db.runs[r].ticket, db.runs[r].prompt, agent, ticket, prompt);
    }
  }

  // ---------------------------------------------------------------------------------------
  // Effects, one at a time and together
  // ---------------------------------------------------------------------------------------

  lemma {:induction false} ApplyConcat(db: Db, a: seq<Effect>, b: seq<Effect>)
    ensures ApplyAll(db, a + b) == ApplyAll(ApplyAll(db, a), b)
    decreases a
  {
    if a == [] {
      assert a + b == b;
    } else {
      assert (a + b)[0] == a[0] && (a + b)[1..] == a[1..] + b;
      ApplyConcat(Apply(db, a[0]), a[1..], b);
    }
  }

  lemma ApplyLast(db: Db, es: seq<Effect>, e: Effect)
    ensures ApplyAll(db, es + [e]) == Apply(ApplyAll(db, es), e)
  {
    ApplyConcat(db, es, [e]);
    var mid := ApplyAll(db, es);
    assert ApplyAll(mid, [e]) == ApplyAll(Apply(mid, e), []);
  }

  lemma ReachedConcat(a: seq<Effect>, b: seq<Effect>, failsAfter: Option<nat>)
    ensures Reached(a + b, failsAfter) ==
            if failsAfter.Some? && failsAfter.value < |a| then Reached(a, failsAfter)
            else a + Reached(b, if failsAfter.Some? then Some(failsAfter.value - |a|) else None)
  {
    if failsAfter.Some? {
      var k := failsAfter.value;
      if k < |a| {
        assert (a + b)[..k] == a[..k];
      } else if k < |a| + |b| {
        assert (a + b)[..k] == a + b[..k - |a|];
      }
    }
  }

  ghost predicate OnlyNotices(es: seq<Effect>) {
    forall i :: 0 <= i < |es| ==> es[i].Notify?
  }

  ghost predicate OnlyLessons(es: seq<Effect>, id: Id) {
    forall i :: 0 <= i < |es| ==> es[i].Learn? && es[i].run == id && es[i].index == i
  }

  function NotificationsIn(es: seq<Effect>): seq<Notification> {
    if es == [] then [] else (if es[0].Notify? then [es[0].notification] else []) + NotificationsIn(es[1..])
  }

  lemma {:induction false} ApplyNotices(db: Db, es: seq<Effect>)
    requires OnlyNotices(es)
    ensures ApplyAll(db, es) == db.(notifications := db.notifications + NotificationsIn(es))
    ensures |NotificationsIn(es)| == |es|
    decreases es
  {
    if es == [] {
      assert db.notifications + NotificationsIn(es) == db.notifications;
    } else {
      var n, rest := es[0].notification, NotificationsIn(es[1..]);
      ApplyNotices(Apply(db, es[0]), es[1..]);
      assert db.notifications + [n] + rest == db.notifications + ([n] + rest);
    }
  }

  /** `after` holds the lessons of `before` and those listed in `es`, nothing else. */
  ghost predicate Learned(before: map<(Id, nat), Lesson>, es: seq<Effect>, id: Id, after: map<(Id, nat), Lesson>)
    requires OnlyLessons(es, id)
  {
    && (forall k :: k in after ==> k in before || (k.0 == id && k.1 < |es|))
    && (forall k :: k in before ==> k in after && after[k] == before[k])
    && (forall i: nat :: i < |es| ==> (id, i) in after && after[(id, i)] == es[i].lesson)
    && |after| == |before| + |es|
  }

  /** The lessons of one run, written into a table that has none of that run. */
  lemma {:induction false} ApplyLessons(db: Db, es: seq<Effect>, id: Id)
    requires OnlyLessons(es, id)
    requires forall k :: k in db.lessons ==> k.0 != id
    ensures var after := ApplyAll(db, es);
            after == db.(lessons := after.lessons) && Learned(db.lessons, es, id, after.lessons)
    decreases es
  {
    if es != [] {
      var n := |es| - 1;
      assert es == es[..n] + [es[n]];
      ApplyLessons(db, es[..n], id);
      ApplyLast(db, es[..n], es[n]);
      hide ApplyAll;
      var mid := ApplyAll(db, es[..n]);
      OneMoreLesson(db.lessons, es, id, mid.lessons);
    }
  }

  lemma OneMoreLesson(before: map<(Id, nat), Lesson>, es: seq<Effect>, id: Id, mid: map<(Id, nat), Lesson>)
    requires es != [] && OnlyLessons(es, id) && (forall k :: k in before ==> k.0 != id)
    requires Learned(before, es[..|es| - 1], id, mid)
    ensures (id, |es| - 1) !in mid && Learned(before, es, id, mid[(id, |es| - 1) := es[|es| - 1].lesson])
  {
    var n := |es| - 1;
    var after := mid[(id, n) := es[n].lesson];
    forall i: nat | i < |es| ensures (id, i) in after && after[(id, i)] == es[i].lesson {
      assert i < n ==> es[..n][i] == es[i];
    }
  }

  /** Emitting the same lessons of the same run again adds nothing. */
  lemma {:induction false} ReEmitLessons(db: Db, es: seq<Effect>, id: Id)
    requires OnlyLessons(es, id)
    requires forall i :: 0 <= i < |es| ==> (id, i) in db.lessons
    ensures ApplyAll(db, es) == db
    decreases es
  {
    if es != [] {
      var n := |es| - 1;
      assert es == es[..n] + [es[n]];
      ReEmitLessons(db, es[..n], id);
      ApplyLast(db, es[..n], es[n]);
    }
  }
}
