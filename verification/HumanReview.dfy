/** The mock reviewer: one canned approval per ticket and targeted user. */
module HumanReview {
  import opened Prelude
  import opened Sequences

  type Id = nat

  const CANNED :=
    "Approved by automated reviewer (mock_human_review harness). " +
    "This is a simulated approval — in production a real human would respond."

  /** One second, in microseconds. */
  const GRACE := 1000000

  datatype Notification = Notification(kind: string, forUser: bool, recipient: Id, ticket: Id, createdAt: int,
                                       read: bool)

  datatype Comment = Comment(ticket: Id, author: Id, body: string)

  datatype Db = Db(notifications: map<Id, Notification>, comments: seq<Comment>)

  /** What the harness only reads. */
  datatype World = World(tickets: set<Id>, activeUsers: set<Id>)

  predicate Eligible(n: Notification, now: int) {
    n.kind == "human_review" && n.createdAt <= now - GRACE && n.forUser
  }

  /** What the query returns: every eligible notification, oldest first. */
  ghost predicate IsListing(notifications: map<Id, Notification>, now: int, rows: seq<Id>) {
    && (forall i, j :: 0 <= i < j < |rows| ==> rows[i] != rows[j])
    && (forall i :: 0 <= i < |rows| ==> rows[i] in notifications && Eligible(notifications[rows[i]], now))
    && (forall id :: id in notifications && Eligible(notifications[id], now) ==> id in rows)
    && (forall i, j :: 0 <= i < j < |rows| && rows[i] in notifications && rows[j] in notifications ==>
          notifications[rows[i]].createdAt <= notifications[rows[j]].createdAt)
  }

  function Approvals(comments: seq<Comment>, ticket: Id, author: Id): nat {
    if comments == [] then 0
    else
      var n := |comments| - 1;
      Approvals(comments[..n], ticket, author)
      + if comments[n].ticket == ticket && comments[n].author == author && comments[n].body == CANNED then 1 else 0
  }

  predicate Answers(w: World, db: Db, id: Id) {
    && id in db.notifications
    && Approvals(db.comments, db.notifications[id].ticket, db.notifications[id].recipient) == 0
    && db.notifications[id].ticket in w.tickets
    && db.notifications[id].recipient in w.activeUsers
  }

  /** One round of the loop. */
  function Resolve(w: World, db: Db, id: Id): Db {
    if Answers(w, db, id) then
      var n := db.notifications[id];
      Db(db.notifications[id := n.(read := true)], db.comments + [Comment(n.ticket, n.recipient, CANNED)])
    else db
  }

  function ResolveAll(w: World, db: Db, rows: seq<Id>): (Db, seq<Id>)
    decreases rows
  {
    if rows == [] then (db, [])
    else
      var (after, more) := ResolveAll(w, Resolve(w, db, rows[0]), rows[1..]);
      (after, (if Answers(w, db, rows[0]) then [rows[0]] else []) + more)
  }

  class Inbox {
    var notifications: map<Id, Notification>
    var comments: seq<Comment>

    function Contents(): Db
      reads this
    {
      Db(notifications, comments)
    }

    method ResolvePending(w: World, now: int, rows: seq<Id>) returns (resolved: seq<Id>)
      requires IsListing(notifications, now, rows)
      modifies this
      ensures (Contents(), resolved) == ResolveAll(w, old(Contents()), rows)
    {
      resolved := [];
      assert rows[0..] == rows;
      assert [] + ResolveAll(w, Contents(), rows).1 == ResolveAll(w, Contents(), rows).1;
      for i := 0 to |rows|
        invariant forall k :: 0 <= k < |rows| ==> rows[k] in notifications
        invariant var rest := ResolveAll(w, Contents(), rows[i..]);
                  ResolveAll(w, old(Contents()), rows) == (rest.0, resolved + rest.1)
      {
        hide Approvals;
        assert rows[i..][1..] == rows[i + 1..];
        ghost var rest := ResolveAll(w, Resolve(w, Contents(), rows[i]), rows[i + 1..]).1;
        assert resolved + ([rows[i]] + rest) == resolved + [rows[i]] + rest && [] + rest == rest;
        var n := notifications[rows[i]];
        var existing := Approvals(comments, n.ticket, n.recipient);
        if existing != 0 || n.ticket !in w.tickets || n.recipient !in w.activeUsers {
          continue;
        }
        comments := comments + [Comment(n.ticket, n.recipient, CANNED)];
        notifications := notifications[rows[i] := n.(read := true)];
        resolved := resolved + [rows[i]];
      }
      assert rows[|rows|..] == [] && resolved + [] == resolved;
    }
  }

  /** Some listed notification asks this user about this ticket, both being still there. */
  predicate Asked(w: World, notifications: map<Id, Notification>, rows: seq<Id>, ticket: Id, author: Id) {
    && ticket in w.tickets && author in w.activeUsers
    && exists i :: 0 <= i < |rows| && rows[i] in notifications
                   && notifications[rows[i]].ticket == ticket && notifications[rows[i]].recipient == author
  }

  lemma ApprovalsAppend(comments: seq<Comment>, c: Comment, ticket: Id, author: Id)
    ensures Approvals(comments + [c], ticket, author)
            == Approvals(comments, ticket, author)
              + if c.ticket == ticket && c.author == author && c.body == CANNED then 1 else 0
  {
    assert (comments + [c])[..|comments|] == comments;
  }

  /** Only the read flag of a notification ever changes. */
  ghost predicate SameButRead(a: map<Id, Notification>, b: map<Id, Notification>) {
    a.Keys == b.Keys && forall id :: id in a ==> b[id] == a[id].(read := b[id].read)
  }

  /** Each ticket and targeted user gets exactly one canned comment if one is asked for and none is
      there, and none otherwise, however many notifications ask for it. */
  lemma {:induction false} OneApprovalEach(w: World, db: Db, rows: seq<Id>, ticket: Id, author: Id)
    ensures var after := ResolveAll(w, db, rows).0;
            && SameButRead(db.notifications, after.notifications)
            && Approvals(after.comments, ticket, author)
               == if Approvals(db.comments, ticket, author) == 0 && Asked(w, db.notifications, rows, ticket, author)
                 then 1
                  else Approvals(db.comments, ticket, author)
    decreases rows
  {
    hide Approvals;
    if rows != [] {
      var next := Resolve(w, db, rows[0]);
      OneApprovalEach(w, next, rows[1..], ticket, author);
      AskedHere(w, db.notifications, next.notifications, rows, ticket, author);
      if Answers(w, db, rows[0]) {
        var n := db.notifications[rows[0]];
        ApprovalsAppend(db.comments, Comment(n.ticket, n.recipient, CANNED), ticket, author);
      }
    }
  }

  lemma AskedHere(w: World, a: map<Id, Notification>, b: map<Id, Notification>, rows: seq<Id>, ticket: Id, author: Id)
    requires rows != [] && SameButRead(a, b)
    ensures Asked(w, a, rows, ticket, author) <==>
            || Asked(w, b, rows[1..], ticket, author)
            || (rows[0] in a && a[rows[0]].ticket == ticket && a[rows[0]].recipient == author && ticket in w.tickets
                && author in w.activeUsers)
  {
    assert forall i :: 0 < i < |rows| ==> rows[i] == rows[1..][i - 1];
    assert forall i :: 0 <= i < |rows| - 1 ==> rows[1..][i] == rows[i + 1];
  }

  lemma {:induction false} NothingToResolve(w: World, db: Db, rows: seq<Id>)
    requires forall i :: 0 <= i < |rows| ==> !Answers(w, db, rows[i])
    ensures ResolveAll(w, db, rows) == (db, [])
    decreases rows
  {
    if rows != [] {
      assert forall i :: 0 <= i < |rows| - 1 ==> rows[1..][i] == rows[i + 1];
      NothingToResolve(w, db, rows[1..]);
      assert !Answers(w, db, rows[0]) && Resolve(w, db, rows[0]) == db;
      var none: seq<Id> := [];
      assert none + ResolveAll(w, db, rows[1..]).1 == none;
    }
  }

  /** A second call at the same time on otherwise unchanged data resolves nothing and adds nothing. */
  lemma SecondCallResolvesNothing(w: World, db: Db, now: int, rows: seq<Id>, rows': seq<Id>)
    requires IsListing(db.notifications, now, rows)
    requires IsListing(ResolveAll(w, db, rows).0.notifications, now, rows')
    ensures ResolveAll(w, ResolveAll(w, db, rows).0, rows') == (ResolveAll(w, db, rows).0, [])
  {
    hide Approvals;
    var after := ResolveAll(w, db, rows).0;
    forall i | 0 <= i < |rows'| ensures !Answers(w, after, rows'[i]) {
      var n := after.notifications[rows'[i]];
      OneApprovalEach(w, db, rows, n.ticket, n.recipient);
      assert rows'[i] in rows;
    }
    NothingToResolve(w, after, rows');
  }

  /** The read flag plays no part: whatever it is, the same notifications are resolved and the same
      comments posted. It is the canned comment that keeps a notification from being resolved again. */
  lemma {:induction false} ReadFlagIsNotConsulted(w: World, db: Db, other: Db, rows: seq<Id>)
    requires SameButRead(db.notifications, other.notifications) && other.comments == db.comments
    ensures ResolveAll(w, other, rows).1 == ResolveAll(w, db, rows).1
    ensures ResolveAll(w, other, rows).0.comments == ResolveAll(w, db, rows).0.comments
    decreases rows
  {
    hide Approvals;
    if rows != [] {
      ReadFlagIsNotConsulted(w, Resolve(w, db, rows[0]), Resolve(w, other, rows[0]), rows[1..]);
    }
  }

  // ---------------------------------------------------------------------------------------
  // What one call does, notification by notification
  // ---------------------------------------------------------------------------------------

  /** The approval of this user on this ticket, in full. */
  predicate IsApproval(c: Comment, ticket: Id, author: Id) {
    && c.ticket == ticket && c.author == author
    && c.body == "Approved by automated reviewer (mock_human_review harness). "
                 + "This is a simulated approval — in production a real human would respond."
  }

  /** The k-th listed notification is answered: ticket and active user are there, that user has not
      approved the ticket yet, and no earlier notification of the list asks for the same. */
  ghost predicate IsDue(w: World, db: Db, rows: seq<Id>, k: nat)
    requires k < |rows| && forall i :: 0 <= i < |rows| ==> rows[i] in db.notifications
  {
    var n := db.notifications[rows[k]];
    && n.ticket in w.tickets && n.recipient in w.activeUsers
    && (forall c :: 0 <= c < |db.comments| ==> !IsApproval(db.comments[c], n.ticket, n.recipient))
    && (forall j :: 0 <= j < k ==> !SamePair(db.notifications[rows[j]], n))
  }

  predicate SamePair(m: Notification, n: Notification) {
    m.ticket == n.ticket && m.recipient == n.recipient
  }

  lemma {:induction false} NoApprovals(comments: seq<Comment>, ticket: Id, author: Id)
    ensures Approvals(comments, ticket, author) == 0 <==>
            forall c :: 0 <= c < |comments| ==> !IsApproval(comments[c], ticket, author)
  {
    hide IsApproval;
    if comments != [] {
      var n := |comments| - 1;
      NoApprovals(comments[..n], ticket, author);
      TextOfApproval(comments[n], ticket, author);
      assert forall c :: 0 <= c < n ==> comments[..n][c] == comments[c];
    }
  }

  lemma TextOfApproval(c: Comment, ticket: Id, author: Id)
    ensures IsApproval(c, ticket, author) <==> c.ticket == ticket && c.author == author && c.body == CANNED
  {
  }

  lemma FirstIsDue(w: World, db: Db, rows: seq<Id>)
    requires rows != [] && forall i :: 0 <= i < |rows| ==> rows[i] in db.notifications
    ensures IsDue(w, db, rows, 0) <==> Answers(w, db, rows[0])
  {
    hide IsApproval;
    NoApprovals(db.comments, db.notifications[rows[0]].ticket, db.notifications[rows[0]].recipient);
  }

  lemma LaterIsDue(w: World, db: Db, rows: seq<Id>, k: nat)
    requires 0 < k < |rows| && forall i :: 0 <= i < |rows| ==> rows[i] in db.notifications
    requires forall i, j :: 0 <= i < j < |rows| ==> rows[i] != rows[j]
    ensures var next := Resolve(w, db, rows[0]);
            && (forall i :: 0 <= i < |rows[1..]| ==> rows[1..][i] in next.notifications)
            && (IsDue(w, next, rows[1..], k - 1) <==> IsDue(w, db, rows, k))
  {
    hide Approvals, IsApproval;
    var (next, rest, m, n) :=
      (Resolve(w, db, rows[0]), rows[1..], db.notifications[rows[0]], db.notifications[rows[k]]);
    assert forall i :: 0 <= i < |rest| ==> rest[i] == rows[i + 1];
    assert forall i :: 0 < i < |rows| ==> rows[i] == rest[i - 1];
    NoApprovals(db.comments, m.ticket, m.recipient);
    if Answers(w, db, rows[0]) {
      var c := Comment(m.ticket, m.recipient, CANNED);
      TextOfApproval(c, n.ticket, n.recipient);
      TextOfApproval(c, m.ticket, m.recipient);
      assert next.comments[|db.comments|] == c;
      assert forall i :: 0 <= i < |db.comments| ==> next.comments[i] == db.comments[i];
    }
    assert next.notifications[rest[k - 1]] == n;
    forall j | 0 <= j < k - 1 ensures next.notifications[rest[j]] == db.notifications[rows[j + 1]] {
    }
  }

  /** The k-th comment is the approval that this notification asks for. */
  ghost predicate IsReply(notifications: map<Id, Notification>, id: Id, comments: seq<Comment>, k: nat) {
    && id in notifications && k < |comments|
    && IsApproval(comments[k], notifications[id].ticket, notifications[id].recipient)
  }

  /** These are marked read and no others. */
  ghost predicate MarkedRead(before: map<Id, Notification>, after: map<Id, Notification>, resolved: seq<Id>) {
    && after.Keys == before.Keys
    && (forall id :: id in before ==>
          after[id] == if id in resolved then before[id].(read := true) else before[id])
  }

  /** What the comments and notifications become, for the notifications resolved. */
  ghost predicate Records(db: Db, after: Db, resolved: seq<Id>) {
    && |after.comments| == |db.comments| + |resolved| && db.comments <= after.comments
    && (forall i :: 0 <= i < |resolved| ==> IsReply(db.notifications, resolved[i], after.comments, |db.comments| + i))
    && MarkedRead(db.notifications, after.notifications, resolved)
  }

  /** One call: the resolved notifications are those that are due, in the order of the list; each is
      marked read and answered by one comment of its user on its ticket; nothing else changes. */
  lemma {:induction false} WhatACallDoes(w: World, db: Db, rows: seq<Id>)
    requires forall i :: 0 <= i < |rows| ==> rows[i] in db.notifications
    requires forall i, j :: 0 <= i < j < |rows| ==> rows[i] != rows[j]
    ensures var (after, resolved) := ResolveAll(w, db, rows);
            && Subsequence(resolved, rows)
            && (forall k :: 0 <= k < |rows| ==> (rows[k] in resolved <==> IsDue(w, db, rows, k)))
            && (forall id :: id in resolved ==> id in rows)
            && Records(db, after, resolved)
    decreases rows
  {
    if rows == [] {
      assert db.comments + [] == db.comments;
    } else {
      var (next, rest) := (Resolve(w, db, rows[0]), rows[1..]);
      assert forall i :: 0 <= i < |rest| ==> rest[i] == rows[i + 1];
      ResolvedKeys(w, db, rows[0]);
      WhatACallDoes(w, next, rest);
      var (after, more) := ResolveAll(w, next, rest);
      var first := if Answers(w, db, rows[0]) then [rows[0]] else [];
      hide *;
      assert ResolveAll(w, db, rows) == (after, first + more) by { ResolveFirst(w, db, rows); }
      assert [rows[0]] + rest == rows && [] + more == more;
      AddedInFront(rows[0], more, rest);
      RecordsJoin(w, db, next, after, rows[0], more);
      FirstIsDue(w, db, rows);
      assert rows[0] !in rest;
      forall k | 0 <= k < |rows| ensures rows[k] in first + more <==> IsDue(w, db, rows, k) {
        if k > 0 {
          LaterIsDue(w, db, rows, k);
          assert rows[k] == rest[k - 1];
        }
      }
    }
  }

  lemma ResolveFirst(w: World, db: Db, rows: seq<Id>)
    requires rows != []
    ensures var (after, more) := ResolveAll(w, Resolve(w, db, rows[0]), rows[1..]);
            ResolveAll(w, db, rows) == (after, (if Answers(w, db, rows[0]) then [rows[0]] else []) + more)
  {
  }

  lemma ResolvedKeys(w: World, db: Db, id: Id)
    ensures Resolve(w, db, id).notifications.Keys == db.notifications.Keys
  {
  }

  lemma RecordsJoin(w: World, db: Db, next: Db, after: Db, id: Id, more: seq<Id>)
    requires id in db.notifications && next == Resolve(w, db, id) && Records(next, after, more)
    ensures Records(db, after, (if Answers(w, db, id) then [id] else []) + more)
  {
    hide Approvals, IsApproval, IsReply, MarkedRead;
    if Answers(w, db, id) {
      var resolved := [id] + more;
      ReadJoins(db.notifications, id, after.notifications, more);
      assert |after.comments| == |db.comments| + |resolved| && db.comments <= next.comments <= after.comments;
      forall i | 0 <= i < |resolved| ensures IsReply(db.notifications, resolved[i], after.comments, |db.comments| + i) {
        if i == 0 {
          FirstReply(w, db, next, after, id);
        } else {
          assert IsReply(next.notifications, more[i - 1], after.comments, |next.comments| + (i - 1));
          SameReply(w, db, next, id, more[i - 1], after.comments, |db.comments| + i);
        }
      }
    } else {
      assert [] + more == more;
    }
  }

  lemma ReadJoins(before: map<Id, Notification>, id: Id, after: map<Id, Notification>, more: seq<Id>)
    requires id in before && MarkedRead(before[id := before[id].(read := true)], after, more)
    ensures MarkedRead(before, after, [id] + more)
  {
  }

  lemma FirstReply(w: World, db: Db, next: Db, after: Db, id: Id)
    requires Answers(w, db, id) && next == Resolve(w, db, id) && next.comments <= after.comments
    ensures IsReply(db.notifications, id, after.comments, |db.comments|)
  {
    hide Approvals, IsApproval;
    var n := db.notifications[id];
    TextOfApproval(Comment(n.ticket, n.recipient, CANNED), n.ticket, n.recipient);
    assert after.comments[|db.comments|] == next.comments[|db.comments|];
  }

  lemma SameReply(w: World, db: Db, next: Db, id: Id, other: Id, comments: seq<Comment>, k: nat)
    requires next == Resolve(w, db, id) && IsReply(next.notifications, other, comments, k)
    ensures IsReply(db.notifications, other, comments, k)
  {
    hide Approvals, IsApproval;
  }

  /** The list itself: the unanswered and the answered alike, one second old or more, oldest first. */
  lemma ListingMeaning(notifications: map<Id, Notification>, now: int, rows: seq<Id>, id: Id)
    requires IsListing(notifications, now, rows)
    ensures id in rows <==>
            && id in notifications && notifications[id].kind == "human_review" && notifications[id].forUser
            && notifications[id].createdAt + 1000000 <= now
    ensures forall i, j :: 0 <= i < j < |rows| ==>
              rows[i] in notifications && rows[j] in notifications
              && notifications[rows[i]].createdAt <= notifications[rows[j]].createdAt
  {
  }
}
