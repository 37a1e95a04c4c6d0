/** Comments on problems and solutions: the table's life, and the threaded listing built in place. */
module Comments {
  import opened Prelude
  import opened Forest
  import opened Sequences

  datatype Comment = Comment(
    problem: Id,
    solution: Option<Id>,
    author: Option<Id>,
    parent: Option<Id>,
    body: string,
    anonymous: bool,
    edited: bool,
    createdAt: int)

  datatype Failure = ParentNotFound | OtherProblem | OtherSolution | NotFound | Forbidden

  type Table = map<Id, Comment>

  // ---------------------------------------------------------------------------------------
  // The table
  // ---------------------------------------------------------------------------------------

  /** No dangling parent; a reply is in its parent's problem, and a reply on a solution is on its
      parent's solution. */
  ghost predicate Threaded(t: Table) {
    forall x :: x in t && t[x].parent.Some? ==>
      var p := t[x].parent.value;
      p in t && t[p].problem == t[x].problem && (t[x].solution.Some? ==> t[p].solution == t[x].solution)
  }

  /** A rank that grows from parent to child. */
  ghost predicate Ranks(t: Table, rank: map<Id, nat>) {
    && (forall x :: x in t ==> x in rank)
    && (forall x :: x in t && t[x].parent.Some? ==> t[x].parent.value in rank && rank[t[x].parent.value] < rank[x])
  }

  ghost predicate Acyclic(t: Table) {
    exists rank :: Ranks(t, rank)
  }

  predicate HasReplies(t: Table, id: Id) {
    exists x :: x in t && t[x].parent == Some(id)
  }

  /** Each operation as one step of the table, with its result; a refused one changes nothing. */
  function Created(sanitize: string -> string, t: Table, problem: Id, solution: Option<Id>, user: Id,
                   parent: Option<Id>,
                   body: string, anonymous: bool, newId: Id, now: int): (Table, Result<Id, Failure>)
  {
    if parent.Some? && parent.value !in t then (t, Err(ParentNotFound))
    else if parent.Some? && t[parent.value].problem != problem then (t, Err(OtherProblem))
    else if parent.Some? && solution.Some? && t[parent.value].solution != solution then (t, Err(OtherSolution))
    else (t[newId := Comment(problem, solution, Some(user), parent, sanitize(body), anonymous, false, now)], Ok(newId))
  }

  function Edited(sanitize: string -> string, t: Table, id: Id, actor: Id, body: string): (Table, Result<Id, Failure>) {
    if id !in t then (t, Err(NotFound))
    else if t[id].author != Some(actor) then (t, Err(Forbidden))
    else (t[id := t[id].(body := sanitize(body), edited := true)], Ok(id))
  }

  /** A comment with replies becomes a tombstone, one without goes. */
  function Deleted(t: Table, id: Id, actor: Id, admin: bool): (Table, Result<Id, Failure>) {
    if id !in t then (t, Err(NotFound))
    else if t[id].author != Some(actor) && !admin then (t, Err(Forbidden))
    else if HasReplies(t, id) then (t[id := t[id].(body := "[deleted]", anonymous := true)], Ok(id))
    else (t - {id}, Ok(id))
  }

  class CommentStore {
    const sanitize: string -> string
    var comments: Table

    constructor (sanitize: string -> string)
      ensures comments == map[] && this.sanitize == sanitize
    {
      this.sanitize := sanitize;
      comments := map[];
    }

    method Create(problem: Id, solution: Option<Id>, user: Id, parent: Option<Id>, body: string, anonymous: bool,
                  newId: Id, now: int)
      returns (r: Result<Id, Failure>)
      requires newId !in comments
      modifies this
      ensures (comments, r)
              == Created(sanitize, old(comments), problem, solution, user, parent, body, anonymous, newId, now)
      ensures r == Err(ParentNotFound) <==> parent.Some? && parent.value !in old(comments)
      ensures r.Ok? <==> parent.Some? ==>
                && parent.value in old(comments) && old(comments)[parent.value].problem == problem
                && (solution.Some? ==> old(comments)[parent.value].solution == solution)
      ensures r == Err(OtherProblem) <==>
              parent.Some? && parent.value in old(comments) && old(comments)[parent.value].problem != problem
      ensures r.Ok? ==> comments == old(comments)[newId := Comment(problem, solution, Some(user), parent,
                                                                   sanitize(body), anonymous, false, now)]
      ensures r.Err? ==> comments == old(comments)
    {
      if parent.Some? {
        if parent.value !in comments {
          return Err(ParentNotFound);
        }
        var p := comments[parent.value];
        if p.problem != problem {
          return Err(OtherProblem);
        }
        if solution.Some? && p.solution != solution {
          return Err(OtherSolution);
        }
      }
      var comment := Comment(problem, solution, Some(user), parent, sanitize(body), anonymous, false, now);
      comments := comments[newId := comment];
      r := Ok(newId);
    }

    method Edit(id: Id, actor: Id, body: string) returns (r: Result<Id, Failure>)
      modifies this
      ensures (comments, r) == Edited(sanitize, old(comments), id, actor, body)
      ensures r.Ok? <==> id in old(comments) && old(comments)[id].author == Some(actor)
      ensures r == Err(NotFound) <==> id !in old(comments)
      ensures r.Ok? ==> comments == old(comments)[id := old(comments)[id].(body := sanitize(body), edited := true)]
      ensures r.Err? ==> comments == old(comments)
    {
      if id !in comments {
        return Err(NotFound);
      }
      if comments[id].author != Some(actor) {
        return Err(Forbidden);
      }
      var row := comments[id];
      row := row.(body := sanitize(body));
      row := row.(edited := true);
      comments := comments[id := row];
      r := Ok(id);
    }

    method Delete(id: Id, actor: Id, admin: bool) returns (r: Result<Id, Failure>)
      modifies this
      ensures (comments, r) == Deleted(old(comments), id, actor, admin)
      ensures r.Ok? <==> id in old(comments) && (old(comments)[id].author == Some(actor) || admin)
      ensures r == Err(NotFound) <==> id !in old(comments)
      ensures r.Ok? && (exists x :: x in old(comments) && old(comments)[x].parent == Some(id)) ==>
                comments == old(comments)[id := old(comments)[id].(body := "[deleted]", anonymous := true)]
      ensures r.Ok? && !(exists x :: x in old(comments) && old(comments)[x].parent == Some(id)) ==>
                comments == old(comments) - {id}
      ensures r.Err? ==> comments == old(comments)
    {
      if id !in comments {
        return Err(NotFound);
      }
      if comments[id].author != Some(actor) && !admin {
        return Err(Forbidden);
      }
      if HasReplies(comments, id) {
        var row := comments[id];
        row := row.(body := "[deleted]");
        row := row.(anonymous := true);
        comments := comments[id := row];
      } else {
        comments := comments - {id};
      }
      r := Ok(id);
    }
  }

  // ---------------------------------------------------------------------------------------
  // Whole runs
  // ---------------------------------------------------------------------------------------

  datatype Op =
    | Add(problem: Id, solution: Option<Id>, user: Id, parent: Option<Id>, text: string, anonymous: bool, newId: Id,
          now: int)
    | Change(id: Id, actor: Id, text: string)
    | Remove(id: Id, actor: Id, admin: bool)

  function Step(sanitize: string -> string, t: Table, op: Op): Table {
    match op
    case Add(problem, solution, user, parent, text, anonymous, newId, now) =>
      if newId in t then t else Created(sanitize, t, problem, solution, user, parent, text, anonymous, newId, now).0
    case Change(id, actor, text) => Edited(sanitize, t, id, actor, text).0
    case Remove(id, actor, admin) => Deleted(t, id, actor, admin).0
  }

  function Run(sanitize: string -> string, t: Table, ops: seq<Op>): Table
    decreases ops
  {
    if ops == [] then t else Run(sanitize, Step(sanitize, t, ops[0]), ops[1..])
  }

  lemma StepKeepsThreads(sanitize: string -> string, t: Table, op: Op)
    requires Threaded(t) && Acyclic(t)
    ensures Threaded(Step(sanitize, t, op)) && Acyclic(Step(sanitize, t, op))
  {
    hide Acyclic;
    match op
    case Add(problem, solution, user, parent, text, anonymous, newId, now) =>
      if newId !in t && Created(sanitize, t, problem, solution, user, parent, text, anonymous, newId, now).1.Ok? {
        AddKeepsAcyclic(t, newId,
                        Comment(problem, solution, Some(user), parent, sanitize(text), anonymous, false, now));
      }
    case Change(id, actor, text) => ShapeKeepsValid(t, Step(sanitize, t, op));
    case Remove(id, actor, admin) =>
      if HasReplies(t, id) || Deleted(t, id, actor, admin).1.Err? {
        ShapeKeepsValid(t, Step(sanitize, t, op));
      } else {
        LeafGone(t, id);
      }
  }

  /** Over all runs of create, edit and delete the parent relation stays acyclic, no parent dangles, and
      a thread stays in its problem and solution: only leaves are removed. */
  lemma {:induction false} RunsKeepThreads(sanitize: string -> string, t: Table, ops: seq<Op>)
    requires Threaded(t) && Acyclic(t)
    ensures Threaded(Run(sanitize, t, ops)) && Acyclic(Run(sanitize, t, ops))
    decreases ops
  {
    hide Threaded, Acyclic, Step;
    if ops != [] {
      StepKeepsThreads(sanitize, t, ops[0]);
      RunsKeepThreads(sanitize, Step(sanitize, t, ops[0]), ops[1..]);
    }
  }

  // ---------------------------------------------------------------------------------------
  // Who may touch a comment
  // ---------------------------------------------------------------------------------------

  /** A removal of this comment by its author or an admin. */
  predicate RemovesAsAllowed(op: Op, id: Id, author: Option<Id>) {
    op.Remove? && op.id == id && (author == Some(op.actor) || op.admin)
  }

  predicate EditsAsAuthor(op: Op, id: Id, author: Option<Id>) {
    op.Change? && op.id == id && author == Some(op.actor)
  }

  /** The text of the last edit by the author. */
  function LastText(ops: seq<Op>, id: Id, author: Option<Id>): (text: Option<string>)
    ensures text.None? <==> forall k :: 0 <= k < |ops| ==> !EditsAsAuthor(ops[k], id, author)
    ensures text.Some? ==>
              exists k :: 0 <= k < |ops| && EditsAsAuthor(ops[k], id, author) && ops[k].text == text.value
                          && forall l :: k < l < |ops| ==> !EditsAsAuthor(ops[l], id, author)
  {
    if ops == [] then None
    else
      var rest := LastText(ops[1..], id, author);
      if rest.Some? then rest else if EditsAsAuthor(ops[0], id, author) then Some(ops[0].text) else None
  }

  /** Over every run: unless its author or an admin removes it, a comment stays, and nothing of it changes
      but what its author's last edit wrote. Whatever anybody else does goes without a trace. */
  lemma {:induction false} OnlyTheAuthorChanges(sanitize: string -> string, t: Table, ops: seq<Op>, id: Id)
    requires id in t && forall k :: 0 <= k < |ops| ==> !RemovesAsAllowed(ops[k], id, t[id].author)
    ensures var text := LastText(ops, id, t[id].author);
            && id in Run(sanitize, t, ops)
            && Run(sanitize, t, ops)[id]
               == if text.None? then t[id] else t[id].(body := sanitize(text.value), edited := true)
    decreases ops
  {
    hide HasReplies, LastText;
    if ops != [] {
      assert !RemovesAsAllowed(ops[0], id, t[id].author);
      var next := Step(sanitize, t, ops[0]);
      OnlyTheAuthorChanges(sanitize, next, ops[1..], id);
      LastTextStep(ops, id, t[id].author);
    } else {
      LastTextStep(ops, id, t[id].author);
    }
  }

  lemma LastTextStep(ops: seq<Op>, id: Id, author: Option<Id>)
    ensures LastText(ops, id, author)
            == if ops == [] then None
               else if LastText(ops[1..], id, author).Some? then LastText(ops[1..], id, author)
               else if EditsAsAuthor(ops[0], id, author) then Some(ops[0].text) else None
  {
  }

  /** The i-th call created this row; its body is what that call or a later edit of its author wrote, or
      the tombstone of a removal by the author or an admin; and the two flags say so. */
  ghost predicate WrittenBy(sanitize: string -> string, ops: seq<Op>, id: Id, row: Comment, i: nat, k: nat)
    requires i <= k < |ops|
  {
    && ops[i].Add? && ops[i].newId == id
    && row.problem == ops[i].problem && row.solution == ops[i].solution && row.parent == ops[i].parent
    && row.author == Some(ops[i].user) && row.createdAt == ops[i].now
    && (|| (k == i && row.body == sanitize(ops[i].text) && row.anonymous == ops[i].anonymous && !row.edited)
        || (EditsAsAuthor(ops[k], id, row.author) && row.body == sanitize(ops[k].text) && row.edited)
        || (RemovesAsAllowed(ops[k], id, row.author) && row.body == "[deleted]" && row.anonymous))
    && (row.edited <==> EverEdited(ops, id, row.author, i))
    && (row.anonymous <==> ops[i].anonymous || EverRemoved(ops, id, row.author, i))
  }

  ghost predicate EverEdited(ops: seq<Op>, id: Id, author: Option<Id>, i: nat) {
    exists j :: i < j < |ops| && EditsAsAuthor(ops[j], id, author)
  }

  ghost predicate EverRemoved(ops: seq<Op>, id: Id, author: Option<Id>, i: nat) {
    exists j :: i < j < |ops| && RemovesAsAllowed(ops[j], id, author)
  }

  ghost predicate HasHistory(sanitize: string -> string, ops: seq<Op>, id: Id, row: Comment) {
    exists i: nat, k: nat :: i <= k < |ops| && WrittenBy(sanitize, ops, id, row, i, k)
  }

  lemma {:induction false} RunAppend(sanitize: string -> string, t: Table, ops: seq<Op>, op: Op)
    ensures Run(sanitize, t, ops + [op]) == Step(sanitize, Run(sanitize, t, ops), op)
    decreases ops
  {
    hide Step;
    if ops == [] {
      assert ops + [op] == [op] && [op][1..] == [];
      assert Run(sanitize, Step(sanitize, t, op), []) == Step(sanitize, t, op);
    } else {
      assert (ops + [op])[0] == ops[0] && (ops + [op])[1..] == ops[1..] + [op];
      RunAppend(sanitize, Step(sanitize, t, ops[0]), ops[1..], op);
    }
  }

  /** One more call that leaves a row alone, edits it, or makes it a tombstone. */
  lemma HistoryGoesOn(sanitize: string -> string, ops: seq<Op>, op: Op, id: Id, row: Comment, after: Comment)
    requires HasHistory(sanitize, ops, id, row)
    requires || (after == row && !EditsAsAuthor(op, id, row.author) && !RemovesAsAllowed(op, id, row.author))
             || (EditsAsAuthor(op, id, row.author) && after == row.(body := sanitize(op.text), edited := true))
             || (RemovesAsAllowed(op, id, row.author) && after == row.(body := "[deleted]", anonymous := true))
    ensures HasHistory(sanitize, ops + [op], id, after)
  {
    hide EditsAsAuthor, RemovesAsAllowed;
    var i: nat, k: nat :| i <= k < |ops| && WrittenBy(sanitize, ops, id, row, i, k);
    var longer := ops + [op];
    var n := |ops|;
    assert longer[n] == op && forall j :: 0 <= j < n ==> longer[j] == ops[j];
    OneMoreEvent(ops, op, id, row.author, i);
    AtMostOne(op, id, row.author);
    if EditsAsAuthor(op, id, row.author) || RemovesAsAllowed(op, id, row.author) {
      assert WrittenBy(sanitize, longer, id, after, i, n);
    } else {
      assert WrittenBy(sanitize, longer, id, after, i, k);
    }
  }

  lemma AtMostOne(op: Op, id: Id, author: Option<Id>)
    ensures !(EditsAsAuthor(op, id, author) && RemovesAsAllowed(op, id, author))
  {
  }

  lemma OneMoreEvent(ops: seq<Op>, op: Op, id: Id, author: Option<Id>, i: nat)
    requires i < |ops|
    ensures EverEdited(ops + [op], id, author, i) <==> EverEdited(ops, id, author, i) || EditsAsAuthor(op, id, author)
    ensures EverRemoved(ops + [op], id, author, i) <==>
            EverRemoved(ops, id, author, i) || RemovesAsAllowed(op, id, author)
  {
    hide EditsAsAuthor, RemovesAsAllowed;
    var longer := ops + [op];
    assert longer[|ops|] == op && forall j :: 0 <= j < |ops| ==> longer[j] == ops[j];
  }

  lemma NewHistory(sanitize: string -> string, ops: seq<Op>, op: Op)
    requires op.Add?
    ensures HasHistory(sanitize, ops + [op], op.newId,
                       Comment(op.problem, op.solution, Some(op.user), op.parent, sanitize(op.text), op.anonymous,
                               false,
                               op.now))
  {
    assert (ops + [op])[|ops|] == op;
    assert WrittenBy(sanitize, ops + [op], op.newId,
                     Comment(op.problem, op.solution, Some(op.user), op.parent, sanitize(op.text), op.anonymous, false,
                             op.now),
                     |ops|, |ops|);
  }

  /** After every run from the empty table each row is explained by the calls: who created it with which
      columns, and who wrote its present body. */
  lemma {:induction false} EveryRowHasItsHistory(sanitize: string -> string, ops: seq<Op>, id: Id)
    requires id in Run(sanitize, map[], ops)
    ensures HasHistory(sanitize, ops, id, Run(sanitize, map[], ops)[id])
    decreases ops
  {
    hide HasHistory, HasReplies, Run;
    if ops == [] {
      StartsEmpty(sanitize);
    } else {
      var (before, op) := (ops[..|ops| - 1], ops[|ops| - 1]);
      assert ops == before + [op];
      RunAppend(sanitize, map[], before, op);
      var t := Run(sanitize, map[], before);
      if id in t {
        EveryRowHasItsHistory(sanitize, before, id);
        HistoryGoesOn(sanitize, before, op, id, t[id], Step(sanitize, t, op)[id]);
      } else {
        NewHistory(sanitize, before, op);
      }
    }
  }

  lemma StartsEmpty(sanitize: string -> string)
    ensures Run(sanitize, map[], []) == map[]
  {
  }

  lemma AddKeepsAcyclic(t: Table, id: Id, row: Comment)
    requires Acyclic(t) && Threaded(t) && id !in t && (row.parent.Some? ==> row.parent.value in t)
    ensures Acyclic(t[id := row])
  {
    var rank :| Ranks(t, rank);
    var next := rank[id := if row.parent.Some? then rank[row.parent.value] + 1 else 0];
    assert Ranks(t[id := row], next);
  }

  lemma ShapeKeepsValid(t: Table, after: Table)
    requires Threaded(t) && Acyclic(t) && after.Keys == t.Keys
    requires forall x :: x in t ==>
               after[x].parent == t[x].parent && after[x].problem == t[x].problem && after[x].solution == t[x].solution
    ensures Threaded(after) && Acyclic(after)
  {
    var rank :| Ranks(t, rank);
    assert Ranks(after, rank);
  }

  lemma LeafGone(t: Table, id: Id)
    requires Threaded(t) && Acyclic(t) && !HasReplies(t, id)
    ensures Threaded(t - {id}) && Acyclic(t - {id})
  {
    var rank :| Ranks(t, rank);
    assert Ranks(t - {id}, rank);
  }

  // ---------------------------------------------------------------------------------------
  // The listing
  // ---------------------------------------------------------------------------------------

  predicate InScope(c: Comment, problem: Id, solution: Option<Id>) {
    c.problem == problem && c.solution == solution
  }

  /** What the query returns: exactly the comments of that problem and solution (or of the problem
      alone), by creation time; ties may come in any order, also a reply before its parent. */
  ghost predicate IsListing(t: Table, problem: Id, solution: Option<Id>, rows: seq<Id>) {
    && Distinct(rows)
    && (forall i :: 0 <= i < |rows| ==> rows[i] in t && InScope(t[rows[i]], problem, solution))
    && (forall x :: x in t && InScope(t[x], problem, solution) ==> x in rows)
    && (forall i, j :: 0 <= i < j < |rows| ==> t[rows[i]].createdAt <= t[rows[j]].createdAt)
  }

  /** The parent of each listed row, where the parent is listed too. */
  function UpOf(t: Table, rows: seq<Id>): map<Id, Id> {
    map x | x in rows && x in t && t[x].parent.Some? && t[x].parent.value in rows :: t[x].parent.value
  }

  lemma ListingIsWellFounded(t: Table, problem: Id, solution: Option<Id>, rows: seq<Id>, rank: map<Id, nat>)
    requires Ranks(t, rank) && IsListing(t, problem, solution, rows)
    ensures WellFounded(rows, UpOf(t, rows), rank)
  {
    forall x | x in rows ensures x in rank {
      var i :| 0 <= i < |rows| && rows[i] == x;
    }
    hide Distinct;
  }

  /** A node of the answer; `replies` is filled in place. */
  class Node {
    const id: Id
    var replies: seq<Node>

    constructor (id: Id)
      ensures this.id == id && replies == []
    {
      this.id := id;
      replies := [];
    }
  }

  function Refs(nodes: map<Id, Node>, ids: seq<Id>): seq<Node>
    requires forall i :: 0 <= i < |ids| ==> ids[i] in nodes
  {
    seq(|ids|, i requires 0 <= i < |ids| => nodes[ids[i]])
  }

  /** Every node holds the nodes of its children, in listing order. */
  ghost predicate Linked(nodes: map<Id, Node>, rows: seq<Id>, up: map<Id, Id>)
    reads nodes.Values
  {
    && (forall x :: x in rows ==> x in nodes)
    && (forall x :: x in rows ==> nodes[x].id == x && nodes[x].replies == Refs(nodes, Children(rows, up, x)))
  }

  lemma ChildrenHead(ids: seq<Id>, up: map<Id, Id>, parent: Id)
    ensures Children(ids, up, parent)
            == if ids == [] then []
               else (if ids[0] in up && up[ids[0]] == parent then [ids[0]] else []) + Children(ids[1..], up, parent)
  {
  }

  lemma {:induction false} ChildrenAppend(ids: seq<Id>, up: map<Id, Id>, c: Id, parent: Id)
    ensures Children(ids + [c], up, parent)
            == if c in up && up[c] == parent then Children(ids, up, parent) + [c] else Children(ids, up, parent)
  {
    hide Children;
    ChildrenHead(ids, up, parent);
    ChildrenHead(ids + [c], up, parent);
    if ids == [] {
      ChildrenHead([], up, parent);
      assert (ids + [c])[1..] == [];
    } else {
      AppendTail(ids, c);
      ChildrenAppend(ids[1..], up, c, parent);
      Regroup(if ids[0] in up && up[ids[0]] == parent then [ids[0]] else [], Children(ids[1..], up, parent), [c]);
    }
  }

  lemma RootsHead(ids: seq<Id>, up: map<Id, Id>)
    ensures Roots(ids, up)
            == if ids == [] then [] else (if ids[0] !in up then [ids[0]] else []) + Roots(ids[1..], up)
  {
  }

  lemma {:induction false} RootsAppend(ids: seq<Id>, up: map<Id, Id>, c: Id)
    ensures Roots(ids + [c], up) == if c in up then Roots(ids, up) else Roots(ids, up) + [c]
  {
    hide Roots;
    RootsHead(ids, up);
    RootsHead(ids + [c], up);
    if ids == [] {
      RootsHead([], up);
      assert (ids + [c])[1..] == [];
    } else {
      AppendTail(ids, c);
      RootsAppend(ids[1..], up, c);
      Regroup(if ids[0] !in up then [ids[0]] else [], Roots(ids[1..], up), [c]);
    }
  }

  lemma AppendTail(ids: seq<Id>, c: Id)
    requires ids != []
    ensures (ids + [c])[0] == ids[0] && (ids + [c])[1..] == ids[1..] + [c]
  {
  }

  lemma Regroup(a: seq<Id>, b: seq<Id>, c: seq<Id>)
    ensures a + (b + c) == a + b + c
  {
  }

  lemma RefsAppend(nodes: map<Id, Node>, ids: seq<Id>, c: Id)
    requires c in nodes && forall i :: 0 <= i < |ids| ==> ids[i] in nodes
    ensures Refs(nodes, ids + [c]) == Refs(nodes, ids) + [nodes[c]]
  {
  }

  method BuildForest(t: Table, rows: seq<Id>) returns (roots: seq<Node>, ghost nodes: map<Id, Node>)
    requires Distinct(rows) && forall i :: 0 <= i < |rows| ==> rows[i] in t
    ensures fresh(nodes.Values)
    ensures Linked(nodes, rows, UpOf(t, rows))
    ensures roots == Refs(nodes, Roots(rows, UpOf(t, rows)))
  {
    ghost var up := UpOf(t, rows);
    var lookup := NewNodes(rows);
    nodes := lookup;
    roots := [];
    NothingAttached(lookup, rows, up);
    for i := 0 to |rows|
      invariant LinkedUpTo(lookup, rows, i, up)
      invariant roots == Refs(lookup, Roots(rows[..i], up))
    {
      roots := Attach(t, lookup, rows, i, roots);
    }
    assert rows[..|rows|] == rows;
  }

  /** After the first i rows have been attached. */
  ghost predicate LinkedUpTo(nodes: map<Id, Node>, rows: seq<Id>, i: nat, up: map<Id, Id>)
    requires i <= |rows|
    reads nodes.Values
  {
    && (forall x :: x in rows <==> x in nodes)
    && (forall x :: x in nodes ==> nodes[x].id == x && nodes[x].replies == Refs(nodes, Children(rows[..i], up, x)))
  }

  lemma NothingAttached(nodes: map<Id, Node>, rows: seq<Id>, up: map<Id, Id>)
    requires nodes.Keys == (set x | x in rows) && forall x :: x in nodes ==> nodes[x].id == x && nodes[x].replies == []
    ensures LinkedUpTo(nodes, rows, 0, up) && Roots(rows[..0], up) == []
  {
  }

  /** One row of the second loop. */
  method Attach(t: Table, lookup: map<Id, Node>, rows: seq<Id>, i: nat, roots: seq<Node>) returns (out: seq<Node>)
    requires i < |rows| && rows[i] in t
    requires LinkedUpTo(lookup, rows, i, UpOf(t, rows)) && roots == Refs(lookup, Roots(rows[..i], UpOf(t, rows)))
    modifies lookup.Values
    ensures LinkedUpTo(lookup, rows, i + 1, UpOf(t, rows)) && out == Refs(lookup, Roots(rows[..i + 1], UpOf(t, rows)))
  {
    hide Children, Roots, Refs;
    ghost var up := UpOf(t, rows);
    var c := rows[i];
    out := roots;
    assert rows[..i + 1] == rows[..i] + [c];
    RootsAppend(rows[..i], up, c);
    var parent := t[c].parent;
    if parent.Some? && parent.value in lookup {
      AttachChild(lookup, rows, i, parent.value, up);
    } else {
      forall x { ChildrenAppend(rows[..i], up, c, x); }
      RefsAppend(lookup, Roots(rows[..i], up), c);
      out := out + [lookup[c]];
    }
  }

  method AttachChild(lookup: map<Id, Node>, rows: seq<Id>, i: nat, parent: Id, ghost up: map<Id, Id>)
    requires i < |rows| && LinkedUpTo(lookup, rows, i, up) && parent in lookup
    requires rows[i] in up && up[rows[i]] == parent
    modifies lookup.Values
    ensures LinkedUpTo(lookup, rows, i + 1, up)
  {
    hide Children, Refs;
    var c := rows[i];
    assert rows[..i + 1] == rows[..i] + [c];
    ghost var before := map x | x in lookup :: lookup[x].replies;
    var node := lookup[parent];
    RefsAppend(lookup, Children(rows[..i], up, parent), c);
    node.replies := node.replies + [lookup[c]];
    forall x | x in lookup ensures lookup[x].replies == Refs(lookup, Children(rows[..i + 1], up, x)) {
      ChildrenAppend(rows[..i], up, c, x);
      assert x != parent ==> lookup[x] != node && lookup[x].replies == before[x];
    }
  }

  method NewNodes(rows: seq<Id>) returns (nodes: map<Id, Node>)
    ensures nodes.Keys == set x | x in rows
    ensures fresh(nodes.Values)
    ensures forall x :: x in nodes ==> nodes[x].id == x && nodes[x].replies == []
  {
    nodes := map[];
    for i := 0 to |rows|
      invariant nodes.Keys == set x | x in rows[..i]
      invariant forall x :: x in nodes ==> fresh(nodes[x]) && nodes[x].id == x && nodes[x].replies == []
    {
      var node := new Node(rows[i]);
      assert rows[..i + 1] == rows[..i] + [rows[i]];
      nodes := nodes[rows[i] := node];
    }
    assert rows[..|rows|] == rows;
  }

  // ---------------------------------------------------------------------------------------
  // The nodes show the forest
  // ---------------------------------------------------------------------------------------

  ghost predicate Shows(node: Node, tree: Tree, all: set<Node>)
    reads all
    decreases tree
  {
    node in all && node.id == tree.id && ShowAll(node.replies, tree.replies, all)
  }

  ghost predicate ShowAll(nodes: seq<Node>, trees: seq<Tree>, all: set<Node>)
    reads all
    decreases trees
  {
    && |nodes| == |trees|
    && (trees != [] ==> Shows(nodes[0], trees[0], all) && ShowAll(nodes[1..], trees[1..], all))
  }

  lemma RefsTail(nodes: map<Id, Node>, ids: seq<Id>)
    requires ids != [] && forall i :: 0 <= i < |ids| ==> ids[i] in nodes
    ensures Refs(nodes, ids)[0] == nodes[ids[0]] && Refs(nodes, ids)[1..] == Refs(nodes, ids[1..])
  {
  }

  lemma {:induction false} NodeShowsTree(nodes: map<Id, Node>, rows: seq<Id>, up: map<Id, Id>, rank: map<Id, nat>,
                                         id: Id)
    requires WellFounded(rows, up, rank) && Linked(nodes, rows, up) && id in rows
    ensures Shows(nodes[id], TreeOf(rows, up, rank, id), nodes.Values)
    decreases Ceiling(rows, rank) - rank[id], 1, 0
  {
    hide WellFounded, Ceiling;
    NodesShowTrees(nodes, rows, up, rank, Children(rows, up, id), id);
  }

  lemma {:induction false} NodesShowTrees(nodes: map<Id, Node>, rows: seq<Id>, up: map<Id, Id>, rank: map<Id, nat>,
                                          some: seq<Id>, parent: Id)
    requires WellFounded(rows, up, rank) && Linked(nodes, rows, up) && parent in rows
    requires forall i :: 0 <= i < |some| ==> some[i] in rows && some[i] in up && up[some[i]] == parent
    ensures forall i :: 0 <= i < |some| ==> some[i] in nodes
    ensures ShowAll(Refs(nodes, some), TreesOf(rows, up, rank, some, parent), nodes.Values)
    decreases Ceiling(rows, rank) - rank[parent], 0, |some|
  {
    hide WellFounded, Ceiling, TreeOf, Shows;
    if some != [] {
      BelowCeiling(rows, up, rank, some[0]);
      NodeShowsTree(nodes, rows, up, rank, some[0]);
      NodesShowTrees(nodes, rows, up, rank, some[1..], parent);
      RefsTail(nodes, some);
    }
  }

  lemma {:induction false} NodesShowRoots(nodes: map<Id, Node>, rows: seq<Id>, up: map<Id, Id>, rank: map<Id, nat>,
                                          some: seq<Id>)
    requires WellFounded(rows, up, rank) && Linked(nodes, rows, up)
    requires forall i :: 0 <= i < |some| ==> some[i] in rows
    ensures forall i :: 0 <= i < |some| ==> some[i] in nodes
    ensures ShowAll(Refs(nodes, some), RootTrees(rows, up, rank, some), nodes.Values)
  {
    hide WellFounded, TreeOf, Shows;
    if some != [] {
      NodeShowsTree(nodes, rows, up, rank, some[0]);
      NodesShowRoots(nodes, rows, up, rank, some[1..]);
      RefsTail(nodes, some);
    }
  }

  /** `get_comments`: new nodes that show the forest of the listing. */
  method GetComments(t: Table, problem: Id, solution: Option<Id>, rows: seq<Id>, ghost rank: map<Id, nat>)
    returns (roots: seq<Node>, ghost nodes: map<Id, Node>)
    requires Ranks(t, rank) && IsListing(t, problem, solution, rows)
    ensures fresh(nodes.Values)
    ensures WellFounded(rows, UpOf(t, rows), rank)
    ensures ShowAll(roots, ForestOf(rows, UpOf(t, rows), rank), nodes.Values)
  {
    roots, nodes := BuildForest(t, rows);
    ListingIsWellFounded(t, problem, solution, rows, rank);
    NodesShowRoots(nodes, rows, UpOf(t, rows), rank, Roots(rows, UpOf(t, rows)));
  }

  /** `_find_comment_recursive` on the nodes. */
  method FindNode(tree: seq<Node>, id: Id, ghost trees: seq<Tree>, ghost all: set<Node>) returns (r: Option<Node>)
    requires ShowAll(tree, trees, all)
    ensures r.Some? <==> id in Flatten(trees)
    ensures r.Some? ==> r.value.id == id && r.value in all
    decreases trees
  {
    if tree == [] {
      return None;
    }
    if tree[0].id == id {
      return Some(tree[0]);
    }
    r := FindNode(tree[0].replies, id, trees[0].replies, all);
    if r.None? {
      r := FindNode(tree[1..], id, trees[1..], all);
    }
  }

  // ---------------------------------------------------------------------------------------
  // What the listing means
  // ---------------------------------------------------------------------------------------

  lemma Occurs(ids: seq<Id>, x: Id)
    ensures multiset(ids)[x] > 0 <==> x in ids
  {
    assert x in multiset(ids) <==> multiset(ids)[x] > 0;
  }

  /** Every comment in scope occurs in the answer exactly once, and nothing else does. */
  lemma ListingConserves(t: Table, problem: Id, solution: Option<Id>, rows: seq<Id>, rank: map<Id, nat>)
    requires Ranks(t, rank) && IsListing(t, problem, solution, rows)
    ensures WellFounded(rows, UpOf(t, rows), rank)
    ensures var flat := Flatten(ForestOf(rows, UpOf(t, rows), rank));
            forall x :: multiset(flat)[x] == One(x in t && InScope(t[x], problem, solution))
  {
    ListingIsWellFounded(t, problem, solution, rows, rank);
    ForestConserves(rows, UpOf(t, rows), rank);
    forall x ensures multiset(rows)[x] == One(x in t && InScope(t[x], problem, solution)) {
      CountOfDistinct(rows, x);
    }
  }

  lemma ListedIsFound(t: Table, problem: Id, solution: Option<Id>, rows: seq<Id>, rank: map<Id, nat>, id: Id)
    requires Ranks(t, rank) && IsListing(t, problem, solution, rows)
    requires id in t && InScope(t[id], problem, solution)
    ensures WellFounded(rows, UpOf(t, rows), rank)
    ensures var found := Find(ForestOf(rows, UpOf(t, rows), rank), id); found.Some? && found.value.id == id
  {
    ListingConserves(t, problem, solution, rows, rank);
    FindIff(ForestOf(rows, UpOf(t, rows), rank), id);
    var flat := Flatten(ForestOf(rows, UpOf(t, rows), rank));
    Occurs(flat, id);
  }

  /** A reply stands under its parent when both are in scope. A comment on the problem may answer one
      on a solution: then it is a root of the problem's listing. */
  lemma WhoIsARoot(t: Table, problem: Id, solution: Option<Id>, rows: seq<Id>, x: Id)
    requires Threaded(t) && IsListing(t, problem, solution, rows) && x in rows
    ensures x in t
    ensures x in Roots(rows, UpOf(t, rows)) <==>
            t[x].parent.None? || (solution.None? && t[t[x].parent.value].solution.Some?)
    ensures t[x].parent.Some? && x !in Roots(rows, UpOf(t, rows)) ==>
              x in Children(rows, UpOf(t, rows), t[x].parent.value)
  {
    var up := UpOf(t, rows);
    RootsExactly(rows, up, x);
    Occurs(Roots(rows, up), x);
    if x in up {
      ChildrenExactly(rows, up, t[x].parent.value, x);
      Occurs(Children(rows, up, t[x].parent.value), x);
    }
    forall p | p in rows ensures p in t && InScope(t[p], problem, solution) {
      var i :| 0 <= i < |rows| && rows[i] == p;
    }
  }

  /** After any run from the empty table, the listing of any problem or solution holds each of its
      comments exactly once. */
  lemma EveryCommentIsListedOnce(sanitize: string -> string, ops: seq<Op>, problem: Id, solution: Option<Id>,
                                 rows: seq<Id>)
    returns (rank: map<Id, nat>)
    requires IsListing(Run(sanitize, map[], ops), problem, solution, rows)
    ensures var t := Run(sanitize, map[], ops);
            && Threaded(t) && Ranks(t, rank)
            && WellFounded(rows, UpOf(t, rows), rank)
            && var flat := Flatten(ForestOf(rows, UpOf(t, rows), rank));
               forall x :: multiset(flat)[x] == One(x in t && t[x].problem == problem && t[x].solution == solution)
  {
    hide Run, Step;
    EmptyTable();
    RunsKeepThreads(sanitize, map[], ops);
    var t := Run(sanitize, map[], ops);
    rank :| Ranks(t, rank);
    ListingConserves(t, problem, solution, rows, rank);
  }

  /** Siblings and roots come oldest first. */
  lemma AnswerIsInTimeOrder(t: Table, problem: Id, solution: Option<Id>, rows: seq<Id>, parent: Id)
    requires IsListing(t, problem, solution, rows)
    ensures OldestFirst(t, Children(rows, UpOf(t, rows), parent)) && OldestFirst(t, Roots(rows, UpOf(t, rows)))
  {
    hide Children, Roots;
    SiblingsKeepOrder(rows, UpOf(t, rows), parent);
    PartIsOldestFirst(t, Children(rows, UpOf(t, rows), parent), rows);
    PartIsOldestFirst(t, Roots(rows, UpOf(t, rows)), rows);
  }

  ghost predicate OldestFirst(t: Table, ids: seq<Id>) {
    && (forall i :: 0 <= i < |ids| ==> ids[i] in t)
    && (forall i, j :: 0 <= i < j < |ids| ==> t[ids[i]].createdAt <= t[ids[j]].createdAt)
  }

  lemma {:induction false} PartIsOldestFirst(t: Table, part: seq<Id>, whole: seq<Id>)
    requires Subsequence(part, whole) && OldestFirst(t, whole)
    ensures OldestFirst(t, part) && forall i :: 0 <= i < |part| ==> part[i] in whole
    decreases |whole|
  {
    if whole == [] {
    } else if Subsequence(part, whole[1..]) {
      PartIsOldestFirst(t, part, whole[1..]);
    } else {
      PartIsOldestFirst(t, part[1..], whole[1..]);
      forall i | 0 <= i < |part| ensures part[i] in whole && t[part[0]].createdAt <= t[part[i]].createdAt {
        if i > 0 {
          assert part[i] == part[1..][i - 1] && part[1..][i - 1] in whole[1..];
        }
      }
    }
  }

  lemma EmptyTable()
    ensures Threaded(map[]) && Acyclic(map[])
  {
    assert Ranks(map[], map[]);
  }

  /** After any run, a create that succeeds is found in the listing of the same problem and solution that
      follows it, so the "not found in tree" branch is never taken. */
  lemma CreatedIsFound(sanitize: string -> string, ops: seq<Op>, problem: Id, solution: Option<Id>, user: Id,
                       parent: Option<Id>,
                       body: string, anonymous: bool, newId: Id, now: int, rows: seq<Id>)
    returns (rank: map<Id, nat>)
    requires newId !in Run(sanitize, map[], ops)
    requires Created(sanitize, Run(sanitize, map[], ops), problem, solution, user, parent, body, anonymous, newId,
                     now).1.Ok?
    requires IsListing(Created(sanitize, Run(sanitize, map[], ops), problem, solution, user, parent, body, anonymous,
                               newId, now).0,
                       problem, solution, rows)
    ensures var t := Created(sanitize, Run(sanitize, map[], ops), problem, solution, user, parent, body, anonymous,
                             newId, now).0;
            && Ranks(t, rank) && WellFounded(rows, UpOf(t, rows), rank)
            && var found := Find(ForestOf(rows, UpOf(t, rows), rank), newId); found.Some? && found.value.id == newId
  {
    hide Run, WellFounded, Ranks, IsListing;
    EmptyTable();
    RunsKeepThreads(sanitize, map[], ops);
    var before := Run(sanitize, map[], ops);
    var t := Created(sanitize, before, problem, solution, user, parent, body, anonymous, newId, now).0;
    StepKeepsThreads(sanitize, before, Add(problem, solution, user, parent, body, anonymous, newId, now));
    rank :| Ranks(t, rank);
    ListedIsFound(t, problem, solution, rows, rank, newId);
  }
}
