/** Trees built from parent pointers: what a threaded listing has to satisfy. */
module Forest {
  import opened Prelude
  import opened Sequences

  type Id = nat

  datatype Tree = Tree(id: Id, replies: seq<Tree>)

  ghost predicate Distinct(ids: seq<Id>) {
    forall i, j :: 0 <= i < j < |ids| ==> ids[i] != ids[j]
  }

  /** The rows in their order, and for those whose parent is among them that parent. A rank that grows
      from parent to child witnesses that there is no cycle. */
  ghost predicate WellFounded(ids: seq<Id>, up: map<Id, Id>, rank: map<Id, nat>) {
    && Distinct(ids)
    && (forall x :: x in up ==> x in ids && up[x] in ids)
    && (forall x :: x in ids ==> x in rank)
    && (forall x :: x in up ==> x in rank && up[x] in rank && rank[up[x]] < rank[x])
  }

  /** The rows under `parent`, in listing order. */
  function Children(ids: seq<Id>, up: map<Id, Id>, parent: Id): (r: seq<Id>)
    ensures forall i :: 0 <= i < |r| ==> r[i] in ids && r[i] in up && up[r[i]] == parent
  {
    if ids == [] then []
    else (if ids[0] in up && up[ids[0]] == parent then [ids[0]] else []) + Children(ids[1..], up, parent)
  }

  function Roots(ids: seq<Id>, up: map<Id, Id>): (r: seq<Id>)
    ensures forall i :: 0 <= i < |r| ==> r[i] in ids && r[i] !in up
  {
    if ids == [] then []
    else (if ids[0] !in up then [ids[0]] else []) + Roots(ids[1..], up)
  }

  /** How far ids may still be above the highest rank. */
  function Ceiling(ids: seq<Id>, rank: map<Id, nat>): (r: nat)
    ensures forall i :: 0 <= i < |ids| && ids[i] in rank ==> rank[ids[i]] < r
  {
    if ids == [] then 0
    else
      var rest := Ceiling(ids[1..], rank);
      assert forall i :: 0 < i < |ids| ==> ids[i] == ids[1..][i - 1];
      if ids[0] in rank && rest <= rank[ids[0]] then rank[ids[0]] + 1 else rest
  }

  ghost function TreeOf(ids: seq<Id>, up: map<Id, Id>, rank: map<Id, nat>, id: Id): Tree
    requires WellFounded(ids, up, rank) && id in ids
    decreases Ceiling(ids, rank) - rank[id], 1, 0
  {
    Tree(id, TreesOf(ids, up, rank, Children(ids, up, id), id))
  }

  /** The trees of some children of `parent`. */
  ghost function TreesOf(ids: seq<Id>, up: map<Id, Id>, rank: map<Id, nat>, some: seq<Id>, parent: Id): (r: seq<Tree>)
    requires WellFounded(ids, up, rank) && parent in ids
    requires forall i :: 0 <= i < |some| ==> some[i] in ids && some[i] in up && up[some[i]] == parent
    ensures |r| == |some|
    decreases Ceiling(ids, rank) - rank[parent], 0, |some|
  {
    if some == [] then []
    else [TreeOf(ids, up, rank, some[0])] + TreesOf(ids, up, rank, some[1..], parent)
  }

  ghost function RootTrees(ids: seq<Id>, up: map<Id, Id>, rank: map<Id, nat>, some: seq<Id>): (r: seq<Tree>)
    requires WellFounded(ids, up, rank) && forall i :: 0 <= i < |some| ==> some[i] in ids
    ensures |r| == |some|
  {
    if some == [] then []
    else [TreeOf(ids, up, rank, some[0])] + RootTrees(ids, up, rank, some[1..])
  }

  /** The forest a listing stands for: one tree per root, in order. */
  ghost function ForestOf(ids: seq<Id>, up: map<Id, Id>, rank: map<Id, nat>): seq<Tree>
    requires WellFounded(ids, up, rank)
  {
    RootTrees(ids, up, rank, Roots(ids, up))
  }

  /** Pre-order. */
  function Flatten(trees: seq<Tree>): seq<Id> {
    if trees == [] then []
    else [trees[0].id] + Flatten(trees[0].replies) + Flatten(trees[1..])
  }

  function One(b: bool): nat { if b then 1 else 0 }

  // ---------------------------------------------------------------------------------------
  // Order of siblings
  // ---------------------------------------------------------------------------------------

  lemma {:induction false} ChildrenKeepOrder(ids: seq<Id>, up: map<Id, Id>, parent: Id)
    requires Distinct(ids)
    ensures Subsequence(Children(ids, up, parent), ids)
  {
    hide Distinct, Subsequence;
    if ids == [] {
      NoRows(ids);
    } else {
      TailDistinct(ids);
      ChildrenKeepOrder(ids[1..], up, parent);
      var c := Children(ids[1..], up, parent);
      AddedInFront(ids[0], c, ids[1..]);
      assert [] + c == c && ids == [ids[0]] + ids[1..];
    }
  }

  lemma {:induction false} RootsKeepOrder(ids: seq<Id>, up: map<Id, Id>)
    requires Distinct(ids)
    ensures Subsequence(Roots(ids, up), ids)
  {
    hide Distinct, Subsequence;
    if ids == [] {
      NoRows(ids);
    } else {
      TailDistinct(ids);
      RootsKeepOrder(ids[1..], up);
      var r := Roots(ids[1..], up);
      AddedInFront(ids[0], r, ids[1..]);
      assert [] + r == r && ids == [ids[0]] + ids[1..];
    }
  }

  lemma NoRows(ids: seq<Id>)
    requires ids == []
    ensures Subsequence([], ids)
  {
  }

  /** Siblings and roots keep the order of the rows. */
  lemma SiblingsKeepOrder(ids: seq<Id>, up: map<Id, Id>, parent: Id)
    requires Distinct(ids)
    ensures Subsequence(Children(ids, up, parent), ids)
    ensures Subsequence(Roots(ids, up), ids)
  {
    hide Subsequence;
    ChildrenKeepOrder(ids, up, parent);
    RootsKeepOrder(ids, up);
  }

  /** A row is listed under a parent exactly when that is its parent among the rows, and once. */
  lemma {:induction false} ChildrenExactly(ids: seq<Id>, up: map<Id, Id>, parent: Id, x: Id)
    requires Distinct(ids)
    ensures multiset(Children(ids, up, parent))[x] == One(x in ids && x in up && up[x] == parent)
  {
    hide Distinct;
    if ids != [] {
      TailDistinct(ids);
      ChildrenExactly(ids[1..], up, parent, x);
      HeadAndTail(ids, x);
      var c := Children(ids[1..], up, parent);
      PrependCount(ids[0], c, x);
      assert [] + c == c;
    }
  }

  lemma PrependCount(head: Id, tail: seq<Id>, x: Id)
    ensures multiset([head] + tail)[x] == One(x == head) + multiset(tail)[x]
  {
    assert multiset([head] + tail) == multiset{head} + multiset(tail);
  }

  /** The roots are the rows without a parent among the rows, once each. */
  lemma {:induction false} RootsExactly(ids: seq<Id>, up: map<Id, Id>, x: Id)
    requires Distinct(ids)
    ensures multiset(Roots(ids, up))[x] == One(x in ids && x !in up)
  {
    hide Distinct;
    if ids != [] {
      TailDistinct(ids);
      RootsExactly(ids[1..], up, x);
      HeadAndTail(ids, x);
      var r := Roots(ids[1..], up);
      PrependCount(ids[0], r, x);
      assert [] + r == r;
    }
  }

  lemma TailDistinct(ids: seq<Id>)
    requires Distinct(ids) && ids != []
    ensures Distinct(ids[1..]) && ids[0] !in ids[1..]
  {
  }

  lemma HeadAndTail(ids: seq<Id>, x: Id)
    requires ids != []
    ensures x in ids <==> x == ids[0] || x in ids[1..]
  {
  }

  // ---------------------------------------------------------------------------------------
  // Conservation
  // ---------------------------------------------------------------------------------------

  function Count(trees: seq<Tree>, x: Id): nat {
    multiset(Flatten(trees))[x]
  }

  lemma CountCons(tree: Tree, rest: seq<Tree>, x: Id)
    ensures Count([tree] + rest, x) == One(tree.id == x) + Count(tree.replies, x) + Count(rest, x)
  {
    var all := [tree] + rest;
    assert all[1..] == rest;
    assert Flatten(all) == [tree.id] + Flatten(tree.replies) + Flatten(rest);
  }

  /** `a` lies on the chain of parents that starts at `x`, `x` included. */
  ghost predicate Above(ids: seq<Id>, up: map<Id, Id>, rank: map<Id, nat>, a: Id, x: Id)
    requires WellFounded(ids, up, rank) && x in ids
    decreases rank[x]
  {
    a == x || (x in up && Above(ids, up, rank, a, up[x]))
  }

  /** The last step of the chain of `x` before `a`. */
  ghost function Toward(ids: seq<Id>, up: map<Id, Id>, rank: map<Id, nat>, a: Id, x: Id): (r: Id)
    requires WellFounded(ids, up, rank) && x in ids && x != a && Above(ids, up, rank, a, x)
    ensures r in ids && r in up && up[r] == a
    decreases rank[x]
  {
    if up[x] == a then x else Toward(ids, up, rank, a, up[x])
  }

  /** Where the chain of `x` ends. */
  ghost function Top(ids: seq<Id>, up: map<Id, Id>, rank: map<Id, nat>, x: Id): (r: Id)
    requires WellFounded(ids, up, rank) && x in ids
    ensures r in ids && r !in up
    decreases rank[x]
  {
    if x in up then Top(ids, up, rank, up[x]) else x
  }

  lemma {:induction false} AboveRanksLower(ids: seq<Id>, up: map<Id, Id>, rank: map<Id, nat>, a: Id, x: Id)
    requires WellFounded(ids, up, rank) && x in ids && Above(ids, up, rank, a, x)
    ensures a in ids && rank[a] <= rank[x]
    decreases rank[x]
  {
    if a != x {
      AboveRanksLower(ids, up, rank, a, up[x]);
    }
  }

  /** Exactly one child of `a` lies on the chain of a row below `a`, none on the chain of any other. */
  lemma {:induction false} OneChildOnChain(ids: seq<Id>, up: map<Id, Id>, rank: map<Id, nat>, a: Id, c: Id, x: Id)
    requires WellFounded(ids, up, rank) && x in ids && c in up && up[c] == a
    ensures Above(ids, up, rank, c, x) <==> (x != a && Above(ids, up, rank, a, x) && Toward(ids, up, rank, a, x) == c)
    decreases rank[x]
  {
    if x in up {
      OneChildOnChain(ids, up, rank, a, c, up[x]);
      if c != x && up[x] == a {
        if Above(ids, up, rank, c, a) {
          AboveRanksLower(ids, up, rank, c, a);
        }
      }
      if x == a && Above(ids, up, rank, c, x) {
        AboveRanksLower(ids, up, rank, c, x);
      }
      if c == x {
        assert Above(ids, up, rank, a, up[x]);
      }
    }
  }

  lemma {:induction false} RootIsTop(ids: seq<Id>, up: map<Id, Id>, rank: map<Id, nat>, r: Id, x: Id)
    requires WellFounded(ids, up, rank) && x in ids && r in ids && r !in up
    ensures Above(ids, up, rank, r, x) <==> r == Top(ids, up, rank, x)
    decreases rank[x]
  {
    if x in up {
      RootIsTop(ids, up, rank, r, up[x]);
    }
  }

  lemma BelowCeiling(ids: seq<Id>, up: map<Id, Id>, rank: map<Id, nat>, c: Id)
    requires WellFounded(ids, up, rank) && c in up
    ensures c in rank && up[c] in rank && rank[up[c]] < rank[c] < Ceiling(ids, rank)
  {
  }

  lemma TreeHead(ids: seq<Id>, up: map<Id, Id>, rank: map<Id, nat>, id: Id)
    requires WellFounded(ids, up, rank) && id in ids
    ensures TreeOf(ids, up, rank, id).id == id
  {
  }

  lemma HeadCount(some: seq<Id>)
    requires some != []
    ensures multiset(some) == multiset{some[0]} + multiset(some[1..])
  {
    assert some == [some[0]] + some[1..];
  }

  /** A row occurs in the tree of `id` once if `id` is on its chain and not at all otherwise. */
  lemma {:induction false} CountInTree(ids: seq<Id>, up: map<Id, Id>, rank: map<Id, nat>, id: Id, x: Id)
    requires WellFounded(ids, up, rank) && id in ids && x in ids
    ensures One(id == x) + Count(TreeOf(ids, up, rank, id).replies, x) == One(Above(ids, up, rank, id, x))
    decreases Ceiling(ids, rank) - rank[id], 1, 0
  {
    var some := Children(ids, up, id);
    CountInTrees(ids, up, rank, some, id, x);
    ChildrenExactly(ids, up, id, x);
    if Above(ids, up, rank, id, x) && id != x {
      var t := Toward(ids, up, rank, id, x);
      ChildrenExactly(ids, up, id, t);
    }
  }

  lemma {:induction false} CountInTrees(ids: seq<Id>, up: map<Id, Id>, rank: map<Id, nat>, some: seq<Id>, parent: Id,
                                        x: Id)
    requires WellFounded(ids, up, rank) && parent in ids && x in ids
    requires forall i :: 0 <= i < |some| ==> some[i] in ids && some[i] in up && up[some[i]] == parent
    ensures Count(TreesOf(ids, up, rank, some, parent), x)
            == if x != parent && Above(ids, up, rank, parent, x) then multiset(some)[Toward(ids, up, rank, parent, x)]
              else 0
    decreases Ceiling(ids, rank) - rank[parent], 0, |some|
  {
    hide WellFounded, Distinct, Above, Toward, Count, TreeOf, Ceiling;
    if some == [] {
      CountNone(x);
    } else {
      BelowCeiling(ids, up, rank, some[0]);
      CountInTree(ids, up, rank, some[0], x);
      CountInTrees(ids, up, rank, some[1..], parent, x);
      CountCons(TreeOf(ids, up, rank, some[0]), TreesOf(ids, up, rank, some[1..], parent), x);
      OneChildOnChain(ids, up, rank, parent, some[0], x);
      TreeHead(ids, up, rank, some[0]);
      HeadCount(some);
    }
  }

  lemma {:induction false} CountInRoots(ids: seq<Id>, up: map<Id, Id>, rank: map<Id, nat>, some: seq<Id>, x: Id)
    requires WellFounded(ids, up, rank) && x in ids
    requires forall i :: 0 <= i < |some| ==> some[i] in ids && some[i] !in up
    ensures Count(RootTrees(ids, up, rank, some), x) == multiset(some)[Top(ids, up, rank, x)]
  {
    hide WellFounded, Distinct, Above, Top, Count, TreeOf;
    if some == [] {
      CountNone(x);
    } else {
      CountInTree(ids, up, rank, some[0], x);
      CountInRoots(ids, up, rank, some[1..], x);
      CountCons(TreeOf(ids, up, rank, some[0]), RootTrees(ids, up, rank, some[1..]), x);
      RootIsTop(ids, up, rank, some[0], x);
      TreeHead(ids, up, rank, some[0]);
      HeadCount(some);
    }
  }

  /** The flattened forest holds every row exactly once and nothing else, whatever the order of the
      rows: children may come before their parents. */
  lemma {:induction false} ForestConserves(ids: seq<Id>, up: map<Id, Id>, rank: map<Id, nat>)
    requires WellFounded(ids, up, rank)
    ensures multiset(Flatten(ForestOf(ids, up, rank))) == multiset(ids)
  {
    hide WellFounded, Top;
    var roots := Roots(ids, up);
    forall x ensures multiset(Flatten(ForestOf(ids, up, rank)))[x] == multiset(ids)[x] {
      DistinctCount(ids, up, rank, x);
      if x in ids {
        CountInRoots(ids, up, rank, roots, x);
        RootsExactly(ids, up, Top(ids, up, rank, x));
      } else {
        RootTreesWithin(ids, up, rank, roots, x);
      }
    }
  }

  lemma {:induction false} DistinctCount(ids: seq<Id>, up: map<Id, Id>, rank: map<Id, nat>, x: Id)
    requires WellFounded(ids, up, rank)
    ensures Distinct(ids) && multiset(ids)[x] == One(x in ids)
  {
    CountOfDistinct(ids, x);
  }

  lemma {:induction false} CountOfDistinct(ids: seq<Id>, x: Id)
    requires Distinct(ids)
    ensures multiset(ids)[x] == One(x in ids)
  {
    if ids != [] {
      TailDistinct(ids);
      CountOfDistinct(ids[1..], x);
      HeadCount(ids);
      HeadAndTail(ids, x);
    }
  }

  /** A tree holds rows only. */
  lemma {:induction false} TreeWithin(ids: seq<Id>, up: map<Id, Id>, rank: map<Id, nat>, id: Id, x: Id)
    requires WellFounded(ids, up, rank) && id in ids && x !in ids
    ensures Count(TreeOf(ids, up, rank, id).replies, x) == 0
    decreases Ceiling(ids, rank) - rank[id], 1, 0
  {
    hide WellFounded, Ceiling, Count;
    TreesWithin(ids, up, rank, Children(ids, up, id), id, x);
  }

  lemma {:induction false} TreesWithin(ids: seq<Id>, up: map<Id, Id>, rank: map<Id, nat>, some: seq<Id>, parent: Id,
                                       x: Id)
    requires WellFounded(ids, up, rank) && parent in ids && x !in ids
    requires forall i :: 0 <= i < |some| ==> some[i] in ids && some[i] in up && up[some[i]] == parent
    ensures Count(TreesOf(ids, up, rank, some, parent), x) == 0
    decreases Ceiling(ids, rank) - rank[parent], 0, |some|
  {
    hide WellFounded, Ceiling, Count, TreeOf;
    if some == [] {
      CountNone(x);
    } else {
      BelowCeiling(ids, up, rank, some[0]);
      TreeWithin(ids, up, rank, some[0], x);
      TreesWithin(ids, up, rank, some[1..], parent, x);
      TreeHead(ids, up, rank, some[0]);
      CountCons(TreeOf(ids, up, rank, some[0]), TreesOf(ids, up, rank, some[1..], parent), x);
    }
  }

  lemma CountNone(x: Id)
    ensures Count([], x) == 0
  {
  }

  lemma {:induction false} RootTreesWithin(ids: seq<Id>, up: map<Id, Id>, rank: map<Id, nat>, some: seq<Id>, x: Id)
    requires WellFounded(ids, up, rank) && x !in ids && forall i :: 0 <= i < |some| ==> some[i] in ids
    ensures Count(RootTrees(ids, up, rank, some), x) == 0
  {
    hide WellFounded, Count, TreeOf;
    if some == [] {
      CountNone(x);
    } else {
      TreeWithin(ids, up, rank, some[0], x);
      RootTreesWithin(ids, up, rank, some[1..], x);
      TreeHead(ids, up, rank, some[0]);
      CountCons(TreeOf(ids, up, rank, some[0]), RootTrees(ids, up, rank, some[1..]), x);
    }
  }

  // ---------------------------------------------------------------------------------------
  // Searching
  // ---------------------------------------------------------------------------------------

  /** The depth-first search of the routes. */
  function Find(trees: seq<Tree>, id: Id): Option<Tree> {
    if trees == [] then None
    else if trees[0].id == id then Some(trees[0])
    else
      var found := Find(trees[0].replies, id);
      if found.Some? then found else Find(trees[1..], id)
  }

  /** It finds an id exactly when the id occurs in the forest. */
  lemma {:induction false} FindIff(trees: seq<Tree>, id: Id)
    ensures Find(trees, id).Some? <==> id in Flatten(trees)
    ensures Find(trees, id).Some? ==> Find(trees, id).value.id == id
  {
    if trees != [] {
      FindIff(trees[0].replies, id);
      FindIff(trees[1..], id);
    }
  }
}
