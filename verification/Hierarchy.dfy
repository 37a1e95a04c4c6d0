/** The project hierarchy: level-by-level expansion from the roots, type filter, stable sort. */
module Hierarchy {
  import opened Prelude

  type Id = nat

  datatype Ticket = Ticket(project: Id, parent: Option<Id>, kind: string, number: int, createdAt: int)

  /** A row of the recursive query. */
  datatype Row = Row(id: Id, depth: nat, parent: Option<Id>)

  datatype Item = Item(id: Id, depth: nat, parent: Option<Id>, ordinal: int, createdAt: int)

  type Table = map<Id, Ticket>

  /** Rows of the table, each once. */
  ghost predicate Scanning(t: Table, scan: seq<Id>) {
    && (forall i, j :: 0 <= i < j < |scan| ==> scan[i] != scan[j])
    && (forall i :: 0 <= i < |scan| ==> scan[i] in t)
  }

  /** The rows of the table in the order the database scans them. */
  ghost predicate IsScan(t: Table, scan: seq<Id>) {
    Scanning(t, scan) && forall x :: x in t ==> x in scan
  }

  /** `max(1, min(8, max_depth))`. */
  function DepthLimit(maxDepth: int): (r: nat)
    ensures 1 <= r <= 8 && (1 <= maxDepth <= 8 ==> r == maxDepth)
  {
    var m := if maxDepth < 8 then maxDepth else 8;
    if m > 1 then m else 1
  }

  // ---------------------------------------------------------------------------------------
  // The recursive query
  // ---------------------------------------------------------------------------------------

  function RootRows(t: Table, project: Id, scan: seq<Id>): seq<Row>
    requires forall i :: 0 <= i < |scan| ==> scan[i] in t
  {
    if scan == [] then []
    else
      var c := t[scan[0]];
      (if c.project == project && c.parent.None? then [Row(scan[0], 0, None)] else []) + RootRows(t, project, scan[1..])
  }

  /** The tickets of the project whose parent is `h`. */
  function ChildRows(t: Table, project: Id, scan: seq<Id>, h: Row): seq<Row>
    requires forall i :: 0 <= i < |scan| ==> scan[i] in t
  {
    if scan == [] then []
    else
      var c := t[scan[0]];
      (if c.project == project && c.parent == Some(h.id) then [Row(scan[0], h.depth + 1, c.parent)] else [])
      + ChildRows(t, project, scan[1..], h)
  }

  /** One round: the join of the table with the rows of the round before, duplicates kept. */
  function Expand(t: Table, project: Id, scan: seq<Id>, working: seq<Row>): seq<Row>
    requires forall i :: 0 <= i < |scan| ==> scan[i] in t
  {
    if working == [] then []
    else ChildRows(t, project, scan, working[0]) + Expand(t, project, scan, working[1..])
  }

  /** `UNION ALL` of the rounds from depth `depth` on, up to the limit. */
  function Rounds(t: Table, project: Id, scan: seq<Id>, working: seq<Row>, depth: nat, limit: nat): seq<Row>
    requires forall i :: 0 <= i < |scan| ==> scan[i] in t
    requires depth <= limit
    decreases limit - depth
  {
    if depth == limit then working
    else working + Rounds(t, project, scan, Expand(t, project, scan, working), depth + 1, limit)
  }

  // ---------------------------------------------------------------------------------------
  // Stable sorting
  // ---------------------------------------------------------------------------------------

  function Insert<T>(le: (T, T) -> bool, x: T, s: seq<T>): seq<T> {
    if s == [] then [x]
    else if le(x, s[0]) then [x] + s
    else [s[0]] + Insert(le, x, s[1..])
  }

  /** Insertion from the back: an element goes before those that are equal to it and came after it. */
  function Sort<T>(le: (T, T) -> bool, s: seq<T>): seq<T> {
    if s == [] then [] else Insert(le, s[0], Sort(le, s[1..]))
  }

  ghost predicate Ordered<T>(le: (T, T) -> bool, s: seq<T>) {
    forall i, j :: 0 <= i < j < |s| ==> le(s[i], s[j])
  }

  ghost predicate TotalPreorder<T(!new)>(le: (T, T) -> bool) {
    && (forall x, y :: le(x, y) || le(y, x))
    && (forall x, y, z :: le(x, y) && le(y, z) ==> le(x, z))
  }

  lemma Prepend<T(!new)>(le: (T, T) -> bool, x: T, s: seq<T>)
    requires Ordered(le, s) && forall j :: 0 <= j < |s| ==> le(x, s[j])
    ensures Ordered(le, [x] + s)
  {
    var all := [x] + s;
    forall i, j | 0 <= i < j < |all| ensures le(all[i], all[j]) {
      assert all[j] == s[j - 1];
      if i > 0 { assert all[i] == s[i - 1]; }
    }
  }

  lemma OrderedParts<T(!new)>(le: (T, T) -> bool, s: seq<T>)
    requires Ordered(le, s) && s != []
    ensures Ordered(le, s[1..]) && forall j :: 0 <= j < |s[1..]| ==> le(s[0], s[1..][j])
  {
  }

  lemma HeadBelow<T(!new)>(le: (T, T) -> bool, x: T, s: seq<T>)
    requires TotalPreorder(le) && Ordered(le, s) && s != [] && le(x, s[0])
    ensures forall j :: 0 <= j < |s| ==> le(x, s[j])
  {
  }

  lemma {:induction false} InsertMeaning<T(!new)>(le: (T, T) -> bool, x: T, s: seq<T>)
    requires TotalPreorder(le) && Ordered(le, s)
    ensures Ordered(le, Insert(le, x, s))
    ensures multiset(Insert(le, x, s)) == multiset{x} + multiset(s)
  {
    hide Ordered, TotalPreorder;
    if s == [] {
      Alone(le, x);
    } else if le(x, s[0]) {
      HeadBelow(le, x, s);
      Prepend(le, x, s);
      assert multiset([x] + s) == multiset{x} + multiset(s);
    } else {
      OrderedParts(le, s);
      InsertMeaning(le, x, s[1..]);
      var rest := Insert(le, x, s[1..]);
      Either(le, x, s[0]);
      forall j | 0 <= j < |rest| ensures le(s[0], rest[j]) {
        assert rest[j] in multiset(rest);
        assert rest[j] == x || rest[j] in s[1..];
      }
      Prepend(le, s[0], rest);
      assert s == [s[0]] + s[1..];
      assert multiset([s[0]] + rest) == multiset{s[0]} + multiset(rest);
    }
  }

  lemma Alone<T(!new)>(le: (T, T) -> bool, x: T)
    ensures Ordered(le, [x])
  {
  }

  lemma Either<T(!new)>(le: (T, T) -> bool, x: T, y: T)
    requires TotalPreorder(le)
    ensures le(x, y) || le(y, x)
  {
  }

  lemma {:induction false} SortMeaning<T(!new)>(le: (T, T) -> bool, s: seq<T>)
    requires TotalPreorder(le)
    ensures Ordered(le, Sort(le, s)) && multiset(Sort(le, s)) == multiset(s)
  {
    if s != [] {
      SortMeaning(le, s[1..]);
      InsertMeaning(le, s[0], Sort(le, s[1..]));
      assert s == [s[0]] + s[1..];
    }
  }

  function KeepIf<T>(p: T -> bool, s: seq<T>): seq<T> {
    if s == [] then [] else (if p(s[0]) then [s[0]] else []) + KeepIf(p, s[1..])
  }

  function Ties<T(!new)>(le: (T, T) -> bool, k: T): T -> bool {
    (x: T) => le(x, k) && le(k, x)
  }

  /** Entries that compare equal to `k` keep their order. */
  lemma {:induction false} SortIsStable<T(!new)>(le: (T, T) -> bool, s: seq<T>, k: T)
    requires TotalPreorder(le)
    ensures KeepIf(Ties(le, k), Sort(le, s)) == KeepIf(Ties(le, k), s)
  {
    hide TotalPreorder;
    if s != [] {
      SortIsStable(le, s[1..], k);
      InsertIsStable(le, s[0], Sort(le, s[1..]), k);
    }
  }

  lemma KeepCons<T>(p: T -> bool, x: T, s: seq<T>)
    ensures KeepIf(p, [x] + s) == (if p(x) then [x] else []) + KeepIf(p, s)
  {
    assert ([x] + s)[1..] == s;
  }

  lemma TiesStayApart<T(!new)>(le: (T, T) -> bool, x: T, y: T, k: T)
    requires TotalPreorder(le) && !le(x, y)
    ensures !(Ties(le, k)(x) && Ties(le, k)(y))
  {
  }

  lemma {:induction false} InsertIsStable<T(!new)>(le: (T, T) -> bool, x: T, s: seq<T>, k: T)
    requires TotalPreorder(le)
    ensures KeepIf(Ties(le, k), Insert(le, x, s)) == (if Ties(le, k)(x) then [x] else []) + KeepIf(Ties(le, k), s)
  {
    hide TotalPreorder, KeepIf, Ties;
    var p := Ties(le, k);
    if s == [] {
      KeepCons(p, x, s);
      assert [x] + s == [x];
    } else if le(x, s[0]) {
      KeepCons(p, x, s);
    } else {
      InsertIsStable(le, x, s[1..], k);
      KeepCons(p, s[0], Insert(le, x, s[1..]));
      KeepCons(p, s[0], s[1..]);
      assert s == [s[0]] + s[1..];
      TiesStayApart(le, x, s[0], k);
    }
  }

  lemma {:induction false} Kept<T>(p: T -> bool, s: seq<T>, i: nat) returns (k: nat)
    requires i < |s| && p(s[i])
    ensures k < |KeepIf(p, s)| && KeepIf(p, s)[k] == s[i]
  {
    if i == 0 {
      k := 0;
    } else {
      k := Kept(p, s[1..], i - 1);
      k := if p(s[0]) then k + 1 else k;
    }
  }

  lemma {:induction false} KeptFrom<T>(p: T -> bool, s: seq<T>)
    ensures forall k :: 0 <= k < |KeepIf(p, s)| ==> KeepIf(p, s)[k] in s
  {
    if s != [] {
      KeptFrom(p, s[1..]);
      forall k | 0 <= k < |KeepIf(p, s)| ensures KeepIf(p, s)[k] in s {
        assert k > 0 || !p(s[0]) ==> KeepIf(p, s)[k] in s[1..];
      }
    }
  }

  lemma {:induction false} KeepIsOrdered<T(!new)>(le: (T, T) -> bool, p: T -> bool, s: seq<T>)
    requires Ordered(le, s)
    ensures Ordered(le, KeepIf(p, s))
  {
    hide Ordered;
    if s == [] {
      NoneOrdered(le);
    } else {
      OrderedParts(le, s);
      KeepIsOrdered(le, p, s[1..]);
      KeptFrom(p, s[1..]);
      var rest := KeepIf(p, s[1..]);
      if p(s[0]) {
        forall j | 0 <= j < |rest| ensures le(s[0], rest[j]) {
          assert rest[j] in s[1..];
        }
        Prepend(le, s[0], rest);
      } else {
        assert [] + rest == rest;
      }
    }
  }

  lemma NoneOrdered<T(!new)>(le: (T, T) -> bool)
    ensures Ordered(le, [])
  {
  }

  /** Two kept entries stand in the order of what is kept. */
  lemma {:induction false} KeptPair<T(!new)>(le: (T, T) -> bool, p: T -> bool, s: seq<T>, i: nat, j: nat)
    requires i < j < |s| && p(s[i]) && p(s[j]) && Ordered(le, KeepIf(p, s))
    ensures le(s[i], s[j])
  {
    if i == 0 {
      var k := Kept(p, s[1..], j - 1);
      assert KeepIf(p, s)[0] == s[0] && KeepIf(p, s)[k + 1] == s[j];
    } else {
      var rest := KeepIf(p, s[1..]);
      assert p(s[0]) ==> forall k :: 0 <= k < |rest| ==> KeepIf(p, s)[k + 1] == rest[k];
      assert !p(s[0]) ==> KeepIf(p, s) == rest;
      KeptPair(le, p, s[1..], i - 1, j - 1);
    }
  }

  /** Ties of the sort stand in any other order that the list was in. */
  lemma TiesKeepOrder<T(!new)>(le: (T, T) -> bool, other: (T, T) -> bool, s: seq<T>, i: nat, j: nat)
    requires TotalPreorder(le) && Ordered(other, s) && i < j < |Sort(le, s)|
    requires le(Sort(le, s)[i], Sort(le, s)[j]) && le(Sort(le, s)[j], Sort(le, s)[i])
    ensures other(Sort(le, s)[i], Sort(le, s)[j])
  {
    var sorted := Sort(le, s);
    var p := Ties(le, sorted[i]);
    assert le(sorted[i], sorted[i]);
    SortIsStable(le, s, sorted[i]);
    KeepIsOrdered(other, p, s);
    KeptPair(other, p, sorted, i, j);
  }

  // ---------------------------------------------------------------------------------------
  // Chains
  // ---------------------------------------------------------------------------------------

  /** The chain of parents of `id` stays in the project and reaches a root after exactly `d` steps. */
  predicate At(t: Table, project: Id, id: Id, d: nat)
    decreases d
  {
    && id in t && t[id].project == project
    && if d == 0 then t[id].parent.None? else t[id].parent.Some? && At(t, project, t[id].parent.value, d - 1)
  }

  /** From the ticket up to a root: each one's parent is the next, and all are tickets of the project. */
  ghost predicate IsChain(t: Table, project: Id, chain: seq<Id>, id: Id) {
    && chain != [] && chain[0] == id
    && (forall k :: 0 <= k < |chain| ==> chain[k] in t && t[chain[k]].project == project)
    && (forall k :: 0 <= k < |chain| - 1 ==> t[chain[k]].parent == Some(chain[k + 1]))
    && t[chain[|chain| - 1]].parent == None
  }

  /** A ticket is at depth d exactly when such a chain of d steps leads up from it. */
  lemma {:induction false} AtIffChain(t: Table, project: Id, id: Id, d: nat)
    ensures At(t, project, id, d) <==> exists chain :: IsChain(t, project, chain, id) && |chain| == d + 1
    decreases d
  {
    if At(t, project, id, d) {
      if d == 0 {
        assert IsChain(t, project, [id], id);
      } else {
        AtIffChain(t, project, t[id].parent.value, d - 1);
        var rest :| IsChain(t, project, rest, t[id].parent.value) && |rest| == d;
        assert IsChain(t, project, [id] + rest, id);
      }
    }
    if chain :| IsChain(t, project, chain, id) && |chain| == d + 1 {
      if d > 0 {
        assert IsChain(t, project, chain[1..], chain[1]);
        AtIffChain(t, project, chain[1], d - 1);
      }
    }
  }

  /** The chain reaches a root after at least `from` and at most `limit` steps. */
  ghost predicate Reaches(t: Table, project: Id, id: Id, from: nat, limit: nat) {
    exists d: nat :: from <= d <= limit && At(t, project, id, d)
  }

  lemma {:induction false} AtOnce(t: Table, project: Id, id: Id, d: nat, e: nat)
    requires At(t, project, id, d) && At(t, project, id, e)
    ensures d == e
    decreases d
  {
    if d > 0 && e > 0 {
      AtOnce(t, project, t[id].parent.value, d - 1, e - 1);
    }
  }

  function One(b: bool): nat { if b then 1 else 0 }

  function CountIf<T>(p: T -> bool, s: seq<T>): nat {
    if s == [] then 0 else One(p(s[0])) + CountIf(p, s[1..])
  }

  lemma {:induction false} CountIfConcat<T>(p: T -> bool, a: seq<T>, b: seq<T>)
    ensures CountIf(p, a + b) == CountIf(p, a) + CountIf(p, b)
  {
    if a == [] {
      assert a + b == b;
    } else {
      assert (a + b)[0] == a[0] && (a + b)[1..] == a[1..] + b;
      CountIfConcat(p, a[1..], b);
    }
  }

  lemma TakeOut<T>(p: T -> bool, s: seq<T>, i: nat)
    requires i < |s|
    ensures CountIf(p, s) == One(p(s[i])) + CountIf(p, s[..i] + s[i + 1..])
  {
    hide CountIf;
    var a, b := s[..i], s[i + 1..];
    assert s == a + ([s[i]] + b);
    CountIfConcat(p, a, [s[i]] + b);
    CountIfConcat(p, [s[i]], b);
    CountIfConcat(p, a, b);
    CountIfOne(p, s[i]);
  }

  lemma CountIfOne<T>(p: T -> bool, x: T)
    ensures CountIf(p, [x]) == One(p(x))
  {
    assert [x][1..] == [];
  }

  lemma {:induction false} CountIfBag<T>(p: T -> bool, a: seq<T>, b: seq<T>)
    requires multiset(a) == multiset(b)
    ensures CountIf(p, a) == CountIf(p, b)
  {
    hide CountIf;
    if a == [] {
      NothingIn(b);
    } else {
      var i := Match(a, b);
      TakeOut(p, a, 0);
      TakeOut(p, b, i);
      assert a[..0] + a[1..] == a[1..];
      CountIfBag(p, a[1..], b[..i] + b[i + 1..]);
    }
  }

  lemma NothingIn<T>(b: seq<T>)
    requires multiset(b) == multiset{}
    ensures b == []
  {
    assert |multiset(b)| == 0;
  }

  lemma BagWithout<T>(s: seq<T>, i: nat)
    requires i < |s|
    ensures multiset(s[..i] + s[i + 1..]) == multiset(s) - multiset{s[i]}
  {
    assert s == s[..i] + ([s[i]] + s[i + 1..]);
    assert multiset(s) == multiset(s[..i]) + (multiset{s[i]} + multiset(s[i + 1..]));
  }

  lemma TailBag<T>(a: seq<T>)
    requires a != []
    ensures a[0] in multiset(a) && multiset(a[1..]) == multiset(a) - multiset{a[0]}
  {
    BagWithout(a, 0);
    assert a[..0] + a[1..] == a[1..];
  }

  lemma Match<T>(a: seq<T>, b: seq<T>) returns (i: nat)
    requires a != [] && multiset(a) == multiset(b)
    ensures i < |b| && b[i] == a[0] && multiset(a[1..]) == multiset(b[..i] + b[i + 1..])
  {
    TailBag(a);
    i := Occurrence(a[0], b);
    BagWithout(b, i);
  }

  lemma Occurrence<T>(x: T, b: seq<T>) returns (i: nat)
    requires x in multiset(b)
    ensures i < |b| && b[i] == x
  {
    i :| i < |b| && b[i] == x;
  }

  lemma {:induction false} CountsSome<T>(p: T -> bool, s: seq<T>, i: nat)
    requires i < |s| && p(s[i])
    ensures CountIf(p, s) >= 1
  {
    if i > 0 {
      CountsSome(p, s[1..], i - 1);
    }
  }

  lemma {:induction false} Located<T>(p: T -> bool, s: seq<T>) returns (j: nat)
    requires CountIf(p, s) >= 1
    ensures j < |s| && p(s[j])
  {
    if p(s[0]) {
      j := 0;
    } else {
      j := Located(p, s[1..]);
      j := j + 1;
    }
  }

  function IsRow(id: Id): Row -> bool { (r: Row) => r.id == id }

  function IsItem(id: Id): Item -> bool { (x: Item) => x.id == id }

  function CountId(rows: seq<Row>, id: Id): nat { CountIf(IsRow(id), rows) }

  function CountItem(items: seq<Item>, id: Id): nat { CountIf(IsItem(id), items) }

  lemma ScanTail(t: Table, scan: seq<Id>, id: Id)
    requires Scanning(t, scan) && scan != []
    ensures Scanning(t, scan[1..]) && scan[0] in t && scan[0] !in scan[1..]
    ensures id in scan <==> id == scan[0] || id in scan[1..]
  {
  }

  lemma ScanInTable(t: Table, scan: seq<Id>)
    requires Scanning(t, scan)
    ensures forall i :: 0 <= i < |scan| ==> scan[i] in t
  {
  }

  lemma {:induction false} RootCount(t: Table, project: Id, scan: seq<Id>, id: Id)
    requires Scanning(t, scan)
    ensures forall i :: 0 <= i < |scan| ==> scan[i] in t
    ensures CountId(RootRows(t, project, scan), id) == One(id in scan && At(t, project, id, 0))
  {
    hide Scanning;
    ScanInTable(t, scan);
    if scan != [] {
      ScanTail(t, scan, id);
      RootCount(t, project, scan[1..], id);
      var rest := RootRows(t, project, scan[1..]);
      assert [] + rest == rest;
      CountIfConcat(IsRow(id), [Row(scan[0], 0, None)], rest);
      assert [Row(scan[0], 0, None)][1..] == [];
    }
  }

  lemma {:induction false} ChildCount(t: Table, project: Id, scan: seq<Id>, h: Row, id: Id)
    requires Scanning(t, scan)
    ensures forall i :: 0 <= i < |scan| ==> scan[i] in t
    ensures CountId(ChildRows(t, project, scan, h), id)
            == One(id in scan && id in t && t[id].project == project && t[id].parent == Some(h.id))
  {
    hide Scanning;
    ScanInTable(t, scan);
    if scan != [] {
      ScanTail(t, scan, id);
      ChildCount(t, project, scan[1..], h, id);
      var rest := ChildRows(t, project, scan[1..], h);
      assert [] + rest == rest;
      var row := Row(scan[0], h.depth + 1, t[scan[0]].parent);
      CountIfConcat(IsRow(id), [row], rest);
      assert [row][1..] == [];
    }
  }

  /** In one round a ticket comes as often as its parent did in the round before. */
  lemma {:induction false} ExpandCount(t: Table, project: Id, scan: seq<Id>, working: seq<Row>, id: Id)
    requires Scanning(t, scan)
    ensures forall i :: 0 <= i < |scan| ==> scan[i] in t
    ensures CountId(Expand(t, project, scan, working), id)
            == if id in scan && id in t && t[id].project == project && t[id].parent.Some?
              then CountId(working, t[id].parent.value) else 0
  {
    hide Scanning, ChildRows;
    ScanInTable(t, scan);
    if working != [] {
      ExpandCount(t, project, scan, working[1..], id);
      ChildCount(t, project, scan, working[0], id);
      CountIfConcat(IsRow(id), ChildRows(t, project, scan, working[0]), Expand(t, project, scan, working[1..]));
    }
  }

  /** The rows of one round: exactly the tickets at that depth, once each. */
  ghost predicate IsLevel(t: Table, project: Id, rows: seq<Row>, d: nat) {
    && (forall id :: CountId(rows, id) == One(At(t, project, id, d)))
    && Fits(t, rows, d)
  }

  ghost predicate Fits(t: Table, rows: seq<Row>, d: nat) {
    forall i :: 0 <= i < |rows| ==> rows[i].depth == d && rows[i].id in t && rows[i].parent == t[rows[i].id].parent
  }

  lemma FitsConcat(t: Table, a: seq<Row>, b: seq<Row>, d: nat)
    requires Fits(t, a, d) && Fits(t, b, d)
    ensures Fits(t, a + b, d)
  {
  }

  lemma RootsAreLevel(t: Table, project: Id, scan: seq<Id>)
    requires IsScan(t, scan)
    ensures IsLevel(t, project, RootRows(t, project, scan), 0)
  {
    forall id ensures CountId(RootRows(t, project, scan), id) == One(At(t, project, id, 0)) {
      RootCount(t, project, scan, id);
    }
    RootFields(t, project, scan);
  }

  lemma {:induction false} RootFields(t: Table, project: Id, scan: seq<Id>)
    requires forall i :: 0 <= i < |scan| ==> scan[i] in t
    ensures Fits(t, RootRows(t, project, scan), 0)
  {
    if scan != [] {
      RootFields(t, project, scan[1..]);
      var c := t[scan[0]];
      FitsConcat(t, if c.project == project && c.parent.None? then [Row(scan[0], 0, None)]
                 else [], RootRows(t, project, scan[1..]), 0);
    }
  }

  lemma {:induction false} ChildFields(t: Table, project: Id, scan: seq<Id>, h: Row)
    requires forall i :: 0 <= i < |scan| ==> scan[i] in t
    ensures Fits(t, ChildRows(t, project, scan, h), h.depth + 1)
  {
    if scan != [] {
      ChildFields(t, project, scan[1..], h);
      var c := t[scan[0]];
      FitsConcat(t, if c.project == project && c.parent == Some(h.id) then [Row(scan[0], h.depth + 1, c.parent)]
                 else [],
                 ChildRows(t, project, scan[1..], h), h.depth + 1);
    }
  }

  lemma {:induction false} ExpandFields(t: Table, project: Id, scan: seq<Id>, working: seq<Row>, d: nat)
    requires forall i :: 0 <= i < |scan| ==> scan[i] in t
    requires forall i :: 0 <= i < |working| ==> working[i].depth == d
    ensures Fits(t, Expand(t, project, scan, working), d + 1)
  {
    hide ChildRows;
    if working != [] {
      ExpandFields(t, project, scan, working[1..], d);
      ChildFields(t, project, scan, working[0]);
      FitsConcat(t, ChildRows(t, project, scan, working[0]), Expand(t, project, scan, working[1..]), d + 1);
    }
  }

  lemma NextLevel(t: Table, project: Id, scan: seq<Id>, working: seq<Row>, d: nat)
    requires IsScan(t, scan) && IsLevel(t, project, working, d)
    ensures IsLevel(t, project, Expand(t, project, scan, working), d + 1)
  {
    forall id ensures CountId(Expand(t, project, scan, working), id) == One(At(t, project, id, d + 1)) {
      ExpandCount(t, project, scan, working, id);
    }
    ExpandFields(t, project, scan, working, d);
  }

  /** The whole query: every ticket whose chain reaches a root in `from` to `limit` steps, once, with
      its depth, although UNION ALL keeps duplicates and the table may hold parent cycles elsewhere. */
  ghost predicate IsRange(t: Table, project: Id, rows: seq<Row>, from: nat, limit: nat) {
    && (forall id :: CountId(rows, id) == One(Reaches(t, project, id, from, limit)))
    && (forall i :: 0 <= i < |rows| ==>
          rows[i].id in t && rows[i].parent == t[rows[i].id].parent && rows[i].depth <= limit
            && At(t, project, rows[i].id, rows[i].depth))
  }

  lemma LevelRows(t: Table, project: Id, rows: seq<Row>, d: nat, i: nat)
    requires IsLevel(t, project, rows, d) && i < |rows|
    ensures At(t, project, rows[i].id, d)
  {
    CountsSome(IsRow(rows[i].id), rows, i);
  }

  lemma {:induction false} RoundsMeaning(t: Table, project: Id, scan: seq<Id>, working: seq<Row>, depth: nat,
                                         limit: nat)
    requires IsScan(t, scan) && depth <= limit && IsLevel(t, project, working, depth)
    ensures IsRange(t, project, Rounds(t, project, scan, working, depth, limit), depth, limit)
    decreases limit - depth
  {
    hide IsScan, At, Expand;
    InTable(t, scan);
    forall i | 0 <= i < |working| ensures At(t, project, working[i].id, depth) {
      LevelRows(t, project, working, depth, i);
    }
    if depth == limit {
      forall id ensures CountId(working, id) == One(Reaches(t, project, id, depth, limit)) {
        if Reaches(t, project, id, depth, limit) {
          var d :| depth <= d <= limit && At(t, project, id, d);
          assert d == depth;
        }
      }
    } else {
      var next := Expand(t, project, scan, working);
      NextLevel(t, project, scan, working, depth);
      RoundsMeaning(t, project, scan, next, depth + 1, limit);
      var rest := Rounds(t, project, scan, next, depth + 1, limit);
      forall id ensures CountId(working + rest, id) == One(Reaches(t, project, id, depth, limit)) {
        CountIfConcat(IsRow(id), working, rest);
        OneDepth(t, project, id, depth, limit);
      }
    }
  }

  lemma InTable(t: Table, scan: seq<Id>)
    requires IsScan(t, scan)
    ensures forall i :: 0 <= i < |scan| ==> scan[i] in t
  {
  }

  lemma OneDepth(t: Table, project: Id, id: Id, depth: nat, limit: nat)
    requires depth < limit
    ensures One(At(t, project, id, depth)) + One(Reaches(t, project, id, depth + 1, limit))
            == One(Reaches(t, project, id, depth, limit))
  {
    if At(t, project, id, depth) {
      forall d | depth + 1 <= d <= limit ensures !At(t, project, id, d) {
        if At(t, project, id, d) {
          AtOnce(t, project, id, depth, d);
        }
      }
    }
  }

  // ---------------------------------------------------------------------------------------
  // The endpoint
  // ---------------------------------------------------------------------------------------

  predicate ByDepthAndId(a: Row, b: Row) {
    a.depth < b.depth || (a.depth == b.depth && a.id <= b.id)
  }

  predicate ByKey(a: Item, b: Item) {
    a.depth < b.depth
    || (a.depth == b.depth && (a.ordinal < b.ordinal || (a.ordinal == b.ordinal && a.createdAt <= b.createdAt)))
  }

  function ItemOf(t: Table, row: Row): Item
    requires row.id in t
  {
    Item(row.id, row.depth, row.parent, t[row.id].number, t[row.id].createdAt)
  }

  /** An absent or empty list of types filters nothing. */
  predicate Wanted(t: Table, types: Option<seq<string>>, row: Row)
    requires row.id in t
  {
    types.None? || types.value == [] || t[row.id].kind in types.value
  }

  /** The rows that pass the filter, in query order. */
  function Items(t: Table, types: Option<seq<string>>, rows: seq<Row>): seq<Item>
    requires forall i :: 0 <= i < |rows| ==> rows[i].id in t
  {
    if rows == [] then []
    else (if Wanted(t, types, rows[0]) then [ItemOf(t, rows[0])] else []) + Items(t, types, rows[1..])
  }

  ghost function QueryRows(t: Table, project: Id, scan: seq<Id>, limit: nat): seq<Row>
    requires IsScan(t, scan)
  {
    Sort(ByDepthAndId, Rounds(t, project, scan, RootRows(t, project, scan), 0, limit))
  }

  lemma QueryMeaning(t: Table, project: Id, scan: seq<Id>, limit: nat)
    requires IsScan(t, scan)
    ensures IsRange(t, project, QueryRows(t, project, scan, limit), 0, limit)
  {
    hide At;
    var rows := Rounds(t, project, scan, RootRows(t, project, scan), 0, limit);
    RootsAreLevel(t, project, scan);
    RoundsMeaning(t, project, scan, RootRows(t, project, scan), 0, limit);
    hide IsScan, Rounds, RootRows;
    SortMeaning(ByDepthAndId, rows);
    SameRows(t, project, rows, QueryRows(t, project, scan, limit), limit);
  }

  lemma SameRows(t: Table, project: Id, rows: seq<Row>, sorted: seq<Row>, limit: nat)
    requires IsRange(t, project, rows, 0, limit) && multiset(rows) == multiset(sorted)
    ensures IsRange(t, project, sorted, 0, limit)
  {
    hide At;
    forall id ensures CountId(sorted, id) == CountId(rows, id) {
      CountIfBag(IsRow(id), rows, sorted);
    }
    forall i | 0 <= i < |sorted| ensures sorted[i] in rows {
      assert sorted[i] in multiset(sorted);
    }
  }

  lemma RowsInTable(t: Table, project: Id, rows: seq<Row>, limit: nat)
    requires IsRange(t, project, rows, 0, limit)
    ensures forall i :: 0 <= i < |rows| ==> rows[i].id in t
  {
  }

  lemma ItemsFrom(t: Table, types: Option<seq<string>>, rows: seq<Row>, i: nat)
    requires i < |rows| && forall j :: 0 <= j < |rows| ==> rows[j].id in t
    ensures Items(t, types, rows[i..]) ==
            (if Wanted(t, types, rows[i]) then [ItemOf(t, rows[i])] else []) + Items(t, types, rows[i + 1..])
  {
    hide Wanted, ItemOf;
    assert rows[i..][1..] == rows[i + 1..];
  }

  /** The loop over the rows of the query: the type filter, and one item for each row that passes. */
  method Filter(t: Table, types: Option<seq<string>>, rows: seq<Row>) returns (items: seq<Item>)
    requires forall i :: 0 <= i < |rows| ==> rows[i].id in t
    ensures items == Items(t, types, rows)
  {
    hide Items, Wanted, ItemOf;
    items := [];
    assert rows[0..] == rows;
    for i := 0 to |rows|
      invariant items + Items(t, types, rows[i..]) == Items(t, types, rows)
    {
      ItemsFrom(t, types, rows, i);
      if Wanted(t, types, rows[i]) {
        items := items + [ItemOf(t, rows[i])];
      }
    }
    NoItems(t, types);
    assert rows[|rows|..] == [] && items + [] == items;
  }

  lemma NoItems(t: Table, types: Option<seq<string>>)
    ensures Items(t, types, []) == []
  {
  }

  /** `get_project_hierarchy` for a project that exists. */
  method GetHierarchy(t: Table, project: Id, maxDepth: int, types: Option<seq<string>>, scan: seq<Id>)
    returns (items: seq<Item>)
    requires IsScan(t, scan)
    ensures IsRange(t, project, QueryRows(t, project, scan, DepthLimit(maxDepth)), 0, DepthLimit(maxDepth))
    ensures items == Sort(ByKey, Items(t, types, QueryRows(t, project, scan, DepthLimit(maxDepth))))
  {
    hide Rounds, RootRows, Sort, IsScan, IsRange, Items;
    var limit := DepthLimit(maxDepth);
    InTable(t, scan);
    QueryMeaning(t, project, scan, limit);
    var rows := Sort(ByDepthAndId, Rounds(t, project, scan, RootRows(t, project, scan), 0, limit));
    RowsInTable(t, project, rows, limit);
    items := Filter(t, types, rows);
    items := Sort(ByKey, items);
  }

  // ---------------------------------------------------------------------------------------
  // What the answer means
  // ---------------------------------------------------------------------------------------

  lemma {:induction false} ItemsMeaning(t: Table, types: Option<seq<string>>, rows: seq<Row>, id: Id)
    requires forall i :: 0 <= i < |rows| ==> rows[i].id in t
    ensures CountItem(Items(t, types, rows), id)
            == if id in t && Wanted(t, types, Row(id, 0, None)) then CountId(rows, id) else 0
    ensures forall x :: x in Items(t, types, rows) ==> exists i :: 0 <= i < |rows| && x == ItemOf(t, rows[i])
  {
    if rows != [] {
      ItemsMeaning(t, types, rows[1..], id);
      assert Wanted(t, types, rows[0]) == Wanted(t, types, Row(rows[0].id, 0, None));
      var rest := Items(t, types, rows[1..]);
      var head := ItemOf(t, rows[0]);
      assert ([head] + rest)[1..] == rest && [] + rest == rest;
      forall x | x in rest ensures exists i :: 0 <= i < |rows| && x == ItemOf(t, rows[i]) {
        var i :| 0 <= i < |rows[1..]| && x == ItemOf(t, rows[1..][i]);
        assert x == ItemOf(t, rows[i + 1]);
      }
    }
  }

  lemma ItemColumns(t: Table, row: Row)
    requires row.id in t
    ensures var item := ItemOf(t, row);
            && item.id == row.id && item.depth == row.depth && item.parent == row.parent
            && item.ordinal == t[row.id].number && item.createdAt == t[row.id].createdAt
  {
  }

  /** The ticket exists and is of a type asked for; no types, or an empty list, ask for all. */
  predicate OfType(t: Table, types: Option<seq<string>>, id: Id) {
    id in t && (types == None || types.value == [] || t[id].kind in types.value)
  }

  /** The item shows its ticket. */
  ghost predicate ShowsTicket(t: Table, project: Id, item: Item) {
    && item.id in t && At(t, project, item.id, item.depth) && item.parent == t[item.id].parent
    && item.ordinal == t[item.id].number && item.createdAt == t[item.id].createdAt
  }

  /** By depth, then by the tickets' numbers, then by their creation times, then by their ids. */
  predicate ComesBefore(t: Table, a: Item, b: Item) {
    && a.id in t && b.id in t
    && (|| a.depth < b.depth
        || (a.depth == b.depth && t[a.id].number < t[b.id].number)
        || (a.depth == b.depth && t[a.id].number == t[b.id].number && t[a.id].createdAt < t[b.id].createdAt)
        || (a.depth == b.depth && t[a.id].number == t[b.id].number && t[a.id].createdAt == t[b.id].createdAt
            && a.id < b.id))
  }

  predicate ItemById(a: Item, b: Item) {
    a.depth < b.depth || (a.depth == b.depth && a.id <= b.id)
  }

  /** The items before the sort come in the order of the query. */
  lemma {:induction false} ItemsInQueryOrder(t: Table, types: Option<seq<string>>, rows: seq<Row>)
    requires forall i :: 0 <= i < |rows| ==> rows[i].id in t
    requires Ordered(ByDepthAndId, rows)
    ensures Ordered(ItemById, Items(t, types, rows))
  {
    if rows == [] {
      NoItems(t, types);
    } else {
      OrderedParts(ByDepthAndId, rows);
      ItemsInQueryOrder(t, types, rows[1..]);
      ItemsMeaning(t, types, rows[1..], 0);
      var rest := Items(t, types, rows[1..]);
      hide Items, Ordered;
      ItemsFrom(t, types, rows, 0);
      assert rows[0..] == rows && [] + rest == rest;
      forall j | 0 <= j < |rest| ensures ItemById(ItemOf(t, rows[0]), rest[j]) {
        assert rest[j] in rest;
      }
      Prepend(ItemById, ItemOf(t, rows[0]), rest);
    }
  }

  lemma TiesById(t: Table, types: Option<seq<string>>, rows: seq<Row>, items: seq<Item>, i: nat, j: nat)
    requires (forall k :: 0 <= k < |rows| ==> rows[k].id in t) && Ordered(ByDepthAndId, rows)
    requires items == Sort(ByKey, Items(t, types, rows)) && i < j < |items|
    requires ByKey(items[i], items[j]) && ByKey(items[j], items[i])
    ensures items[i].id <= items[j].id
  {
    hide Ordered, Sort, Items;
    ItemsInQueryOrder(t, types, rows);
    ByKeyIsTotal();
    TiesKeepOrder(ByKey, ItemById, Items(t, types, rows), i, j);
    assert ItemById(items[i], items[j]);
  }

  lemma {:induction false} CountedOnce(items: seq<Item>, i: nat, j: nat)
    requires i < j < |items| && items[i].id == items[j].id
    ensures CountItem(items, items[i].id) >= 2
  {
    if i == 0 {
      CountsSome(IsItem(items[0].id), items[1..], j - 1);
    } else {
      CountedOnce(items[1..], i - 1, j - 1);
    }
  }

  /** What the caller gets: each ticket of a wanted type whose chain inside the project reaches a root
      within the limit, which is between 1 and 8, exactly once; nothing else; each with its chain length
      as depth, its parent, number and creation time; in the order of depth, number, creation time and id. */
  lemma HierarchyIsExact(t: Table, project: Id, maxDepth: int, types: Option<seq<string>>, scan: seq<Id>,
                         items: seq<Item>)
    requires IsScan(t, scan)
    requires forall i :: 0 <= i < |QueryRows(t, project, scan, DepthLimit(maxDepth))| ==>
               QueryRows(t, project, scan, DepthLimit(maxDepth))[i].id in t
    requires items == Sort(ByKey, Items(t, types, QueryRows(t, project, scan, DepthLimit(maxDepth))))
    ensures var limit := if maxDepth < 1 then 1 else if maxDepth > 8 then 8 else maxDepth;
            forall id :: CountItem(items, id) == One(OfType(t, types, id) && Reaches(t, project, id, 0, limit))
    ensures forall i :: 0 <= i < |items| ==> ShowsTicket(t, project, items[i])
    ensures forall i, j :: 0 <= i < j < |items| ==> ComesBefore(t, items[i], items[j])
    ensures Ordered(ByKey, items)
  {
    hide *;
    var limit := DepthLimit(maxDepth);
    Limit(maxDepth);
    var rows := QueryRows(t, project, scan, limit);
    QueryMeaning(t, project, scan, limit);
    ByKeyIsTotal();
    SortMeaning(ByKey, Items(t, types, rows));
    ListedOnce(t, project, types, rows, items, limit);
    ListedShow(t, project, types, rows, items, limit);
    QueryInOrder(t, project, scan, limit);
    forall i, j | 0 <= i < j < |items| ensures items[i].id != items[j].id {
      DifferentItems(t, project, types, items, limit, i, j);
    }
    InTicketOrder(t, project, types, rows, items);
  }

  lemma QueryInOrder(t: Table, project: Id, scan: seq<Id>, limit: nat)
    requires IsScan(t, scan)
    ensures Ordered(ByDepthAndId, QueryRows(t, project, scan, limit))
  {
    hide Rounds, RootRows, Ordered;
    InTable(t, scan);
    assert TotalPreorder(ByDepthAndId);
    SortMeaning(ByDepthAndId, Rounds(t, project, scan, RootRows(t, project, scan), 0, limit));
  }

  lemma DifferentItems(t: Table, project: Id, types: Option<seq<string>>, items: seq<Item>, limit: nat, i: nat, j: nat)
    requires forall id :: CountItem(items, id) == One(OfType(t, types, id) && Reaches(t, project, id, 0, limit))
    requires i < j < |items|
    ensures items[i].id != items[j].id
  {
    hide OfType, Reaches, CountItem;
    if items[i].id == items[j].id {
      CountedOnce(items, i, j);
    }
  }

  lemma Limit(maxDepth: int)
    ensures DepthLimit(maxDepth) == if maxDepth < 1 then 1 else if maxDepth > 8 then 8 else maxDepth
  {
  }

  lemma ByKeyIsTotal()
    ensures TotalPreorder(ByKey)
  {
  }

  lemma ListedOnce(t: Table, project: Id, types: Option<seq<string>>, rows: seq<Row>, items: seq<Item>, limit: nat)
    requires IsRange(t, project, rows, 0, limit) && forall i :: 0 <= i < |rows| ==> rows[i].id in t
    requires multiset(items) == multiset(Items(t, types, rows))
    ensures forall id :: CountItem(items, id) == One(OfType(t, types, id) && Reaches(t, project, id, 0, limit))
  {
    hide At, Items, ItemOf, CountIf, Reaches;
    forall id ensures CountItem(items, id) == One(OfType(t, types, id) && Reaches(t, project, id, 0, limit)) {
      CountIfBag(IsItem(id), items, Items(t, types, rows));
      ItemsMeaning(t, types, rows, id);
    }
  }

  lemma ListedShow(t: Table, project: Id, types: Option<seq<string>>, rows: seq<Row>, items: seq<Item>, limit: nat)
    requires IsRange(t, project, rows, 0, limit) && forall i :: 0 <= i < |rows| ==> rows[i].id in t
    requires multiset(items) == multiset(Items(t, types, rows))
    ensures forall i :: 0 <= i < |items| ==> ShowsTicket(t, project, items[i])
  {
    hide At, Items, ItemOf, CountIf, Reaches;
    forall i | 0 <= i < |items| ensures ShowsTicket(t, project, items[i]) {
      assert items[i] in multiset(items) && items[i] in Items(t, types, rows);
      ItemsMeaning(t, types, rows, 0);
      var k :| 0 <= k < |rows| && items[i] == ItemOf(t, rows[k]);
      ItemColumns(t, rows[k]);
    }
  }

  lemma InTicketOrder(t: Table, project: Id, types: Option<seq<string>>, rows: seq<Row>, items: seq<Item>)
    requires (forall k :: 0 <= k < |rows| ==> rows[k].id in t) && Ordered(ByDepthAndId, rows)
    requires items == Sort(ByKey, Items(t, types, rows)) && Ordered(ByKey, items)
    requires forall i :: 0 <= i < |items| ==> ShowsTicket(t, project, items[i])
    requires forall i, j :: 0 <= i < j < |items| ==> items[i].id != items[j].id
    ensures forall i, j :: 0 <= i < j < |items| ==> ComesBefore(t, items[i], items[j])
  {
    hide At, Sort, Items;
    forall i, j | 0 <= i < j < |items| ensures ComesBefore(t, items[i], items[j]) {
      assert ShowsTicket(t, project, items[i]) && ShowsTicket(t, project, items[j]) && ByKey(items[i], items[j]);
      if ByKey(items[j], items[i]) {
        TiesById(t, types, rows, items, i, j);
      }
    }
  }

  /** Without a type filter every listed ticket but a root has its parent listed before it. */
  lemma ParentsComeFirst(t: Table, project: Id, maxDepth: int, scan: seq<Id>, items: seq<Item>, i: nat) returns (j: nat)
    requires IsScan(t, scan)
    requires forall k :: 0 <= k < |QueryRows(t, project, scan, DepthLimit(maxDepth))| ==>
               QueryRows(t, project, scan, DepthLimit(maxDepth))[k].id in t
    requires items == Sort(ByKey, Items(t, None, QueryRows(t, project, scan, DepthLimit(maxDepth))))
    requires i < |items| && items[i].parent.Some?
    ensures j < i && items[j].id == items[i].parent.value && items[i].depth == items[j].depth + 1
  {
    hide IsScan, QueryRows, Sort, Items;
    HierarchyIsExact(t, project, maxDepth, None, scan, items);
    var d, p := items[i].depth, items[i].parent.value;
    assert At(t, project, items[i].id, d) && d > 0 && At(t, project, p, d - 1);
    DepthWithin(t, project, items, i, DepthLimit(maxDepth));
    assert ShowsTicket(t, project, items[i]);
    assert 0 <= d - 1 <= DepthLimit(maxDepth) && OfType(t, None, p) && Reaches(t, project, p, 0, DepthLimit(maxDepth));
    assert CountItem(items, p) == 1;
    j := Located(IsItem(p), items);
    AtOnce(t, project, p, d - 1, items[j].depth);
    InOrder(items, i, j);
  }

  lemma DepthWithin(t: Table, project: Id, items: seq<Item>, i: nat, limit: nat)
    requires i < |items| && At(t, project, items[i].id, items[i].depth)
    requires CountItem(items, items[i].id)
             == One(OfType(t, None, items[i].id) && Reaches(t, project, items[i].id, 0, limit))
    ensures items[i].depth <= limit
  {
    CountsSome(IsItem(items[i].id), items, i);
    var d :| 0 <= d <= limit && At(t, project, items[i].id, d);
    AtOnce(t, project, items[i].id, d, items[i].depth);
  }

  lemma InOrder(items: seq<Item>, i: nat, j: nat)
    requires Ordered(ByKey, items) && i < |items| && j < |items| && items[j].depth < items[i].depth
    ensures j < i
  {
    assert i < j ==> ByKey(items[i], items[j]);
  }

  /** The ticket `k` parents up. */
  function Up(t: Table, id: Id, k: nat): Option<Id>
    decreases k
  {
    if k == 0 then Some(id)
    else if id in t && t[id].parent.Some? then Up(t, t[id].parent.value, k - 1)
    else None
  }

  lemma {:induction false} UpLowersDepth(t: Table, project: Id, id: Id, d: nat, k: nat)
    requires At(t, project, id, d) && Up(t, id, k).Some?
    ensures k <= d && At(t, project, Up(t, id, k).value, d - k)
    decreases k
  {
    if k > 0 {
      UpLowersDepth(t, project, t[id].parent.value, d - 1, k - 1);
    }
  }

  /** A ticket whose chain runs into a cycle is at no depth, so it is never listed; and it does not
      affect what is. */
  lemma CyclesAreNotListed(t: Table, project: Id, id: Id, k: nat, n: nat, d: nat)
    requires n >= 1 && Up(t, id, k).Some? && Up(t, Up(t, id, k).value, n) == Up(t, id, k)
    ensures !At(t, project, id, d)
  {
    if At(t, project, id, d) {
      UpLowersDepth(t, project, id, d, k);
      var x := Up(t, id, k).value;
      UpLowersDepth(t, project, x, d - k, n);
      AtOnce(t, project, x, d - k, d - k - n);
    }
  }
}
