/** The bounty lifecycle and its audit journal. */
module Bounties {
  import opened Prelude

  type Id = nat

  datatype Actor = User(id: Id) | Agent(id: Id)

  datatype Status = Open | Claimed | Awarded | Withdrawn

  /** A row; `claimantIsAgent` stands for the claimant_type column. */
  datatype Bounty = Bounty(
    title: string,
    points: int,
    status: Status,
    poster: Option<Id>,
    claimantId: Option<Id>,
    claimantIsAgent: Option<bool>,
    claimedAt: Option<int>,
    awardedAt: Option<int>)

  datatype Action = Create | Claim | Unclaim | Award | Withdraw

  /** A row of the audit log: for a transition `after` is the status it left. */
  datatype Audit = Audit(bounty: Id, action: Action, actor: Actor, after: Option<Status>)

  datatype Refusal = NotFound | Forbidden | NotOpen | NotClaimed | BadPoints

  datatype Db = Db(bounties: map<Id, Bounty>, journal: seq<Audit>)

  predicate IsClaimant(b: Bounty, actor: Actor) {
    b.claimantId == Some(actor.id) && b.claimantIsAgent == Some(actor.Agent?)
  }

  predicate IsPoster(b: Bounty, actor: Actor) {
    actor.User? && b.poster == Some(actor.id)
  }

  /** The row after a transition, or why it is refused: claim and unclaim look at the state first,
      award and withdraw at the actor. */
  function Transition(b: Bounty, action: Action, actor: Actor, now: int): Result<Bounty, Refusal>
    requires action != Create
  {
    match action
    case Claim =>
      if b.status != Open then Err(NotOpen)
      else Ok(b.(status := Claimed, claimantId := Some(actor.id), claimantIsAgent := Some(actor.Agent?),
                 claimedAt := Some(now)))
    case Unclaim =>
      if b.status != Claimed then Err(NotClaimed)
      else if !IsClaimant(b, actor) then Err(Forbidden)
      else Ok(b.(status := Open, claimantId := None, claimantIsAgent := None, claimedAt := None))
    case Award =>
      if !IsPoster(b, actor) then Err(Forbidden)
      else if b.status != Claimed then Err(NotClaimed)
      else Ok(b.(status := Awarded, awardedAt := Some(now)))
    case Withdraw =>
      if !IsPoster(b, actor) then Err(Forbidden)
      else if b.status != Open then Err(NotOpen)
      else Ok(b.(status := Withdrawn))
  }

  // ---------------------------------------------------------------------------------------
  // Replaying the journal
  // ---------------------------------------------------------------------------------------

  /** What the journal of one bounty says, read from its start by itself. */
  datatype Replayed = Nothing | Seen(status: Status, claimant: Option<Actor>) | Broken

  function ReplayRow(r: Replayed, a: Audit): Replayed {
    match (r, a.action)
    case (Nothing, Create) => Seen(Open, None)
    case (Seen(Open, _), Claim) => Seen(Claimed, Some(a.actor))
    case (Seen(Claimed, c), Unclaim) => if c == Some(a.actor) then Seen(Open, None) else Broken
    case (Seen(Claimed, c), Award) => if a.actor.User? then Seen(Awarded, c) else Broken
    case (Seen(Open, _), Withdraw) => if a.actor.User? then Seen(Withdrawn, None) else Broken
    case _ => Broken
  }

  function Replay(journal: seq<Audit>, id: Id): Replayed {
    if journal == [] then Nothing
    else
      var n := |journal| - 1;
      var before := Replay(journal[..n], id);
      if journal[n].bounty == id then ReplayRow(before, journal[n]) else before
  }

  /** The actor of the last `claim` row of a bounty. */
  function LastClaim(journal: seq<Audit>, id: Id): Option<Actor> {
    if journal == [] then None
    else
      var n := |journal| - 1;
      if journal[n].bounty == id && journal[n].action == Claim then Some(journal[n].actor)
          else LastClaim(journal[..n], id)
  }

  function ClaimantOf(b: Bounty): Option<Actor> {
    if b.claimantId.Some? && b.claimantIsAgent.Some?
    then Some(if b.claimantIsAgent.value then Agent(b.claimantId.value) else User(b.claimantId.value))
    else None
  }

  // ---------------------------------------------------------------------------------------
  // The service
  // ---------------------------------------------------------------------------------------

  /** Each operation as one step of the tables; a refused call changes neither. */
  function Created(db: Db, id: Id, actor: Actor, title: string, points: int): (Db, Option<Refusal>) {
    if actor.Agent? then (db, Some(Forbidden))
    else if points <= 0 then (db, Some(BadPoints))
    else (Db(db.bounties[id := Bounty(title, points, Open, Some(actor.id), None, None, None, None)],
             db.journal + [Audit(id, Create, actor, None)]), None)
  }

  function Moved(db: Db, id: Id, action: Action, actor: Actor, now: int): (Db, Option<Refusal>)
    requires action != Create
  {
    if id !in db.bounties then (db, Some(NotFound))
    else match Transition(db.bounties[id], action, actor, now)
         case Err(refusal) => (db, Some(refusal))
         case Ok(b) => (Db(db.bounties[id := b], db.journal + [Audit(id, action, actor, Some(b.status))]), None)
  }

  /** Deleting a user clears the poster of what they posted (ON DELETE SET NULL). */
  function UserDeleted(db: Db, user: Id): Db {
    db.(bounties := map id | id in db.bounties ::
      if db.bounties[id].poster == Some(user) then db.bounties[id].(poster := None) else db.bounties[id])
  }

  ghost predicate RowFits(db: Db, id: Id, now: int)
    requires id in db.bounties
  {
    var b := db.bounties[id];
    && Replay(db.journal, id) == Seen(b.status, ClaimantOf(b))
    && (b.claimantId.Some? <==> b.status == Claimed || b.status == Awarded)
    && (b.claimantIsAgent.Some? <==> b.claimantId.Some?)
    && (b.claimedAt.Some? <==> b.claimantId.Some?)
    && (b.awardedAt.Some? <==> b.status == Awarded)
    && (b.claimedAt.Some? ==> b.claimedAt.value <= now)
    && (b.awardedAt.Some? ==> b.claimedAt.Some? && b.claimedAt.value <= b.awardedAt.value <= now)
    && (b.claimantId.Some? ==> LastClaim(db.journal, id) == ClaimantOf(b))
    && b.points > 0
  }

  /** In every reachable state the journal replays to the rows, and the columns fit together. */
  ghost predicate Inv(db: Db, now: int) {
    && (forall id :: id in db.bounties ==> RowFits(db, id, now))
    && (forall i :: 0 <= i < |db.journal| ==> db.journal[i].bounty in db.bounties)
  }

  lemma ReplayAppend(journal: seq<Audit>, a: Audit, id: Id)
    ensures Replay(journal + [a], id)
            == if a.bounty == id then ReplayRow(Replay(journal, id), a) else Replay(journal, id)
    ensures LastClaim(journal + [a], id)
            == if a.bounty == id && a.action == Claim then Some(a.actor) else LastClaim(journal, id)
  {
    assert (journal + [a])[..|journal|] == journal;
  }

  lemma {:induction false} UnknownReplaysToNothing(journal: seq<Audit>, id: Id)
    requires forall i :: 0 <= i < |journal| ==> journal[i].bounty != id
    ensures Replay(journal, id) == Nothing
  {
    if journal != [] {
      UnknownReplaysToNothing(journal[..|journal| - 1], id);
    }
  }

  lemma LaterFits(db: Db, id: Id, now: int, later: int)
    requires id in db.bounties && RowFits(db, id, now) && now <= later
    ensures RowFits(db, id, later)
  {
  }

  lemma CreatedKeepsInv(db: Db, id: Id, actor: Actor, title: string, points: int, now: int)
    requires Inv(db, now) && id !in db.bounties
    ensures Inv(Created(db, id, actor, title, points).0, now)
  {
    hide Replay, LastClaim;
    var after := Created(db, id, actor, title, points).0;
    UnknownReplaysToNothing(db.journal, id);
    forall x | x in after.bounties ensures RowFits(after, x, now) {
      ReplayAppend(db.journal, Audit(id, Create, actor, None), x);
      if x in db.bounties {
        assert RowFits(db, x, now);
      }
    }
  }

  lemma MovedKeepsInv(db: Db, id: Id, action: Action, actor: Actor, now: int, later: int)
    requires Inv(db, now) && now <= later && action != Create
    ensures Inv(Moved(db, id, action, actor, later).0, later)
  {
    hide Replay, LastClaim;
    var after := Moved(db, id, action, actor, later).0;
    forall x | x in after.bounties ensures RowFits(after, x, later) {
      assert RowFits(db, x, now);
      LaterFits(db, x, now, later);
      if id in db.bounties && Transition(db.bounties[id], action, actor, later).Ok? {
        var b := Transition(db.bounties[id], action, actor, later).value;
        ReplayAppend(db.journal, Audit(id, action, actor, Some(b.status)), x);
      }
    }
  }

  lemma UserDeletedKeepsInv(db: Db, user: Id, now: int)
    requires Inv(db, now)
    ensures Inv(UserDeleted(db, user), now)
  {
    hide Replay, LastClaim;
    var after := UserDeleted(db, user);
    forall x | x in after.bounties ensures RowFits(after, x, now) {
      assert RowFits(db, x, now);
    }
  }

  class BountyService {
    var bounties: map<Id, Bounty>
    var journal: seq<Audit>
    ghost var clock: int

    ghost function Contents(): Db
      reads this
    {
      Db(bounties, journal)
    }

    ghost predicate Valid()
      reads this
    {
      Inv(Contents(), clock)
    }

    constructor (now: int)
      ensures Valid() && Contents() == Db(map[], []) && clock == now
    {
      bounties, journal, clock := map[], [], now;
    }

    method CreateBounty(newId: Id, actor: Actor, title: string, points: int) returns (r: Option<Refusal>)
      requires Valid() && newId !in bounties
      modifies this`bounties, this`journal
      ensures Valid() && (Contents(), r) == Created(old(Contents()), newId, actor, title, points)
      ensures actor.Agent? <==> r == Some(Forbidden)
      ensures actor.User? && points <= 0 <==> r == Some(BadPoints)
      ensures r.None? ==> bounties == old(bounties)[newId := Bounty(title, points, Open, Some(actor.id), None, None,
                                                                    None, None)]
                          && journal == old(journal) + [Audit(newId, Create, actor, None)]
      ensures r.Some? ==> Contents() == old(Contents())
    {
      CreatedKeepsInv(Contents(), newId, actor, title, points, clock);
      if actor.Agent? {
        return Some(Forbidden);
      }
      if points <= 0 {
        return Some(BadPoints);
      }
      bounties := bounties[newId := Bounty(title, points, Open, Some(actor.id), None, None, None, None)];
      journal := journal + [Audit(newId, Create, actor, None)];
      r := None;
    }

    method ClaimBounty(actor: Actor, id: Id, now: int) returns (r: Option<Refusal>)
      requires Valid() && clock <= now
      modifies this
      ensures Valid() && clock == now && (Contents(), r) == Moved(old(Contents()), id, Claim, actor, now)
    {
      MovedKeepsInv(Contents(), id, Claim, actor, clock, now);
      clock := now;
      if id !in bounties {
        return Some(NotFound);
      }
      var row := bounties[id];
      if row.status != Open {
        return Some(NotOpen);
      }
      row := row.(claimantId := Some(actor.id));
      row := row.(claimantIsAgent := Some(actor.Agent?));
      row := row.(claimedAt := Some(now));
      row := row.(status := Claimed);
      r := Save(id, row, Claim, actor);
    }

    method UnclaimBounty(actor: Actor, id: Id, now: int) returns (r: Option<Refusal>)
      requires Valid() && clock <= now
      modifies this
      ensures Valid() && clock == now && (Contents(), r) == Moved(old(Contents()), id, Unclaim, actor, now)
    {
      MovedKeepsInv(Contents(), id, Unclaim, actor, clock, now);
      clock := now;
      if id !in bounties {
        return Some(NotFound);
      }
      var row := bounties[id];
      if row.status != Claimed {
        return Some(NotClaimed);
      }
      if row.claimantId != Some(actor.id) || row.claimantIsAgent != Some(actor.Agent?) {
        return Some(Forbidden);
      }
      row := row.(claimantId := None);
      row := row.(claimantIsAgent := None);
      row := row.(claimedAt := None);
      row := row.(status := Open);
      r := Save(id, row, Unclaim, actor);
    }

    method AwardBounty(actor: Actor, id: Id, now: int) returns (r: Option<Refusal>)
      requires Valid() && clock <= now
      modifies this
      ensures Valid() && clock == now && (Contents(), r) == Moved(old(Contents()), id, Award, actor, now)
    {
      MovedKeepsInv(Contents(), id, Award, actor, clock, now);
      clock := now;
      if id !in bounties {
        return Some(NotFound);
      }
      var row := bounties[id];
      if actor.Agent? || row.poster != Some(actor.id) {
        return Some(Forbidden);
      }
      if row.status != Claimed {
        return Some(NotClaimed);
      }
      row := row.(awardedAt := Some(now));
      row := row.(status := Awarded);
      r := Save(id, row, Award, actor);
    }

    method WithdrawBounty(actor: Actor, id: Id, now: int) returns (r: Option<Refusal>)
      requires Valid() && clock <= now
      modifies this
      ensures Valid() && clock == now && (Contents(), r) == Moved(old(Contents()), id, Withdraw, actor, now)
    {
      MovedKeepsInv(Contents(), id, Withdraw, actor, clock, now);
      clock := now;
      if id !in bounties {
        return Some(NotFound);
      }
      var row := bounties[id];
      if actor.Agent? || row.poster != Some(actor.id) {
        return Some(Forbidden);
      }
      if row.status != Open {
        return Some(NotOpen);
      }
      row := row.(status := Withdrawn);
      r := Save(id, row, Withdraw, actor);
    }

    method Save(id: Id, row: Bounty, action: Action, actor: Actor) returns (r: Option<Refusal>)
      modifies this`bounties, this`journal
      ensures r == None && Contents()
              == Db(old(bounties)[id := row], old(journal) + [Audit(id, action, actor, Some(row.status))])
    {
      bounties := bounties[id := row];
      journal := journal + [Audit(id, action, actor, Some(row.status))];
      r := None;
    }
  }

  // ---------------------------------------------------------------------------------------
  // Whole runs
  // ---------------------------------------------------------------------------------------

  datatype Op =
    | Post(id: Id, actor: Actor, title: string, points: int)
    | Move(id: Id, action: Action, actor: Actor, now: int)
    | DeleteUser(user: Id)

  function Step(db: Db, op: Op): Db {
    match op
    case Post(id, actor, title, points) => if id in db.bounties then db else Created(db, id, actor, title, points).0
    case Move(id, action, actor, now) => if action == Create then db else Moved(db, id, action, actor, now).0
    case DeleteUser(user) => UserDeleted(db, user)
  }

  function Run(db: Db, ops: seq<Op>): Db
    decreases ops
  {
    if ops == [] then db else Run(Step(db, ops[0]), ops[1..])
  }

  predicate Monotone(from: int, ops: seq<Op>)
    decreases ops
  {
    ops == [] || if ops[0].Move? then from <= ops[0].now && Monotone(ops[0].now, ops[1..]) else Monotone(from, ops[1..])
  }

  function Last(from: int, ops: seq<Op>): int
    decreases ops
  {
    if ops == [] then from else Last(if ops[0].Move? then ops[0].now else from, ops[1..])
  }

  /** Over every run of any actors: replaying the journal from `create` gives each row's status and
      claimant; the claimant columns are set together exactly while claimed or awarded; an awarded
      bounty's claimant is the actor of its last claim; and claimed_at <= awarded_at. */
  lemma {:induction false} JournalReplaysToRows(db: Db, from: int, ops: seq<Op>)
    requires Inv(db, from) && Monotone(from, ops)
    ensures Inv(Run(db, ops), Last(from, ops))
    decreases ops
  {
    hide Inv, Moved, Created, UserDeleted;
    if ops != [] {
      match ops[0]
      case Post(id, actor, title, points) =>
        if id !in db.bounties {
          CreatedKeepsInv(db, id, actor, title, points, from);
        }
        JournalReplaysToRows(Step(db, ops[0]), from, ops[1..]);
      case Move(id, action, actor, now) =>
        InvLater(db, from, now);
        if action != Create {
          MovedKeepsInv(db, id, action, actor, from, now);
        }
        JournalReplaysToRows(Step(db, ops[0]), now, ops[1..]);
      case DeleteUser(user) =>
        UserDeletedKeepsInv(db, user, from);
        JournalReplaysToRows(Step(db, ops[0]), from, ops[1..]);
    }
  }

  lemma InvLater(db: Db, now: int, later: int)
    requires Inv(db, now) && now <= later
    ensures Inv(db, later)
  {
    forall id | id in db.bounties ensures RowFits(db, id, later) {
      LaterFits(db, id, now, later);
    }
  }

  // ---------------------------------------------------------------------------------------
  // Who may do what, column by column
  // ---------------------------------------------------------------------------------------

  /** The create entry of a bounty, by this user, is among the first n journal entries. */
  ghost predicate PostedBefore(journal: seq<Audit>, n: nat, id: Id, user: Id)
    requires n <= |journal|
  {
    exists j :: 0 <= j < n && journal[j].bounty == id && journal[j].action == Create && journal[j].actor == User(user)
  }

  /** An entry that decides a bounty is by the user of its create entry, which comes before it; no entry
      of a bounty comes before its create entry. */
  ghost predicate EntryInOrder(journal: seq<Audit>, i: nat)
    requires i < |journal|
  {
    && (journal[i].action == Award || journal[i].action == Withdraw ==>
          journal[i].actor.User? && PostedBefore(journal, i, journal[i].bounty, journal[i].actor.id))
    && (journal[i].action == Create ==>
          journal[i].actor.User? && forall j :: 0 <= j < i ==> journal[j].bounty != journal[i].bounty)
    && (journal[i].action != Create ==>
          exists j :: 0 <= j < i && journal[j].bounty == journal[i].bounty && journal[j].action == Create)
  }

  /** The same for a whole log, and the poster of a row is who created it unless that user is gone. */
  ghost predicate DecidedByPosters(db: Db) {
    && (forall i :: 0 <= i < |db.journal| ==> db.journal[i].bounty in db.bounties && EntryInOrder(db.journal, i))
    && (forall id :: id in db.bounties ==> WasCreated(db.journal, id))
    && forall id :: id in db.bounties && db.bounties[id].poster.Some? ==>
         PostedBefore(db.journal, |db.journal|, id, db.bounties[id].poster.value)
  }

  ghost predicate WasCreated(journal: seq<Audit>, id: Id) {
    exists j :: 0 <= j < |journal| && journal[j].bounty == id && journal[j].action == Create
  }

  lemma PostedStays(journal: seq<Audit>, a: Audit, n: nat, id: Id, user: Id)
    requires n <= |journal| && PostedBefore(journal, n, id, user)
    ensures forall m :: n <= m <= |journal| + 1 ==> PostedBefore(journal + [a], m, id, user)
  {
    var j :| 0 <= j < n && journal[j].bounty == id && journal[j].action == Create && journal[j].actor == User(user);
    assert (journal + [a])[j] == journal[j];
  }

  lemma OrderStays(journal: seq<Audit>, a: Audit, i: nat)
    requires i < |journal| && EntryInOrder(journal, i)
    ensures EntryInOrder(journal + [a], i)
  {
    var longer := journal + [a];
    assert longer[i] == journal[i];
    if journal[i].action == Award || journal[i].action == Withdraw {
      PostedStays(journal, a, i, journal[i].bounty, journal[i].actor.id);
    }
    if journal[i].action != Create {
      var j :| 0 <= j < i && journal[j].bounty == journal[i].bounty && journal[j].action == Create;
      assert longer[j] == journal[j];
    }
  }

  lemma CreationStays(journal: seq<Audit>, a: Audit, id: Id)
    requires WasCreated(journal, id)
    ensures WasCreated(journal + [a], id)
  {
    var j :| 0 <= j < |journal| && journal[j].bounty == id && journal[j].action == Create;
    assert (journal + [a])[j] == journal[j];
  }

  /** One more entry, and one row put, that keep to the rules. */
  lemma DecidedOneMore(db: Db, a: Audit, b: Bounty)
    requires DecidedByPosters(db)
    requires EntryInOrder(db.journal + [a], |db.journal|) && WasCreated(db.journal + [a], a.bounty)
    requires b.poster.Some? ==>
               PostedBefore(db.journal + [a], |db.journal| + 1, a.bounty, b.poster.value)
    ensures DecidedByPosters(Db(db.bounties[a.bounty := b], db.journal + [a]))
  {
    hide PostedBefore, EntryInOrder, WasCreated;
    var after := Db(db.bounties[a.bounty := b], db.journal + [a]);
    forall i | 0 <= i < |after.journal|
      ensures after.journal[i].bounty in after.bounties && EntryInOrder(after.journal, i)
    {
      if i < |db.journal| {
        OrderStays(db.journal, a, i);
      }
    }
    forall id | id in after.bounties ensures WasCreated(after.journal, id) {
      if id in db.bounties {
        CreationStays(db.journal, a, id);
      }
    }
    forall id | id in after.bounties && after.bounties[id].poster.Some?
      ensures PostedBefore(after.journal, |after.journal|, id, after.bounties[id].poster.value)
    {
      if id != a.bounty {
        PostedStays(db.journal, a, |db.journal|, id, db.bounties[id].poster.value);
      }
    }
  }

  lemma StepDecided(db: Db, op: Op)
    requires DecidedByPosters(db)
    ensures DecidedByPosters(Step(db, op))
  {
    hide EntryInOrder, PostedBefore, WasCreated, DecidedByPosters;
    match op {
      case Post(id, actor, title, points) =>
        if id !in db.bounties && actor.User? && points > 0 {
          var a := Audit(id, Create, actor, None);
          NewBountyInOrder(db, a);
          DecidedOneMore(db, a, Bounty(title, points, Open, Some(actor.id), None, None, None, None));
        }
      case Move(id, action, actor, now) =>
        if action != Create && id in db.bounties && Transition(db.bounties[id], action, actor, now).Ok? {
          var b := Transition(db.bounties[id], action, actor, now).value;
          var a := Audit(id, action, actor, Some(b.status));
          MoveInOrder(db, a);
          DecidedOneMore(db, a, b);
        }
      case DeleteUser(user) =>
        DeletedDecided(db, user);
    }
  }

  lemma NewBountyInOrder(db: Db, a: Audit)
    requires DecidedByPosters(db) && a.bounty !in db.bounties && a.action == Create && a.actor.User?
    ensures EntryInOrder(db.journal + [a], |db.journal|) && WasCreated(db.journal + [a], a.bounty)
    ensures PostedBefore(db.journal + [a], |db.journal| + 1, a.bounty, a.actor.id)
  {
    var journal := db.journal + [a];
    assert journal[|db.journal|] == a;
    assert forall j :: 0 <= j < |db.journal| ==> journal[j] == db.journal[j] && journal[j].bounty in db.bounties;
  }

  lemma MoveInOrder(db: Db, a: Audit)
    requires DecidedByPosters(db) && a.bounty in db.bounties && a.action != Create
    requires a.action == Award || a.action == Withdraw ==>
               a.actor.User? && db.bounties[a.bounty].poster == Some(a.actor.id)
    ensures EntryInOrder(db.journal + [a], |db.journal|) && WasCreated(db.journal + [a], a.bounty)
    ensures var poster := db.bounties[a.bounty].poster;
            poster.Some? ==> PostedBefore(db.journal + [a], |db.journal| + 1, a.bounty, poster.value)
  {
    var journal := db.journal + [a];
    assert journal[|db.journal|] == a;
    CreationStays(db.journal, a, a.bounty);
    var poster := db.bounties[a.bounty].poster;
    if poster.Some? {
      PostedStays(db.journal, a, |db.journal|, a.bounty, poster.value);
    }
    var j :| 0 <= j < |journal| && journal[j].bounty == a.bounty && journal[j].action == Create;
    assert j < |db.journal|;
  }

  lemma DeletedDecided(db: Db, user: Id)
    requires DecidedByPosters(db)
    ensures DecidedByPosters(UserDeleted(db, user))
    ensures var after := UserDeleted(db, user);
            && after.bounties.Keys == db.bounties.Keys && after.journal == db.journal
            && forall id :: id in db.bounties ==>
                 after.bounties[id] == db.bounties[id].(poster := after.bounties[id].poster)
                 && after.bounties[id].poster == if db.bounties[id].poster == Some(user) then None
                                                 else db.bounties[id].poster
  {
    hide EntryInOrder, PostedBefore, WasCreated;
  }

  /** Over every run of any actors and any user deletions: whoever awarded or withdrew a bounty is the
      user of its create entry, which comes first among its entries; and the poster of a row is that user
      unless deleted. */
  lemma {:induction false} OnlyThePosterDecides(db: Db, ops: seq<Op>)
    requires DecidedByPosters(db)
    ensures DecidedByPosters(Run(db, ops))
    decreases ops
  {
    hide DecidedByPosters, Step;
    if ops != [] {
      StepDecided(db, ops[0]);
      OnlyThePosterDecides(Step(db, ops[0]), ops[1..]);
    }
  }

  /** The same from the empty tables, entry by entry. */
  lemma DecisionsFromTheStart(ops: seq<Op>, i: nat)
    requires i < |Run(Db(map[], []), ops).journal|
    ensures var journal := Run(Db(map[], []), ops).journal;
            var a := journal[i];
            a.action == Award || a.action == Withdraw ==>
              a.actor.User?
              && exists j :: 0 <= j < i && journal[j].bounty == a.bounty && journal[j].action == Create
                             && journal[j].actor == a.actor
                             && forall k :: 0 <= k < j ==> journal[k].bounty != a.bounty
  {
    OnlyThePosterDecides(Db(map[], []), ops);
    var journal := Run(Db(map[], []), ops).journal;
    var a := journal[i];
    assert EntryInOrder(journal, i);
    if a.action == Award || a.action == Withdraw {
      var j :| 0 <= j < i && journal[j].bounty == a.bounty && journal[j].action == Create
               && journal[j].actor == User(a.actor.id);
      assert EntryInOrder(journal, j);
    }
  }

  /** What a call answers and every column it leaves: a claim needs an open bounty, an unclaim a claimed
      one and its claimant, an award its poster and then a claimed one, a withdrawal its poster and then
      an open one. */
  lemma MoveInFull(db: Db, id: Id, action: Action, actor: Actor, now: int)
    requires action != Create
    ensures var (after, r) := Moved(db, id, action, actor, now);
            && (r == Some(NotFound) <==> id !in db.bounties)
            && (r.Some? ==> after == db)
            && (id in db.bounties ==>
                  var b := db.bounties[id];
                  var posted := actor.User? && b.poster == Some(actor.id);
                  var claims := b.claimantId == Some(actor.id) && b.claimantIsAgent == Some(actor.Agent?);
                  && (r == Some(NotOpen) <==>
                        b.status != Open && (action == Claim || (action == Withdraw && posted)))
                  && (r == Some(NotClaimed) <==>
                        b.status != Claimed && (action == Unclaim || (action == Award && posted)))
                  && (r == Some(Forbidden) <==>
                        if action == Unclaim then b.status == Claimed && !claims else action != Claim && !posted)
                  && r != Some(BadPoints))
            && (r.None? ==>
                  var (b, c) := (db.bounties[id], after.bounties[id]);
                  && after.bounties == db.bounties[id := c]
                  && after.journal == db.journal + [Audit(id, action, actor, Some(c.status))]
                  && c.title == b.title && c.points == b.points && c.poster == b.poster
                  && (action == Claim ==>
                        && c.status == Claimed && c.claimantId == Some(actor.id)
                        && c.claimantIsAgent == Some(actor.Agent?) && c.claimedAt == Some(now)
                        && c.awardedAt == b.awardedAt)
                  && (action == Unclaim ==>
                        && c.status == Open && c.claimantId == None && c.claimantIsAgent == None
                        && c.claimedAt == None && c.awardedAt == b.awardedAt)
                  && (action == Award || action == Withdraw ==>
                        && c.status == (if action == Award then Awarded else Withdrawn)
                        && c.claimantId == b.claimantId && c.claimantIsAgent == b.claimantIsAgent
                        && c.claimedAt == b.claimedAt
                        && c.awardedAt == if action == Award then Some(now) else b.awardedAt))
  {
  }

  function Entries(journal: seq<Audit>, id: Id): seq<Audit> {
    if journal == [] then []
    else
      var n := |journal| - 1;
      Entries(journal[..n], id) + if journal[n].bounty == id then [journal[n]] else []
  }

  /** Awarded and withdrawn are final: whatever is tried afterwards, the row keeps everything but its
      poster (who may be deleted) and gets no further journal entry. */
  lemma {:induction false} FinalStaysFinal(db: Db, ops: seq<Op>, id: Id)
    requires id in db.bounties && (db.bounties[id].status == Awarded || db.bounties[id].status == Withdrawn)
    ensures var after := Run(db, ops);
            && id in after.bounties
            && after.bounties[id] == db.bounties[id].(poster := after.bounties[id].poster)
            && Entries(after.journal, id) == Entries(db.journal, id)
    decreases ops
  {
    hide Entries;
    if ops != [] {
      var next := Step(db, ops[0]);
      if next.journal != db.journal {
        var a := next.journal[|db.journal|];
        assert next.journal == db.journal + [a];
        EntriesAppend(db.journal, a, id);
      }
      FinalStaysFinal(next, ops[1..], id);
    }
  }

  lemma EntriesAppend(journal: seq<Audit>, a: Audit, id: Id)
    ensures a.bounty != id ==> Entries(journal + [a], id) == Entries(journal, id)
  {
    assert (journal + [a])[..|journal|] == journal;
  }

  /** Once its poster is gone an open or claimed bounty stays open or claimed over every run: nobody can
      award or withdraw it any more. */
  lemma {:induction false} WithoutPosterNeverFinal(db: Db, ops: seq<Op>, id: Id)
    requires id in db.bounties && db.bounties[id].poster.None?
             && (db.bounties[id].status == Open || db.bounties[id].status == Claimed)
    ensures var after := Run(db, ops);
            && id in after.bounties && after.bounties[id].poster.None?
            && (after.bounties[id].status == Open || after.bounties[id].status == Claimed)
    decreases ops
  {
    if ops != [] {
      WithoutPosterNeverFinal(Step(db, ops[0]), ops[1..], id);
    }
  }
}
