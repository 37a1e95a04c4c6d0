/** The demo driver: plan, enqueue, drain at most 200 rows. */
module Orchestrator {
  import opened Prelude
  import opened AgentRuns
  import opened RunQueue
  import opened RunAccounting

  const DRAIN_CAP := 200

  /** A ticket of the demo project; `assignee` is set when the assignee is an agent. */
  datatype TicketRow = TicketRow(id: Id, assignee: Option<Id>, display: string, number: nat)

  /** The demo project after seeding: its tickets in the order the query returns them, and its agent members. */
  datatype Demo = Demo(project: Id, tickets: seq<TicketRow>, agents: seq<Id>)

  datatype Planned = Planned(ticket: Id, agent: Id, display: string)

  datatype SummaryLine = SummaryLine(run: Id, agent: Id, ticket: Id, status: Status, comment: Option<Id>)

  datatype Report = Report(
    planned: nat,
    enqueues: seq<Planned>,
    processed: nat,
    comments: int,
    lessons: int,
    summary: seq<SummaryLine>)

  predicate HasRun(runs: map<Id, Run>, ticket: Id, agent: Id) {
    exists r :: r in runs && runs[r].ticket == ticket && runs[r].agent == agent
  }

  /** Agent-assigned tickets without a run of that agent. */
  function AssigneePlan(runs: map<Id, Run>, tickets: seq<TicketRow>): seq<Planned> {
    if tickets == [] then []
    else
      var t := tickets[0];
      (if t.assignee.Some? && !HasRun(runs, t.id, t.assignee.value) then [Planned(t.id, t.assignee.value, t.display)]
       else [])
      + AssigneePlan(runs, tickets[1..])
  }

  /** The ticket with the lowest number. */
  function FirstTicket(tickets: seq<TicketRow>): (r: TicketRow)
    requires tickets != []
    ensures r in tickets && forall i :: 0 <= i < |tickets| ==> r.number <= tickets[i].number
  {
    if |tickets| == 1 then tickets[0]
    else
      var rest := FirstTicket(tickets[1..]);
      assert forall i :: 0 < i < |tickets| ==> tickets[i] == tickets[1..][i - 1];
      if tickets[0].number <= rest.number then tickets[0] else rest
  }

  /** The agent members without a run on that ticket. */
  function AgentPlan(runs: map<Id, Run>, ticket: TicketRow, agents: seq<Id>): seq<Planned> {
    if agents == [] then []
    else
      (if !HasRun(runs, ticket.id, agents[0]) then [Planned(ticket.id, agents[0], ticket.display)] else [])
      + AgentPlan(runs, ticket, agents[1..])
  }

  function SeedPlan(runs: map<Id, Run>, demo: Demo): seq<Planned> {
    if demo.tickets == [] then [] else AgentPlan(runs, FirstTicket(demo.tickets), demo.agents)
  }

  function Plan(runs: map<Id, Run>, demo: Demo): seq<Planned> {
    AssigneePlan(runs, demo.tickets) + SeedPlan(runs, demo)
  }

  function Prompt(env: Env, p: Planned): string {
    "orchestrate_demo: drive " + if p.display != "" then p.display else env.uuid(p.ticket)
  }

  function PlanKey(env: Env, p: Planned): string {
    KeyOf(env, p.agent, p.ticket, Prompt(env, p))
  }

  predicate InProject(env: Env, project: Id, ticket: Id) {
    ticket in env.tickets && env.tickets[ticket].project == project
  }

  function PendingOf(env: Env, db: Db, project: Id): nat {
    |set r | r in db.runs && db.runs[r].status == Pending && InProject(env, project, db.runs[r].ticket)|
  }

  function AgentComments(env: Env, db: Db, project: Id): nat {
    |set c | c in db.comments && db.comments[c].byAgent && InProject(env, project, db.comments[c].ticket)|
  }

  function AgentLessons(db: Db, project: Id): nat {
    |set k | k in db.lessons && db.lessons[k].project == project|
  }

  // ---------------------------------------------------------------------------------------
  // Planning
  // ---------------------------------------------------------------------------------------

  /** Nothing is planned exactly when every assignment and every seed pair has a run already. */
  lemma {:induction false} AssigneePlanEmpty(runs: map<Id, Run>, tickets: seq<TicketRow>)
    ensures AssigneePlan(runs, tickets) == [] <==>
            forall i :: 0 <= i < |tickets| && tickets[i].assignee.Some? ==>
                HasRun(runs, tickets[i].id, tickets[i].assignee.value)
  {
    hide HasRun;
    if tickets != [] {
      AssigneePlanEmpty(runs, tickets[1..]);
      assert forall i :: 0 < i < |tickets| ==> tickets[i] == tickets[1..][i - 1];
      assert forall i :: 0 <= i < |tickets| - 1 ==> tickets[1..][i] == tickets[i + 1];
    }
  }

  lemma {:induction false} AgentPlanEmpty(runs: map<Id, Run>, ticket: TicketRow, agents: seq<Id>)
    ensures AgentPlan(runs, ticket, agents) == [] <==>
            forall i :: 0 <= i < |agents| ==> HasRun(runs, ticket.id, agents[i])
  {
    hide HasRun;
    if agents != [] {
      AgentPlanEmpty(runs, ticket, agents[1..]);
      assert forall i :: 0 < i < |agents| ==> agents[i] == agents[1..][i - 1];
      assert forall i :: 0 <= i < |agents| - 1 ==> agents[1..][i] == agents[i + 1];
    }
  }

  // ---------------------------------------------------------------------------------------
  // What a plan holds
  // ---------------------------------------------------------------------------------------

  /** No row of the table is this agent's on this ticket. */
  ghost predicate NoRun(runs: map<Id, Run>, ticket: Id, agent: Id) {
    forall r :: r in runs ==> runs[r].ticket != ticket || runs[r].agent != agent
  }

  /** The ticket is assigned to an agent that has no run on it. */
  ghost predicate OwnAgentIdle(runs: map<Id, Run>, t: TicketRow) {
    t.assignee.Some? && NoRun(runs, t.id, t.assignee.value)
  }

  /** The entry for this ticket. */
  ghost predicate Picked(t: TicketRow, p: Planned) {
    t.assignee == Some(p.agent) && t.id == p.ticket && t.display == p.display
  }

  ghost predicate Ascends(ks: seq<nat>) {
    forall i, j :: 0 <= i < j < |ks| ==> ks[i] < ks[j]
  }

  ghost predicate Has(ks: seq<nat>, k: nat) {
    exists i :: 0 <= i < |ks| && ks[i] == k
  }

  /** One entry for exactly those tickets whose agent has no run on them, in the order of the tickets:
      `from` names the ticket of each entry. */
  ghost predicate Lists(runs: map<Id, Run>, tickets: seq<TicketRow>, plan: seq<Planned>, from: seq<nat>) {
    && |plan| == |from| && Ascends(from)
    && (forall i :: 0 <= i < |from| ==> IsEntry(runs, tickets, plan[i], from[i]))
    && (forall k: nat :: k < |tickets| && OwnAgentIdle(runs, tickets[k]) ==> Has(from, k))
  }

  ghost predicate IsEntry(runs: map<Id, Run>, tickets: seq<TicketRow>, p: Planned, k: nat) {
    k < |tickets| && Picked(tickets[k], p) && OwnAgentIdle(runs, tickets[k])
  }

  function Shifted(ks: seq<nat>): seq<nat> {
    seq(|ks|, i requires 0 <= i < |ks| => ks[i] + 1)
  }

  lemma ShiftedHas(front: seq<nat>, ks: seq<nat>, k: nat)
    requires Has(ks, k)
    ensures Has(front + Shifted(ks), k + 1)
  {
    var i :| 0 <= i < |ks| && ks[i] == k;
    assert (front + Shifted(ks))[|front| + i] == k + 1;
  }

  lemma EntryBehind(runs: map<Id, Run>, tickets: seq<TicketRow>, p: Planned, k: nat)
    requires tickets != [] && IsEntry(runs, tickets[1..], p, k)
    ensures IsEntry(runs, tickets, p, k + 1)
  {
    assert tickets[1..][k] == tickets[k + 1];
  }

  lemma IdleBehind(runs: map<Id, Run>, tickets: seq<TicketRow>, from: seq<nat>, k: nat, plan: seq<Planned>)
    requires 0 < k < |tickets| && OwnAgentIdle(runs, tickets[k]) && Lists(runs, tickets[1..], plan, from)
    ensures Has(from, k - 1)
  {
    hide OwnAgentIdle, IsEntry, Has;
    assert tickets[1..][k - 1] == tickets[k];
  }

  lemma ShiftedAscends(front: seq<nat>, ks: seq<nat>)
    requires Ascends(ks) && (front == [] || front == [0])
    ensures Ascends(front + Shifted(ks))
  {
    var all := front + Shifted(ks);
    forall i, j | 0 <= i < j < |all| ensures all[i] < all[j] {
      assert all[j] == ks[j - |front|] + 1;
      assert i >= |front| ==> all[i] == ks[i - |front|] + 1;
    }
  }

  lemma MoreEntries(runs: map<Id, Run>, tickets: seq<TicketRow>, head: seq<Planned>, plan: seq<Planned>,
                    front: seq<nat>, from: seq<nat>, i: nat)
    requires tickets != [] && Lists(runs, tickets[1..], plan, from) && i < |front| + |from| && |head| == |front|
    requires front != [] ==> front == [0] && IsEntry(runs, tickets, head[0], 0)
    ensures i < |head + plan| && i < |front + Shifted(from)|
    ensures IsEntry(runs, tickets, (head + plan)[i], (front + Shifted(from))[i])
  {
    hide IsEntry, Has, Ascends, OwnAgentIdle;
    if i >= |front| {
      EntryBehind(runs, tickets, plan[i - |front|], from[i - |front|]);
    }
  }

  lemma MoreIdle(runs: map<Id, Run>, tickets: seq<TicketRow>, plan: seq<Planned>, front: seq<nat>, from: seq<nat>,
                 k: nat)
    requires tickets != [] && Lists(runs, tickets[1..], plan, from)
    requires k < |tickets| && OwnAgentIdle(runs, tickets[k]) && (k == 0 ==> front == [0])
    ensures Has(front + Shifted(from), k)
  {
    hide IsEntry, Has, Ascends, OwnAgentIdle, Lists;
    if k > 0 {
      IdleBehind(runs, tickets, from, k, plan);
      ShiftedHas(front, from, k - 1);
    } else {
      HasFirst(front + Shifted(from));
    }
  }

  /** A ticket in front, left out or taken. */
  lemma OneMoreListed(runs: map<Id, Run>, tickets: seq<TicketRow>, head: seq<Planned>, plan: seq<Planned>,
                      front: seq<nat>, from: seq<nat>)
    requires tickets != [] && Lists(runs, tickets[1..], plan, from)
    requires if OwnAgentIdle(runs, tickets[0]) then |head| == 1 && Picked(tickets[0], head[0]) && front == [0]
             else head == [] && front == []
    ensures Lists(runs, tickets, head + plan, front + Shifted(from))
  {
    var (all, longer) := (front + Shifted(from), head + plan);
    ShiftedAscends(front, from);
    hide *;
    forall i | 0 <= i < |all| ensures i < |longer| && IsEntry(runs, tickets, longer[i], all[i]) {
      FirstEntry(runs, tickets, head, front);
      ListsLength(runs, tickets[1..], plan, from);
      ShiftedLength(from);
      MoreEntries(runs, tickets, head, plan, front, from, i);
    }
    forall k: nat | k < |tickets| && OwnAgentIdle(runs, tickets[k]) ensures Has(all, k) {
      MoreIdle(runs, tickets, plan, front, from, k);
    }
    ListsLength(runs, tickets[1..], plan, from);
    ShiftedLength(from);
    AreListed(runs, tickets, longer, all);
  }

  lemma ShiftedLength(ks: seq<nat>)
    ensures |Shifted(ks)| == |ks|
  {
  }

  lemma FirstEntry(runs: map<Id, Run>, tickets: seq<TicketRow>, head: seq<Planned>, front: seq<nat>)
    requires tickets != []
    requires if OwnAgentIdle(runs, tickets[0]) then |head| == 1 && Picked(tickets[0], head[0]) && front == [0]
             else head == [] && front == []
    ensures |head| == |front| && (front != [] ==> front == [0] && IsEntry(runs, tickets, head[0], 0))
  {
  }

  lemma HasFirst(ks: seq<nat>)
    requires ks != []
    ensures Has(ks, ks[0])
  {
  }

  lemma AreListed(runs: map<Id, Run>, tickets: seq<TicketRow>, plan: seq<Planned>, from: seq<nat>)
    requires |plan| == |from| && Ascends(from)
    requires forall i :: 0 <= i < |from| ==> IsEntry(runs, tickets, plan[i], from[i])
    requires forall k: nat :: k < |tickets| && OwnAgentIdle(runs, tickets[k]) ==> Has(from, k)
    ensures Lists(runs, tickets, plan, from)
  {
  }

  lemma {:induction false} AssigneesListed(runs: map<Id, Run>, tickets: seq<TicketRow>) returns (from: seq<nat>)
    ensures Lists(runs, tickets, AssigneePlan(runs, tickets), from)
  {
    hide Picked, OwnAgentIdle, Lists, AssigneePlan;
    FirstListed(runs, tickets);
    if tickets == [] {
      from := [];
    } else {
      var rest := AssigneesListed(runs, tickets[1..]);
      var (head, front) := if OwnAgentIdle(runs, tickets[0]) then ([AssigneePlan(runs, tickets)[0]], [0]) else ([], []);
      from := front + Shifted(rest);
      OneMoreListed(runs, tickets, head, AssigneePlan(runs, tickets[1..]), front, rest);
      assert head + AssigneePlan(runs, tickets[1..]) == AssigneePlan(runs, tickets);
    }
  }

  lemma FirstListed(runs: map<Id, Run>, tickets: seq<TicketRow>)
    ensures tickets == [] ==> Lists(runs, tickets, AssigneePlan(runs, tickets), [])
    ensures tickets != [] ==>
              var (plan, rest) := (AssigneePlan(runs, tickets), AssigneePlan(runs, tickets[1..]));
              if OwnAgentIdle(runs, tickets[0]) then plan != [] && Picked(tickets[0], plan[0])
                  && plan == [plan[0]] + rest
              else plan == rest
  {
  }

  /** The ticket as if assigned to each of these agents. */
  function ForEach(ticket: TicketRow, agents: seq<Id>): (rows: seq<TicketRow>)
    ensures |rows| == |agents|
    ensures forall i :: 0 <= i < |agents| ==> rows[i] == ticket.(assignee := Some(agents[i]))
  {
    seq(|agents|, i requires 0 <= i < |agents| => ticket.(assignee := Some(agents[i])))
  }

  lemma {:induction false} AgentsAsAssignees(runs: map<Id, Run>, ticket: TicketRow, agents: seq<Id>)
    ensures AgentPlan(runs, ticket, agents) == AssigneePlan(runs, ForEach(ticket, agents))
  {
    hide HasRun;
    if agents != [] {
      AgentsAsAssignees(runs, ticket, agents[1..]);
      assert ForEach(ticket, agents)[1..] == ForEach(ticket, agents[1..]);
    }
  }

  /** The whole plan: first the tickets whose own agent has no run on them, in their order; then the
      lowest-numbered ticket with each agent of the project that has no run on it, in their order. */
  lemma PlanInFull(runs: map<Id, Run>, demo: Demo) returns (own: seq<nat>, first: nat, members: seq<nat>)
    ensures var plan := Plan(runs, demo);
            && |own| <= |plan| && Lists(runs, demo.tickets, plan[..|own|], own)
            && (demo.tickets == [] ==> |plan| == |own|)
            && (demo.tickets != [] ==>
                  && first < |demo.tickets|
                  && (forall k :: 0 <= k < |demo.tickets| ==> demo.tickets[first].number <= demo.tickets[k].number)
                  && Lists(runs, ForEach(demo.tickets[first], demo.agents), plan[|own|..], members))
  {
    hide AssigneePlan, AgentPlan, Lists, ForEach;
    own := AssigneesListed(runs, demo.tickets);
    ListsLength(runs, demo.tickets, AssigneePlan(runs, demo.tickets), own);
    var a := AssigneePlan(runs, demo.tickets);
    assert (a + SeedPlan(runs, demo))[..|a|] == a && (a + SeedPlan(runs, demo))[|a|..] == SeedPlan(runs, demo);
    first, members := 0, [];
    if demo.tickets != [] {
      var ticket := FirstTicket(demo.tickets);
      first :| 0 <= first < |demo.tickets| && demo.tickets[first] == ticket;
      AgentsAsAssignees(runs, ticket, demo.agents);
      members := AssigneesListed(runs, ForEach(ticket, demo.agents));
    }
  }

  lemma ListsLength(runs: map<Id, Run>, tickets: seq<TicketRow>, plan: seq<Planned>, from: seq<nat>)
    requires Lists(runs, tickets, plan, from)
    ensures |plan| == |from|
  {
  }

  /** A table in which every planned pair and every pair that had a run has one leaves nothing to plan. */
  ghost predicate Covers(before: map<Id, Run>, plans: seq<Planned>, after: map<Id, Run>) {
    && (forall i :: 0 <= i < |plans| ==> HasRun(after, plans[i].ticket, plans[i].agent))
    && (forall ticket, agent :: HasRun(before, ticket, agent) ==> HasRun(after, ticket, agent))
  }

  /** The head of the plan has its run, the rest is covered, and so is every pair that had one. */
  lemma CoversParts(before: map<Id, Run>, head: seq<Planned>, rest: seq<Planned>, after: map<Id, Run>)
    requires Covers(before, head + rest, after)
    ensures Covers(before, rest, after)
    ensures head != [] ==> HasRun(after, head[0].ticket, head[0].agent)
  {
    hide HasRun;
    var plans := head + rest;
    assert forall i :: 0 <= i < |rest| ==> rest[i] == plans[|head| + i];
    assert head != [] ==> plans[0] == head[0];
  }

  lemma CoveredBefore(before: map<Id, Run>, plans: seq<Planned>, after: map<Id, Run>, ticket: Id, agent: Id)
    requires Covers(before, plans, after) && HasRun(before, ticket, agent)
    ensures HasRun(after, ticket, agent)
  {
    hide HasRun;
  }

  lemma {:induction false} AssigneeCovered(before: map<Id, Run>, tickets: seq<TicketRow>, after: map<Id, Run>)
    requires Covers(before, AssigneePlan(before, tickets), after)
    ensures AssigneePlan(after, tickets) == []
  {
    hide HasRun, Covers;
    if tickets != [] {
      var t := tickets[0];
      var head := if t.assignee.Some? && !HasRun(before, t.id, t.assignee.value)
                  then [Planned(t.id, t.assignee.value, t.display)] else [];
      CoversParts(before, head, AssigneePlan(before, tickets[1..]), after);
      AssigneeCovered(before, tickets[1..], after);
      if t.assignee.Some? && HasRun(before, t.id, t.assignee.value) {
        CoveredBefore(before, AssigneePlan(before, tickets), after, t.id, t.assignee.value);
      }
    }
  }

  lemma {:induction false} AgentsCovered(before: map<Id, Run>, ticket: TicketRow, agents: seq<Id>, after: map<Id, Run>)
    requires Covers(before, AgentPlan(before, ticket, agents), after)
    ensures AgentPlan(after, ticket, agents) == []
  {
    hide HasRun, Covers;
    if agents != [] {
      var head := if !HasRun(before, ticket.id, agents[0]) then [Planned(ticket.id, agents[0], ticket.display)] else [];
      CoversParts(before, head, AgentPlan(before, ticket, agents[1..]), after);
      AgentsCovered(before, ticket, agents[1..], after);
      if HasRun(before, ticket.id, agents[0]) {
        CoveredBefore(before, AgentPlan(before, ticket, agents), after, ticket.id, agents[0]);
      }
    }
  }

  lemma NothingLeftToPlan(before: map<Id, Run>, demo: Demo, after: map<Id, Run>)
    requires Covers(before, Plan(before, demo), after)
    ensures Plan(after, demo) == []
  {
    hide HasRun;
    var a, s := AssigneePlan(before, demo.tickets), SeedPlan(before, demo);
    var all := Plan(before, demo);
    assert forall i :: 0 <= i < |a| ==> a[i] == all[i];
    assert forall i :: 0 <= i < |s| ==> s[i] == all[|a| + i];
    AssigneeCovered(before, demo.tickets, after);
    if demo.tickets != [] {
      AgentsCovered(before, FirstTicket(demo.tickets), demo.agents, after);
    }
  }

  // ---------------------------------------------------------------------------------------
  // Enqueueing the plan
  // ---------------------------------------------------------------------------------------

  ghost predicate HasKey(runs: map<Id, Run>, key: string) {
    exists r :: r in runs && runs[r].key == key
  }

  /** Old rows stay; every planned key has a row; every new row is pending and carries a planned key. */
  ghost predicate Enqueued(env: Env, db: Db, plans: seq<Planned>, after: Db) {
    && after == db.(runs := after.runs)
    && (forall r :: r in db.runs ==> r in after.runs && after.runs[r] == db.runs[r])
    && (forall i :: 0 <= i < |plans| ==> HasKey(after.runs, PlanKey(env, plans[i])))
    && (forall r :: r in after.runs && r !in db.runs ==>
          PlansRow(env, plans, after.runs[r]))
  }

  ghost predicate PlansRow(env: Env, plans: seq<Planned>, row: Run) {
    exists i :: 0 <= i < |plans| && IsRowOf(env, plans[i], row)
  }

  /** A pending row that nobody commented for, with the prompt of the plan. */
  ghost predicate IsRowOf(env: Env, p: Planned, row: Run) {
    row == Run(p.agent, p.ticket, None, Pending, Prompt(env, p), PlanKey(env, p), row.enqueuedAt, None, None, None,
               None)
  }

  lemma OneMorePlan(env: Env, db: Db, plans: seq<Planned>, mid: Db, p: Planned, after: Db)
    requires Enqueued(env, db, plans, mid)
    requires HasKey(after.runs, PlanKey(env, p)) && after == mid.(runs := after.runs)
    requires forall r :: r in mid.runs ==> r in after.runs && after.runs[r] == mid.runs[r]
    requires forall r :: r in after.runs && r !in mid.runs ==>
               IsRowOf(env, p, after.runs[r])
    ensures Enqueued(env, db, plans + [p], after)
  {
    hide PlanKey, IsRowOf;
    var all := plans + [p];
    assert all[|plans|] == p && forall i :: 0 <= i < |plans| ==> all[i] == plans[i];
    forall i | 0 <= i < |all| ensures HasKey(after.runs, PlanKey(env, all[i])) {
      if i < |plans| {
        assert HasKey(mid.runs, PlanKey(env, plans[i]));
        var r :| r in mid.runs && mid.runs[r].key == PlanKey(env, plans[i]);
        assert after.runs[r].key == PlanKey(env, plans[i]);
      }
    }
    forall r | r in after.runs && r !in db.runs ensures PlansRow(env, all, after.runs[r]) {
      if r in mid.runs {
        var i :| 0 <= i < |plans| && IsRowOf(env, plans[i], mid.runs[r]);
        assert IsRowOf(env, all[i], after.runs[r]);
      } else {
        assert IsRowOf(env, all[|plans|], after.runs[r]);
      }
    }
  }

  /** The tickets are rows of a table with a primary key. */
  ghost predicate DistinctTickets(tickets: seq<TicketRow>) {
    forall i, j :: 0 <= i < j < |tickets| ==> tickets[i].id != tickets[j].id
  }

  /** The plan is about a ticket of the project. */
  ghost predicate FromTicket(tickets: seq<TicketRow>, p: Planned) {
    exists k :: 0 <= k < |tickets| && tickets[k].id == p.ticket && tickets[k].display == p.display
  }

  lemma {:induction false} AssigneesFromTickets(runs: map<Id, Run>, tickets: seq<TicketRow>)
    ensures forall p :: p in AssigneePlan(runs, tickets) ==> FromTicket(tickets, p)
  {
    hide HasRun;
    if tickets != [] {
      AssigneesFromTickets(runs, tickets[1..]);
      forall p | p in AssigneePlan(runs, tickets) ensures FromTicket(tickets, p) {
        if p in AssigneePlan(runs, tickets[1..]) {
          var k :| 0 <= k < |tickets[1..]| && tickets[1..][k].id == p.ticket && tickets[1..][k].display == p.display;
          assert tickets[k + 1] == tickets[1..][k];
        } else {
          assert tickets[0].id == p.ticket && tickets[0].display == p.display;
        }
      }
    }
  }

  lemma {:induction false} AgentsFromTicket(runs: map<Id, Run>, ticket: TicketRow, agents: seq<Id>)
    ensures forall p :: p in AgentPlan(runs, ticket, agents) ==> p.ticket == ticket.id && p.display == ticket.display
  {
    hide HasRun;
    if agents != [] {
      AgentsFromTicket(runs, ticket, agents[1..]);
    }
  }

  lemma PlanFromTickets(runs: map<Id, Run>, demo: Demo)
    ensures forall p :: p in Plan(runs, demo) ==> FromTicket(demo.tickets, p)
  {
    hide AssigneePlan, AgentPlan, HasRun;
    AssigneesFromTickets(runs, demo.tickets);
    if demo.tickets != [] {
      var first := FirstTicket(demo.tickets);
      AgentsFromTicket(runs, first, demo.agents);
      var k :| 0 <= k < |demo.tickets| && demo.tickets[k] == first;
      forall p | p in SeedPlan(runs, demo) ensures FromTicket(demo.tickets, p) {
        assert demo.tickets[k].id == p.ticket && demo.tickets[k].display == p.display;
      }
    }
  }

  lemma SameTicketSameDisplay(tickets: seq<TicketRow>, p: Planned, q: Planned)
    requires DistinctTickets(tickets) && FromTicket(tickets, p) && FromTicket(tickets, q) && p.ticket == q.ticket
    ensures p.display == q.display
  {
  }

  /** Both planners may name the same pair: it still gets one row, since the prompt is the same. */
  lemma SamePairOneRow(env: Env, demo: Demo, db: Db, after: Db, r: Id, s: Id)
    requires DistinctTickets(demo.tickets) && LawfulUuids(env) && CollisionFree(env)
    requires Valid(env, db) && Valid(env, after) && Enqueued(env, db, Plan(db.runs, demo), after)
    requires r in after.runs && s in after.runs && r !in db.runs && s !in db.runs
    requires after.runs[r].agent == after.runs[s].agent && after.runs[r].ticket == after.runs[s].ticket
    ensures r == s
  {
    hide LawfulUuids, CollisionFree, Prompt, Plan, FromTicket, DistinctTickets;
    var plans := Plan(db.runs, demo);
    var i :| 0 <= i < |plans| && IsRowOf(env, plans[i], after.runs[r]);
    var j :| 0 <= j < |plans| && IsRowOf(env, plans[j], after.runs[s]);
    KeysIdentifyTriples(env, after, plans[i].agent, plans[i].ticket, Prompt(env, plans[i]));
    KeysIdentifyTriples(env, after, plans[j].agent, plans[j].ticket, Prompt(env, plans[j]));
    PlanFromTickets(db.runs, demo);
    SameTicketSameDisplay(demo.tickets, plans[i], plans[j]);
    SamePrompt(env, plans[i], plans[j]);
  }

  lemma SamePrompt(env: Env, p: Planned, q: Planned)
    requires p.ticket == q.ticket && p.display == q.display
    ensures Prompt(env, p) == Prompt(env, q)
  {
  }

  // ---------------------------------------------------------------------------------------
  // One live invocation
  // ---------------------------------------------------------------------------------------

  /** Calls until one finds the queue empty, or the cap. */
  ghost predicate Drained(claimed: seq<Option<Id>>) {
    && |claimed| <= DRAIN_CAP
    && (forall i :: 0 <= i < |claimed| - 1 ==> claimed[i].Some?)
    && (|claimed| < DRAIN_CAP ==> claimed != [] && claimed[|claimed| - 1].None?)
  }

  function CountSome(claimed: seq<Option<Id>>): nat {
    if claimed == [] then 0 else CountSome(claimed[..|claimed| - 1]) + if claimed[|claimed| - 1].Some? then 1 else 0
  }

  ghost predicate LiveRun(env: Env, demo: Demo, db: Db, mid: Db, turns: seq<Turn>, claimed: seq<Option<Id>>, after: Db,
                          report: Report) {
    && report.enqueues == Plan(db.runs, demo)
    && Enqueued(env, db, report.enqueues, mid)
    && Valid(env, mid)
    && Drained(claimed) && |claimed| <= |turns|
    && Calls(env, mid, turns[..|claimed|], claimed, after)
    && report.planned == PendingOf(env, mid, demo.project)
    && report.processed == CountSome(claimed)
    && report.comments == AgentComments(env, after, demo.project) - AgentComments(env, db, demo.project)
    && report.lessons == AgentLessons(after, demo.project) - AgentLessons(db, demo.project)
  }

  /** Comment ids the calls may assign: new, and no two alike. */
  ghost predicate NewComments(turns: seq<Turn>, comments: map<Id, Comment>) {
    && (forall i :: 0 <= i < |turns| ==> turns[i].comment !in comments)
    && (forall i, j :: 0 <= i < j < |turns| ==> turns[i].comment != turns[j].comment)
  }

  ghost predicate NewRuns(newIds: seq<Id>, runs: map<Id, Run>) {
    && (forall i :: 0 <= i < |newIds| ==> newIds[i] !in runs)
    && (forall i, j :: 0 <= i < j < |newIds| ==> newIds[i] != newIds[j])
  }

  /** A row is never deleted and never changes its agent or ticket. */
  ghost predicate RowsKept(before: map<Id, Run>, after: map<Id, Run>) {
    forall r :: r in before ==> r in after && after[r].agent == before[r].agent && after[r].ticket == before[r].ticket
  }

  lemma {:induction false} CallsKeepRows(env: Env, db: Db, turns: seq<Turn>, claimed: seq<Option<Id>>, after: Db)
    requires Calls(env, db, turns, claimed, after)
    ensures RowsKept(db.runs, after.runs)
    decreases turns
  {
    hide Processed, RowSettled;
    if turns != [] {
      var mid :| Called(env, db, turns[0], claimed[0], mid) && Calls(env, mid, turns[1..], claimed[1..], after);
      CallsKeepRows(env, mid, turns[1..], claimed[1..], after);
      CallKeepsRows(env, db, turns[0], claimed[0], mid);
    }
  }

  lemma CallKeepsRows(env: Env, db: Db, turn: Turn, claimed: Option<Id>, after: Db)
    requires Called(env, db, turn, claimed, after)
    ensures RowsKept(db.runs, after.runs)
    ensures forall c :: c in after.comments ==> c in db.comments || c == turn.comment
  {
    hide Processed;
    if claimed.Some? {
      ProcessedRow(env, db, claimed.value, turn);
    }
  }

  /** `process_one` calls appended at the end of a run of calls. */
  lemma {:induction false} OneMoreCall(env: Env, db: Db, turns: seq<Turn>, claimed: seq<Option<Id>>, mid: Db,
                                       turn: Turn, c: Option<Id>, after: Db)
    requires Calls(env, db, turns, claimed, mid) && Called(env, mid, turn, c, after)
    ensures Calls(env, db, turns + [turn], claimed + [c], after)
    decreases turns
  {
    hide Called;
    if turns == [] {
      assert (turns + [turn])[1..] == [] && (claimed + [c])[1..] == [];
      assert Calls(env, after, [], [], after);
    } else {
      var next :| Called(env, db, turns[0], claimed[0], next) && Calls(env, next, turns[1..], claimed[1..], mid);
      OneMoreCall(env, next, turns[1..], claimed[1..], mid, turn, c, after);
      assert (turns + [turn])[1..] == turns[1..] + [turn];
      assert (claimed + [c])[1..] == claimed[1..] + [c];
    }
  }

  lemma NoPlans(env: Env, db: Db)
    ensures Enqueued(env, db, [], db)
  {
    hide PlanKey;
  }

  ghost predicate EnqueuedAt(before: map<Id, Run>, after: map<Id, Run>, now: int) {
    forall r :: r in after && r !in before ==> after[r].enqueuedAt == now
  }

  method EnqueueAll(queue: Queue, plans: seq<Planned>, newIds: seq<Id>, now: int)
    requires Valid(queue.env, queue.Contents())
    requires |newIds| >= |plans| && NewRuns(newIds, queue.runs)
    modifies queue`runs
    ensures Valid(queue.env, queue.Contents())
    ensures Enqueued(queue.env, old(queue.Contents()), plans, queue.Contents())
    ensures EnqueuedAt(old(queue.runs), queue.runs, now)
  {
    hide Valid, PlanKey, KeyOf, Enqueued, HasKey, IsRowOf;
    NoPlans(queue.env, queue.Contents());
    assert plans[..0] == [];
    ghost var db := queue.Contents();
    var i := 0;
    while i < |plans|
      invariant 0 <= i <= |plans|
      invariant Valid(queue.env, queue.Contents())
      invariant Enqueued(queue.env, db, plans[..i], queue.Contents())
      invariant EnqueuedAt(db.runs, queue.runs, now)
      invariant forall j :: i <= j < |newIds| ==> newIds[j] !in queue.runs
    {
      ghost var mid := queue.Contents();
      EnqueueOne(queue, plans[i], newIds[i], now);
      OneMorePlan(queue.env, db, plans[..i], mid, plans[i], queue.Contents());
      assert plans[..i + 1] == plans[..i] + [plans[i]];
      i := i + 1;
    }
    assert plans[..i] == plans;
  }

  method EnqueueOne(queue: Queue, p: Planned, newId: Id, now: int)
    requires Valid(queue.env, queue.Contents()) && newId !in queue.runs
    modifies queue`runs
    ensures Valid(queue.env, queue.Contents())
    ensures HasKey(queue.runs, PlanKey(queue.env, p))
    ensures forall r :: r in old(queue.runs) ==> r in queue.runs && queue.runs[r] == old(queue.runs)[r]
    ensures forall r :: r in queue.runs && r !in old(queue.runs) ==>
              r == newId && IsRowOf(queue.env, p, queue.runs[r]) && queue.runs[r].enqueuedAt == now
  {
    hide Valid, KeyOf;
    var id := queue.Enqueue(p.agent, p.ticket, None, Prompt(queue.env, p), newId, now);
    assert queue.runs[id].key == PlanKey(queue.env, p);
  }

  /** One invocation. The ghost results name the table after enqueueing and what each call claimed. */
  method Orchestrate(queue: Queue, demo: Demo, dryRun: bool, newIds: seq<Id>, now: int, turns: seq<Turn>)
    returns (report: Report, ghost mid: Db, ghost claimed: seq<Option<Id>>)
    requires Valid(queue.env, queue.Contents())
    requires |newIds| >= |demo.tickets| + |demo.agents| && NewRuns(newIds, queue.runs)
    requires |turns| == DRAIN_CAP && NewComments(turns, queue.comments)
    modifies queue
    ensures Valid(queue.env, queue.Contents())
    ensures dryRun ==> queue.Contents() == old(queue.Contents())
                       && report.enqueues == Plan(queue.runs, demo)
                       && report.planned == PendingOf(queue.env, queue.Contents(), demo.project) + |report.enqueues|
                       && report.processed == 0 && report.comments == 0 && report.lessons == 0
    ensures !dryRun ==> LiveRun(queue.env, demo, old(queue.Contents()), mid, turns, claimed, queue.Contents(), report)
    ensures |report.summary| == report.processed && Summarises(queue.runs, report.summary, claimed)
    ensures !dryRun ==> EnqueuedAt(old(queue.runs), mid.runs, now)
  {
    hide Valid, Enqueued, Calls, Drained, AgentComments, AgentLessons, PendingOf, NewRuns, NewComments, Plan,
      Summarises,
      EnqueuedAt;
    ghost var db := queue.Contents();
    var commentsBefore := AgentComments(queue.env, queue.Contents(), demo.project);
    var lessonsBefore := AgentLessons(queue.Contents(), demo.project);
    var plans := MakePlan(queue, demo);
    claimed := [];
    mid := db;
    if dryRun {
      NoSummary(queue.runs);
      report := Report(PendingOf(queue.env, queue.Contents(), demo.project) + |plans|, plans, 0, 0, 0, []);
      return;
    }
    EnqueueAll(queue, plans, newIds, now);
    mid := queue.Contents();
    EnqueuedComments(queue.env, db, plans, mid);
    var planned := PendingOf(queue.env, queue.Contents(), demo.project);
    var processed, summary;
    processed, summary, claimed := Drain(queue, turns);
    var comments := AgentComments(queue.env, queue.Contents(), demo.project) - commentsBefore;
    var lessons := AgentLessons(queue.Contents(), demo.project) - lessonsBefore;
    report := Report(planned, plans, processed, comments, lessons, summary);
  }

  lemma EnqueuedComments(env: Env, db: Db, plans: seq<Planned>, after: Db)
    requires Enqueued(env, db, plans, after)
    ensures after.comments == db.comments
  {
  }

  method MakePlan(queue: Queue, demo: Demo) returns (plans: seq<Planned>)
    ensures plans == Plan(queue.runs, demo)
    ensures |plans| <= |demo.tickets| + |demo.agents|
  {
    plans := PlanAssignees(queue, demo.tickets);
    if demo.tickets != [] {
      var more := PlanAgents(queue, FirstTicket(demo.tickets), demo.agents);
      plans := plans + more;
    }
  }

  lemma NoTicketsNoPlan(runs: map<Id, Run>, tickets: seq<TicketRow>)
    requires tickets == []
    ensures AssigneePlan(runs, tickets) == []
  {
  }

  lemma PlanStep(runs: map<Id, Run>, tickets: seq<TicketRow>, i: nat)
    requires i < |tickets|
    ensures var t := tickets[i];
            AssigneePlan(runs, tickets[i..])
            == (if t.assignee.Some? && !HasRun(runs, t.id, t.assignee.value)
                then [Planned(t.id, t.assignee.value, t.display)] else [])
               + AssigneePlan(runs, tickets[i + 1..])
  {
    hide HasRun;
    assert tickets[i..][1..] == tickets[i + 1..];
  }

  method PlanAssignees(queue: Queue, tickets: seq<TicketRow>) returns (out: seq<Planned>)
    ensures out == AssigneePlan(queue.runs, tickets) && |out| <= |tickets|
  {
    hide HasRun, AssigneePlan;
    out := [];
    assert tickets[0..] == tickets;
    for i := 0 to |tickets|
      invariant |out| <= i && out + AssigneePlan(queue.runs, tickets[i..]) == AssigneePlan(queue.runs, tickets)
    {
      var t := tickets[i];
      PlanStep(queue.runs, tickets, i);
      if t.assignee.Some? && !Exists(queue.runs, t.id, t.assignee.value) {
        out := out + [Planned(t.id, t.assignee.value, t.display)];
      }
    }
    NoTicketsNoPlan(queue.runs, tickets[|tickets|..]);
  }

  lemma NoAgentsNoPlan(runs: map<Id, Run>, ticket: TicketRow, agents: seq<Id>)
    requires agents == []
    ensures AgentPlan(runs, ticket, agents) == []
  {
  }

  lemma AgentStep(runs: map<Id, Run>, ticket: TicketRow, agents: seq<Id>, i: nat)
    requires i < |agents|
    ensures AgentPlan(runs, ticket, agents[i..])
            == (if !HasRun(runs, ticket.id, agents[i]) then [Planned(ticket.id, agents[i], ticket.display)] else [])
               + AgentPlan(runs, ticket, agents[i + 1..])
  {
    hide HasRun;
    assert agents[i..][1..] == agents[i + 1..];
  }

  method PlanAgents(queue: Queue, ticket: TicketRow, agents: seq<Id>) returns (out: seq<Planned>)
    ensures out == AgentPlan(queue.runs, ticket, agents) && |out| <= |agents|
  {
    hide HasRun, AgentPlan;
    out := [];
    assert agents[0..] == agents;
    for i := 0 to |agents|
      invariant |out| <= i && out + AgentPlan(queue.runs, ticket, agents[i..]) == AgentPlan(queue.runs, ticket, agents)
    {
      AgentStep(queue.runs, ticket, agents, i);
      if !Exists(queue.runs, ticket.id, agents[i]) {
        out := out + [Planned(ticket.id, agents[i], ticket.display)];
      }
    }
    NoAgentsNoPlan(queue.runs, ticket, agents[|agents|..]);
  }

  predicate Exists(runs: map<Id, Run>, ticket: Id, agent: Id)
    ensures Exists(runs, ticket, agent) == HasRun(runs, ticket, agent)
  {
    exists r :: r in runs && runs[r].ticket == ticket && runs[r].agent == agent
  }

  /** One line per processed row, in the order of the calls, no two of one row; each shows the columns
      its row ends with. */
  ghost predicate Summarises(runs: map<Id, Run>, summary: seq<SummaryLine>, claimed: seq<Option<Id>>) {
    && |summary| <= |claimed|
    && (forall i :: 0 <= i < |summary| ==> claimed[i] == Some(summary[i].run) && LineShows(runs, summary[i]))
    && (forall i, j :: 0 <= i < j < |summary| ==> summary[i].run != summary[j].run)
  }

  ghost predicate LineShows(runs: map<Id, Run>, line: SummaryLine) {
    && line.run in runs
    && line.agent == runs[line.run].agent && line.ticket == runs[line.run].ticket
    && line.status == runs[line.run].status && line.comment == runs[line.run].comment
    && (runs[line.run].status == Done || runs[line.run].status == Error)
  }

  /** A row that has ended is left alone by later calls. */
  lemma CallKeepsEnded(env: Env, db: Db, turn: Turn, claimed: Option<Id>, after: Db)
    requires Called(env, db, turn, claimed, after)
    ensures claimed.Some? ==> claimed.value in db.runs && db.runs[claimed.value].status == Pending
    ensures forall r :: r in db.runs && db.runs[r].status != Pending ==> r in after.runs && after.runs[r] == db.runs[r]
  {
    hide Processed, Settled;
    if claimed.Some? {
      ProcessedRow(env, db, claimed.value, turn);
    }
  }

  lemma SummaryGrows(env: Env, db: Db, turn: Turn, id: Id, after: Db, summary: seq<SummaryLine>,
                     claimed: seq<Option<Id>>, line: SummaryLine)
    requires Called(env, db, turn, Some(id), after)
    requires Summarises(db.runs, summary, claimed) && |summary| == |claimed|
    requires line.run == id && LineShows(after.runs, line)
    ensures Summarises(after.runs, summary + [line], claimed + [Some(id)])
  {
    hide Called;
    CallKeepsEnded(env, db, turn, Some(id), after);
    var (more, calls) := (summary + [line], claimed + [Some(id)]);
    forall i | 0 <= i < |more| ensures calls[i] == Some(more[i].run) && LineShows(after.runs, more[i]) {
      if i < |summary| {
        assert more[i] == summary[i] && calls[i] == claimed[i] && LineShows(db.runs, summary[i]);
      }
    }
  }

  lemma SummaryStays(env: Env, db: Db, turn: Turn, after: Db, summary: seq<SummaryLine>, claimed: seq<Option<Id>>)
    requires Called(env, db, turn, None, after)
    requires Summarises(db.runs, summary, claimed)
    ensures Summarises(after.runs, summary, claimed + [None])
  {
  }

  method Drain(queue: Queue, turns: seq<Turn>)
    returns (processed: nat, summary: seq<SummaryLine>, ghost claimed: seq<Option<Id>>)
    requires Valid(queue.env, queue.Contents())
    requires |turns| == DRAIN_CAP && NewComments(turns, queue.comments)
    modifies queue
    ensures Valid(queue.env, queue.Contents())
    ensures |claimed| <= DRAIN_CAP && Drained(claimed)
    ensures Calls(queue.env, old(queue.Contents()), turns[..|claimed|], claimed, queue.Contents())
    ensures processed == CountSome(claimed) == |summary|
    ensures Summarises(queue.runs, summary, claimed)
  {
    hide Valid, Calls, Called, Summarises;
    ghost var db := queue.Contents();
    processed, summary, claimed := 0, [], [];
    NoCalls(queue.env, db);
    NoSummary(queue.runs);
    assert turns[..0] == [];
    for i := 0 to DRAIN_CAP
      invariant Valid(queue.env, queue.Contents())
      invariant |claimed| == i == processed == |summary| == CountSome(claimed)
      invariant forall j :: 0 <= j < i ==> claimed[j].Some?
      invariant Summarises(queue.runs, summary, claimed)
      invariant Calls(queue.env, db, turns[..i], claimed, queue.Contents())
      invariant forall j :: i <= j < |turns| ==> turns[j].comment !in queue.comments
    {
      ghost var before := queue.Contents();
      var id := queue.ProcessOne(turns[i]);
      CallKeepsRows(queue.env, before, turns[i], id, queue.Contents());
      OneMoreCall(queue.env, db, turns[..i], claimed, before, turns[i], id, queue.Contents());
      assert turns[..i + 1] == turns[..i] + [turns[i]];
      assert (claimed + [id])[..i] == claimed;
      claimed := claimed + [id];
      if id.None? {
        SummaryStays(queue.env, before, turns[i], queue.Contents(), summary, claimed[..i]);
        break;
      }
      ClaimedIsThere(queue.env, before, turns[i], id, queue.Contents());
      var run := queue.runs[id.value];
      SummaryGrows(queue.env, before, turns[i], id.value, queue.Contents(), summary, claimed[..i],
                   SummaryLine(id.value, run.agent, run.ticket, run.status, run.comment));
      summary := summary + [SummaryLine(id.value, run.agent, run.ticket, run.status, run.comment)];
      processed := processed + 1;
    }
  }

  lemma NoSummary(runs: map<Id, Run>)
    ensures Summarises(runs, [], [])
  {
  }

  lemma NoCalls(env: Env, db: Db)
    ensures Calls(env, db, [], [], db)
  {
  }

  lemma ClaimedIsThere(env: Env, db: Db, turn: Turn, claimed: Option<Id>, after: Db)
    requires Called(env, db, turn, claimed, after) && claimed.Some?
    ensures claimed.value in after.runs
    ensures after.runs[claimed.value].status == Done || after.runs[claimed.value].status == Error
  {
    hide Processed;
    ProcessedRow(env, db, claimed.value, turn);
  }

  // ---------------------------------------------------------------------------------------
  // Replay
  // ---------------------------------------------------------------------------------------

  lemma KeyGivesRun(env: Env, db: Db, p: Planned)
    requires Keyed(env, db.runs) && LawfulUuids(env) && CollisionFree(env) && HasKey(db.runs, PlanKey(env, p))
    ensures HasRun(db.runs, p.ticket, p.agent)
  {
    hide LawfulUuids, CollisionFree, Prompt;
    KeysIdentifyTriples(env, db, p.agent, p.ticket, Prompt(env, p));
  }

  /** After a first live invocation a second one on unchanged data plans nothing. */
  lemma SecondPlansNothing(env: Env, demo: Demo, db: Db, mid: Db, turns: seq<Turn>, claimed: seq<Option<Id>>, after: Db,
                           report: Report)
    requires LiveRun(env, demo, db, mid, turns, claimed, after, report) && LawfulUuids(env) && CollisionFree(env)
    ensures Plan(after.runs, demo) == []
  {
    hide Plan, Prompt, PlanKey, LawfulUuids, CollisionFree, Drained, PendingOf, AgentComments, AgentLessons, Calls,
      PlansRow;
    CallsKeepRows(env, mid, turns[..|claimed|], claimed, after);
    var plans := report.enqueues;
    forall i | 0 <= i < |plans| ensures HasRun(after.runs, plans[i].ticket, plans[i].agent) {
      KeyGivesRun(env, mid, plans[i]);
      StillHasRun(mid.runs, after.runs, plans[i].ticket, plans[i].agent);
    }
    forall ticket, agent | HasRun(db.runs, ticket, agent) ensures HasRun(after.runs, ticket, agent) {
      StillHasRun(db.runs, after.runs, ticket, agent);
    }
    NothingLeftToPlan(db.runs, demo, after.runs);
  }

  lemma StillHasRun(before: map<Id, Run>, after: map<Id, Run>, ticket: Id, agent: Id)
    requires RowsKept(before, after) && HasRun(before, ticket, agent)
    ensures HasRun(after, ticket, agent)
  {
    var r :| r in before && before[r].ticket == ticket && before[r].agent == agent;
    assert after[r].ticket == ticket && after[r].agent == agent;
  }

  lemma {:induction false} CountQueue(claimed: seq<Option<Id>>, q: seq<Id>)
    requires forall i :: 0 <= i < |claimed| ==> claimed[i] == if i < |q| then Some(q[i]) else None
    ensures CountSome(claimed) == Min(|claimed|, |q|)
  {
    if claimed != [] {
      CountQueue(claimed[..|claimed| - 1], q);
    }
  }

  /** A drain leaves behind what the cap cut off. */
  lemma DrainLeaves(env: Env, db: Db, q: seq<Id>, turns: seq<Turn>, claimed: seq<Option<Id>>, after: Db)
    requires Valid(env, db) && IsQueue(db.runs, q) && Drained(claimed) && Calls(env, db, turns, claimed, after)
    ensures CountSome(claimed) == Min(200, |q|)
    ensures Valid(env, after) && IsQueue(after.runs, q[Min(200, |q|)..])
  {
    hide Valid, IsQueue, Calls;
    CallsLength(env, db, turns, claimed, after);
    FirstInFirstOut(env, db, q, turns, claimed, after);
    CountQueue(claimed, q);
    var n := |claimed|;
    if n < DRAIN_CAP {
      assert claimed[n - 1].None?;
      assert n > 1 ==> claimed[n - 2].Some?;
    } else {
      assert claimed[n - 2].Some?;
    }
  }

  lemma CallsLength(env: Env, db: Db, turns: seq<Turn>, claimed: seq<Option<Id>>, after: Db)
    requires Calls(env, db, turns, claimed, after)
    ensures |turns| == |claimed|
  {
  }

  /** What a live invocation reports and enqueues, column by column: the pending rows of the project's
      tickets, and by how many the comments of agents and the lessons of the project have grown; a row
      that is new is an untouched pending one for an entry of the plan, and the others are as before. */
  lemma ReportInFull(env: Env, demo: Demo, db: Db, mid: Db, turns: seq<Turn>, claimed: seq<Option<Id>>, after: Db,
                     report: Report)
    requires LiveRun(env, demo, db, mid, turns, claimed, after, report)
    ensures report.planned
            == |(set r | r in mid.runs && mid.runs[r].status == Pending && mid.runs[r].ticket in env.tickets
                                        && env.tickets[mid.runs[r].ticket].project == demo.project)|
    ensures report.comments
            == |(set c | c in after.comments && after.comments[c].byAgent && after.comments[c].ticket in env.tickets
                         && env.tickets[after.comments[c].ticket].project == demo.project)|
               - |(set c | c in db.comments && db.comments[c].byAgent && db.comments[c].ticket in env.tickets
                           && env.tickets[db.comments[c].ticket].project == demo.project)|
    ensures report.lessons == |(set k | k in after.lessons && after.lessons[k].project == demo.project)|
                              - |(set k | k in db.lessons && db.lessons[k].project == demo.project)|
    ensures mid == db.(runs := mid.runs)
    ensures forall r :: r in db.runs ==> r in mid.runs && mid.runs[r] == db.runs[r]
    ensures forall r :: r in mid.runs && r !in db.runs ==> IsNewRow(env, report.enqueues, mid.runs[r])
    ensures |claimed| <= 200 && (|claimed| < 200 ==> claimed != [] && claimed[|claimed| - 1].None?)
    ensures forall i :: 0 <= i < |claimed| - 1 ==> claimed[i].Some?
  {
    hide Calls, Plan, Valid, CountSome, Prompt, PlanKey, IsNewRow, PlansRow, PendingOf, AgentComments, AgentLessons;
    forall r | r in mid.runs && r !in db.runs ensures IsNewRow(env, report.enqueues, mid.runs[r]) {
      NewRowText(env, report.enqueues, mid.runs[r]);
    }
    CountsInFull(env, mid, demo.project);
    CountsInFull(env, db, demo.project);
    CountsInFull(env, after, demo.project);
  }

  lemma CountsInFull(env: Env, db: Db, project: Id)
    ensures PendingOf(env, db, project)
            == |(set r | r in db.runs && db.runs[r].status == Pending && db.runs[r].ticket in env.tickets
                         && env.tickets[db.runs[r].ticket].project == project)|
    ensures AgentComments(env, db, project)
            == |(set c | c in db.comments && db.comments[c].byAgent && db.comments[c].ticket in env.tickets
                         && env.tickets[db.comments[c].ticket].project == project)|
    ensures AgentLessons(db, project) == |(set k | k in db.lessons && db.lessons[k].project == project)|
  {
    assert (set r | r in db.runs && db.runs[r].status == Pending && InProject(env, project, db.runs[r].ticket))
           == set r | r in db.runs && db.runs[r].status == Pending && db.runs[r].ticket in env.tickets
                      && env.tickets[db.runs[r].ticket].project == project;
    assert (set c | c in db.comments && db.comments[c].byAgent && InProject(env, project, db.comments[c].ticket))
           == set c | c in db.comments && db.comments[c].byAgent && db.comments[c].ticket in env.tickets
                      && env.tickets[db.comments[c].ticket].project == project;
  }

  ghost predicate IsNewRow(env: Env, plans: seq<Planned>, row: Run) {
    exists i :: 0 <= i < |plans| && RowText(env, plans[i], row)
  }

  ghost predicate RowText(env: Env, p: Planned, row: Run) {
    && row.agent == p.agent && row.ticket == p.ticket && row.comment == None && row.status == Pending
    && row.prompt == "orchestrate_demo: drive " + (if p.display != "" then p.display else env.uuid(p.ticket))
    && row.key == env.digest(env.uuid(p.agent) + ":" + env.uuid(p.ticket) + ":" + row.prompt)
    && row.startedAt == None && row.finishedAt == None && row.response == None && row.error == None
  }

  lemma NewRowText(env: Env, plans: seq<Planned>, row: Run)
    requires PlansRow(env, plans, row)
    ensures IsNewRow(env, plans, row)
  {
    var i :| 0 <= i < |plans| && IsRowOf(env, plans[i], row);
    assert RowText(env, plans[i], row);
  }

  /** An invocation that plans nothing only drains what is pending. */
  lemma OnlyDrains(env: Env, demo: Demo, db: Db, mid: Db, turns: seq<Turn>, claimed: seq<Option<Id>>, after: Db,
                   report: Report, q: seq<Id>)
    requires LiveRun(env, demo, db, mid, turns, claimed, after, report)
    requires Plan(db.runs, demo) == [] && IsQueue(db.runs, q)
    ensures report.enqueues == [] && mid == db
    ensures report.processed == Min(DRAIN_CAP, |q|)
    ensures q == [] ==> after == db && report.comments == 0 && report.lessons == 0 && report.planned == 0
  {
    hide Drained, AgentComments, AgentLessons, PendingOf, Plan, Calls, IsQueue, Valid, Enqueued, CountSome;
    NothingEnqueued(env, db, mid);
    DrainLeaves(env, mid, q, turns[..|claimed|], claimed, after);
    if q == [] {
      NothingPending(env, db, demo.project, q);
      CallsOnEmptyQueue(env, mid, q, turns[..|claimed|], claimed, after);
    }
  }

  /** Replay is a no-op exactly when the first invocation's drain was not cut off by the cap: then
      the second one enqueues, processes and adds nothing and leaves the database as it is. */
  lemma ReplayIsNoOp(env: Env, demo: Demo, db: Db, mid: Db, turns: seq<Turn>, claimed: seq<Option<Id>>, after: Db,
                     report: Report,
                     q: seq<Id>, mid': Db, turns': seq<Turn>, claimed': seq<Option<Id>>, after': Db, report': Report)
    requires LiveRun(env, demo, db, mid, turns, claimed, after, report) && LawfulUuids(env) && CollisionFree(env)
    requires IsQueue(mid.runs, q)
    requires LiveRun(env, demo, after, mid', turns', claimed', after', report')
    ensures report'.enqueues == [] && mid' == after
    ensures report'.processed == Min(200, |q| - Min(200, |q|))
    ensures report'.processed == 0 <==> |q| <= 200
    ensures |q| <= 200 ==>
              after' == after && report'.comments == 0 && report'.lessons == 0 && report'.planned == 0
  {
    hide LiveRun, LawfulUuids, CollisionFree, Plan, IsQueue;
    SecondPlansNothing(env, demo, db, mid, turns, claimed, after, report);
    FirstLeaves(env, demo, db, mid, turns, claimed, after, report, q);
    OnlyDrains(env, demo, after, mid', turns', claimed', after', report', q[Min(DRAIN_CAP, |q|)..]);
  }

  lemma FirstLeaves(env: Env, demo: Demo, db: Db, mid: Db, turns: seq<Turn>, claimed: seq<Option<Id>>, after: Db,
                    report: Report, q: seq<Id>)
    requires LiveRun(env, demo, db, mid, turns, claimed, after, report) && IsQueue(mid.runs, q)
    ensures IsQueue(after.runs, q[Min(DRAIN_CAP, |q|)..])
  {
    hide Drained, AgentComments, AgentLessons, PendingOf, Plan, Calls, IsQueue, Valid, Enqueued, CountSome;
    DrainLeaves(env, mid, q, turns[..|claimed|], claimed, after);
  }

  lemma NothingEnqueued(env: Env, db: Db, after: Db)
    requires Enqueued(env, db, [], after)
    ensures after == db
  {
    hide PlanKey;
    assert after.runs == db.runs;
  }

  lemma NothingPending(env: Env, db: Db, project: Id, q: seq<Id>)
    requires IsQueue(db.runs, q) && q == []
    ensures PendingOf(env, db, project) == 0
  {
    var s := set r | r in db.runs && db.runs[r].status == Pending && InProject(env, project, db.runs[r].ticket);
    forall r | r in s ensures false {
      assert IsPending(db.runs, r);
    }
    assert s == {};
  }

  lemma {:induction false} CallsOnEmptyQueue(env: Env, db: Db, q: seq<Id>, turns: seq<Turn>, claimed: seq<Option<Id>>,
                                             after: Db)
    requires Valid(env, db) && IsQueue(db.runs, q) && q == [] && Calls(env, db, turns, claimed, after)
    ensures after == db
    decreases turns
  {
    hide Valid, IsQueue, Called;
    if turns != [] {
      var mid :| Called(env, db, turns[0], claimed[0], mid) && Calls(env, mid, turns[1..], claimed[1..], after);
      CallStep(env, db, q, turns[0], claimed[0], mid);
      CallsOnEmptyQueue(env, mid, q, turns[1..], claimed[1..], after);
    }
  }
}
