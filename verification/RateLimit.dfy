/** The sliding-window limiter of magic-link requests, against one that keeps every admitted time. */
module RateLimit {
  /** `max_requests` and `window_seconds`. */
  datatype Config = Config(max: int, window: int)

  /** `check` returns, raises 429 with a Retry-After, or fails on the first element of an empty list
      (which only happens when `max_requests` is not positive). */
  datatype Outcome = Admitted | Rejected(retryAfter: int) | IndexError

  type Book = map<string, seq<real>>

  function Entries(b: Book, email: string): seq<real> {
    if email in b then b[email] else []
  }

  /** `[t for t in ts if t > cutoff]`. */
  function Recent(ts: seq<real>, cutoff: real): (r: seq<real>)
    ensures forall i :: 0 <= i < |r| ==> r[i] > cutoff && r[i] in ts
  {
    if ts == [] then []
    else (if ts[0] > cutoff then [ts[0]] else []) + Recent(ts[1..], cutoff)
  }

  function Cutoff(c: Config, now: real): real { now - c.window as real }

  /** Python's `int` on a float. */
  function Trunc(x: real): int {
    if x >= 0.0 then x.Floor else -((-x).Floor)
  }

  function RetryAfter(c: Config, oldest: real, now: real): int {
    Trunc(oldest + c.window as real - now) + 1
  }

  /** The answer given the attempts of the window. */
  function Answer(c: Config, recent: seq<real>, now: real): Outcome {
    if |recent| < c.max then Admitted
    else if recent == [] then IndexError
    else Rejected(RetryAfter(c, recent[0], now))
  }

  function CheckBook(c: Config, b: Book, email: string, now: real): Book {
    var recent := Recent(Entries(b, email), Cutoff(c, now));
    b[email := if |recent| < c.max then recent + [now] else recent]
  }

  predicate Expired(ts: seq<real>, cutoff: real) {
    forall i :: 0 <= i < |ts| ==> ts[i] <= cutoff
  }

  function CleanBook(c: Config, b: Book, now: real): Book {
    map e | e in b && !Expired(b[e], Cutoff(c, now)) :: b[e]
  }

  class Limiter {
    const config: Config
    var attempts: Book

    constructor (config: Config)
      ensures this.config == config && attempts == map[]
    {
      this.config := config;
      attempts := map[];
    }

    method Check(email: string, now: real) returns (r: Outcome)
      modifies this
      ensures r == Answer(config, Recent(Entries(old(attempts), email), Cutoff(config, now)), now)
      ensures attempts == CheckBook(config, old(attempts), email, now)
    {
      var recent := Prune(Entries(attempts, email), Cutoff(config, now));
      attempts := attempts[email := recent];
      if |attempts[email]| >= config.max {
        if attempts[email] == [] {
          return IndexError;
        }
        return Rejected(RetryAfter(config, attempts[email][0], now));
      }
      attempts := attempts[email := attempts[email] + [now]];
      r := Admitted;
    }

    method Cleanup(now: real)
      modifies this
      ensures attempts == CleanBook(config, old(attempts), now)
    {
      var cutoff := Cutoff(config, now);
      var expired := set e | e in attempts && Expired(attempts[e], cutoff);
      ghost var before := attempts;
      while expired != {}
        invariant expired <= attempts.Keys <= before.Keys
        invariant forall e :: e in attempts ==> attempts[e] == before[e]
        invariant forall e :: e in before && !Expired(before[e], cutoff) ==> e in attempts
        invariant forall e :: e in attempts && Expired(before[e], cutoff) ==> e in expired
        invariant forall e :: e in expired ==> Expired(before[e], cutoff)
        decreases expired
      {
        var key :| key in expired;
        attempts := attempts - {key};
        expired := expired - {key};
      }
    }
  }

  lemma RecentFrom(ts: seq<real>, i: nat, cutoff: real)
    requires i < |ts|
    ensures Recent(ts[i..], cutoff) == (if ts[i] > cutoff then [ts[i]] else []) + Recent(ts[i + 1..], cutoff)
  {
    assert ts[i..][1..] == ts[i + 1..];
  }

  method Prune(ts: seq<real>, cutoff: real) returns (r: seq<real>)
    ensures r == Recent(ts, cutoff)
  {
    hide Recent;
    r := [];
    assert ts[0..] == ts;
    for i := 0 to |ts|
      invariant r + Recent(ts[i..], cutoff) == Recent(ts, cutoff)
    {
      RecentFrom(ts, i, cutoff);
      if ts[i] > cutoff {
        r := r + [ts[i]];
      }
    }
    RecentOfExpired(ts[|ts|..], cutoff);
  }

  // ---------------------------------------------------------------------------------------
  // Runs, and the limiter that forgets nothing
  // ---------------------------------------------------------------------------------------

  datatype Op = Check(email: string, now: real) | Cleanup(now: real)

  function Step(c: Config, b: Book, op: Op): Book {
    match op
    case Check(email, now) => CheckBook(c, b, email, now)
    case Cleanup(now) => CleanBook(c, b, now)
  }

  /** The naive limiter's history: every admitted time, never pruned. */
  function Record(c: Config, h: Book, op: Op): Book {
    match op
    case Check(email, now) =>
      if |Recent(Entries(h, email), Cutoff(c, now))| < c.max then h[email := Entries(h, email) + [now]] else h
    case Cleanup(_) => h
  }

  function Answers(c: Config, b: Book, ops: seq<Op>): seq<Outcome>
    decreases ops
  {
    if ops == [] then []
    else
      (if ops[0].Check? then [Answer(c, Recent(Entries(b, ops[0].email), Cutoff(c, ops[0].now)), ops[0].now)] else [])
      + Answers(c, Step(c, b, ops[0]), ops[1..])
  }

  function NaiveAnswers(c: Config, h: Book, ops: seq<Op>): seq<Outcome>
    decreases ops
  {
    if ops == [] then []
    else
      (if ops[0].Check? then [Answer(c, Recent(Entries(h, ops[0].email), Cutoff(c, ops[0].now)), ops[0].now)] else [])
      + NaiveAnswers(c, Record(c, h, ops[0]), ops[1..])
  }

  function History(c: Config, h: Book, ops: seq<Op>): Book
    decreases ops
  {
    if ops == [] then h else History(c, Record(c, h, ops[0]), ops[1..])
  }

  function After(c: Config, b: Book, ops: seq<Op>): Book
    decreases ops
  {
    if ops == [] then b else After(c, Step(c, b, ops[0]), ops[1..])
  }

  /** The clock does not go backwards. */
  predicate Monotone(from: real, ops: seq<Op>)
    decreases ops
  {
    ops == [] || (from <= ops[0].now && Monotone(ops[0].now, ops[1..]))
  }

  function Last(from: real, ops: seq<Op>): real
    decreases ops
  {
    if ops == [] then from else Last(ops[0].now, ops[1..])
  }

  // ---------------------------------------------------------------------------------------
  // Filtering
  // ---------------------------------------------------------------------------------------

  lemma {:induction false} RecentTwice(ts: seq<real>, c1: real, c2: real)
    requires c1 <= c2
    ensures Recent(Recent(ts, c1), c2) == Recent(ts, c2)
  {
    if ts != [] {
      RecentTwice(ts[1..], c1, c2);
      var rest := Recent(ts[1..], c1);
      if ts[0] > c1 {
        assert ([ts[0]] + rest)[1..] == rest;
      } else {
        assert Recent(ts, c1) == [] + rest == rest;
        assert Recent(ts, c2) == [] + Recent(ts[1..], c2);
      }
    }
  }

  lemma {:induction false} RecentAppend(ts: seq<real>, t: real, cutoff: real)
    ensures Recent(ts + [t], cutoff) == Recent(ts, cutoff) + if t > cutoff then [t] else []
  {
    if ts == [] {
      assert (ts + [t])[1..] == [];
    } else {
      assert (ts + [t])[1..] == ts[1..] + [t];
      RecentAppend(ts[1..], t, cutoff);
    }
  }

  lemma {:induction false} RecentOfExpired(ts: seq<real>, cutoff: real)
    requires Expired(ts, cutoff)
    ensures Recent(ts, cutoff) == []
  {
    if ts != [] {
      RecentOfExpired(ts[1..], cutoff);
    }
  }

  // ---------------------------------------------------------------------------------------
  // Refinement
  // ---------------------------------------------------------------------------------------

  /** Pruned list and full history agree on the current window. */
  ghost predicate Agree(c: Config, b: Book, h: Book, now: real) {
    forall e :: Recent(Entries(b, e), Cutoff(c, now)) == Recent(Entries(h, e), Cutoff(c, now))
  }

  lemma AgreeLater(c: Config, b: Book, h: Book, now: real, later: real)
    requires Agree(c, b, h, now) && now <= later
    ensures Agree(c, b, h, later)
  {
    forall e ensures Recent(Entries(b, e), Cutoff(c, later)) == Recent(Entries(h, e), Cutoff(c, later)) {
      RecentTwice(Entries(b, e), Cutoff(c, now), Cutoff(c, later));
      RecentTwice(Entries(h, e), Cutoff(c, now), Cutoff(c, later));
    }
  }

  lemma StepAgrees(c: Config, b: Book, h: Book, op: Op)
    requires Agree(c, b, h, op.now)
    ensures Agree(c, Step(c, b, op), Record(c, h, op), op.now)
  {
    hide Recent;
    var cut := Cutoff(c, op.now);
    var b', h' := Step(c, b, op), Record(c, h, op);
    forall e ensures Recent(Entries(b', e), cut) == Recent(Entries(h', e), cut) {
      assert Recent(Entries(b, e), cut) == Recent(Entries(h, e), cut);
      match op
      case Check(email, now) =>
        if e == email {
          RecentTwice(Entries(b, e), cut, cut);
          RecentAppend(Recent(Entries(b, e), cut), now, cut);
          RecentAppend(Entries(h, e), now, cut);
        }
      case Cleanup(now) =>
        if e in b && Expired(b[e], cut) {
          RecentOfExpired(b[e], cut);
          RecentOfExpired([], cut);
        }
    }
  }

  /** Over any run under a clock that does not go backwards, pruning and cleanup never change an
      answer: every check is answered, retry time included, as by the limiter that keeps everything. */
  lemma {:induction false} PruningIsInvisible(c: Config, b: Book, h: Book, from: real, ops: seq<Op>)
    requires Agree(c, b, h, from) && Monotone(from, ops)
    ensures Answers(c, b, ops) == NaiveAnswers(c, h, ops)
    ensures Agree(c, After(c, b, ops), History(c, h, ops), Last(from, ops))
    decreases ops
  {
    hide Recent, Step, Record, Agree;
    if ops != [] {
      AgreeLater(c, b, h, from, ops[0].now);
      StepAgrees(c, b, h, ops[0]);
      AgreeMeans(c, b, h, ops[0].now);
      PruningIsInvisible(c, Step(c, b, ops[0]), Record(c, h, ops[0]), ops[0].now, ops[1..]);
    }
  }

  lemma AgreeMeans(c: Config, b: Book, h: Book, now: real)
    requires Agree(c, b, h, now)
    ensures forall e :: Recent(Entries(b, e), Cutoff(c, now)) == Recent(Entries(h, e), Cutoff(c, now))
  {
  }

  /** `cleanup` inserted anywhere in a run changes no answer. */
  lemma CleanupIsInvisible(c: Config, b: Book, from: real, before: seq<Op>, now: real, rest: seq<Op>)
    requires Monotone(from, before + [Cleanup(now)] + rest) && Monotone(from, before + rest)
    ensures Answers(c, b, before + [Cleanup(now)] + rest) == Answers(c, b, before + rest)
  {
    hide Recent, Agree;
    SelfAgrees(c, b, from);
    PruningIsInvisible(c, b, b, from, before + [Cleanup(now)] + rest);
    PruningIsInvisible(c, b, b, from, before + rest);
    NaiveIgnoresCleanup(c, b, before, now, rest);
  }

  lemma SelfAgrees(c: Config, b: Book, now: real)
    ensures Agree(c, b, b, now)
  {
  }

  lemma {:induction false} NaiveIgnoresCleanup(c: Config, h: Book, before: seq<Op>, now: real, rest: seq<Op>)
    ensures NaiveAnswers(c, h, before + [Cleanup(now)] + rest) == NaiveAnswers(c, h, before + rest)
    decreases before
  {
    hide Answer, Recent, Record;
    var long, short := before + [Cleanup(now)] + rest, before + rest;
    if before == [] {
      assert long[0] == Cleanup(now) && long[1..] == rest && short == rest;
      NaiveSkips(c, h, long);
    } else {
      assert long[0] == before[0] == short[0];
      assert long[1..] == before[1..] + [Cleanup(now)] + rest && short[1..] == before[1..] + rest;
      NaiveIgnoresCleanup(c, Record(c, h, before[0]), before[1..], now, rest);
    }
  }

  lemma NaiveSkips(c: Config, h: Book, ops: seq<Op>)
    requires ops != [] && ops[0].Cleanup?
    ensures NaiveAnswers(c, h, ops) == NaiveAnswers(c, h, ops[1..])
  {
    hide Answer, Recent;
    assert NaiveAnswers(c, h, ops) == [] + NaiveAnswers(c, h, ops[1..]);
  }

  // ---------------------------------------------------------------------------------------
  // The bound
  // ---------------------------------------------------------------------------------------

  function Limit(c: Config): nat { if c.max < 0 then 0 else c.max }

  ghost predicate Ascending(ts: seq<real>) {
    forall i, j :: 0 <= i < j < |ts| ==> ts[i] <= ts[j]
  }

  /** An admitted time and the one `max_requests` places before it are a window apart. */
  ghost predicate Spaced(c: Config, ts: seq<real>) {
    forall j :: Limit(c) <= j < |ts| ==> ts[j - Limit(c)] <= Cutoff(c, ts[j])
  }

  ghost predicate Orderly(c: Config, ts: seq<real>, now: real) {
    Ascending(ts) && Spaced(c, ts) && forall i :: 0 <= i < |ts| ==> ts[i] <= now
  }

  ghost predicate AllOrderly(c: Config, h: Book, now: real) {
    forall e :: e in h ==> Orderly(c, h[e], now)
  }

  lemma RecentSkips(ts: seq<real>, cutoff: real)
    requires ts != [] && ts[0] <= cutoff
    ensures Recent(ts, cutoff) == Recent(ts[1..], cutoff)
  {
  }

  /** Of an ascending list the recent entries are its tail. */
  lemma {:induction false} RecentIsTail(ts: seq<real>, cutoff: real)
    requires Ascending(ts)
    ensures var k := |ts| - |Recent(ts, cutoff)|;
            0 <= k && Recent(ts, cutoff) == ts[k..] && forall i :: 0 <= i < k ==> ts[i] <= cutoff
  {
    hide Recent;
    if ts == [] {
      AllRecent(ts, cutoff);
    } else if ts[0] > cutoff {
      AllRecent(ts, cutoff);
    } else {
      TailAscends(ts);
      hide Ascending;
      RecentIsTail(ts[1..], cutoff);
      RecentSkips(ts, cutoff);
      var k := |ts| - |Recent(ts, cutoff)|;
      assert ts[1..][k - 1..] == ts[k..];
      forall i | 0 <= i < k ensures ts[i] <= cutoff {
        assert i > 0 ==> ts[1..][i - 1] == ts[i];
      }
    }
  }

  lemma TailAscends(ts: seq<real>)
    requires Ascending(ts) && ts != []
    ensures Ascending(ts[1..])
  {
  }

  lemma {:induction false} AllRecent(ts: seq<real>, cutoff: real)
    requires forall i :: 0 <= i < |ts| ==> ts[i] > cutoff
    ensures Recent(ts, cutoff) == ts
  {
    if ts != [] {
      AllRecent(ts[1..], cutoff);
    }
  }

  lemma RecordOrderly(c: Config, ts: seq<real>, from: real, now: real)
    requires Orderly(c, ts, from) && from <= now && |Recent(ts, Cutoff(c, now))| < c.max
    ensures Orderly(c, ts + [now], now)
  {
    hide Recent;
    RecentIsTail(ts, Cutoff(c, now));
    var next := ts + [now];
    forall j | Limit(c) <= j < |next| ensures next[j - Limit(c)] <= Cutoff(c, next[j]) {
      assert j < |ts| ==> next[j] == ts[j] && next[j - Limit(c)] == ts[j - Limit(c)];
    }
  }

  lemma {:induction false} HistoryOrderly(c: Config, h: Book, from: real, ops: seq<Op>)
    requires AllOrderly(c, h, from) && Monotone(from, ops)
    ensures AllOrderly(c, History(c, h, ops), Last(from, ops))
    decreases ops
  {
    hide Recent;
    if ops != [] {
      var op := ops[0];
      var next := Record(c, h, op);
      forall e | e in next ensures Orderly(c, next[e], op.now) {
        if op.Check? && e == op.email {
          if |Recent(Entries(h, e), Cutoff(c, op.now))| < c.max {
            RecordOrderly(c, Entries(h, e), from, op.now);
          }
        }
      }
      HistoryOrderly(c, next, op.now, ops[1..]);
    }
  }

  /** How many of the times lie in (t - window, t]. */
  function CountIn(c: Config, ts: seq<real>, t: real): nat {
    if ts == [] then 0 else (if Cutoff(c, t) < ts[0] <= t then 1 else 0) + CountIn(c, ts[1..], t)
  }

  lemma SomeLimit(c: Config, ts: seq<real>, t: real)
    requires Spaced(c, ts) && ts != [] && Cutoff(c, t) < ts[0] <= t
    ensures Limit(c) >= 1
  {
  }

  lemma {:induction false} CountAtMost(c: Config, ts: seq<real>, t: real)
    requires Ascending(ts) && Spaced(c, ts)
    ensures CountIn(c, ts, t) <= Limit(c)
  {
    if ts != [] {
      assert forall i :: 0 < i < |ts| ==> ts[i] == ts[1..][i - 1];
      CountAtMost(c, ts[1..], t);
      if Cutoff(c, t) < ts[0] <= t {
        if |ts| <= Limit(c) {
          CountAtMostLength(c, ts, t);
        } else {
          SomeLimit(c, ts, t);
          forall i | Limit(c) - 1 <= i < |ts[1..]| ensures ts[1..][i] > t {
            assert ts[i + 1 - Limit(c)] <= Cutoff(c, ts[i + 1]);
            assert ts[0] <= ts[i + 1 - Limit(c)];
          }
          LaterOutside(c, ts[1..], t, Limit(c) - 1);
        }
      }
    }
  }

  lemma {:induction false} CountAtMostLength(c: Config, ts: seq<real>, t: real)
    ensures CountIn(c, ts, t) <= |ts|
  {
    if ts != [] {
      CountAtMostLength(c, ts[1..], t);
    }
  }

  /** Only the first n entries can lie in the window if the entry at n and all after it are later. */
  lemma {:induction false} LaterOutside(c: Config, ts: seq<real>, t: real, n: nat)
    requires forall i :: n <= i < |ts| ==> ts[i] > t
    ensures CountIn(c, ts, t) <= n
  {
    if ts != [] {
      LaterOutside(c, ts[1..], t, if n == 0 then 0 else n - 1);
    }
  }

  /** Starting empty, over any interleaving of checks on any e-mails and cleanups, no window of
      `window_seconds` holds more than `max_requests` admitted requests of one e-mail. */
  lemma NeverOverTheLimit(c: Config, from: real, ops: seq<Op>, email: string, t: real)
    requires Monotone(from, ops)
    ensures CountIn(c, Entries(History(c, map[], ops), email), t) <= Limit(c)
  {
    HistoryOrderly(c, map[], from, ops);
    CountAtMost(c, Entries(History(c, map[], ops), email), t);
  }

  // ---------------------------------------------------------------------------------------
  // Retry-After
  // ---------------------------------------------------------------------------------------

  /** In a reachable book the pruned list is ordered, at most full, and not in the future. */
  lemma ReachableRecent(c: Config, from: real, ops: seq<Op>, email: string, now: real)
    requires Monotone(from, ops) && Last(from, ops) <= now && c.max >= 1
    ensures var recent := Recent(Entries(After(c, map[], ops), email), Cutoff(c, now));
            |recent| <= c.max && Ascending(recent) && forall i :: 0 <= i < |recent| ==> recent[i] <= now
  {
    hide Recent;
    var b, h := After(c, map[], ops), History(c, map[], ops);
    SelfAgrees(c, map[], from);
    PruningIsInvisible(c, map[], map[], from, ops);
    AgreeLater(c, b, h, Last(from, ops), now);
    HistoryOrderly(c, map[], from, ops);
    var ts := Entries(h, email);
    RecentIsTail(ts, Cutoff(c, now));
    RecentAtMost(c, ts, now);
  }

  lemma RecentAtMost(c: Config, ts: seq<real>, now: real)
    requires Ascending(ts) && Spaced(c, ts) && c.max >= 1 && forall i :: 0 <= i < |ts| ==> ts[i] <= now
    ensures |Recent(ts, Cutoff(c, now))| <= c.max
  {
    hide Recent, Ascending;
    RecentIsTail(ts, Cutoff(c, now));
    var recent := Recent(ts, Cutoff(c, now));
    var k := |ts| - |recent|;
    var last := |ts| - 1;
    assert last >= c.max ==> ts[last - Limit(c)] <= Cutoff(c, ts[last]) <= Cutoff(c, now);
    forall i | k <= i < |ts| ensures ts[i] > Cutoff(c, now) {
      assert recent[i - k] == ts[i];
    }
  }

  /** A rejected caller who makes no other attempt is admitted exactly from the moment the oldest
      attempt of the window is a full window old. */
  lemma RejectedUntilOldestExpires(c: Config, recent: seq<real>, now: real, later: real)
    requires c.max >= 1 && |recent| == c.max && Ascending(recent) && now <= later
    requires forall i :: 0 <= i < |recent| ==> recent[i] > Cutoff(c, now)
    ensures Answer(c, Recent(recent, Cutoff(c, later)), later).Admitted? <==> later >= recent[0] + c.window as real
  {
    RecentIsTail(recent, Cutoff(c, later));
    hide Recent;
    if recent[0] > Cutoff(c, later) {
      AllRecent(recent, Cutoff(c, later));
    }
  }

  lemma RetryAfterBounds(c: Config, oldest: real, now: real)
    requires Cutoff(c, now) < oldest <= now
    ensures 1 <= RetryAfter(c, oldest, now) <= c.window + 1
    ensures now + (RetryAfter(c, oldest, now) - 1) as real <= oldest + c.window as real
    ensures now + RetryAfter(c, oldest, now) as real > oldest + c.window as real
  {
    var x := oldest + c.window as real - now;
    assert x.Floor as real <= x < x.Floor as real + 1.0;
    assert x.Floor as real <= c.window as real;
  }

  /** In every reachable state: a rejection names a time between 1 and window + 1 seconds, and who
      waits that long without another attempt is admitted, whatever else happened meanwhile. */
  lemma WaitingHelps(c: Config, from: real, ops: seq<Op>, email: string, now: real, more: seq<Op>, later: real)
    requires c.max >= 1 && Monotone(from, ops) && Last(from, ops) <= now
    requires Answer(c, Recent(Entries(After(c, map[], ops), email), Cutoff(c, now)), now).Rejected?
    requires Monotone(now, more) && Last(now, more) <= later
    requires forall i :: 0 <= i < |more| && more[i].Check? ==> more[i].email != email
    requires later >= now
             + Answer(c, Recent(Entries(After(c, map[], ops), email), Cutoff(c, now)), now).retryAfter as real
    ensures var b := After(c, map[], ops);
            var retry := Answer(c, Recent(Entries(b, email), Cutoff(c, now)), now).retryAfter;
            && 1 <= retry <= c.window + 1
            && Answer(c, Recent(Entries(After(c, CheckBook(c, b, email, now), more), email), Cutoff(c, later)),
                      later).Admitted?
  {
    hide Recent;
    var b := After(c, map[], ops);
    var recent := Recent(Entries(b, email), Cutoff(c, now));
    ReachableRecent(c, from, ops, email, now);
    RetryAfterBounds(c, recent[0], now);
    var rejected := CheckBook(c, b, email, now);
    assert Entries(rejected, email) == recent;
    OthersLeaveRecent(c, rejected, email, now, more, later);
    RejectedUntilOldestExpires(c, recent, now, later);
  }

  /** And not a second too long: who asks again more than a second before that is rejected again. */
  lemma WaitingLessDoesNotHelp(c: Config, from: real, ops: seq<Op>, email: string, now: real, more: seq<Op>,
                               later: real)
    requires c.max >= 1 && Monotone(from, ops) && Last(from, ops) <= now
    requires Answer(c, Recent(Entries(After(c, map[], ops), email), Cutoff(c, now)), now).Rejected?
    requires Monotone(now, more) && Last(now, more) <= later
    requires forall i :: 0 <= i < |more| && more[i].Check? ==> more[i].email != email
    requires later < now
             + (Answer(c, Recent(Entries(After(c, map[], ops), email), Cutoff(c, now)), now).retryAfter - 1) as real
    ensures Answer(c, Recent(Entries(After(c, CheckBook(c, After(c, map[], ops), email, now), more), email),
                             Cutoff(c, later)), later).Rejected?
  {
    hide Recent;
    var b := After(c, map[], ops);
    var recent := Recent(Entries(b, email), Cutoff(c, now));
    ReachableRecent(c, from, ops, email, now);
    RetryAfterBounds(c, recent[0], now);
    var rejected := CheckBook(c, b, email, now);
    assert Entries(rejected, email) == recent;
    LastIsLatest(now, more);
    OthersLeaveRecent(c, rejected, email, now, more, later);
    RejectedUntilOldestExpires(c, recent, now, later);
    if Recent(recent, Cutoff(c, later)) == [] {
      RecentIsTail(recent, Cutoff(c, later));
    }
  }

  /** The answer in every reachable state, in terms of all the times ever admitted for this e-mail: it is admitted
      if and only if the max-th last of them is a full window old, and otherwise told to come back in r
      seconds, r - 1 being what that time still lacks, in whole seconds. */
  lemma AnswerInFull(c: Config, from: real, ops: seq<Op>, email: string, now: real)
    requires c.max >= 1 && Monotone(from, ops) && Last(from, ops) <= now
    ensures var h := Entries(History(c, map[], ops), email);
            var answer := Answer(c, Recent(Entries(After(c, map[], ops), email), Cutoff(c, now)), now);
            && (answer.Admitted? <==> |h| < c.max || h[|h| - c.max] + c.window as real <= now)
            && (!answer.Admitted? ==>
                  && answer.Rejected?
                  && now + (answer.retryAfter - 1) as real <= h[|h| - c.max] + c.window as real
                  && h[|h| - c.max] + c.window as real < now + answer.retryAfter as real)
  {
    hide Recent;
    var b, h := After(c, map[], ops), History(c, map[], ops);
    SelfAgrees(c, map[], from);
    PruningIsInvisible(c, map[], map[], from, ops);
    AgreeLater(c, b, h, Last(from, ops), now);
    HistoryOrderly(c, map[], from, ops);
    var ts := Entries(h, email);
    RecentIsTail(ts, Cutoff(c, now));
    RecentAtMost(c, ts, now);
    var recent := Recent(ts, Cutoff(c, now));
    assert recent != [] ==> recent[0] == ts[|ts| - |recent|];
    if |recent| >= c.max {
      RetryAfterBounds(c, recent[0], now);
    }
  }

  /** A cleanup keeps the list of an e-mail, unchanged, exactly if one of its times lies in the window. */
  lemma CleanupInFull(c: Config, b: Book, now: real, email: string)
    ensures email in CleanBook(c, b, now) <==>
            email in b && exists i :: 0 <= i < |b[email]| && b[email][i] + c.window as real > now
    ensures email in CleanBook(c, b, now) ==> CleanBook(c, b, now)[email] == b[email]
  {
  }

  /** Checks on other e-mails and cleanups do not touch what counts for this one. */
  lemma {:induction false} OthersLeaveRecent(c: Config, b: Book, email: string, now: real, more: seq<Op>, later: real)
    requires Monotone(now, more) && Last(now, more) <= later
    requires forall i :: 0 <= i < |more| && more[i].Check? ==> more[i].email != email
    ensures Recent(Entries(After(c, b, more), email), Cutoff(c, later)) == Recent(Entries(b, email), Cutoff(c, later))
    decreases more
  {
    hide Recent;
    if more != [] {
      var next := Step(c, b, more[0]);
      LastIsLatest(more[0].now, more[1..]);
      assert forall i :: 0 <= i < |more| - 1 ==> more[1..][i] == more[i + 1];
      OthersLeaveRecent(c, next, email, more[0].now, more[1..], later);
      if more[0].Cleanup? && email in b && Expired(b[email], Cutoff(c, more[0].now)) {
        RecentOfExpired(b[email], Cutoff(c, later));
        RecentOfExpired([], Cutoff(c, later));
      }
    }
  }

  lemma {:induction false} LastIsLatest(from: real, ops: seq<Op>)
    requires Monotone(from, ops)
    ensures from <= Last(from, ops)
    decreases ops
  {
    if ops != [] {
      LastIsLatest(ops[0].now, ops[1..]);
    }
  }

  lemma {:induction false} NothingAdmitted(c: Config, b: Book, ops: seq<Op>)
    requires c.max <= 0 && forall e :: Entries(b, e) == []
    ensures forall e :: Entries(After(c, b, ops), e) == []
    decreases ops
  {
    if ops != [] {
      var next := Step(c, b, ops[0]);
      RecentOfExpired([], Cutoff(c, ops[0].now));
      forall e ensures Entries(next, e) == [] {
        assert Entries(b, e) == [];
      }
      NothingAdmitted(c, next, ops[1..]);
    }
  }

  /** A check fails outright, instead of answering, exactly under a limit that is not positive; then
      every check does. */
  lemma FailsExactlyWithoutALimit(c: Config, ops: seq<Op>, email: string, now: real)
    ensures Answer(c, Recent(Entries(After(c, map[], ops), email), Cutoff(c, now)), now).IndexError? <==> c.max <= 0
  {
    if c.max <= 0 {
      var b: Book := map[];
      assert forall e :: Entries(b, e) == [];
      NothingAdmitted(c, b, ops);
    }
  }
}
