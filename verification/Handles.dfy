/** Handles derived by the insert triggers, and by the one-off backfill. */
module Handles {
  import opened Numerals
  import opened Prelude

  type Id = nat

  // ---------------------------------------------------------------------------------------
  // Normalising
  // ---------------------------------------------------------------------------------------

  predicate Allowed(c: char) {
    'a' <= c <= 'z' || '0' <= c <= '9' || c == '_'
  }

  function LowerChar(c: char): char {
    if 'A' <= c <= 'Z' then c - 'A' + 'a' else c
  }

  function Lower(s: string): string {
    seq(|s|, i requires 0 <= i < |s| => LowerChar(s[i]))
  }

  /** `SPLIT_PART(s, '@', 1)`. */
  function BeforeAt(s: string): string {
    if s == "" || s[0] == '@' then "" else [s[0]] + BeforeAt(s[1..])
  }

  /** `REGEXP_REPLACE(s, '[^a-z0-9_]', '_', 'g')`. */
  function Replace(s: string): string {
    seq(|s|, i requires 0 <= i < |s| => if Allowed(s[i]) then s[i] else '_')
  }

  /** `REGEXP_REPLACE(s, '_+', '_', 'g')`. */
  function Collapse(s: string): string {
    if s == "" then ""
    else if |s| >= 2 && s[0] == '_' && s[1] == '_' then Collapse(s[1..])
    else [s[0]] + Collapse(s[1..])
  }

  function TrimLeft(s: string): string {
    if s != "" && s[0] == '_' then TrimLeft(s[1..]) else s
  }

  function TrimRight(s: string): string {
    if s != "" && s[|s| - 1] == '_' then TrimRight(s[..|s| - 1]) else s
  }

  function Normalise(s: string): string {
    TrimRight(TrimLeft(Collapse(Replace(s))))
  }

  /** The base of a derived handle: from the local part of an e-mail, or from an agent's name. */
  function UserBase(email: Option<string>): string {
    var h := Normalise(BeforeAt(Lower(if email.Some? then email.value else "")));
    if h == "" then "user" else h
  }

  function AgentBase(name: Option<string>): string {
    var h := Normalise(Lower(if name.Some? then name.value else ""));
    if h == "" then "agent" else h
  }

  predicate Doubled(s: string) {
    exists i :: 0 <= i < |s| - 1 && s[i] == '_' && s[i + 1] == '_'
  }

  /** Only [a-z0-9_], no doubled and no leading or trailing underscore. */
  predicate Clean(s: string) {
    && (forall i :: 0 <= i < |s| ==> Allowed(s[i]))
    && !Doubled(s)
    && (s != "" ==> s[0] != '_' && s[|s| - 1] != '_')
  }

  predicate AllAllowed(s: string) {
    forall i :: 0 <= i < |s| ==> Allowed(s[i])
  }

  lemma {:induction false} CollapseMeaning(s: string)
    requires AllAllowed(s)
    ensures AllAllowed(Collapse(s)) && !Doubled(Collapse(s))
    ensures s != "" ==> Collapse(s) != "" && Collapse(s)[0] == s[0]
  {
    if s != "" {
      CollapseMeaning(s[1..]);
      var rest := Collapse(s[1..]);
      if !(|s| >= 2 && s[0] == '_' && s[1] == '_') {
        var all := [s[0]] + rest;
        forall i | 0 <= i < |all| - 1 ensures !(all[i] == '_' && all[i + 1] == '_') {
          if i > 0 {
            assert all[i] == rest[i - 1] && all[i + 1] == rest[i];
          } else {
            assert all[1] == rest[0];
          }
        }
      }
    }
  }

  lemma {:induction false} TrimLeftMeaning(s: string)
    requires AllAllowed(s) && !Doubled(s)
    ensures AllAllowed(TrimLeft(s)) && !Doubled(TrimLeft(s)) && (TrimLeft(s) != "" ==> TrimLeft(s)[0] != '_')
  {
    if s != "" && s[0] == '_' {
      var t := s[1..];
      forall i | 0 <= i < |t| - 1 ensures !(t[i] == '_' && t[i + 1] == '_') {
        assert t[i] == s[i + 1] && t[i + 1] == s[i + 1 + 1];
      }
      TrimLeftMeaning(t);
    }
  }

  lemma {:induction false} TrimRightMeaning(s: string)
    requires AllAllowed(s) && !Doubled(s) && (s != "" ==> s[0] != '_')
    ensures Clean(TrimRight(s))
  {
    if s != "" && s[|s| - 1] == '_' {
      var t := s[..|s| - 1];
      forall i | 0 <= i < |t| - 1 ensures !(t[i] == '_' && t[i + 1] == '_') {
        assert t[i] == s[i] && t[i + 1] == s[i + 1];
      }
      TrimRightMeaning(t);
    }
  }

  /** Whatever goes in, the normaliser gives a clean string, possibly empty. */
  lemma NormaliseIsClean(s: string)
    ensures Clean(Normalise(s))
  {
    CollapseMeaning(Replace(s));
    TrimLeftMeaning(Collapse(Replace(s)));
    TrimRightMeaning(TrimLeft(Collapse(Replace(s))));
  }

  lemma {:induction false} CollapseKeeps(s: string)
    requires !Doubled(s)
    ensures Collapse(s) == s
  {
    if s != "" {
      var t := s[1..];
      forall i | 0 <= i < |t| - 1 ensures !(t[i] == '_' && t[i + 1] == '_') {
        assert t[i] == s[i + 1] && t[i + 1] == s[i + 1 + 1];
      }
      CollapseKeeps(t);
      assert |s| >= 2 ==> !(s[0] == '_' && s[0 + 1] == '_');
    }
  }

  /** A clean string is left alone; hence the normaliser is idempotent. */
  lemma CleanIsFixed(s: string)
    requires Clean(s)
    ensures Normalise(s) == s
  {
    assert Replace(s) == s;
    CollapseKeeps(s);
  }

  lemma NormaliseIsIdempotent(s: string)
    ensures Normalise(Normalise(s)) == Normalise(s)
  {
    NormaliseIsClean(s);
    CleanIsFixed(Normalise(s));
  }

  lemma BasesAreHandles(text: Option<string>)
    ensures Clean(UserBase(text)) && UserBase(text) != ""
    ensures Clean(AgentBase(text)) && AgentBase(text) != ""
  {
    hide Normalise;
    var s := if text.Some? then text.value else "";
    NormaliseIsClean(BeforeAt(Lower(s)));
    NormaliseIsClean(Lower(s));
  }

  // ---------------------------------------------------------------------------------------
  // What the normaliser computes: the words of the text, joined
  // ---------------------------------------------------------------------------------------

  predicate InWord(c: char) {
    'a' <= c <= 'z' || '0' <= c <= '9'
  }

  /** The longest run of lower-case letters and digits at the start. */
  function Lead(s: string): (w: string)
    ensures |w| <= |s| && w == s[..|w|] && (forall i :: 0 <= i < |w| ==> InWord(w[i]))
    ensures |w| < |s| ==> !InWord(s[|w|])
  {
    if s == "" || !InWord(s[0]) then "" else [s[0]] + Lead(s[1..])
  }

  /** The runs of lower-case letters and digits, left to right; whatever stands between them is dropped. */
  function Words(s: string): (ws: seq<string>)
    ensures forall i :: 0 <= i < |ws| ==> ws[i] != "" && forall j :: 0 <= j < |ws[i]| ==> InWord(ws[i][j])
    ensures ws == [] <==> forall i :: 0 <= i < |s| ==> !InWord(s[i])
    decreases |s|
  {
    if s == "" then []
    else if InWord(s[0]) then [Lead(s)] + Words(s[|Lead(s)|..])
    else Words(s[1..])
  }

  function Joined(ws: seq<string>): string {
    if ws == [] then "" else if |ws| == 1 then ws[0] else ws[0] + "_" + Joined(ws[1..])
  }

  /** One character more in front. */
  lemma WordsStep(s: string)
    requires s != ""
    ensures !InWord(s[0]) ==> Words(s) == Words(s[1..])
    ensures InWord(s[0]) && |s| >= 2 && InWord(s[1]) ==>
              Words(s[1..]) != [] && Words(s) == [[s[0]] + Words(s[1..])[0]] + Words(s[1..])[1..]
    ensures InWord(s[0]) && !(|s| >= 2 && InWord(s[1])) ==> Words(s) == [[s[0]]] + Words(s[1..])
  {
    hide Words;
    WordsOf(s);
    if InWord(s[0]) {
      LeadOf(s);
      if |s| >= 2 && InWord(s[1]) {
        WordsOf(s[1..]);
        var k := |Lead(s[1..])|;
        assert s[1..][k..] == s[k + 1..];
      } else {
        assert s[|[s[0]]|..] == s[1..];
      }
    }
  }

  lemma WordsOf(s: string)
    requires s != ""
    ensures Words(s) == if InWord(s[0]) then [Lead(s)] + Words(s[|Lead(s)|..]) else Words(s[1..])
  {
  }

  lemma LeadOf(s: string)
    requires s != "" && InWord(s[0])
    ensures Lead(s) == if |s| >= 2 && InWord(s[1]) then [s[0]] + Lead(s[1..]) else [s[0]]
  {
  }

  lemma JoinedHead(c: char, ws: seq<string>)
    ensures ws != [] ==> Joined([[c] + ws[0]] + ws[1..]) == [c] + Joined(ws)
    ensures Joined([[c]] + ws) == if ws == [] then [c] else [c] + "_" + Joined(ws)
  {
    hide Joined;
    JoinedOf([[c]] + ws);
    assert ([[c]] + ws)[1..] == ws;
    if ws != [] {
      var longer := [[c] + ws[0]] + ws[1..];
      JoinedOf(ws);
      JoinedOf(longer);
      assert longer[1..] == ws[1..];
      AddHead(c, ws[0], Joined(ws[1..]));
    }
  }

  lemma JoinedOf(ws: seq<string>)
    ensures Joined(ws) == if ws == [] then "" else if |ws| == 1 then ws[0] else ws[0] + "_" + Joined(ws[1..])
  {
  }

  lemma AddHead(c: char, w: string, rest: string)
    ensures [c] + w + "_" + rest == [c] + (w + "_" + rest)
  {
  }

  function Underscore(b: bool): string {
    if b then "_" else ""
  }

  /** After replacing and collapsing there is one underscore for each gap, at the ends too. */
  lemma {:induction false} CollapsedIsJoined(s: string)
    ensures Collapse(Replace(s)) == Underscore(s != "" && !InWord(s[0])) + Joined(Words(s))
                                    + Underscore(Words(s) != [] && !InWord(s[|s| - 1]))
  {
    hide *;
    NoWords();
    if s == "" {
      NoGap();
    } else {
      CollapsedIsJoined(s[1..]);
      CollapsedStep(s);
      WordsStep(s);
      NoGap();
      if s[1..] != "" {
        assert s[1..][|s[1..]| - 1] == s[|s| - 1] && s[1..][0] == s[1];
      } else {
        assert s[|s| - 1] == s[0];
      }
      if InWord(s[0]) {
        JoinedHead(s[0], Words(s[1..]));
        if |s| >= 2 && InWord(s[1]) {
          AddInFront(s[0], Joined(Words(s[1..])), Underscore(!InWord(s[|s| - 1])));
        } else {
          AddBeforeGap(s[0], Joined(Words(s[1..])), Underscore(Words(s[1..]) != [] && !InWord(s[|s| - 1])));
        }
      } else {
        AddGap(Joined(Words(s)), Underscore(Words(s) != [] && !InWord(s[|s| - 1])));
      }
    }
  }

  lemma NoGap()
    ensures Underscore(false) == "" && Underscore(true) == "_"
    ensures forall t: string {:trigger t + ""} :: t + "" == t
    ensures forall t: string {:trigger "" + t} :: "" + t == t
  {
  }

  lemma AddInFront(c: char, t: string, b: string)
    ensures [c] + ("" + t + b) == "" + ([c] + t) + b
  {
  }

  lemma AddBeforeGap(c: char, t: string, b: string)
    ensures [c] + ("_" + t + b) == "" + ([c] + "_" + t) + b
    ensures [c] + ("_" + "" + "") == "" + [c] + "_" && [c] + ("" + "" + "") == "" + [c] + ""
  {
  }

  lemma AddGap(t: string, b: string)
    ensures "_" + ("" + t + b) == "_" + t + b
  {
  }

  /** The collapse of the replaced text, by its first two characters. */
  lemma CollapsedStep(s: string)
    requires s != ""
    ensures Collapse(Replace(s))
            == if InWord(s[0]) then [s[0]] + Collapse(Replace(s[1..]))
               else if |s| >= 2 && !InWord(s[1]) then Collapse(Replace(s[1..]))
               else "_" + Collapse(Replace(s[1..]))
  {
    hide Collapse;
    assert Replace(s)[1..] == Replace(s[1..]);
    CollapseStep(Replace(s));
  }

  lemma CollapseStep(s: string)
    requires s != ""
    ensures Collapse(s) == if |s| >= 2 && s[0] == '_' && s[1] == '_' then Collapse(s[1..])
            else [s[0]] + Collapse(s[1..])
  {
  }

  lemma NoWords()
    ensures Words("") == [] && Joined([]) == "" && Collapse("") == "" && Replace("") == ""
  {
  }

  lemma {:induction false} JoinedEnds(ws: seq<string>)
    requires ws != []
    requires forall i :: 0 <= i < |ws| ==> ws[i] != "" && forall j :: 0 <= j < |ws[i]| ==> InWord(ws[i][j])
    ensures var t := Joined(ws); t != "" && InWord(t[0]) && InWord(t[|t| - 1])
  {
    if |ws| > 1 {
      JoinedEnds(ws[1..]);
    }
  }

  /** Whatever goes in, what comes out is the runs of letters and digits with one underscore between
      them: `john.doe` gives `john_doe`. */
  lemma NormaliseJoinsWords(s: string)
    ensures Normalise(s) == Joined(Words(s))
  {
    hide Collapse, Words, Joined;
    CollapsedIsJoined(s);
    NoWords();
    if Words(s) == [] {
      NothingButGaps();
    } else {
      JoinedEnds(Words(s));
      TrimBoth(Underscore(!InWord(s[0])), Joined(Words(s)), Underscore(!InWord(s[|s| - 1])));
    }
  }

  lemma NothingButGaps()
    ensures TrimRight(TrimLeft("")) == "" && TrimRight(TrimLeft("_")) == ""
    ensures Underscore(true) + "" + Underscore(false) == "_" && Underscore(false) + "" + Underscore(false) == ""
  {
  }

  lemma TrimBoth(a: string, t: string, b: string)
    requires (a == "" || a == "_") && (b == "" || b == "_")
    requires t != "" && InWord(t[0]) && InWord(t[|t| - 1])
    ensures TrimRight(TrimLeft(a + t + b)) == t
  {
    var s := a + t + b;
    assert a == "_" ==> s[0] == '_' && s[1..] == t + b;
    assert a == "" ==> s == t + b;
    assert TrimLeft(t + b) == t + b && TrimLeft(s) == t + b;
    assert b == "_" ==> (t + b)[..|t + b| - 1] == t;
    assert b == "" ==> t + b == t;
  }

  /** `low` is the text with A to Z moved to a to z. */
  ghost predicate IsLowerOf(low: string, s: string) {
    && |low| == |s|
    && forall i :: 0 <= i < |s| ==>
         low[i] as int == if 'A' <= s[i] <= 'Z' then s[i] as int + 32 else s[i] as int
  }

  /** What stands before the first '@', or everything. */
  ghost predicate IsLocalPart(local: string, email: string) {
    '@' !in local && (local == email || local + "@" <= email)
  }

  lemma {:induction false} BeforeAtIsLocalPart(s: string)
    ensures IsLocalPart(BeforeAt(s), s)
  {
    if s != "" && s[0] != '@' {
      BeforeAtIsLocalPart(s[1..]);
      var rest := BeforeAt(s[1..]);
      assert rest + "@" <= s[1..] ==> [s[0]] + (rest + "@") <= s;
      assert [s[0]] + (rest + "@") == BeforeAt(s) + "@";
    }
  }

  lemma NoLongerLocalPart(a: string, b: string, s: string)
    requires IsLocalPart(a, s) && b <= s && '@' !in b
    ensures |b| <= |a|
  {
    if |a| < |s| {
      assert (a + "@")[|a|] == '@';
      assert s[|a|] == '@';
    }
  }

  lemma LocalPartIsUnique(a: string, b: string, s: string)
    requires IsLocalPart(a, s) && IsLocalPart(b, s)
    ensures a == b
  {
    assert a <= s && b <= s by {
      assert a <= a + "@" && b <= b + "@";
    }
    NoLongerLocalPart(a, b, s);
    NoLongerLocalPart(b, a, s);
  }

  lemma LowerOfIsUnique(low: string, s: string)
    requires IsLowerOf(low, s)
    ensures low == Lower(s)
  {
    forall i | 0 <= i < |s| ensures low[i] == Lower(s)[i] {
      assert low[i] as int == Lower(s)[i] as int;
    }
  }

  /** The base of a user: the words of the lower-cased local part, joined by underscores, or `user` when
      there is none; of an agent: the words of the lower-cased name, or `agent`. */
  lemma BasesAreJoinedWords(text: string, low: string, local: string)
    requires IsLowerOf(low, text) && IsLocalPart(local, low)
    ensures UserBase(Some(text)) == if Words(local) == [] then "user" else Joined(Words(local))
    ensures AgentBase(Some(text)) == if Words(low) == [] then "agent" else Joined(Words(low))
    ensures UserBase(None) == "user" && AgentBase(None) == "agent"
  {
    hide Words, Joined, Normalise, BeforeAt, Lower;
    LowerOfIsUnique(low, text);
    BeforeAtIsLocalPart(low);
    LocalPartIsUnique(local, BeforeAt(low), low);
    NormaliseJoinsWords(local);
    NormaliseJoinsWords(low);
    NoWords();
    WordsAreNone(local);
    WordsAreNone(low);
    NothingGiven();
  }

  lemma WordsAreNone(s: string)
    ensures Words(s) == [] <==> Joined(Words(s)) == ""
  {
    if Words(s) != [] {
      JoinedEnds(Words(s));
    }
  }

  lemma NothingGiven()
    ensures UserBase(None) == "user" && AgentBase(None) == "agent"
  {
    assert Lower("") == "" && Replace("") == "";
  }

  lemma {:induction false} BeforeAtOf(local: string, rest: string)
    requires '@' !in local
    ensures BeforeAt(local + "@" + rest) == local
  {
    var s := local + "@" + rest;
    if local != "" {
      assert s[0] == local[0] && s[1..] == local[1..] + "@" + rest;
      assert forall i :: 0 <= i < |local| - 1 ==> local[1..][i] == local[i + 1];
      BeforeAtOf(local[1..], rest);
    }
  }

  /** The local part of an e-mail that is a handle up to case becomes the base in lower case, whatever
      the domain, and so does such a name of an agent. */
  lemma PlainNamesAreKept(local: string, domain: string)
    requires local != "" && '@' !in local && Clean(Lower(local))
    ensures UserBase(Some(local + "@" + domain)) == Lower(local)
    ensures AgentBase(Some(local)) == Lower(local)
  {
    hide Normalise, BeforeAt, Clean;
    assert Lower(local + "@" + domain) == Lower(local) + "@" + Lower(domain);
    LowerKeepsAt(local);
    BeforeAtOf(Lower(local), Lower(domain));
    CleanIsFixed(Lower(local));
  }

  lemma LowerKeepsAt(s: string)
    requires '@' !in s
    ensures '@' !in Lower(s)
  {
  }

  // ---------------------------------------------------------------------------------------
  // Candidates
  // ---------------------------------------------------------------------------------------

  /** The n-th handle tried: base, base_2, base_3, ... */
  function Candidate(base: string, n: nat): string {
    if n <= 1 then base else base + "_" + Digits(n)
  }

  lemma CandidatesDiffer(base: string, m: nat, n: nat)
    requires 1 <= m < n
    ensures Candidate(base, m) != Candidate(base, n)
  {
    DigitsAreDigits(n);
    hide Digits;
    if m > 1 && Candidate(base, m) == Candidate(base, n) {
      var k := |base| + 1;
      assert Candidate(base, m)[k..] == Digits(m) && Candidate(base, n)[k..] == Digits(n);
      DigitsInjective(m, n);
    }
  }

  /** The handle itself, then with an underscore and the decimal number of the try, from 2 on. */
  ghost predicate IsTry(h: string, base: string, n: nat) {
    if n <= 1 then h == base
    else h == base + "_" + h[Min(|base| + 1, |h|)..]
         && IsNumeral(h[Min(|base| + 1, |h|)..], n)
  }

  /** A number without leading zeros. */
  ghost predicate IsNumeral(d: string, n: nat) {
    AllDigits(d) && d[0] != '0' && Reading(d) == n
  }

  lemma CandidateIsATry(base: string, n: nat)
    ensures IsTry(Candidate(base, n), base, n)
  {
    hide Digits, Reading;
    DigitsRead(n);
    assert n > 1 ==> Candidate(base, n)[|base| + 1..] == Digits(n);
  }

  lemma CandidateIsClean(base: string, n: nat)
    requires Clean(base) && base != ""
    ensures Clean(Candidate(base, n)) && Candidate(base, n) != ""
  {
    if n > 1 {
      DigitsAreDigits(n);
      var d := Digits(n);
      hide Digits;
      var s := Candidate(base, n);
      var k := |base|;
      forall i | 0 <= i < |s| ensures Allowed(s[i]) && (i < |s| - 1 ==> !(s[i] == '_' && s[i + 1] == '_')) {
        assert s[i] == if i < k then base[i] else if i == k then '_' else d[i - k - 1];
        if i < |s| - 1 {
          assert s[i + 1] == if i + 1 < k then base[i + 1] else if i + 1 == k then '_' else d[i - k];
        }
      }
      assert s[|s| - 1] == d[|d| - 1];
    }
  }

  // ---------------------------------------------------------------------------------------
  // The trigger
  // ---------------------------------------------------------------------------------------

  predicate Taken(handles: map<Id, string>, h: string) {
    exists id :: id in handles && handles[id] == h
  }

  /** All candidates before the n-th are taken. */
  predicate AllTaken(handles: map<Id, string>, base: string, n: nat) {
    forall k :: 1 <= k < n ==> Taken(handles, Candidate(base, k))
  }

  /** A free handle, all earlier tries being taken, within one more try than there are handles. */
  ghost predicate IsFirstFree(handles: map<Id, string>, base: string, h: string) {
    exists n :: 1 <= n <= |handles| + 1 && IsFirstFreeTry(handles, base, h, n)
  }

  ghost predicate IsFirstFreeTry(handles: map<Id, string>, base: string, h: string, n: nat) {
    && IsTry(h, base, n)
    && (forall id :: id in handles ==> handles[id] != h)
    && forall k: nat :: 1 <= k < n ==> TriedInVain(handles, base, k)
  }

  ghost predicate TriedInVain(handles: map<Id, string>, base: string, k: nat) {
    exists id :: id in handles && IsTry(handles[id], base, k)
  }

  lemma FirstFree(handles: map<Id, string>, base: string, n: nat)
    requires 1 <= n <= |handles| + 1
    requires !Taken(handles, Candidate(base, n)) && AllTaken(handles, base, n)
    ensures IsFirstFree(handles, base, Candidate(base, n))
  {
    hide IsTry, Candidate;
    CandidateIsATry(base, n);
    forall k: nat | 1 <= k < n ensures TriedInVain(handles, base, k) {
      assert Taken(handles, Candidate(base, k));
      CandidateIsATry(base, k);
    }
    assert IsFirstFreeTry(handles, base, Candidate(base, n), n);
  }

  /** Pigeonhole: distinct taken candidates have distinct holders. */
  lemma {:induction false} Pigeonhole(handles: map<Id, string>, base: string, n: nat) returns (holders: set<Id>)
    requires n >= 1 && AllTaken(handles, base, n)
    ensures holders <= handles.Keys && |holders| == n - 1
    ensures forall id :: id in holders ==> exists k :: 1 <= k < n && handles[id] == Candidate(base, k)
  {
    hide Candidate;
    if n == 1 {
      holders := {};
    } else {
      var rest := Pigeonhole(handles, base, n - 1);
      assert Taken(handles, Candidate(base, n - 1));
      var id :| id in handles && handles[id] == Candidate(base, n - 1);
      if id in rest {
        var k :| 1 <= k < n - 1 && handles[id] == Candidate(base, k);
        CandidatesDiffer(base, k, n - 1);
      }
      holders := rest + {id};
    }
  }

  lemma FewTaken(handles: map<Id, string>, base: string, n: nat)
    requires n >= 1 && AllTaken(handles, base, n)
    ensures n <= |handles| + 1
  {
    var holders := Pigeonhole(handles, base, n);
    SubsetSize(holders, handles.Keys);
  }

  lemma {:induction false} SubsetSize(a: set<Id>, b: set<Id>)
    requires a <= b
    ensures |a| <= |b|
    decreases a
  {
    if a != {} {
      var x :| x in a;
      SubsetSize(a - {x}, b - {x});
    }
  }

  class Accounts {
    var handles: map<Id, string>

    /** The unique index on the handle column. */
    ghost predicate Unique()
      reads this
    {
      forall i, j :: i in handles && j in handles && handles[i] == handles[j] ==> i == j
    }

    constructor ()
      ensures Unique() && handles == map[]
    {
      handles := map[];
    }

    /** The loop of the trigger: the first free candidate, within (number of handles + 1) tries. */
    method Search(base: string) returns (candidate: string, n: nat)
      ensures 1 <= n <= |handles| + 1 && candidate == Candidate(base, n)
      ensures !Taken(handles, candidate) && AllTaken(handles, base, n)
    {
      hide Digits;
      candidate := base;
      n := 1;
      while Taken(handles, candidate)
        invariant n >= 1 && candidate == Candidate(base, n) && AllTaken(handles, base, n)
        decreases |handles| + 1 - n
      {
        assert AllTaken(handles, base, n + 1);
        FewTaken(handles, base, n + 1);
        n := n + 1;
        candidate := base + "_" + Digits(n);
      }
      FewTaken(handles, base, n);
    }

    /** An insert with its trigger: a given handle is kept, and refused by the unique index if taken; an
        absent or empty one is filled in, and then the insert cannot clash. */
    method InsertWithBase(id: Id, given: Option<string>, base: string) returns (ok: bool)
      requires Unique() && id !in handles
      requires Clean(base) && base != ""
      modifies this
      ensures Unique()
      ensures given.Some? && given.value != "" ==>
                && ok == !Taken(old(handles), given.value)
                && handles == if ok then old(handles)[id := given.value] else old(handles)
      ensures !(given.Some? && given.value != "") ==>
                && ok && id in handles && handles == old(handles)[id := handles[id]]
                && Clean(handles[id]) && handles[id] != "" && IsFirstFree(old(handles), base, handles[id])
    {
      hide Digits, Candidate, Clean, IsFirstFree;
      if given.Some? && given.value != "" {
        ok := !Taken(handles, given.value);
        if ok {
          handles := handles[id := given.value];
        }
        return;
      }
      var candidate, n := Search(base);
      CandidateIsClean(base, n);
      FirstFree(handles, base, n);
      handles := handles[id := candidate];
      ok := true;
    }

    method InsertUser(id: Id, given: Option<string>, email: Option<string>) returns (ok: bool)
      requires Unique() && id !in handles
      modifies this
      ensures Unique()
      ensures given.Some? && given.value != "" ==>
                && ok == (forall x :: x in old(handles) ==> old(handles)[x] != given.value)
                && handles == if ok then old(handles)[id := given.value] else old(handles)
      ensures !(given.Some? && given.value != "") ==>
                && ok && id in handles && handles == old(handles)[id := handles[id]]
                && Clean(handles[id]) && IsFirstFree(old(handles), UserBase(email), handles[id])
    {
      BasesAreHandles(email);
      ok := InsertWithBase(id, given, UserBase(email));
    }

    method InsertAgent(id: Id, given: Option<string>, name: Option<string>) returns (ok: bool)
      requires Unique() && id !in handles
      modifies this
      ensures Unique()
      ensures given.Some? && given.value != "" ==>
                && ok == (forall x :: x in old(handles) ==> old(handles)[x] != given.value)
                && handles == if ok then old(handles)[id := given.value] else old(handles)
      ensures !(given.Some? && given.value != "") ==>
                && ok && id in handles && handles == old(handles)[id := handles[id]]
                && Clean(handles[id]) && IsFirstFree(old(handles), AgentBase(name), handles[id])
    {
      BasesAreHandles(name);
      ok := InsertWithBase(id, given, AgentBase(name));
    }
  }

  // ---------------------------------------------------------------------------------------
  // The backfill
  // ---------------------------------------------------------------------------------------

  function CountIn(bases: seq<string>, b: string): nat {
    if bases == [] then 0
    else CountIn(bases[..|bases| - 1], b) + if bases[|bases| - 1] == b then 1 else 0
  }

  /** ROW_NUMBER over the rows of the same base, the rows being in (created_at, id) order. */
  function RowNumber(bases: seq<string>, i: nat): nat
    requires i < |bases|
  {
    CountIn(bases[..i], bases[i]) + 1
  }

  /** One more than the rows before it with the same base. */
  lemma RowNumberCounts(bases: seq<string>, i: nat)
    requires i < |bases|
    ensures RowNumber(bases, i) == 1 + |(set k: nat | k < i && bases[k] == bases[i])|
  {
    CountInCounts(bases[..i], bases[i]);
    assert (set k: nat | k < i && bases[k] == bases[i]) == set k: nat | k < |bases[..i]| && bases[..i][k] == bases[i];
  }

  lemma {:induction false} CountInCounts(bases: seq<string>, b: string)
    ensures CountIn(bases, b) == |(set k: nat | k < |bases| && bases[k] == b)|
  {
    var all := set k: nat | k < |bases| && bases[k] == b;
    if bases != [] {
      var n := |bases| - 1;
      CountInCounts(bases[..n], b);
      var before := set k: nat | k < |bases[..n]| && bases[..n][k] == b;
      assert n !in before && all == if bases[n] == b then before + {n} else before;
    }
  }

  /** The handle a row gets: its base for the first row with that base, and base_2, base_3, ... after. */
  lemma BackfilledInFull(bases: seq<string>, i: nat)
    requires i < |bases|
    ensures IsTry(Backfilled(bases, i), bases[i], 1 + |(set k: nat | k < i && bases[k] == bases[i])|)
  {
    hide IsTry, Candidate, RowNumber;
    RowNumberCounts(bases, i);
    CandidateIsATry(bases[i], RowNumber(bases, i));
  }

  function Backfilled(bases: seq<string>, i: nat): string
    requires i < |bases|
  {
    Candidate(bases[i], RowNumber(bases, i))
  }

  /** The derived base of some row is the suffixed handle another row gets. */
  ghost predicate SuffixClash(bases: seq<string>) {
    exists i, j :: 0 <= i < |bases| && 0 <= j < |bases| && RowNumber(bases, i) >= 2 && bases[j] == Backfilled(bases, i)
  }

  ghost predicate Collides(bases: seq<string>) {
    exists i, j :: 0 <= i < j < |bases| && Backfilled(bases, i) == Backfilled(bases, j)
  }

  lemma {:induction false} CountGrows(bases: seq<string>, i: nat, j: nat, b: string)
    requires i <= j <= |bases|
    ensures CountIn(bases[..i], b) <= CountIn(bases[..j], b)
    ensures i < j && bases[i] == b ==> CountIn(bases[..i], b) < CountIn(bases[..j], b)
    decreases j
  {
    if i < j {
      assert bases[..j][..j - 1] == bases[..j - 1];
      CountGrows(bases, i, j - 1, b);
    }
  }

  lemma RowNumbersDiffer(bases: seq<string>, i: nat, j: nat)
    requires i < j < |bases| && bases[i] == bases[j]
    ensures RowNumber(bases, i) < RowNumber(bases, j)
  {
    CountGrows(bases, i, j, bases[i]);
  }

  /** The first row with a base keeps it bare. */
  lemma {:induction false} FirstHasNumberOne(bases: seq<string>, j: nat) returns (f: nat)
    requires j < |bases|
    ensures f <= j && bases[f] == bases[j] && RowNumber(bases, f) == 1
  {
    if RowNumber(bases, j) == 1 {
      f := j;
    } else {
      var p := Earlier(bases[..j], bases[j]);
      assert bases[p] == bases[j];
      f := FirstHasNumberOne(bases, p);
    }
  }

  lemma {:induction false} Earlier(bases: seq<string>, b: string) returns (p: nat)
    requires CountIn(bases, b) >= 1
    ensures p < |bases| && bases[p] == b
  {
    if bases[|bases| - 1] == b {
      p := |bases| - 1;
    } else {
      p := Earlier(bases[..|bases| - 1], b);
    }
  }

  /** Digits after the last underscore tell base and number apart. */
  lemma SuffixedDiffer(a: string, m: nat, b: string, n: nat)
    requires m >= 2 && n >= 2 && Candidate(a, m) == Candidate(b, n)
    ensures a == b && m == n
  {
    hide Digits;
    DigitsAreDigits(m);
    DigitsAreDigits(n);
    LastUnderscore(a, Digits(m), b, Digits(n));
    DigitsInjective(m, n);
  }

  lemma LastUnderscore(a: string, d: string, b: string, e: string)
    requires AllDigits(d) && AllDigits(e) && a + "_" + d == b + "_" + e
    ensures a == b && d == e
  {
    NotShorter(a, d, b, e);
    NotShorter(b, e, a, d);
    var s := a + "_" + d;
    assert a == s[..|a|] && b == s[..|b|] && d == s[|a| + 1..] && e == s[|b| + 1..];
  }

  lemma NotShorter(a: string, d: string, b: string, e: string)
    requires AllDigits(d) && a + "_" + d == b + "_" + e
    ensures |b| <= |a|
  {
    var s := a + "_" + d;
    assert forall k :: |a| < k < |s| ==> s[k] == d[k - |a| - 1];
    assert (b + "_" + e)[|b|] == '_';
  }

  /** The backfill numbers the rows of each base without looking at the others. Two rows end with the
      same handle, and the unique index cannot be built, exactly when some base equals another row's
      suffixed handle. */
  lemma BackfillCollidesIff(bases: seq<string>)
    ensures Collides(bases) <==> SuffixClash(bases)
  {
    hide RowNumber, Candidate;
    if SuffixClash(bases) {
      var i, j :| 0 <= i < |bases| && 0 <= j < |bases| && RowNumber(bases, i) >= 2 && bases[j] == Backfilled(bases, i);
      var f := FirstHasNumberOne(bases, j);
      BareCandidate(bases[f]);
      assert Backfilled(bases, f) == Backfilled(bases, i) && f != i;
      if f < i {
        assert Collides(bases);
      } else {
        assert Collides(bases);
      }
    }
    if Collides(bases) {
      var i, j :| 0 <= i < j < |bases| && Backfilled(bases, i) == Backfilled(bases, j);
      CollisionHasSuffix(bases, i, j);
    }
  }

  lemma BareCandidate(base: string)
    ensures Candidate(base, 1) == base
  {
  }

  lemma CollisionHasSuffix(bases: seq<string>, i: nat, j: nat)
    requires i < j < |bases| && Backfilled(bases, i) == Backfilled(bases, j)
    ensures SuffixClash(bases)
  {
    var m, n := RowNumber(bases, i), RowNumber(bases, j);
    if bases[i] == bases[j] {
      RowNumbersDiffer(bases, i, j);
      CandidatesDiffer(bases[i], m, n);
    }
    hide RowNumber, Candidate;
    BareCandidate(bases[i]);
    BareCandidate(bases[j]);
    if m >= 2 && n >= 2 {
      SuffixedDiffer(bases[i], m, bases[j], n);
    }
  }

  /** Three accounts are enough: alice, alice and alice_2. */
  lemma BackfillMayCollide()
    ensures Collides(["alice", "alice", "alice_2"])
  {
    var bases := ["alice", "alice", "alice_2"];
    assert bases[..1] == ["alice"] && ["alice"][..0] == [];
    assert bases[..2] == ["alice", "alice"] && bases[..2][..1] == ["alice"];
    assert RowNumber(bases, 1) == 2 && RowNumber(bases, 2) == 1;
    assert Digits(2) == "2";
    assert Backfilled(bases, 1) == "alice" + "_" + "2" == "alice_2";
    assert Backfilled(bases, 2) == "alice_2";
  }
}
