/**
 Looking a request up (src/routing/mod.rs): its host in lowercase; the listeners of
 its port that take that host most specifically; and within their scopes the host
 itself first, then the wildcards above it, then the catch-all.
 */
module RouteLookup {
  import opened Ascii
  import opened Options
  import opened Hostnames
  import opened RouteOrder
  import opened RouteTables

  type Entries = map<Slot, seq<Rule>>

  /** A name before every wildcard, a longer wildcard before a shorter, the catch-all last. */
  predicate MoreSpecific(k: HostKey, l: HostKey) {
    || (k.Named? && !l.Named?)
    || (k.Wildcard? && l.CatchAll?)
    || (k.Wildcard? && l.Wildcard? && |k.parent| > |l.parent|)
  }

  /** The routes of one listener hostname, lowercase, on a port; those shared by ports are under port 0. */
  datatype Scope = Scope(port: nat, listener: Option<string>)

  /** What a rule tests a request against; `passes` is the matchers and `regex` the compiled paths. */
  datatype Request = Request(
    verb: string,
    path: string,
    header: string -> Option<string>,
    query: string -> Option<string>,
    passes: (nat, string) -> bool,
    regex: (string, string) -> bool)

  predicate PathMatches(kind: PathKind, wanted: string, q: Request) {
    match kind
    case Exact => q.path == wanted
    case RegularExpression => q.regex(wanted, q.path)
    case Prefix =>
      || wanted == ""
      || (StartsWith(q.path, wanted)
          && (|q.path| == |wanted| || q.path[|wanted|] == '/' || wanted[|wanted| - 1] == '/'))
  }

  predicate AllPass(tests: seq<Test>, value: string -> Option<string>, passes: (nat, string) -> bool) {
    forall t :: t in tests ==> value(t.name).Some? && passes(t.matcher, value(t.name).value)
  }

  /** Method, case aside, then path, headers and query parameters. */
  predicate Matches(r: Rule, q: Request) {
    && (r.methodMatch.Some? ==> Lower(r.methodMatch.value) == Lower(q.verb))
    && PathMatches(r.kind, r.path, q)
    && AllPass(r.headers, q.header, q.passes)
    && AllPass(r.params, q.query, q.passes)
  }

  /** A prefix matches whole path segments: nothing but a slash follows it, unless it ends in one. */
  lemma PrefixIsBySegments(wanted: string, rest: string, q: Request)
    requires wanted != "" && q.path == wanted + rest
    ensures PathMatches(Prefix, wanted, q) <==> rest == "" || rest[0] == '/' || wanted[|wanted| - 1] == '/'
  {
    assert rest != "" ==> q.path[|wanted|] == rest[0];
  }

  /** Some rule of the entry matches. */
  predicate Answers(entries: Entries, scope: Scope, k: HostKey, matches: Rule -> bool) {
    var slot := Slot(scope.port, scope.listener, k);
    slot in entries && exists r :: r in entries[slot] && matches(r)
  }

  datatype Found = Found(key: HostKey, index: nat, rule: Rule)

  /** The first match of the most specific entry that takes the host and has one. */
  ghost predicate IsBest(entries: Entries, scope: Scope, host: string, matches: Rule -> bool, f: Found) {
    var slot := Slot(scope.port, scope.listener, f.key);
    && Takes(f.key, host)
    && slot in entries
    && FirstIs(entries[slot], matches, f.index)
    && f.rule == entries[slot][f.index]
    && forall k :: Takes(k, host) && Answers(entries, scope, k, matches) && k != f.key ==> MoreSpecific(f.key, k)
  }

  method FindIn(entries: Entries, scope: Scope, k: HostKey, matches: Rule -> bool) returns (f: Option<Found>)
    ensures f.Some? <==> Answers(entries, scope, k, matches)
    ensures f.Some? ==>
              var slot := Slot(scope.port, scope.listener, k);
              && f.value.key == k && FirstIs(entries[slot], matches, f.value.index)
              && f.value.rule == entries[slot][f.value.index]
  {
    var slot := Slot(scope.port, scope.listener, k);
    if slot !in entries {
      return None;
    }
    var rules := entries[slot];
    for i := 0 to |rules|
      invariant forall j :: 0 <= j < i ==> !matches(rules[j])
    {
      if matches(rules[i]) {
        return Some(Found(k, i, rules[i]));
      }
    }
    return None;
  }

  method LookupHttpRoute(entries: Entries, scope: Scope, host: string, matches: Rule -> bool) returns (f: Option<Found>)
    ensures f.Some? ==> IsBest(entries, scope, host, matches, f.value)
    ensures f.None? ==> forall k :: Takes(k, host) ==> !Answers(entries, scope, k, matches)
  {
    f := FindIn(entries, scope, Named(host), matches);
    if f.Some? {
      return;
    }
    var parents := ParentDomains(host);
    for i := 0 to |parents|
      invariant forall j :: 0 <= j < i ==> !Answers(entries, scope, Wildcard(parents[j]), matches)
    {
      f := FindIn(entries, scope, Wildcard(parents[i]), matches);
      if f.Some? {
        OthersAreShorter(parents, host, i);
        return;
      }
    }
    f := FindIn(entries, scope, CatchAll, matches);
  }

  /** A wildcard that takes the host is an earlier parent, this one or a shorter one. */
  lemma OthersAreShorter(parents: seq<string>, host: string, i: nat)
    requires i < |parents| && forall p :: p in parents <==> WildcardCovers(p, host)
    requires forall j, k :: 0 <= j < k < |parents| ==> |parents[j]| > |parents[k]|
    ensures forall p :: WildcardCovers(p, host) ==> p in parents[..i] || p == parents[i] || |p| < |parents[i]|
  {
    forall p | WildcardCovers(p, host)
      ensures p in parents[..i] || p == parents[i] || |p| < |parents[i]|
    {
      var j :| 0 <= j < |parents| && parents[j] == p;
      if j < i {
        assert parents[..i][j] == p;
      }
    }
  }

  // ----- the listeners of a port -----

  /** A listener's hostname as what it takes; no hostname takes every host. */
  function ListenerKey(listener: Option<string>): HostKey {
    if listener == None then CatchAll
    else if IsWildcard(listener.value) then Wildcard(listener.value[2..])
    else Named(listener.value)
  }

  /** Two entries that take one host are the same or one is more specific. */
  lemma OneOfEachRank(k: HostKey, l: HostKey, host: string)
    requires Takes(k, host) && Takes(l, host) && !MoreSpecific(k, l) && !MoreSpecific(l, k)
    ensures k == l
  {
    if k.Wildcard? && l.Wildcard? {
      ParentsNest(k.parent, l.parent, host);
    }
  }

  /** The scope takes the host, and none more specifically. */
  ghost predicate AtTop(scopes: seq<Scope>, host: string, sc: Scope) {
    && sc in scopes
    && Takes(ListenerKey(sc.listener), host)
    && forall other :: other in scopes && Takes(ListenerKey(other.listener), host) ==>
         !MoreSpecific(ListenerKey(other.listener), ListenerKey(sc.listener))
  }

  /** The more specific hostname, then the more specific match, then the earlier route. */
  predicate Outranks(f: Found, g: Found) {
    || MoreSpecific(f.key, g.key)
    || (!MoreSpecific(g.key, f.key) &&
        (|| MatchPrecedence(f.rule, g.rule).Less?
         || (Tied(f.rule, g.rule) && f.rule.routeIndex < g.rule.routeIndex)))
  }

  lemma OutranksOrders(f: Found, g: Found, h: Found)
    ensures !(Outranks(f, g) && Outranks(g, f))
    ensures Outranks(f, g) && Outranks(g, h) ==> Outranks(f, h)
  {
    PrecedenceIsAnOrder(f.rule, g.rule, h.rule);
    PrecedenceIsAnOrder(g.rule, f.rule, h.rule);
    PrecedenceIsAnOrder(h.rule, g.rule, f.rule);
    PrecedenceIsAnOrder(g.rule, h.rule, f.rule);
    PrecedenceIsAnOrder(f.rule, h.rule, g.rule);
    hide MatchPrecedence;
  }

  /** A scope has one best match. */
  lemma OneBest(entries: Entries, sc: Scope, host: string, matches: Rule -> bool, f: Found, g: Found)
    requires IsBest(entries, sc, host, matches, f) && IsBest(entries, sc, host, matches, g)
    ensures f == g
  {
    FirstAnswers(entries, sc, matches, f);
    FirstAnswers(entries, sc, matches, g);
  }

  lemma FirstAnswers(entries: Entries, sc: Scope, matches: Rule -> bool, f: Found)
    requires Slot(sc.port, sc.listener, f.key) in entries
    requires FirstIs(entries[Slot(sc.port, sc.listener, f.key)], matches, f.index)
    ensures Answers(entries, sc, f.key, matches)
  {
    assert entries[Slot(sc.port, sc.listener, f.key)][f.index] in entries[Slot(sc.port, sc.listener, f.key)];
  }

  ghost predicate Apart(scopes: seq<Scope>) {
    forall i, j :: 0 <= i < j < |scopes| ==> scopes[i].listener != scopes[j].listener
  }

  /** Lowercase hostnames are told apart by what they take, but for the text of a wildcard. */
  lemma SameKeySameListener(a: Option<string>, b: Option<string>)
    requires ListenerKey(a) == ListenerKey(b)
    ensures a == b
  {
    if a.Some? && IsWildcard(a.value) {
      WildcardText(a.value);
      WildcardText(b.value);
    }
  }

  /** Scopes at the top take the host by the same hostname. */
  lemma TopsAgree(scopes: seq<Scope>, host: string, a: Scope, b: Scope)
    requires AtTop(scopes, host, a) && AtTop(scopes, host, b)
    ensures a.listener == b.listener
  {
    OneOfEachRank(ListenerKey(a.listener), ListenerKey(b.listener), host);
    SameKeySameListener(a.listener, b.listener);
  }

  /** What a request gets: the match of a scope at the top that no other scope's at the top outranks. */
  ghost predicate IsFound(entries: Entries, scopes: seq<Scope>, host: string, matches: Rule -> bool,
                          sc: Scope, f: Found)
  {
    && AtTop(scopes, host, sc)
    && IsBest(entries, sc, host, matches, f)
    && forall other, g :: AtTop(scopes, host, other) && IsBest(entries, other, host, matches, g) ==> !Outranks(g, f)
  }

  ghost predicate NoneMatches(entries: Entries, scopes: seq<Scope>, host: string, matches: Rule -> bool) {
    forall sc, k :: AtTop(scopes, host, sc) && Takes(k, host) ==> !Answers(entries, sc, k, matches)
  }

  /** The highest rank among the scopes that take the host. */
  method HighestRank(scopes: seq<Scope>, host: string) returns (top: Option<HostKey>)
    ensures top.None? <==> forall sc :: sc in scopes ==> !Takes(ListenerKey(sc.listener), host)
    ensures top.Some? ==>
              Takes(top.value, host) && exists sc :: AtTop(scopes, host, sc) && ListenerKey(sc.listener) == top.value
    ensures forall sc :: AtTop(scopes, host, sc) ==> top == Some(ListenerKey(sc.listener))
  {
    top := None;
    for i := 0 to |scopes|
      invariant top.None? <==> forall j :: 0 <= j < i ==> !Takes(ListenerKey(scopes[j].listener), host)
      invariant top.Some? ==> Takes(top.value, host)
      invariant top.Some? ==> exists j :: 0 <= j < i && ListenerKey(scopes[j].listener) == top.value
      invariant top.Some? ==> forall j :: 0 <= j < i && Takes(ListenerKey(scopes[j].listener), host) ==>
                  !MoreSpecific(ListenerKey(scopes[j].listener), top.value)
    {
      var k := ListenerKey(scopes[i].listener);
      if Takes(k, host) && (top.None? || MoreSpecific(k, top.value)) {
        top := Some(k);
      }
    }
    if top.Some? {
      var j :| 0 <= j < |scopes| && ListenerKey(scopes[j].listener) == top.value;
      assert AtTop(scopes, host, scopes[j]);
      forall sc | AtTop(scopes, host, sc)
        ensures top == Some(ListenerKey(sc.listener))
      {
        TopsAgree(scopes, host, sc, scopes[j]);
      }
    }
  }

  ghost predicate NoneBefore(entries: Entries, scopes: seq<Scope>, host: string, matches: Rule -> bool, i: int) {
    forall j, k :: 0 <= j < i <= |scopes| && AtTop(scopes, host, scopes[j]) && Takes(k, host) ==>
      !Answers(entries, scopes[j], k, matches)
  }

  ghost predicate UnbeatenBefore(entries: Entries, scopes: seq<Scope>, host: string, matches: Rule -> bool,
                                 i: int, f: Found)
  {
    forall j, g ::
      (0 <= j < i <= |scopes| && AtTop(scopes, host, scopes[j]) && IsBest(entries, scopes[j], host, matches, g)) ==>
        !Outranks(g, f)
  }

  /** The buffer a mixed-case host is lowered in, in bytes. */
  const HOST_BUFFER: nat := 256

  /** The host a request is looked up by, a character a byte; `utf8`: the bytes are text. */
  function HostText(host: string, utf8: string -> bool): string {
    if Lower(host) == host then host
    else
      var cut := Lower(if |host| <= HOST_BUFFER then host else host[..HOST_BUFFER]);
      if utf8(cut) then cut else host
  }

  /** That is the host in lowercase if and only if it is in lowercase already or fits the buffer. */
  lemma HostTextIsLowerIff(host: string, utf8: string -> bool)
    requires utf8(Lower(host))
    ensures HostText(host, utf8) == Lower(host) <==> Lower(host) == host || |host| <= 256
  {
  }

  /** Past the buffer a mixed-case host loses its domain: no wildcard of it takes the host any more. */
  lemma LongHostIsMissed(parent: string, utf8: string -> bool) returns (host: string)
    requires utf8(seq(HOST_BUFFER, _ => 'a'))
    ensures Takes(Wildcard(Lower(parent)), Lower(host)) && !Takes(Wildcard(Lower(parent)), HostText(host, utf8))
  {
    host := "A" + seq(HOST_BUFFER - 1, _ => 'a') + "." + parent;
    var n := HOST_BUFFER + 1;
    assert Lower(host)[n..] == Lower(parent) && Lower(host)[n - 1] == '.';
    assert Lower(host)[0] != host[0];
    assert Lower(host[..HOST_BUFFER]) == seq(HOST_BUFFER, _ => 'a');
  }

  method FindHttpRoute(entries: Entries, own: seq<Scope>, shared: seq<Scope>, host: string, utf8: string -> bool,
                       matches: Rule -> bool)
    returns (found: Option<(Scope, Found)>)
    requires Apart(own) && Apart(shared)
    ensures found.Some? ==>
              IsFound(entries, own + shared, HostText(host, utf8), matches, found.value.0, found.value.1)
    ensures found.None? ==> NoneMatches(entries, own + shared, HostText(host, utf8), matches)
  {
    found := FindByHost(entries, own, shared, HostText(host, utf8), matches);
  }

  /** Two passes over a port's own scopes and the shared ones; without both kinds the first match is the only one. */
  method FindByHost(entries: Entries, own: seq<Scope>, shared: seq<Scope>, host: string, matches: Rule -> bool)
    returns (found: Option<(Scope, Found)>)
    requires Apart(own) && Apart(shared)
    ensures found.Some? ==> IsFound(entries, own + shared, host, matches, found.value.0, found.value.1)
    ensures found.None? ==> NoneMatches(entries, own + shared, host, matches)
  {
    hide IsBest, AtTop, Answers, Takes, Outranks, NoneBefore, UnbeatenBefore, IsFound, NoneMatches;
    var scopes := own + shared;
    var top := HighestRank(scopes, host);
    found := None;
    if top.None? {
      NoneTakes(entries, scopes, host, matches);
      return;
    }
    NothingBefore(entries, scopes, host, matches);
    for i := 0 to |scopes|
      invariant found.None? ==> NoneBefore(entries, scopes, host, matches, i)
      invariant found.Some? ==> own != [] && shared != [] && AtTop(scopes, host, found.value.0)
      invariant found.Some? ==> IsBest(entries, found.value.0, host, matches, found.value.1)
      invariant found.Some? ==> UnbeatenBefore(entries, scopes, host, matches, i, found.value.1)
    {
      if ListenerKey(scopes[i].listener) == top.value {
        var f := LookupHttpRoute(entries, scopes[i], host, matches);
        KeyIsAtTop(scopes, host, scopes[i], top.value);
        if f.Some? {
          if own == [] || shared == [] {
            OnlyAtTop(scopes, host, i, own, shared);
            OnlyMatch(entries, scopes, host, matches, scopes[i], f.value);
            return Some((scopes[i], f.value));
          }
          ghost var held := found;
          if found.None? || Outranks(f.value, found.value.1) {
            found := Some((scopes[i], f.value));
          }
          Holds(entries, scopes, host, matches, i, f.value, held, found.value.1);
        } else {
          PassedOver(entries, scopes, host, matches, i, found);
        }
      } else {
        PassedOver(entries, scopes, host, matches, i, found);
      }
    }
    NoneAtAll(entries, scopes, host, matches, found);
  }

  lemma NoneTakes(entries: Entries, scopes: seq<Scope>, host: string, matches: Rule -> bool)
    requires forall sc :: sc in scopes ==> !Takes(ListenerKey(sc.listener), host)
    ensures NoneMatches(entries, scopes, host, matches)
  {
  }

  lemma NothingBefore(entries: Entries, scopes: seq<Scope>, host: string, matches: Rule -> bool)
    ensures NoneBefore(entries, scopes, host, matches, 0)
  {
  }

  lemma NoneAtAll(entries: Entries, scopes: seq<Scope>, host: string, matches: Rule -> bool,
                  found: Option<(Scope, Found)>)
    ensures NoneBefore(entries, scopes, host, matches, |scopes|) ==> NoneMatches(entries, scopes, host, matches)
    ensures found.Some? && AtTop(scopes, host, found.value.0)
              && IsBest(entries, found.value.0, host, matches, found.value.1)
              && UnbeatenBefore(entries, scopes, host, matches, |scopes|, found.value.1)
            ==> IsFound(entries, scopes, host, matches, found.value.0, found.value.1)
  {
    hide IsBest, Answers, Outranks;
  }

  /** A scope not at the top, or without a match, changes nothing. */
  lemma PassedOver(entries: Entries, scopes: seq<Scope>, host: string, matches: Rule -> bool, i: nat,
                   found: Option<(Scope, Found)>)
    requires i < |scopes|
    requires AtTop(scopes, host, scopes[i]) ==> forall k :: Takes(k, host) ==> !Answers(entries, scopes[i], k, matches)
    ensures NoneBefore(entries, scopes, host, matches, i) ==> NoneBefore(entries, scopes, host, matches, i + 1)
    ensures found.Some? && UnbeatenBefore(entries, scopes, host, matches, i, found.value.1) ==>
              UnbeatenBefore(entries, scopes, host, matches, i + 1, found.value.1)
  {
    if AtTop(scopes, host, scopes[i]) {
      NoBest(entries, scopes[i], host, matches);
    }
    hide IsBest, Answers, Outranks;
  }

  lemma KeyIsAtTop(scopes: seq<Scope>, host: string, sc: Scope, top: HostKey)
    requires sc in scopes && ListenerKey(sc.listener) == top
    requires exists t :: AtTop(scopes, host, t) && ListenerKey(t.listener) == top
    ensures AtTop(scopes, host, sc)
  {
  }

  /** With one kind of scope alone, hostnames told apart, one scope is at the top. */
  lemma OnlyAtTop(scopes: seq<Scope>, host: string, i: nat, own: seq<Scope>, shared: seq<Scope>)
    requires Apart(own) && Apart(shared) && scopes == own + shared && (own == [] || shared == [])
    requires i < |scopes| && AtTop(scopes, host, scopes[i])
    ensures forall sc :: AtTop(scopes, host, sc) ==> sc == scopes[i]
  {
    assert Apart(scopes);
    forall sc | AtTop(scopes, host, sc)
      ensures sc == scopes[i]
    {
      TopsAgree(scopes, host, sc, scopes[i]);
      var j :| 0 <= j < |scopes| && scopes[j] == sc;
    }
  }

  lemma OnlyMatch(entries: Entries, scopes: seq<Scope>, host: string, matches: Rule -> bool, sc: Scope, f: Found)
    requires AtTop(scopes, host, sc) && IsBest(entries, sc, host, matches, f)
    requires forall other :: AtTop(scopes, host, other) ==> other == sc
    ensures IsFound(entries, scopes, host, matches, sc, f)
  {
    forall other, g | AtTop(scopes, host, other) && IsBest(entries, other, host, matches, g)
      ensures !Outranks(g, f)
    {
      OneBest(entries, sc, host, matches, f, g);
      OutranksOrders(f, f, f);
    }
  }

  lemma NoBest(entries: Entries, sc: Scope, host: string, matches: Rule -> bool)
    requires forall k :: Takes(k, host) ==> !Answers(entries, sc, k, matches)
    ensures forall g :: !IsBest(entries, sc, host, matches, g)
  {
    forall g | IsBest(entries, sc, host, matches, g)
      ensures false
    {
      FirstAnswers(entries, sc, matches, g);
    }
  }

  /** Of the match held so far and the next scope's, the one kept is outranked by none seen. */
  lemma Holds(entries: Entries, scopes: seq<Scope>, host: string, matches: Rule -> bool, i: nat, f: Found,
              held: Option<(Scope, Found)>, kept: Found)
    requires i < |scopes| && IsBest(entries, scopes[i], host, matches, f)
    requires held.Some? ==> UnbeatenBefore(entries, scopes, host, matches, i, held.value.1)
    requires held.None? ==> NoneBefore(entries, scopes, host, matches, i)
    requires kept == if held.None? || Outranks(f, held.value.1) then f else held.value.1
    ensures UnbeatenBefore(entries, scopes, host, matches, i + 1, kept)
  {
    forall j, g | 0 <= j <= i && AtTop(scopes, host, scopes[j]) && IsBest(entries, scopes[j], host, matches, g)
      ensures !Outranks(g, kept)
    {
      if j == i {
        OneBest(entries, scopes[i], host, matches, f, g);
        OutranksOrders(f, f, f);
      } else if held.None? {
        FirstAnswers(entries, scopes[j], matches, g);
      } else {
        OutranksOrders(g, f, held.value.1);
      }
    }
  }

  /**
   From pushes to requests: in a table in order, the rule a request gets wins, by
   precedence and then push order, among all the rules ever pushed to the most
   specific entry that has one for it.
   */
  lemma RequestGetsTheWinner(pushes: seq<Push>, entries: Entries, scope: Scope, host: string,
                             matches: Rule -> bool, f: Found)
    returns (i: nat)
    requires Arranged(pushes, entries) && AllSorted(entries) && IsBest(entries, scope, host, matches, f)
    ensures var pushed := RulesFor(pushes, Slot(scope.port, scope.listener, f.key));
            Wins(pushed, matches, i) && pushed[i] == f.rule
  {
    i := EntryServesWinner(pushes, entries, Slot(scope.port, scope.listener, f.key), matches, f.index);
  }
}
