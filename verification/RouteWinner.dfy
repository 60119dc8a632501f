/**
 Which route a request gets, said of the routes placed and not of the table they
 make (src/config/core.rs, src/routing/mod.rs): of all the rules offered to it, one
 that none outranks.
 */
module RouteWinner {
  import opened RouteOrder
  import opened RouteTables
  import opened Hostnames
  import opened RouteLookup
  import opened Placement

  // ----- the scopes a table has -----

  /** The listener hostnames pushed to on a port, in the order they came. */
  function ScopesOf(pushes: seq<Push>, port: nat): seq<Scope> {
    if pushes == [] then []
    else
      var rest, last := ScopesOf(pushes[..|pushes| - 1], port), pushes[|pushes| - 1];
      var sc := Scope(port, LowerOf(last.listener));
      if last.port == port && sc !in rest then rest + [sc] else rest
  }

  lemma {:induction false} InScopes(pushes: seq<Push>, port: nat, sc: Scope)
    ensures sc in ScopesOf(pushes, port)
       <==> sc.port == port && exists p :: p in pushes && p.port == port && LowerOf(p.listener) == sc.listener
  {
    hide LowerOf;
    if pushes != [] {
      var rest, last := pushes[..|pushes| - 1], pushes[|pushes| - 1];
      InScopes(rest, port, sc);
      assert pushes == rest + [last];
      assert forall p :: p in pushes <==> p in rest || p == last;
    }
  }

  /** One scope per hostname. */
  lemma {:induction false} ScopesApart(pushes: seq<Push>, port: nat)
    ensures Apart(ScopesOf(pushes, port)) && forall sc :: sc in ScopesOf(pushes, port) ==> sc.port == port
  {
    hide LowerOf;
    if pushes != [] {
      ScopesApart(pushes[..|pushes| - 1], port);
      var rest := ScopesOf(pushes[..|pushes| - 1], port);
      assert forall i :: 0 <= i < |rest| ==> rest[i] in rest && rest[i] == Scope(port, rest[i].listener);
    }
  }

  // ----- the rules offered -----

  /** A rule of route `i` in the scope of one of its listeners, under the hostname `k`. */
  datatype Offer = Offer(i: nat, sc: Scope, k: HostKey, rule: Rule)

  /** As the table holds it. */
  function AsHeld(o: Offer): Rule {
    Prepared(o.rule.(routeIndex := o.i))
  }

  ghost predicate PushOf(routes: seq<Route>, o: Offer, at: Attachment, hn: string) {
    && o.i < |routes| && at in routes[o.i].attached && at.port == o.sc.port && LowerOf(at.hostname) == o.sc.listener
    && hn in EffectiveHostnames(at.hostname, routes[o.i].hostnames) && HostKeyOf(hn) == o.k
    && o.rule in routes[o.i].rules
  }

  ghost predicate IsOffer(routes: seq<Route>, o: Offer) {
    exists at, hn :: PushOf(routes, o, at, hn)
  }

  /** The offer stands in one of the most specific listeners for the host, and takes host and request. */
  ghost predicate Stands(routes: seq<Route>, scopes: seq<Scope>, host: string, matches: Rule -> bool, o: Offer) {
    IsOffer(routes, o) && AtTop(scopes, host, o.sc) && Takes(o.k, host) && matches(AsHeld(o))
  }

  /** The more specific hostname, then the more specific match, then the earlier route. */
  predicate Beats(o: Offer, p: Offer) {
    || MoreSpecific(o.k, p.k)
    || (!MoreSpecific(p.k, o.k) && (MatchPrecedence(o.rule, p.rule).Less? || (Tied(o.rule, p.rule) && o.i < p.i)))
  }

  lemma OfferIsHeld(routes: seq<Route>, entries: Entries, o: Offer)
    requires Arranged(Pushes(routes, 0), entries) && IsOffer(routes, o)
    ensures var slot := Slot(o.sc.port, o.sc.listener, o.k); slot in entries && AsHeld(o) in entries[slot]
  {
    hide Arranged, Prepared, EffectiveHostnames, Pushes;
    var at, hn :| PushOf(routes, o, at, hn);
    var p := Push(at.port, at.hostname, hn, o.rule.(routeIndex := o.i));
    assert IsPush(routes[o.i], at, hn, o.rule, o.i, p) && IsPushOf(routes[o.i], o.i, p);
    assert PushedBy(routes, 0, o.i, p);
    hide HostKeyOf;
    InPushes(routes, 0, p);
    EntryHolds(Pushes(routes, 0), entries, SlotOf(p), AsHeld(o));
  }

  lemma HeldIsOffer(routes: seq<Route>, entries: Entries, slot: Slot, r: Rule) returns (o: Offer)
    requires Arranged(Pushes(routes, 0), entries) && slot in entries && r in entries[slot]
    ensures IsOffer(routes, o) && AsHeld(o) == r && slot == Slot(o.sc.port, o.sc.listener, o.k)
  {
    hide Arranged, Prepared, EffectiveHostnames, Pushes;
    EntryHolds(Pushes(routes, 0), entries, slot, r);
    var p :| p in Pushes(routes, 0) && SlotOf(p) == slot && r == Prepared(p.rule);
    InPushes(routes, 0, p);
    var i :| PushedBy(routes, 0, i, p);
    var at, hn, rule :| IsPush(routes[i], at, hn, rule, i, p);
    hide HostKeyOf;
    o := Offer(i, Scope(slot.port, slot.listener), slot.host, rule);
    assert PushOf(routes, o, at, hn);
  }

  // ----- the best of a scope -----

  lemma {:induction false} FirstMatch(s: seq<Rule>, matches: Rule -> bool, n: nat) returns (i: nat)
    requires n < |s| && matches(s[n])
    ensures FirstIs(s, matches, i)
    decreases n
  {
    if m :| 0 <= m < n && matches(s[m]) {
      i := FirstMatch(s, matches, m);
    } else {
      i := n;
    }
  }

  /** No entry that takes the host and has a match is more specific. */
  ghost predicate MostSpecific(entries: Entries, sc: Scope, host: string, matches: Rule -> bool, k: HostKey) {
    && Takes(k, host) && Answers(entries, sc, k, matches)
    && forall l :: Takes(l, host) && Answers(entries, sc, l, matches) ==> !MoreSpecific(l, k)
  }

  function Reach(k: HostKey, host: string): nat {
    match k
    case Named(_) => |host| + 1
    case Wildcard(parent) => |parent|
    case CatchAll => 0
  }

  /** From any answering entry on to one none is more specific than. */
  lemma {:induction false} BestKey(entries: Entries, sc: Scope, host: string, matches: Rule -> bool, k: HostKey)
    returns (best: HostKey)
    requires Takes(k, host) && Answers(entries, sc, k, matches)
    ensures MostSpecific(entries, sc, host, matches, best)
    decreases if k.CatchAll? then 1 else 0, |host| + 1 - Reach(k, host)
  {
    hide Answers;
    if l :| Takes(l, host) && Answers(entries, sc, l, matches) && MoreSpecific(l, k) {
      best := BestKey(entries, sc, host, matches, l);
    } else {
      best := k;
    }
  }

  lemma BestExists(entries: Entries, sc: Scope, host: string, matches: Rule -> bool, k: HostKey) returns (f: Found)
    requires Takes(k, host) && Answers(entries, sc, k, matches)
    ensures IsBest(entries, sc, host, matches, f)
  {
    var best := BestKey(entries, sc, host, matches, k);
    var slot := Slot(sc.port, sc.listener, best);
    var r :| r in entries[slot] && matches(r);
    var n :| 0 <= n < |entries[slot]| && entries[slot][n] == r;
    var i := FirstMatch(entries[slot], matches, n);
    f := Found(best, i, entries[slot][i]);
    forall l | Takes(l, host) && Answers(entries, sc, l, matches) && l != best
      ensures MoreSpecific(best, l)
    {
      if !MoreSpecific(best, l) {
        OneOfEachRank(best, l, host);
      }
    }
  }

  // ----- none stands above it -----

  ghost predicate InRouteOrder(pushes: seq<Push>) {
    forall i, j :: 0 <= i < j < |pushes| ==> pushes[i].rule.routeIndex <= pushes[j].rule.routeIndex
  }

  lemma {:induction false} RulesInOrder(pushes: seq<Push>, slot: Slot, a: nat, b: nat)
    requires InRouteOrder(pushes)
    requires a < b < |RulesFor(pushes, slot)|
    ensures RulesFor(pushes, slot)[a].routeIndex <= RulesFor(pushes, slot)[b].routeIndex
    decreases |pushes|
  {
    var rest, last := pushes[..|pushes| - 1], pushes[|pushes| - 1];
    if SlotOf(last) != slot || b < |RulesFor(rest, slot)| {
      RulesInOrder(rest, slot, a, b);
    } else {
      hide SlotOf;
      var r := RulesFor(rest, slot)[a];
      assert r in RulesFor(rest, slot);
      InRulesFor(rest, slot, r);
      var p :| p in rest && SlotOf(p) == slot && r == Prepared(p.rule);
      var i :| 0 <= i < |rest| && rest[i] == p;
      assert pushes[i] == p;
    }
  }

  lemma PushesOrdered(routes: seq<Route>)
    ensures InRouteOrder(Pushes(routes, 0))
  {
    forall i, j | 0 <= i < j < |Pushes(routes, 0)|
      ensures Pushes(routes, 0)[i].rule.routeIndex <= Pushes(routes, 0)[j].rule.routeIndex
    {
      PushesInOrder(routes, 0, i, j);
    }
  }

  lemma HeldIsPushed(pushes: seq<Push>, entries: Entries, slot: Slot, r: Rule)
    requires Arranged(pushes, entries) && slot in entries && r in entries[slot]
    ensures r in RulesFor(pushes, slot)
  {
    SameTiesSameRules(RulesFor(pushes, slot), entries[slot], r);
  }

  /** In one entry the first match is outranked by no other. */
  lemma FirstIsUnbeaten(routes: seq<Route>, entries: Entries, slot: Slot, matches: Rule -> bool, f: nat, r: Rule)
    requires Arranged(Pushes(routes, 0), entries) && AllSorted(entries) && slot in entries
    requires f < |entries[slot]| && FirstIs(entries[slot], matches, f) && r in entries[slot] && matches(r)
    ensures var g := entries[slot][f];
            MatchPrecedence(g, r).Less? || (Tied(g, r) && g.routeIndex <= r.routeIndex)
  {
    hide Arranged, AllSorted, RulesFor, Pushes, MatchPrecedence, Wins, InRouteOrder, FirstIs;
    var pushes := Pushes(routes, 0);
    HeldIsPushed(pushes, entries, slot, r);
    var i := EntryServesWinner(pushes, entries, slot, matches, f);
    WinsIndex(RulesFor(pushes, slot), matches, i);
    var j :| 0 <= j < |RulesFor(pushes, slot)| && RulesFor(pushes, slot)[j] == r;
    PushesOrdered(routes);
    if i < j {
      RulesInOrder(pushes, slot, i, j);
    }
    WinsOver(RulesFor(pushes, slot), matches, i, j);
  }

  lemma WinsIndex(pushed: seq<Rule>, matches: Rule -> bool, i: nat)
    requires Wins(pushed, matches, i)
    ensures i < |pushed|
  {
  }

  lemma WinsOver(pushed: seq<Rule>, matches: Rule -> bool, i: nat, j: nat)
    requires Wins(pushed, matches, i) && j < |pushed| && matches(pushed[j])
    requires i < j ==> pushed[i].routeIndex <= pushed[j].routeIndex
    ensures var g, r := pushed[i], pushed[j];
            MatchPrecedence(g, r).Less? || (Tied(g, r) && g.routeIndex <= r.routeIndex)
  {
    hide MatchPrecedence;
  }

  lemma BestIsUnbeaten(routes: seq<Route>, entries: Entries, sc: Scope, host: string, matches: Rule -> bool,
                       g: Found, k: HostKey, r: Rule)
    requires Arranged(Pushes(routes, 0), entries) && AllSorted(entries)
    requires IsBest(entries, sc, host, matches, g) && Takes(k, host)
    requires Slot(sc.port, sc.listener, k) in entries && r in entries[Slot(sc.port, sc.listener, k)] && matches(r)
    ensures !Outranks(Found(k, 0, r), g)
  {
    assert Answers(entries, sc, k, matches);
    if k == g.key {
      hide Takes;
      FirstIsUnbeaten(routes, entries, Slot(sc.port, sc.listener, k), matches, g.index, r);
      PrecedenceIsAnOrder(g.rule, r, r);
      PrecedenceIsAnOrder(r, g.rule, r);
      hide MatchPrecedence;
    }
  }

  /** Whoever is not above one is not above anything that one is not above. */
  lemma OutranksIsWeak(f: Found, g: Found, h: Found, host: string)
    requires Takes(f.key, host) && Takes(g.key, host) && Takes(h.key, host)
    requires !Outranks(f, g) && !Outranks(g, h)
    ensures !Outranks(f, h)
  {
    PrecedenceIsAnOrder(f.rule, g.rule, h.rule);
    PrecedenceIsAnOrder(g.rule, f.rule, h.rule);
    PrecedenceIsAnOrder(h.rule, g.rule, f.rule);
    PrecedenceIsAnOrder(g.rule, h.rule, f.rule);
    PrecedenceIsAnOrder(f.rule, h.rule, g.rule);
    hide MatchPrecedence, Takes;
  }

  lemma HeldRanks(o: Offer, p: Offer)
    ensures Beats(o, p) <==> Outranks(Found(o.k, 0, AsHeld(o)), Found(p.k, 0, AsHeld(p)))
  {
  }

  /** The rule a lookup finds is an offer that stands, and none that stands beats it. */
  lemma FoundIsUnbeaten(routes: seq<Route>, entries: Entries, scopes: seq<Scope>, host: string, matches: Rule -> bool,
                        sc: Scope, f: Found)
    returns (o: Offer)
    requires Arranged(Pushes(routes, 0), entries) && AllSorted(entries)
    requires IsFound(entries, scopes, host, matches, sc, f)
    ensures Stands(routes, scopes, host, matches, o) && f.rule == AsHeld(o) && o.sc == sc && o.k == f.key
    ensures forall p :: Stands(routes, scopes, host, matches, p) ==> !Beats(p, o)
  {
    hide Arranged, AllSorted, IsOffer, AtTop, Takes, Outranks, AsHeld, Pushes;
    var slot := Slot(sc.port, sc.listener, f.key);
    assert f.rule in entries[slot];
    o := HeldIsOffer(routes, entries, slot, f.rule);
    forall p | Stands(routes, scopes, host, matches, p)
      ensures !Beats(p, o)
    {
      OfferIsHeld(routes, entries, p);
      StandsAnswers(routes, entries, scopes, host, matches, p);
      var g := BestExists(entries, p.sc, host, matches, p.k);
      BestIsUnbeaten(routes, entries, p.sc, host, matches, g, p.k, AsHeld(p));
      OutranksIsWeak(Found(p.k, 0, AsHeld(p)), g, f, host);
      SameRank(Found(p.k, 0, AsHeld(p)), f, Found(o.k, 0, AsHeld(o)));
      HeldRanks(p, o);
    }
  }

  lemma SameRank(f: Found, g: Found, h: Found)
    requires g.key == h.key && g.rule == h.rule
    ensures Outranks(f, g) <==> Outranks(f, h)
  {
  }

  lemma StandsAnswers(routes: seq<Route>, entries: Entries, scopes: seq<Scope>, host: string, matches: Rule -> bool,
                      o: Offer)
    requires Arranged(Pushes(routes, 0), entries) && Stands(routes, scopes, host, matches, o)
    ensures AtTop(scopes, host, o.sc) && Takes(o.k, host) && Answers(entries, o.sc, o.k, matches)
  {
    hide Arranged, AtTop, Takes, IsOffer, AsHeld, Pushes;
    OfferIsHeld(routes, entries, o);
  }

  /** Where nothing is found no offer stands. */
  lemma NoneFoundNoneStands(routes: seq<Route>, entries: Entries, scopes: seq<Scope>, host: string,
                            matches: Rule -> bool)
    requires Arranged(Pushes(routes, 0), entries) && NoneMatches(entries, scopes, host, matches)
    ensures forall o :: !Stands(routes, scopes, host, matches, o)
  {
    hide Arranged, Stands, AtTop, Takes, Answers;
    forall o | Stands(routes, scopes, host, matches, o)
      ensures false
    {
      StandsAnswers(routes, entries, scopes, host, matches, o);
    }
  }
}
