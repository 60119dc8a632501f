/**
 Placing resolved routes in a table (src/config/core.rs): every rule of an HTTP
 route under each listener it attaches to and each hostname it has there, and the
 first L4 route of a port.
 */
module Placement {
  import opened Options
  import opened Ascii
  import opened RouteOrder
  import opened RouteTables
  import opened Hostnames
  import opened RouteLookup
  import Weights

  /** A listener a route attaches to; without parent refs, port 0 and no hostname. */
  datatype Attachment = Attachment(port: nat, hostname: Option<string>)

  datatype Route = Route(hostnames: seq<string>, rules: seq<Rule>, attached: seq<Attachment>)

  // ----- the pushes, in order -----

  function RulePushes(at: Attachment, host: string, rules: seq<Rule>, index: nat): (ps: seq<Push>)
    ensures |ps| == |rules|
    ensures forall i :: 0 <= i < |rules| ==> ps[i] == Push(at.port, at.hostname, host, rules[i].(routeIndex := index))
  {
    seq(|rules|, i requires 0 <= i < |rules| => Push(at.port, at.hostname, host, rules[i].(routeIndex := index)))
  }

  function HostPushes(at: Attachment, hosts: seq<string>, rules: seq<Rule>, index: nat): seq<Push> {
    if hosts == [] then [] else RulePushes(at, hosts[0], rules, index) + HostPushes(at, hosts[1..], rules, index)
  }

  function RoutePushes(r: Route, attached: seq<Attachment>, index: nat): seq<Push> {
    if attached == [] then []
    else HostPushes(attached[0], EffectiveHostnames(attached[0].hostname, r.hostnames), r.rules, index)
         + RoutePushes(r, attached[1..], index)
  }

  /** `index`: the place of the first of these routes in the config. */
  function Pushes(routes: seq<Route>, index: nat): seq<Push> {
    if routes == [] then [] else RoutePushes(routes[0], routes[0].attached, index) + Pushes(routes[1..], index + 1)
  }

  method BuildRoutes(routes: seq<Route>) returns (table: RouteTable)
    ensures table.pushed == Pushes(routes, 0) && table.Valid() && AllSorted(table.entries)
  {
    table := BuildBatch(Pushes(routes, 0));
  }

  /** The push of one rule of route `i`, at one listener, under one of its hostnames there. */
  ghost predicate IsPush(r: Route, at: Attachment, host: string, rule: Rule, index: nat, p: Push) {
    && at in r.attached && host in EffectiveHostnames(at.hostname, r.hostnames) && rule in r.rules
    && p == Push(at.port, at.hostname, host, rule.(routeIndex := index))
  }

  lemma InRulePushes(at: Attachment, host: string, rules: seq<Rule>, index: nat, p: Push)
    ensures p in RulePushes(at, host, rules, index)
       <==> exists rule :: rule in rules && p == Push(at.port, at.hostname, host, rule.(routeIndex := index))
  {
    if rule :| rule in rules && p == Push(at.port, at.hostname, host, rule.(routeIndex := index)) {
      var i :| 0 <= i < |rules| && rules[i] == rule;
      assert RulePushes(at, host, rules, index)[i] == p;
    }
  }

  lemma {:induction false} InHostPushes(at: Attachment, hosts: seq<string>, rules: seq<Rule>, index: nat, p: Push)
    ensures p in HostPushes(at, hosts, rules, index)
       <==> exists host, rule ::
              host in hosts && rule in rules && p == Push(at.port, at.hostname, host, rule.(routeIndex := index))
  {
    if hosts != [] {
      InRulePushes(at, hosts[0], rules, index, p);
      InHostPushes(at, hosts[1..], rules, index, p);
      assert forall h :: h in hosts <==> h == hosts[0] || h in hosts[1..];
    }
  }

  lemma {:induction false} InRoutePushes(r: Route, attached: seq<Attachment>, index: nat, p: Push)
    requires forall at :: at in attached ==> at in r.attached
    ensures p in RoutePushes(r, attached, index)
       <==> exists at, host, rule :: at in attached && IsPush(r, at, host, rule, index, p)
  {
    if attached != [] {
      InHostPushes(attached[0], EffectiveHostnames(attached[0].hostname, r.hostnames), r.rules, index, p);
      InRoutePushes(r, attached[1..], index, p);
      assert forall at :: at in attached <==> at == attached[0] || at in attached[1..];
      if p in HostPushes(attached[0], EffectiveHostnames(attached[0].hostname, r.hostnames), r.rules, index) {
        var host, rule :| host in EffectiveHostnames(attached[0].hostname, r.hostnames) && rule in r.rules
          && p == Push(attached[0].port, attached[0].hostname, host, rule.(routeIndex := index));
        assert IsPush(r, attached[0], host, rule, index, p);
      }
    }
  }

  ghost predicate IsPushOf(r: Route, index: nat, p: Push) {
    exists at, host, rule :: IsPush(r, at, host, rule, index, p)
  }

  /** The push of some rule of route `i` among those from `index` on. */
  ghost predicate PushedBy(routes: seq<Route>, index: nat, i: int, p: Push) {
    0 <= i < |routes| && IsPushOf(routes[i], index + i, p)
  }

  lemma PushedByRest(routes: seq<Route>, rest: seq<Route>, index: nat, i: int, p: Push)
    requires routes != [] && rest == routes[1..] && 0 <= i
    ensures PushedBy(rest, index + 1, i, p) <==> PushedBy(routes, index, i + 1, p)
  {
    if i + 1 < |routes| {
      assert rest[i] == routes[i + 1] && index + 1 + i == index + (i + 1);
    }
  }

  /** A push comes from one rule of one route at one of its listeners and hostnames. */
  lemma {:induction false} InPushes(routes: seq<Route>, index: nat, p: Push)
    ensures p in Pushes(routes, index) <==> exists i :: PushedBy(routes, index, i, p)
  {
    hide PushedBy;
    if routes == [] {
      NonePushed(index, p);
    } else {
      var rest, next := routes[1..], index + 1;
      FirstPushes(routes, index, p);
      InPushes(rest, next, p);
      if i :| PushedBy(rest, next, i, p) {
        PushedIsIndex(rest, next, i, p);
        PushedByRest(routes, rest, index, i, p);
      }
      if i :| PushedBy(routes, index, i, p) {
        PushedIsIndex(routes, index, i, p);
        if i > 0 {
          PushedByRest(routes, rest, index, i - 1, p);
        }
      }
    }
  }

  lemma PushedIsIndex(routes: seq<Route>, index: nat, i: int, p: Push)
    requires PushedBy(routes, index, i, p)
    ensures 0 <= i < |routes| && p.rule.routeIndex == index + i
  {
  }

  lemma NonePushed(index: nat, p: Push)
    ensures forall i :: !PushedBy([], index, i, p)
  {
  }

  lemma FirstPushes(routes: seq<Route>, index: nat, p: Push)
    requires routes != []
    ensures p in RoutePushes(routes[0], routes[0].attached, index) <==> PushedBy(routes, index, 0, p)
  {
    hide IsPush;
    InRoutePushes(routes[0], routes[0].attached, index, p);
    if at, host, rule :| IsPush(routes[0], at, host, rule, index, p) {
      AttachedPush(routes[0], at, host, rule, index, p);
    }
  }

  lemma AttachedPush(r: Route, at: Attachment, host: string, rule: Rule, index: nat, p: Push)
    requires IsPush(r, at, host, rule, index, p)
    ensures at in r.attached && p.rule.routeIndex == index
  {
  }

  /** Nothing pushed comes from a route before the first. */
  lemma PushedFrom(routes: seq<Route>, index: nat, p: Push)
    requires p in Pushes(routes, index)
    ensures p.rule.routeIndex >= index
  {
    hide PushedBy, Pushes;
    InPushes(routes, index, p);
    var i :| PushedBy(routes, index, i, p);
    PushedIsIndex(routes, index, i, p);
  }

  lemma FirstPushedFrom(routes: seq<Route>, index: nat, a: nat)
    requires routes != [] && a < |RoutePushes(routes[0], routes[0].attached, index)|
    ensures RoutePushes(routes[0], routes[0].attached, index)[a].rule.routeIndex == index
  {
    hide PushedBy, Pushes, RoutePushes;
    var p := RoutePushes(routes[0], routes[0].attached, index)[a];
    FirstPushes(routes, index, p);
    PushedIsIndex(routes, index, 0, p);
  }

  /** Routes are pushed in config order, so a tie goes to the earlier one. */
  lemma {:induction false} PushesInOrder(routes: seq<Route>, index: nat, a: nat, b: nat)
    requires a < b < |Pushes(routes, index)|
    ensures Pushes(routes, index)[a].rule.routeIndex <= Pushes(routes, index)[b].rule.routeIndex
  {
    hide PushedBy, RoutePushes;
    if routes != [] {
      var first := RoutePushes(routes[0], routes[0].attached, index);
      if a >= |first| {
        PushesInOrder(routes[1..], index + 1, a - |first|, b - |first|);
      } else {
        FirstPushedFrom(routes, index, a);
        PushedFrom(routes, index, Pushes(routes, index)[b]);
      }
    }
  }

  // ----- where a rule is served -----

  lemma {:induction false} InRulesFor(pushes: seq<Push>, slot: Slot, r: Rule)
    ensures r in RulesFor(pushes, slot) <==> exists p :: p in pushes && SlotOf(p) == slot && r == Prepared(p.rule)
  {
    hide SlotOf, Prepared;
    if pushes != [] {
      var rest, last := pushes[..|pushes| - 1], pushes[|pushes| - 1];
      InRulesFor(rest, slot, r);
      assert pushes == rest + [last];
      assert forall p :: p in pushes <==> p in rest || p == last;
    }
  }

  /** A table's entries hold exactly the rules pushed to them, prepared. */
  lemma EntryHolds(pushes: seq<Push>, entries: Entries, slot: Slot, r: Rule)
    requires Arranged(pushes, entries)
    ensures slot in entries && r in entries[slot]
       <==> exists p :: p in pushes && SlotOf(p) == slot && r == Prepared(p.rule)
  {
    InRulesFor(pushes, slot, r);
    if slot in entries {
      SameTiesSameRules(RulesFor(pushes, slot), entries[slot], r);
    }
  }

  /** Whatever rule a table holds, its sums and filter flag are those of its own backends: ready for the pick. */
  lemma HeldIsPrepared(pushes: seq<Push>, entries: Entries, slot: Slot, r: Rule)
    requires Arranged(pushes, entries) && slot in entries && r in entries[slot]
    ensures r.cumulative == Weights.Cumulative(r.choices) && r.total == Weights.Total(r.choices)
    ensures r.hasFilters <==> r.filtered || exists c :: c in r.choices && c.filtered
  {
    EntryHolds(pushes, entries, slot, r);
    hide Arranged;
  }

  function LowerOf(listener: Option<string>): Option<string> {
    if listener.Some? then Some(Lower(listener.value)) else None
  }

  /** An entry of the scope that takes the host holds the rule. */
  ghost predicate ServedIn(entries: Entries, sc: Scope, host: string, r: Rule) {
    exists k ::
      && Takes(k, host)
      && Slot(sc.port, sc.listener, k) in entries && r in entries[Slot(sc.port, sc.listener, k)]
  }

  /** Route `i` is attached there under a hostname that takes the host, and the rule is one of its own. */
  ghost predicate Offers(r: Route, at: Attachment, i: nat, sc: Scope, host: string, rule: Rule, served: Rule) {
    && at in r.attached && at.port == sc.port && LowerOf(at.hostname) == sc.listener
    && SomeTakes(EffectiveHostnames(at.hostname, r.hostnames), host)
    && rule in r.rules && served == Prepared(rule.(routeIndex := i))
  }

  /**
   The table serves a rule to a host in a listener's scope if and only if it is a rule
   of a route attached to that listener under a hostname that takes the host.
   */
  lemma RuleIsServedIff(routes: seq<Route>, entries: Entries, sc: Scope, host: string, served: Rule)
    requires Arranged(Pushes(routes, 0), entries) && Lower(host) == host
    ensures ServedIn(entries, sc, host, served)
       <==> exists i, at, rule :: 0 <= i < |routes| && Offers(routes[i], at, i, sc, host, rule, served)
  {
    hide Arranged, Offers, ServedIn, Pushes;
    if ServedIn(entries, sc, host, served) {
      ServedIsOffered(routes, entries, sc, host, served);
    }
    if i, at, rule :| 0 <= i < |routes| && Offers(routes[i], at, i, sc, host, rule, served) {
      OfferedIsServed(routes, entries, sc, host, served, i, at, rule);
    }
  }

  lemma ServedIsOffered(routes: seq<Route>, entries: Entries, sc: Scope, host: string, served: Rule)
    requires Arranged(Pushes(routes, 0), entries) && Lower(host) == host && ServedIn(entries, sc, host, served)
    ensures exists i, at, rule :: 0 <= i < |routes| && Offers(routes[i], at, i, sc, host, rule, served)
  {
    hide Arranged, PushedBy, Offers, Pushes;
    var k :| && Takes(k, host)
             && Slot(sc.port, sc.listener, k) in entries && served in entries[Slot(sc.port, sc.listener, k)];
    var slot := Slot(sc.port, sc.listener, k);
    hide Takes;
    EntryHolds(Pushes(routes, 0), entries, slot, served);
    var p :| p in Pushes(routes, 0) && SlotOf(p) == slot && served == Prepared(p.rule);
    hide SlotOf, Prepared;
    InPushes(routes, 0, p);
    var i :| PushedBy(routes, 0, i, p);
    var at, rule := PushIsOffered(routes, sc, host, i, p);
  }

  lemma PushIsOffered(routes: seq<Route>, sc: Scope, host: string, i: int, p: Push) returns (at: Attachment, rule: Rule)
    requires Lower(host) == host && PushedBy(routes, 0, i, p)
    requires SlotOf(p) == Slot(sc.port, sc.listener, SlotOf(p).host) && Takes(SlotOf(p).host, host)
    ensures 0 <= i < |routes| && Offers(routes[i], at, i, sc, host, rule, Prepared(p.rule))
  {
    hide Prepared, EffectiveHostnames, Takes, HostKeyOf;
    var h;
    at, h, rule :| IsPush(routes[i], at, h, rule, i, p);
    assert RouteTakes(h, host);
  }

  lemma OfferedIsServed(routes: seq<Route>, entries: Entries, sc: Scope, host: string, served: Rule,
                        i: nat, at: Attachment, rule: Rule)
    requires Arranged(Pushes(routes, 0), entries) && Lower(host) == host
    requires i < |routes| && Offers(routes[i], at, i, sc, host, rule, served)
    ensures ServedIn(entries, sc, host, served)
  {
    hide Arranged, PushedBy, Offers, Pushes, SlotOf, Takes, Prepared;
    var p := OfferIsPushed(routes, sc, host, served, i, at, rule);
    InPushes(routes, 0, p);
    EntryHolds(Pushes(routes, 0), entries, SlotOf(p), served);
    assert SlotOf(p) == Slot(sc.port, sc.listener, SlotOf(p).host);
  }

  lemma OfferIsPushed(routes: seq<Route>, sc: Scope, host: string, served: Rule, i: nat, at: Attachment, rule: Rule)
    returns (p: Push)
    requires Lower(host) == host && i < |routes| && Offers(routes[i], at, i, sc, host, rule, served)
    ensures PushedBy(routes, 0, i, p) && served == Prepared(p.rule)
    ensures SlotOf(p) == Slot(sc.port, sc.listener, SlotOf(p).host) && Takes(SlotOf(p).host, host)
  {
    hide Prepared, EffectiveHostnames, Takes, HostKeyOf;
    var h :| h in EffectiveHostnames(at.hostname, routes[i].hostnames) && RouteTakes(h, host);
    p := Push(at.port, at.hostname, h, rule.(routeIndex := i));
    assert IsPush(routes[i], at, h, rule, i, p) && IsPushOf(routes[i], i, p);
  }

  // ----- L4 -----

  /** The listeners of an L4 route, by port, and its backends. */
  datatype L4Placed<B> = L4Placed(ports: seq<nat>, backends: B)

  /** The first route of a port has it. */
  ghost predicate IsFirst<B>(routes: seq<L4Placed<B>>, port: nat, i: int) {
    0 <= i < |routes| && port in routes[i].ports && forall j :: 0 <= j < i ==> port !in routes[j].ports
  }

  method PlaceL4<B>(routes: seq<L4Placed<B>>) returns (placed: map<nat, B>)
    ensures forall port :: port in placed <==> exists i :: IsFirst(routes, port, i)
    ensures forall port, i :: port in placed && IsFirst(routes, port, i) ==> placed[port] == routes[i].backends
  {
    placed := map[];
    for i := 0 to |routes|
      invariant forall port :: port in placed <==> exists j :: 0 <= j < i && port in routes[j].ports
      invariant forall port, j :: port in placed && 0 <= j < i && IsFirst(routes, port, j) ==>
                  placed[port] == routes[j].backends
    {
      ghost var before := placed;
      for k := 0 to |routes[i].ports|
        invariant forall port :: port in placed <==> port in before || port in routes[i].ports[..k]
        invariant forall port :: port in before ==> placed[port] == before[port]
        invariant forall port :: port in placed && port !in before ==> placed[port] == routes[i].backends
      {
        var port := routes[i].ports[k];
        assert routes[i].ports[..k + 1] == routes[i].ports[..k] + [port];
        if port !in placed {
          placed := placed[port := routes[i].backends];
        }
      }
      assert routes[i].ports[..|routes[i].ports|] == routes[i].ports;
    }
    forall port
      ensures port in placed <==> exists i :: IsFirst(routes, port, i)
    {
      if port in placed {
        var j :| 0 <= j < |routes| && port in routes[j].ports;
        var i := LeastOf(routes, port, j);
      }
    }
  }

  lemma {:induction false} LeastOf<B>(routes: seq<L4Placed<B>>, port: nat, j: nat) returns (i: nat)
    requires j < |routes| && port in routes[j].ports
    ensures IsFirst(routes, port, i)
    decreases j
  {
    if k :| 0 <= k < j && port in routes[k].ports {
      i := LeastOf(routes, port, k);
    } else {
      i := j;
    }
  }
}
