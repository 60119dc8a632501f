/**
 Hostname patterns of listeners and routes (src/config/core.rs and
 src/routing/mod.rs): which hosts a pattern takes, and the patterns a route
 gets within a listener.
 */
module Hostnames {
  import opened Options
  import opened Ascii
  import opened RouteTables

  /** `host` is below `parent`, on a label boundary. */
  predicate WildcardCovers(parent: string, host: string) {
    && EndsWith(host, parent)
    && |host| > |parent|
    && host[|host| - |parent| - 1] == '.'
  }

  predicate IsWildcard(p: string) {
    StartsWith(p, "*.")
  }

  /** Both lowercase: some host is taken by both. */
  predicate HostnamesIntersect(a: string, b: string) {
    if !IsWildcard(a) && !IsWildcard(b) then a == b
    else if !IsWildcard(b) then WildcardCovers(a[2..], b)
    else if !IsWildcard(a) then WildcardCovers(b[2..], a)
    else a[2..] == b[2..] || WildcardCovers(a[2..], b) || WildcardCovers(b[2..], a)
  }

  predicate HostnameMatches(listener: string, route: string) {
    HostnamesIntersect(Lower(listener), Lower(route))
  }

  /** The more specific of two intersecting patterns. */
  function Narrower(listener: string, route: string): string {
    var l, r := Lower(listener), Lower(route);
    if IsWildcard(r) && !IsWildcard(l) then l
    else if IsWildcard(l) && !IsWildcard(r) then r
    else if |r| >= |l| then r
    else l
  }

  function IntersectHostnames(listener: Option<string>, routes: seq<string>): seq<string> {
    if listener == None then routes
    else if routes == [] then []
    else if HostnameMatches(listener.value, routes[0])
    then [Narrower(listener.value, routes[0])] + IntersectHostnames(listener, routes[1..])
    else IntersectHostnames(listener, routes[1..])
  }

  /** A route without hostnames takes its listener's, or every host. */
  function EffectiveHostnames(listener: Option<string>, routes: seq<string>): seq<string> {
    if routes == [] then [if listener.Some? then listener.value else "*"]
    else IntersectHostnames(listener, routes)
  }

  // ----- which hosts a pattern takes -----

  /** The hosts, in lowercase, that an entry of the table is for. */
  predicate Takes(k: HostKey, host: string) {
    match k
    case CatchAll => true
    case Wildcard(parent) => WildcardCovers(parent, host)
    case Named(name) => name == host
  }

  /** As the table files it: under `*` every host, under `*.p` those below `p`, else the one host. */
  predicate RouteTakes(pattern: string, host: string) {
    Takes(HostKeyOf(pattern), Lower(host))
  }

  predicate ListenerTakes(listener: Option<string>, host: string) {
    listener == None || (
      var l := Lower(listener.value);
      if IsWildcard(l) then WildcardCovers(l[2..], Lower(host)) else l == Lower(host))
  }

  predicate SomeTakes(patterns: seq<string>, host: string) {
    exists p :: p in patterns && RouteTakes(p, host)
  }

  // ----- nested wildcards -----

  /** Two parents of one host are the same or one is below the other. */
  lemma ParentsNest(p: string, q: string, host: string)
    requires WildcardCovers(p, host) && WildcardCovers(q, host) && |p| <= |q|
    ensures p == q || WildcardCovers(p, q)
  {
    var n := |host|;
    assert q[|q| - |p|..] == host[n - |p|..];
    if |p| < |q| {
      assert q[|q| - |p| - 1] == host[n - |p| - 1];
    } else {
      assert q[0..] == q;
    }
  }

  lemma CoversBelow(p: string, q: string, host: string)
    requires WildcardCovers(p, q) && WildcardCovers(q, host)
    ensures WildcardCovers(p, host)
  {
    var n := |host|;
    assert q == host[n - |q|..];
    assert q[|q| - |p|..] == host[n - |p|..];
    assert q[|q| - |p| - 1] == host[n - |p| - 1];
  }

  /** A wildcard pattern is below a parent when its own parent is that one or below it. */
  lemma PatternBelow(p: string, b: string)
    requires IsWildcard(b)
    ensures WildcardCovers(p, b) <==> p == b[2..] || WildcardCovers(p, b[2..])
  {
    var q := b[2..];
    assert b[1] == '.' && b[0] == '*';
    if WildcardCovers(p, b) {
      assert |b| - |p| - 1 != 0;
      assert b[|b| - |p|..] == q[|q| - |p|..];
      if |p| < |q| {
        assert b[|b| - |p| - 1] == q[|q| - |p| - 1];
      }
    }
    if p == q {
      assert b[|b| - |p|..] == q;
    }
    if WildcardCovers(p, q) {
      assert b[|b| - |p|..] == q[|q| - |p|..];
      assert b[|b| - |p| - 1] == q[|q| - |p| - 1];
    }
  }

  // ----- one listener pattern, one route pattern -----

  lemma LowerWildcard(p: string)
    ensures IsWildcard(Lower(p)) ==> HostKeyOf(p) == Wildcard(Lower(p)[2..])
    ensures HostKeyOf(Lower(p)) == HostKeyOf(p)
    ensures HostKeyOf(p).CatchAll? <==> Lower(p) == "*"
  {
    LowerTwice(p);
    if IsWildcard(Lower(p)) {
      assert |Lower(p)| >= 2;
    }
  }

  lemma BothWildcards(listener: string, route: string, host: string)
    requires IsWildcard(Lower(listener)) && IsWildcard(Lower(route))
    ensures (HostnameMatches(listener, route) && RouteTakes(Narrower(listener, route), host))
       <==> (ListenerTakes(Some(listener), host) && RouteTakes(route, host))
  {
    var a, b, h := Lower(listener), Lower(route), Lower(host);
    LowerWildcard(listener);
    LowerWildcard(route);
    PatternBelow(a[2..], b);
    PatternBelow(b[2..], a);
    if WildcardCovers(a[2..], h) && WildcardCovers(b[2..], h) {
      if |a| <= |b| {
        ParentsNest(a[2..], b[2..], h);
      } else {
        ParentsNest(b[2..], a[2..], h);
      }
    }
    if WildcardCovers(a[2..], b[2..]) && WildcardCovers(b[2..], h) {
      CoversBelow(a[2..], b[2..], h);
    }
    if WildcardCovers(b[2..], a[2..]) && WildcardCovers(a[2..], h) {
      CoversBelow(b[2..], a[2..], h);
    }
  }

  /** The narrower pattern takes exactly the hosts both take, whatever the two and their case. */
  lemma PairIsExact(listener: string, route: string, host: string)
    requires Lower(route) != "*"
    ensures (HostnameMatches(listener, route) && RouteTakes(Narrower(listener, route), host))
       <==> (ListenerTakes(Some(listener), host) && RouteTakes(route, host))
  {
    LowerWildcard(listener);
    LowerWildcard(route);
    if IsWildcard(Lower(listener)) && IsWildcard(Lower(route)) {
      BothWildcards(listener, route, host);
    } else if IsWildcard(Lower(route)) {
      StarIsNotBelow(Lower(route)[2..]);
    }
  }

  lemma StarIsNotBelow(parent: string)
    ensures !WildcardCovers(parent, "*")
  {
  }

  // ----- whole routes -----

  predicate IsStar(pattern: string) {
    Lower(pattern) == "*"
  }

  predicate HasStar(patterns: seq<string>) {
    exists p :: p in patterns && IsStar(p)
  }

  /** A pattern other than the bare `*` takes the host. */
  predicate SomeNamed(patterns: seq<string>, host: string) {
    exists p :: p in patterns && !IsStar(p) && RouteTakes(p, host)
  }

  lemma SomeOf(p: string, rest: seq<string>, host: string)
    ensures SomeTakes([p] + rest, host) <==> RouteTakes(p, host) || SomeTakes(rest, host)
    ensures SomeNamed([p] + rest, host) <==> (!IsStar(p) && RouteTakes(p, host)) || SomeNamed(rest, host)
  {
    assert forall q :: q in [p] + rest <==> q == p || q in rest;
    assert p in [p] + rest;
  }

  lemma StarMatchesNone(listener: string, route: string)
    requires !IsStar(listener) && IsStar(route)
    ensures !HostnameMatches(listener, route)
  {
    if IsWildcard(Lower(listener)) {
      StarIsNotBelow(Lower(listener)[2..]);
    }
  }

  /** The intersection takes the hosts the listener and a pattern other than `*` take. */
  lemma {:induction false} IntersectionTakes(listener: string, routes: seq<string>, host: string)
    requires !IsStar(listener) || !HasStar(routes)
    ensures SomeTakes(IntersectHostnames(Some(listener), routes), host)
       <==> (ListenerTakes(Some(listener), host) && SomeNamed(routes, host))
  {
    if routes != [] {
      var first, rest := routes[0], routes[1..];
      assert routes == [first] + rest && first in routes;
      IntersectionTakes(listener, rest, host);
      SomeOf(first, rest, host);
      if IsStar(first) {
        StarMatchesNone(listener, first);
      } else {
        PairIsExact(listener, first, host);
      }
      if HostnameMatches(listener, first) {
        SomeOf(Narrower(listener, first), IntersectHostnames(Some(listener), rest), host);
      }
    }
  }

  /** The listener's pattern lies within the route's. */
  predicate Within(listener: string, route: string) {
    var l, r := Lower(listener), Lower(route);
    l == r || (IsWildcard(r) && WildcardCovers(r[2..], if IsWildcard(l) then l[2..] else l))
  }

  lemma WithinTakes(listener: string, route: string, host: string)
    requires Within(listener, route) && !IsStar(route) && ListenerTakes(Some(listener), host)
    ensures RouteTakes(route, host)
  {
    LowerWildcard(route);
    LowerWildcard(listener);
    if Lower(listener) != Lower(route) && IsWildcard(Lower(listener)) {
      CoversBelow(Lower(route)[2..], Lower(listener)[2..], Lower(host));
    }
  }

  /** An effective hostname takes a host if and only if the listener does and, if it has any, one of the route's. */
  ghost predicate ExactFor(listener: Option<string>, routes: seq<string>, host: string) {
    var asked := routes == [] || SomeTakes(routes, host);
    SomeTakes(EffectiveHostnames(listener, routes), host) <==> ListenerTakes(listener, host) && asked
  }

  /**
   No bare `*` meets the listener's hostname: it is not `*` itself where it stands for
   the route's, and a `*` among the route's is beside a pattern it lies within.
   */
  ghost predicate NoStarMeets(listener: Option<string>, routes: seq<string>) {
    listener.Some? ==>
      if routes == [] then !IsStar(listener.value)
      else !HasStar(routes)
           || (!IsStar(listener.value) && exists r :: r in routes && !IsStar(r) && Within(listener.value, r))
  }

  lemma IntersectionIsExact(listener: Option<string>, routes: seq<string>, host: string)
    requires NoStarMeets(listener, routes)
    ensures ExactFor(listener, routes, host)
  {
    if routes == [] {
      var p := if listener.Some? then listener.value else "*";
      assert [p] == [p] + [];
      SomeOf(p, [], host);
      LowerWildcard(p);
    } else if listener.Some? {
      IntersectionTakes(listener.value, routes, host);
      if HasStar(routes) {
        var r :| r in routes && !IsStar(r) && Within(listener.value, r);
        if ListenerTakes(listener, host) {
          WithinTakes(listener.value, r, host);
        }
      }
    }
  }

  // ----- the bare `*` -----

  /** A host that the listener's pattern takes. */
  function Inhabitant(listener: string): string {
    if IsWildcard(Lower(listener)) then "a." + Lower(listener)[2..] else Lower(listener)
  }

  lemma Inhabited(listener: string)
    ensures ListenerTakes(Some(listener), Inhabitant(listener))
  {
    LowerTwice(listener);
    var l := Lower(listener);
    if IsWildcard(l) {
      var h := "a." + l[2..];
      assert forall i :: 2 <= i < |l| ==> Lower(l)[i] == l[i];
      assert Lower(h)[0] == 'a' && Lower(h)[1] == '.';
      assert Lower(h) == h;
      assert h[|h| - |l[2..]|..] == l[2..];
    }
  }

  /** Against a listener hostname, a route's `*` is what the intersection gets wrong, and all it gets wrong. */
  lemma PairIsExactIff(listener: string, route: string)
    ensures (forall host ::
               (HostnameMatches(listener, route) && RouteTakes(Narrower(listener, route), host))
                 <==> (ListenerTakes(Some(listener), host) && RouteTakes(route, host)))
       <==> Lower(route) != "*"
  {
    if Lower(route) != "*" {
      forall host {
        PairIsExact(listener, route, host);
      }
    } else {
      LowerWildcard(route);
      var host := if Lower(listener) == "*" then "a" else Inhabitant(listener);
      Inhabited(listener);
      StarIsNotBelow(if IsWildcard(Lower(listener)) then Lower(listener)[2..] else "");
      assert Lower(listener) == "*" ==> Lower("a")[0] == 'a' && RouteTakes("*", "a");
      assert !((HostnameMatches(listener, route) && RouteTakes(Narrower(listener, route), host))
                 <==> (ListenerTakes(Some(listener), host) && RouteTakes(route, host)));
    }
  }

  lemma StarTakesOther(listener: string)
    requires IsStar(listener)
    ensures Lower("a") != "*" && RouteTakes(listener, "a") && !ListenerTakes(Some(listener), "a")
  {
    LowerWildcard(listener);
    assert Lower("a")[0] == 'a';
  }

  /** A route without hostnames takes its listener's hosts unless that listener is named `*`. */
  lemma NoHostnamesIsExactIff(listener: string)
    ensures (forall host :: ExactFor(Some(listener), [], host)) <==> !IsStar(listener)
  {
    if IsStar(listener) {
      StarTakesOther(listener);
      assert listener in EffectiveHostnames(Some(listener), []);
      assert !ExactFor(Some(listener), [], "a");
    } else {
      forall host {
        IntersectionIsExact(Some(listener), [], host);
      }
    }
  }

  // ----- a `*` among other patterns -----

  /** A label longer than any of the patterns. */
  function Label(patterns: seq<string>): (word: string)
    ensures forall c :: c in word ==> c == 'a'
    ensures forall p :: p in patterns ==> |p| < |word|
    ensures word != ""
  {
    if patterns == [] then "a"
    else
      var rest := Label(patterns[1..]);
      if |patterns[0]| < |rest| then rest else seq(|patterns[0]| + 1, _ => 'a')
  }

  /** A parent of `word.parent` is that parent or one of its own. */
  lemma OneLabelAbove(word: string, parent: string, p: string)
    requires '.' !in word && WildcardCovers(p, word + ("." + parent))
    ensures p == parent || WildcardCovers(p, parent)
  {
    var h := word + ("." + parent);
    assert h[|h| - |parent|..] == parent && h[|word|] == '.';
    var at := |h| - |p| - 1;
    assert forall i :: 0 <= i < |word| ==> h[i] == word[i];
    if at == |word| {
      assert p == h[|h| - |p|..];
    } else {
      assert parent[|parent| - |p|..] == h[|h| - |p|..];
      assert parent[|parent| - |p| - 1] == h[at];
    }
  }

  lemma LowerOfHost(word: string, parent: string)
    requires (forall c :: c in word ==> c == 'a') && Lower(parent) == parent
    ensures Lower(word + ("." + parent)) == word + ("." + parent)
  {
    var h := word + ("." + parent);
    forall i | 0 <= i < |h|
      ensures LowerChar(h[i]) == h[i]
    {
      if i < |word| {
        assert h[i] in word;
      } else if i > |word| {
        assert h[i] == parent[i - |word| - 1];
        assert LowerChar(parent[i - |word| - 1]) == Lower(parent)[i - |word| - 1];
      }
    }
  }

  /** A host the listener takes and no pattern it is not within does. */
  function Escape(listener: string, routes: seq<string>): string {
    var l := Lower(listener);
    if IsWildcard(l) then Label(routes) + ("." + l[2..]) else l
  }

  lemma EscapeIsLower(listener: string, routes: seq<string>)
    ensures Lower(Escape(listener, routes)) == Escape(listener, routes)
  {
    LowerTwice(listener);
    var l := Lower(listener);
    if IsWildcard(l) {
      assert forall i :: 0 <= i < |l| ==> LowerChar(l[i]) == Lower(l)[i];
      assert Lower(l[2..]) == l[2..];
      LowerOfHost(Label(routes), l[2..]);
    }
  }

  lemma WildcardText(p: string)
    ensures IsWildcard(p) ==> p == "*." + p[2..]
  {
  }

  lemma EscapeEscapes(listener: string, routes: seq<string>, r: string)
    requires r in routes && !IsStar(r) && !Within(listener, r)
    ensures ListenerTakes(Some(listener), Escape(listener, routes))
    ensures !RouteTakes(r, Escape(listener, routes))
  {
    var l, h := Lower(listener), Escape(listener, routes);
    EscapeIsLower(listener, routes);
    EscapeIsTaken(listener, routes);
    LowerWildcard(r);
    WildcardText(l);
    WildcardText(Lower(r));
    if IsWildcard(l) && IsWildcard(Lower(r)) && WildcardCovers(Lower(r)[2..], h) {
      OneLabelAbove(Label(routes), l[2..], Lower(r)[2..]);
    }
  }

  lemma EscapeIsTaken(listener: string, routes: seq<string>)
    ensures ListenerTakes(Some(listener), Escape(listener, routes))
  {
    var l, h := Lower(listener), Escape(listener, routes);
    EscapeIsLower(listener, routes);
    if IsWildcard(l) {
      assert h[|h| - |l[2..]|..] == l[2..];
    }
  }

  /** The route's hostnames within the listener's are exact on all hosts if and only if no bare `*` meets it. */
  lemma IntersectionIsExactIff(listener: Option<string>, routes: seq<string>)
    ensures (forall host :: ExactFor(listener, routes, host)) <==> NoStarMeets(listener, routes)
  {
    if NoStarMeets(listener, routes) {
      forall host {
        IntersectionIsExact(listener, routes, host);
      }
    } else if routes == [] {
      NoHostnamesIsExactIff(listener.value);
    } else if IsStar(listener.value) {
      StarTakesOther(listener.value);
      StarServesAll(listener.value, routes, "a");
      assert !ExactFor(listener, routes, "a");
    } else {
      var host := Escape(listener.value, routes);
      StarIsMissed(listener.value, routes);
      assert !ExactFor(listener, routes, host);
    }
  }

  lemma StarIsMissed(listener: string, routes: seq<string>)
    requires !IsStar(listener) && HasStar(routes)
    requires forall r :: r in routes && !IsStar(r) ==> !Within(listener, r)
    ensures !ExactFor(Some(listener), routes, Escape(listener, routes))
  {
    var host := Escape(listener, routes);
    IntersectionTakes(listener, routes, host);
    EscapeIsTaken(listener, routes);
    forall r | r in routes && !IsStar(r)
      ensures !RouteTakes(r, host)
    {
      EscapeEscapes(listener, routes, r);
    }
    assert !SomeNamed(routes, host);
    var star :| star in routes && IsStar(star);
    LowerWildcard(star);
    assert RouteTakes(star, host) && SomeTakes(routes, host);
  }

  /** A listener named `*` and a route's `*` give a `*` that takes every host. */
  lemma {:induction false} StarServesAll(listener: string, routes: seq<string>, host: string)
    requires IsStar(listener) && HasStar(routes) && Lower(host) != "*"
    ensures SomeTakes(IntersectHostnames(Some(listener), routes), host)
    ensures !ListenerTakes(Some(listener), host)
  {
    var first, rest := routes[0], routes[1..];
    assert routes == [first] + rest;
    if HostnameMatches(listener, first) {
      SomeOf(Narrower(listener, first), IntersectHostnames(Some(listener), rest), host);
    }
    if IsStar(first) {
      LowerWildcard("*");
      assert Narrower(listener, first) == "*" && Lower("*") == "*";
      assert RouteTakes("*", host);
    } else {
      StarServesAll(listener, rest, host);
    }
  }

  // ----- walking up the labels -----

  /** The next dot at or after `from`. */
  method FindDot(s: string, from: nat) returns (i: nat)
    requires from <= |s|
    ensures from <= i <= |s| && forall j :: from <= j < i ==> s[j] != '.'
    ensures i < |s| ==> s[i] == '.'
  {
    i := from;
    while i < |s| && s[i] != '.'
      invariant from <= i <= |s| && forall j :: from <= j < i ==> s[j] != '.'
    {
      i := i + 1;
    }
  }

  /** The parents of a host are the wildcards that cover it, the longest first. */
  method ParentDomains(host: string) returns (parents: seq<string>)
    ensures forall p :: p in parents <==> WildcardCovers(p, host)
    ensures forall i, j :: 0 <= i < j < |parents| ==> |parents[i]| > |parents[j]|
  {
    parents := [];
    var at := 0;
    var dot := FindDot(host, at);
    while dot < |host|
      invariant 0 <= at <= dot <= |host|
      invariant dot < |host| ==> host[dot] == '.'
      invariant forall i :: at <= i < dot ==> host[i] != '.'
      invariant forall p :: p in parents <==> WildcardCovers(p, host) && |p| >= |host| - at
      invariant forall i, j :: 0 <= i < j < |parents| ==> |parents[i]| > |parents[j]|
      decreases |host| - at
    {
      NextParent(host, at, dot);
      parents := parents + [host[dot + 1..]];
      at := dot + 1;
      dot := FindDot(host, at);
    }
    NoneBetween(host, at, dot);
  }

  /** The parent after the next dot is the next one up. */
  lemma NextParent(host: string, at: nat, dot: nat)
    requires at <= dot < |host| && host[dot] == '.' && forall i :: at <= i < dot ==> host[i] != '.'
    ensures forall p :: WildcardCovers(p, host) && |p| >= |host| - dot - 1
                   <==> (WildcardCovers(p, host) && |p| >= |host| - at) || p == host[dot + 1..]
  {
    NoneBetween(host, at, dot);
    forall p | WildcardCovers(p, host) && |p| == |host| - dot - 1
      ensures p == host[dot + 1..]
    {
    }
    assert WildcardCovers(host[dot + 1..], host);
  }

  /** No parent starts inside a label. */
  lemma NoneBetween(host: string, from: nat, to: nat)
    requires from <= to <= |host|
    requires forall i :: from <= i < to ==> host[i] != '.'
    ensures forall p :: WildcardCovers(p, host) && |p| < |host| - from ==> |p| < |host| - to
  {
    forall p | WildcardCovers(p, host) && |p| < |host| - from
      ensures |p| < |host| - to
    {
      var i := |host| - |p| - 1;
      assert host[i] == '.';
    }
  }
}
