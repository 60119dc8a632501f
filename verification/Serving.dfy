/**
 From a config and its lookups to the backend a request gets (src/config/core.rs,
 src/routing/mod.rs): routes compiled and resolved, placed in a table, looked up and
 picked from, as one.
 */
module Serving {
  import opened Options
  import opened Ascii
  import opened Resolution
  import opened Resolvers
  import opened RouteOrder
  import opened RouteTables
  import opened RouteLookup
  import opened Placement
  import opened RouteWinner
  import opened Weights
  import opened Selection

  // ----- the config -----

  datatype Match = Match(
    kind: PathKind,
    path: string,
    methodMatch: Option<string>,
    headers: seq<Test>,
    params: seq<Test>)

  datatype RuleConfig = RuleConfig(matches: seq<Match>, rule: HttpRule, payload: nat)

  /** `compiles`: the route passed its checks; `attached`: the listeners its parent refs select. */
  datatype RouteConfig = RouteConfig(
    hostnames: seq<string>,
    rules: seq<RuleConfig>,
    compiles: bool,
    attached: seq<Attachment>)

  // ----- what it comes to -----

  function ChoiceOf(b: Backend): Choice {
    Choice(b.weight, b.rejects, b.filters != [], b.addr)
  }

  function ChoicesOf(bs: seq<Backend>): (cs: seq<Choice>)
    ensures |cs| == |bs| && forall i :: 0 <= i < |bs| ==> cs[i] == ChoiceOf(bs[i])
  {
    seq(|bs|, i requires 0 <= i < |bs| => ChoiceOf(bs[i]))
  }

  function TableRule(m: Match, e: Entry, payload: nat): Rule {
    Rule(m.kind, m.path, m.methodMatch, m.headers, m.params, e.filters != [], ChoicesOf(e.backends), 0, payload,
         false, [], 0)
  }

  /** One table rule for each match, all with the same backends and filters. */
  function TableRules(ms: seq<Match>, e: Entry, payload: nat): (rs: seq<Rule>)
    ensures |rs| == |ms| && forall i :: 0 <= i < |ms| ==> rs[i] == TableRule(ms[i], e, payload)
  {
    seq(|ms|, i requires 0 <= i < |ms| => TableRule(ms[i], e, payload))
  }

  function RuleOf(env: Env, rc: RuleConfig): Result<seq<Rule>> {
    var e := JobEntry(env, HttpJob(rc.rule));
    if e.Err? then Err(e.error) else Ok(TableRules(rc.matches, e.value[0], rc.payload))
  }

  function RulesOf(env: Env, rcs: seq<RuleConfig>): Result<seq<Rule>> {
    if rcs == [] then Ok([]) else Cat(RuleOf(env, rcs[0]), RulesOf(env, rcs[1..]))
  }

  /** A route that does not compile fails a strict build and is placed without rules by a lenient one. */
  function RouteOf(env: Env, rt: RouteConfig): Result<seq<Route>> {
    if !rt.compiles then
      if env.policy.Strict? then Err(RouteRejected) else Ok([Route(rt.hostnames, [], rt.attached)])
    else
      var rules := RulesOf(env, rt.rules);
      if rules.Err? then Err(rules.error) else Ok([Route(rt.hostnames, rules.value, rt.attached)])
  }

  function RoutesOf(env: Env, rts: seq<RouteConfig>): Result<seq<Route>> {
    if rts == [] then Ok([]) else Cat(RouteOf(env, rts[0]), RoutesOf(env, rts[1..]))
  }

  // ----- the build fails as its resolution does -----

  function PlainRules(rcs: seq<RuleConfig>): seq<HttpRule> {
    if rcs == [] then [] else [rcs[0].rule] + PlainRules(rcs[1..])
  }

  function PlainRoutes(rts: seq<RouteConfig>): seq<HttpRoute> {
    if rts == [] then [] else [HttpRoute(PlainRules(rts[0].rules), rts[0].compiles)] + PlainRoutes(rts[1..])
  }

  predicate SameError<T, U>(a: Result<T>, b: Result<U>) {
    (a.Err? <==> b.Err?) && (a.Err? && b.Err? ==> a.error == b.error)
  }

  lemma {:induction false} BuildOfConcat(env: Env, a: seq<Job>, b: seq<Job>)
    ensures Build(env, a + b) == Cat(Build(env, a), Build(env, b))
  {
    if a == [] {
      assert a + b == b;
      CatNothing(Build(env, b));
    } else {
      assert (a + b)[1..] == a[1..] + b;
      BuildOfConcat(env, a[1..], b);
      CatIsAssociative(JobEntry(env, a[0]), Build(env, a[1..]), Build(env, b));
    }
  }

  lemma CatIsAssociative<T>(a: Result<seq<T>>, b: Result<seq<T>>, c: Result<seq<T>>)
    ensures Cat(a, Cat(b, c)) == Cat(Cat(a, b), c)
  {
    if a.Ok? && b.Ok? && c.Ok? {
      assert a.value + (b.value + c.value) == (a.value + b.value) + c.value;
    }
  }

  lemma {:induction false} RulesFailAlike(env: Env, rcs: seq<RuleConfig>)
    ensures SameError(RulesOf(env, rcs), Build(env, RuleJobs(PlainRules(rcs))))
  {
    if rcs != [] {
      RulesFailAlike(env, rcs[1..]);
      var jobs := RuleJobs(PlainRules(rcs));
      assert PlainRules(rcs)[1..] == PlainRules(rcs[1..]);
      assert jobs == [HttpJob(rcs[0].rule)] + RuleJobs(PlainRules(rcs[1..]));
      assert jobs[1..] == RuleJobs(PlainRules(rcs[1..]));
      hide JobEntry;
    }
  }

  /** A config builds if and only if its HTTP references resolve as the build of them alone does, error for error. */
  lemma {:induction false} RoutesFailAlike(env: Env, rts: seq<RouteConfig>)
    ensures SameError(RoutesOf(env, rts), Build(env, HttpJobs(PlainRoutes(rts))))
  {
    if rts != [] {
      RoutesFailAlike(env, rts[1..]);
      var plain := PlainRoutes(rts);
      assert plain[1..] == PlainRoutes(rts[1..]);
      var first := if rts[0].compiles then RuleJobs(PlainRules(rts[0].rules)) else [Rejected];
      assert HttpJobs(plain) == first + HttpJobs(PlainRoutes(rts[1..]));
      BuildOfConcat(env, first, HttpJobs(PlainRoutes(rts[1..])));
      if rts[0].compiles {
        RulesFailAlike(env, rts[0].rules);
      } else {
        assert first[1..] == [];
        CatNothing(JobEntry(env, Rejected));
      }
    }
  }

  // ----- which rules the routes have -----

  /** The rule is rule `j` of the config's route, for its match `m`, with the backends it resolves to. */
  ghost predicate Compiled(env: Env, rcs: seq<RuleConfig>, j: int, m: Match, r: Rule) {
    && 0 <= j < |rcs| && JobEntry(env, HttpJob(rcs[j].rule)).Ok? && m in rcs[j].matches
    && r == TableRule(m, JobEntry(env, HttpJob(rcs[j].rule)).value[0], rcs[j].payload)
  }

  lemma {:induction false} InRulesOf(env: Env, rcs: seq<RuleConfig>, r: Rule)
    requires RulesOf(env, rcs).Ok?
    ensures r in RulesOf(env, rcs).value <==> exists j, m :: Compiled(env, rcs, j, m, r)
  {
    if rcs != [] {
      hide JobEntry, TableRule;
      var first, rest := RuleOf(env, rcs[0]).value, RulesOf(env, rcs[1..]).value;
      InRulesOf(env, rcs[1..], r);
      InRuleOf(env, rcs, r);
      if j, m :| Compiled(env, rcs[1..], j, m, r) {
        assert Compiled(env, rcs, j + 1, m, r);
      }
      if j, m :| Compiled(env, rcs, j, m, r) {
        if j > 0 {
          assert Compiled(env, rcs[1..], j - 1, m, r);
        }
      }
      assert r in first + rest <==> r in first || r in rest;
    }
  }

  lemma InRuleOf(env: Env, rcs: seq<RuleConfig>, r: Rule)
    requires rcs != [] && RuleOf(env, rcs[0]).Ok?
    ensures r in RuleOf(env, rcs[0]).value <==> exists m :: Compiled(env, rcs, 0, m, r)
  {
    var rules := RuleOf(env, rcs[0]).value;
    hide JobEntry, TableRule;
    if m :| Compiled(env, rcs, 0, m, r) {
      var i :| 0 <= i < |rcs[0].matches| && rcs[0].matches[i] == m;
      assert rules[i] == r;
    }
    if r in rules {
      var i :| 0 <= i < |rules| && rules[i] == r;
      assert Compiled(env, rcs, 0, rcs[0].matches[i], r);
    }
  }

  // ----- what a match of the config asks of a request -----

  /** The whole path, a path the expression takes, or one below the prefix by whole segments. */
  predicate PathTakes(kind: PathKind, path: string, q: Request) {
    match kind
    case Exact => path == q.path
    case RegularExpression => q.regex(path, q.path)
    case Prefix =>
      || path == ""
      || q.path == path
      || (|path| < |q.path| && q.path[..|path|] == path && (path[|path| - 1] == '/' || q.path[|path|] == '/'))
  }

  predicate MatchTakes(m: Match, q: Request) {
    && PathTakes(m.kind, m.path, q)
    && (m.methodMatch.None? || Lower(q.verb) == Lower(m.methodMatch.value))
    && EachPasses(m.headers, q.header, q.passes)
    && EachPasses(m.params, q.query, q.passes)
  }

  lemma PathTakesSame(kind: PathKind, path: string, q: Request)
    ensures PathMatches(kind, path, q) <==> PathTakes(kind, path, q)
  {
    if path != "" && |path| <= |q.path| {
      var front := q.path[..|path|];
      assert forall i :: 0 <= i < |path| ==> front[i] == q.path[i];
      assert front == path <==> StartsWith(q.path, path);
      assert |path| == |q.path| ==> front == q.path;
    }
  }

  /** Each test finds a value, and that passes. */
  predicate EachPasses(tests: seq<Test>, value: string -> Option<string>, passes: (nat, string) -> bool) {
    tests == []
    || (var found := value(tests[0].name);
        found.Some? && passes(tests[0].matcher, found.value) && EachPasses(tests[1..], value, passes))
  }

  lemma {:induction false} EachPassesSame(tests: seq<Test>, value: string -> Option<string>,
                                          passes: (nat, string) -> bool)
    ensures AllPass(tests, value, passes) <==> EachPasses(tests, value, passes)
  {
    if tests != [] {
      EachPassesSame(tests[1..], value, passes);
      assert forall t :: t in tests <==> t == tests[0] || t in tests[1..];
    }
  }

  /** A table rule, wherever it is held, matches exactly the requests its match of the config takes. */
  lemma CompiledMatches(env: Env, rcs: seq<RuleConfig>, j: int, m: Match, o: Offer, q: Request)
    requires Compiled(env, rcs, j, m, o.rule)
    ensures Matches(AsHeld(o), q) <==> MatchTakes(m, q)
  {
    hide JobEntry, PathMatches, PathTakes, AllPass, EachPasses;
    PathTakesSame(m.kind, m.path, q);
    EachPassesSame(m.headers, q.header, q.passes);
    EachPassesSame(m.params, q.query, q.passes);
  }

  /** A rule held is marked as filtering exactly when it, or a backend it resolved to, has a filter. */
  lemma CompiledFilters(env: Env, rcs: seq<RuleConfig>, j: int, m: Match, o: Offer)
    requires Compiled(env, rcs, j, m, o.rule)
    ensures var e := JobEntry(env, HttpJob(rcs[j].rule)).value[0];
            AsHeld(o).hasFilters <==>
              e.filters != [] || exists i :: 0 <= i < |e.backends| && e.backends[i].filters != []
  {
    var e, cs := JobEntry(env, HttpJob(rcs[j].rule)).value[0], o.rule.choices;
    hide JobEntry;
    if i :| 0 <= i < |e.backends| && e.backends[i].filters != [] {
      assert cs[i] in cs && cs[i].filtered;
    }
    if c :| c in cs && c.filtered {
      var i :| 0 <= i < |cs| && cs[i] == c;
      assert e.backends[i].filters != [];
    }
  }

  lemma {:induction false} RoutesAre(env: Env, rts: seq<RouteConfig>, i: nat)
    requires RoutesOf(env, rts).Ok?
    ensures |RoutesOf(env, rts).value| == |rts|
    ensures i < |rts| ==> RouteOf(env, rts[i]) == Ok([RoutesOf(env, rts).value[i]])
  {
    if rts != [] {
      RoutesAre(env, rts[1..], if i > 0 then i - 1 else 0);
    }
  }

  // ----- where a choice dials -----

  /** What one reference gives: a stand-in if it is invalid, else one backend for each endpoint it resolves to. */
  ghost predicate Gives(env: Env, r: BackendRef, c: Choice) {
    if r.invalid then c == Choice(r.weight, true, false, UNSPECIFIED)
    else
      && Endpoints(env, (r.name, r.port), Http).Ok?
      && c.weight == r.weight && !c.rejects && (c.filtered <==> r.filters != [])
      && exists e :: e in Endpoints(env, (r.name, r.port), Http).value && e.addr == c.addr
  }

  lemma {:induction false} InChoices(env: Env, refs: seq<BackendRef>, c: Choice)
    requires Backends(env, refs, Http).Ok?
    ensures c in ChoicesOf(Backends(env, refs, Http).value) <==> exists r :: r in refs && Gives(env, r, c)
  {
    if refs != [] {
      var first, rest := RefBackends(env, refs[0], Http).value, Backends(env, refs[1..], Http).value;
      assert Backends(env, refs, Http).value == first + rest;
      InChoices(env, refs[1..], c);
      InRefChoices(env, refs[0], c);
      hide Gives, RefBackends, Backends, ChoicesOf;
      InBothChoices(first, rest, c);
      SomeOf(env, refs, c);
    }
  }

  lemma InBothChoices(a: seq<Backend>, b: seq<Backend>, c: Choice)
    ensures c in ChoicesOf(a + b) <==> c in ChoicesOf(a) || c in ChoicesOf(b)
  {
    assert ChoicesOf(a + b) == ChoicesOf(a) + ChoicesOf(b);
  }

  lemma SomeOf(env: Env, refs: seq<BackendRef>, c: Choice)
    requires refs != []
    ensures (exists r :: r in refs && Gives(env, r, c))
       <==> Gives(env, refs[0], c) || exists r :: r in refs[1..] && Gives(env, r, c)
  {
    hide Gives;
    assert forall r :: r in refs <==> r == refs[0] || r in refs[1..];
  }

  lemma InRefChoices(env: Env, r: BackendRef, c: Choice)
    requires RefBackends(env, r, Http).Ok?
    ensures c in ChoicesOf(RefBackends(env, r, Http).value) <==> Gives(env, r, c)
  {
    var bs := RefBackends(env, r, Http).value;
    if r.invalid {
      assert ChoicesOf(bs) == [ChoiceOf(Rejecting(r.weight))];
    } else {
      var es := Endpoints(env, (r.name, r.port), Http).value;
      hide Endpoints, UseTls;
      assert forall i :: 0 <= i < |es| ==> ChoicesOf(bs)[i] == Choice(r.weight, false, r.filters != [], es[i].addr);
      if Gives(env, r, c) {
        var e :| e in es && e.addr == c.addr;
        var i :| 0 <= i < |es| && es[i] == e;
        assert ChoicesOf(bs)[i] == c;
      }
    }
  }

  // ----- the table -----

  datatype Table = Table(entries: Entries, scopes: map<nat, seq<Scope>>)

  function ScopesAt(scopes: map<nat, seq<Scope>>, port: nat): seq<Scope> {
    if port in scopes then scopes[port] else []
  }

  /** The table is what these routes make, sorted, with a scope for each listener hostname pushed to. */
  ghost predicate TableOf(routes: seq<Route>, table: Table) {
    && Arranged(Pushes(routes, 0), table.entries) && AllSorted(table.entries)
    && forall port :: ScopesAt(table.scopes, port) == ScopesOf(Pushes(routes, 0), port)
  }

  /** A scope for every listener hostname of a port, made when first pushed to. */
  method MakeScopes(pushes: seq<Push>) returns (scopes: map<nat, seq<Scope>>)
    ensures forall port :: ScopesAt(scopes, port) == ScopesOf(pushes, port)
  {
    scopes := map[];
    for i := 0 to |pushes|
      invariant forall port :: ScopesAt(scopes, port) == ScopesOf(pushes[..i], port)
    {
      var p := pushes[i];
      var held, sc := ScopesAt(scopes, p.port), Scope(p.port, LowerOf(p.listener));
      assert pushes[..i + 1][..i] == pushes[..i] && pushes[..i + 1][i] == p;
      hide LowerOf;
      if sc !in held {
        scopes := scopes[p.port := held + [sc]];
      }
    }
    assert pushes[..|pushes|] == pushes;
  }

  method CompileRules(resolver: Resolver, rcs: seq<RuleConfig>) returns (r: Result<seq<Rule>>)
    requires resolver.Valid()
    modifies resolver
    ensures r == RulesOf(resolver.env, rcs) && resolver.After(r)
  {
    var rules := [];
    CatNothing(RulesOf(resolver.env, rcs));
    for i := 0 to |rcs|
      invariant resolver.Valid()
      invariant Cat(Ok(rules), RulesOf(resolver.env, rcs[i..])) == RulesOf(resolver.env, rcs)
    {
      assert rcs[i..][0] == rcs[i] && rcs[i..][1..] == rcs[i + 1..];
      var e := resolver.FindEntry(HttpJob(rcs[i].rule));
      CatOneMore(rules, RuleOf(resolver.env, rcs[i]), RulesOf(resolver.env, rcs[i + 1..]));
      if e.Err? {
        return Err(e.error);
      }
      rules := rules + TableRules(rcs[i].matches, e.value[0], rcs[i].payload);
    }
    CatNothing<Rule>(Ok(rules));
    return Ok(rules);
  }

  method CompileRoutes(env: Env, rts: seq<RouteConfig>) returns (r: Result<seq<Route>>)
    ensures r == RoutesOf(env, rts)
  {
    var resolver := new Resolver(env);
    var routes := [];
    CatNothing(RoutesOf(env, rts));
    for i := 0 to |rts|
      invariant fresh(resolver) && resolver.env == env && resolver.Valid()
      invariant Cat(Ok(routes), RoutesOf(env, rts[i..])) == RoutesOf(env, rts)
    {
      assert rts[i..][0] == rts[i] && rts[i..][1..] == rts[i + 1..];
      CatOneMore(routes, RouteOf(env, rts[i]), RoutesOf(env, rts[i + 1..]));
      var rules := Ok([]);
      if rts[i].compiles {
        rules := CompileRules(resolver, rts[i].rules);
      } else if env.policy.Strict? {
        rules := Err(RouteRejected);
      }
      if rules.Err? {
        return Err(rules.error);
      }
      routes := routes + [Route(rts[i].hostnames, rules.value, rts[i].attached)];
    }
    CatNothing<Route>(Ok(routes));
    return Ok(routes);
  }

  /** The HTTP part of a build. */
  method BuildHttp(env: Env, rts: seq<RouteConfig>) returns (r: Result<Table>)
    ensures SameError(r, Build(env, HttpJobs(PlainRoutes(rts))))
    ensures r.Ok? ==> RoutesOf(env, rts).Ok? && TableOf(RoutesOf(env, rts).value, r.value)
  {
    RoutesFailAlike(env, rts);
    var routes := CompileRoutes(env, rts);
    if routes.Err? {
      return Err(routes.error);
    }
    hide Arranged, AllSorted, Pushes, ScopesAt, ScopesOf, Build, HttpJobs, PlainRoutes;
    var table := BuildRoutes(routes.value);
    var scopes := MakeScopes(Pushes(routes.value, 0));
    return Ok(Table(table.entries, scopes));
  }

  // ----- a request -----

  /** The scopes searched for a port; `takesShared`: it also serves the routes without parent refs. */
  ghost function ScopesFor(routes: seq<Route>, port: nat, takesShared: bool): seq<Scope> {
    ScopesOf(Pushes(routes, 0), port) + if takesShared then ScopesOf(Pushes(routes, 0), 0) else []
  }

  function MatchesOf(q: Request): Rule -> bool {
    (r: Rule) => Matches(r, q)
  }

  function Alive(cs: seq<Choice>, healthy: nat -> bool): nat -> bool {
    (i: nat) => i < |cs| && healthy(cs[i].addr)
  }

  /** The share-keeping pick of a rule's backends. */
  function Pick(cs: seq<Choice>, healthy: nat -> bool, counter: nat): Option<Choice> {
    if Total(cs) == 0 then None
    else
      var alive := Alive(cs, healthy);
      Some(cs[if AllHealthy(cs, alive) || NoneHealthy(cs, alive) || |cs| == 1
              then Owner(cs, counter % Total(cs)) else Degraded(cs, alive, counter)])
  }

  /** The offer stands for the request, and no other that stands beats it. */
  ghost predicate Serves(routes: seq<Route>, scopes: seq<Scope>, host: string, q: Request, o: Offer) {
    && Stands(routes, scopes, host, MatchesOf(q), o)
    && forall p :: Stands(routes, scopes, host, MatchesOf(q), p) ==> !Beats(p, o)
  }

  /** What a request is answered with. */
  datatype Served = NotFound | Picked(choice: Option<Choice>)

  /** Looks the request up and picks: port, host and request to a backend. */
  method Serve(table: Table, ghost routes: seq<Route>, port: nat, takesShared: bool, host: string,
               utf8: string -> bool, q: Request, healthy: nat -> bool, counter: nat)
    returns (served: Served, ghost o: Offer)
    requires TableOf(routes, table)
    ensures served.NotFound? ==>
              forall p :: !Stands(routes, ScopesFor(routes, port, takesShared), HostText(host, utf8), MatchesOf(q), p)
    ensures served.Picked? ==>
              && Serves(routes, ScopesFor(routes, port, takesShared), HostText(host, utf8), q, o)
              && served.choice == Pick(o.rule.choices, healthy, counter)
  {
    var own, shared := ScopesAt(table.scopes, port), if takesShared then ScopesAt(table.scopes, 0) else [];
    ghost var scopes, text := own + shared, HostText(host, utf8);
    ScopesApart(Pushes(routes, 0), port);
    ScopesApart(Pushes(routes, 0), 0);
    assert scopes == ScopesFor(routes, port, takesShared);
    hide Arranged, AllSorted, IsFound, NoneMatches, Stands, Beats, MatchesOf, ScopesOf, Pushes, AsHeld, HostText,
      ScopesFor, ScopesAt, Alive, Owner, Degraded;
    var found := FindHttpRoute(table.entries, own, shared, host, utf8, MatchesOf(q));
    if found.None? {
      NoneFoundNoneStands(routes, table.entries, scopes, text, MatchesOf(q));
      o := Offer(0, Scope(0, None), CatchAll, NO_RULE);
      return NotFound, o;
    }
    var sc, f := found.value.0, found.value.1;
    o := FoundIsUnbeaten(routes, table.entries, scopes, text, MatchesOf(q), sc, f);
    HeldChoices(o);
    var cs := f.rule.choices;
    var pick := SelectBackend(cs, f.rule.cumulative, f.rule.total, Alive(cs, healthy), counter);
    served := Picked(if pick.Some? then Some(cs[pick.value]) else None);
  }

  ghost const NO_RULE := Rule(Prefix, "", None, [], [], false, [], 0, 0, false, [], 0)

  lemma HeldChoices(o: Offer)
    ensures var r := AsHeld(o);
            r.choices == o.rule.choices && r.cumulative == Cumulative(r.choices) && r.total == Total(r.choices)
  {
  }

  /**
   The whole way: the backend picked for a request was given by a reference of a rule
   of the config, the one no other rule offered to the request beats: a stand-in for
   an invalid reference, or an address that reference resolves to.
   */
  lemma PickedIsResolved(env: Env, rts: seq<RouteConfig>, scopes: seq<Scope>, host: string, q: Request, o: Offer,
                         healthy: nat -> bool, counter: nat)
    returns (j: nat, m: Match, r: BackendRef)
    requires RoutesOf(env, rts).Ok? && Serves(RoutesOf(env, rts).value, scopes, host, q, o)
    requires Pick(o.rule.choices, healthy, counter).Some?
    ensures o.i < |rts| && rts[o.i].compiles && Compiled(env, rts[o.i].rules, j, m, o.rule) && MatchTakes(m, q)
    ensures !Redirects(rts[o.i].rules[j].rule) && r in rts[o.i].rules[j].rule.refs
    ensures Gives(env, r, Pick(o.rule.choices, healthy, counter).value)
  {
    hide Beats, Pick, Gives, MatchTakes, AsHeld, Matches;
    OfferIsCompiled(env, rts, o, scopes, host, q);
    j, m :| Compiled(env, rts[o.i].rules, j, m, o.rule);
    CompiledMatches(env, rts[o.i].rules, j, m, o, q);
    PickIsChoice(o.rule.choices, healthy, counter);
    r := ChoiceIsGiven(env, rts[o.i].rules, j, m, o.rule, Pick(o.rule.choices, healthy, counter).value);
  }

  lemma OfferIsCompiled(env: Env, rts: seq<RouteConfig>, o: Offer, scopes: seq<Scope>, host: string, q: Request)
    requires RoutesOf(env, rts).Ok? && Stands(RoutesOf(env, rts).value, scopes, host, MatchesOf(q), o)
    ensures o.i < |rts| && rts[o.i].compiles && exists j, m :: Compiled(env, rts[o.i].rules, j, m, o.rule)
  {
    hide Compiled, RoutesOf, RulesOf;
    var routes := RoutesOf(env, rts).value;
    RoutesAre(env, rts, o.i);
    var at, hn :| PushOf(routes, o, at, hn);
    InRulesOf(env, rts[o.i].rules, o.rule);
  }

  /** An unhealthy backend is picked only as a stand-in, as the only one, or where none that forwards is healthy. */
  ghost predicate AsksHealth(cs: seq<Choice>, healthy: nat -> bool, c: Choice) {
    || healthy(c.addr)
    || c.rejects
    || |cs| == 1
    || forall d :: d in cs && d.weight > 0 && !d.rejects ==> !healthy(d.addr)
  }

  lemma PickIsChoice(cs: seq<Choice>, healthy: nat -> bool, counter: nat)
    requires Pick(cs, healthy, counter).Some?
    ensures var c := Pick(cs, healthy, counter).value;
            c in cs && c.weight > 0 && AsksHealth(cs, healthy, c)
  {
    var alive := Alive(cs, healthy);
    var slot := counter % Total(cs);
    OneOwner(cs, Owner(cs, slot), Owner(cs, slot), slot);
    DegradedHasWeight(cs, alive, counter);
    DegradedIsHealthy(cs, alive, counter);
    hide Owner, Degraded;
    forall d | d in cs
      ensures exists i :: 0 <= i < |cs| && cs[i] == d && alive(i) == healthy(d.addr)
    {
      var i :| 0 <= i < |cs| && cs[i] == d;
    }
  }

  // ----- shares by address -----

  function WeightAt(cs: seq<Choice>, a: nat, n: nat): nat
    requires n <= |cs|
  {
    if n == 0 then 0 else WeightAt(cs, a, n - 1) + if cs[n - 1].addr == a then cs[n - 1].weight else 0
  }

  lemma {:induction false} HitsAdd(p: nat -> bool, q: nat -> bool, r: nat -> bool, from: nat, n: nat)
    requires forall c: nat :: (r(c) <==> p(c) || q(c)) && !(p(c) && q(c))
    ensures Hits(r, from, n) == Hits(p, from, n) + Hits(q, from, n)
  {
    if n > 0 {
      HitsAdd(p, q, r, from, n - 1);
    }
  }

  lemma {:induction false} NoHits(p: nat -> bool, from: nat, n: nat)
    requires forall c: nat :: !p(c)
    ensures Hits(p, from, n) == 0
  {
    if n > 0 {
      NoHits(p, from, n - 1);
    }
  }

  /** The picks that land on the address among the first `n` backends. */
  lemma {:induction false} PrefixShares(cs: seq<Choice>, a: nat, n: nat, from: nat)
    requires n <= |cs| && Total(cs) > 0
    ensures Hits((c: nat) => var i := Owner(cs, c % Total(cs)); i < n && cs[i].addr == a, from, Total(cs))
         == WeightAt(cs, a, n)
  {
    var total := Total(cs);
    var all := (c: nat) => var i := Owner(cs, c % total); i < n && cs[i].addr == a;
    if n == 0 {
      NoHits(all, from, total);
    } else {
      var less := (c: nat) => var i := Owner(cs, c % total); i < n - 1 && cs[i].addr == a;
      var last := (c: nat) => Owner(cs, c % total) == n - 1 && cs[n - 1].addr == a;
      PrefixShares(cs, a, n - 1, from);
      HitsAdd(less, last, all, from, total);
      RotationShares(cs, n - 1, from);
      if cs[n - 1].addr == a {
        SameHits(last, (c: nat) => Owner(cs, c % Total(cs)) == n - 1, from, total);
      } else {
        NoHits(last, from, total);
      }
    }
  }

  /** While all are healthy, over any turn of the counter each address is picked exactly by its weight. */
  lemma TurnShares(cs: seq<Choice>, healthy: nat -> bool, a: nat, from: nat)
    requires Total(cs) > 0 && forall c :: c in cs && c.weight > 0 ==> healthy(c.addr)
    ensures Hits((k: nat) => Pick(cs, healthy, k).value.addr == a, from, Total(cs)) == WeightAt(cs, a, |cs|)
  {
    var p := (k: nat) => Pick(cs, healthy, k).value.addr == a;
    var q := (c: nat) => var i := Owner(cs, c % Total(cs)); i < |cs| && cs[i].addr == a;
    assert AllHealthy(cs, Alive(cs, healthy));
    forall c: nat
      ensures p(c) == q(c)
    {
    }
    SameHits(p, q, from, Total(cs));
    PrefixShares(cs, a, |cs|, from);
  }

  lemma ChoiceIsGiven(env: Env, rcs: seq<RuleConfig>, j: nat, m: Match, rule: Rule, c: Choice) returns (r: BackendRef)
    requires Compiled(env, rcs, j, m, rule) && c in rule.choices
    ensures !Redirects(rcs[j].rule) && r in rcs[j].rule.refs && Gives(env, r, c)
  {
    hide Gives;
    var bs := RuleBackends(env, rcs[j].rule);
    assert bs.Ok? && rule.choices == ChoicesOf(bs.value);
    InChoices(env, rcs[j].rule.refs, c);
    r :| r in rcs[j].rule.refs && Gives(env, r, c);
  }

  /** The pick of the rule the request is served by, rule `j` of its route; reference `r` of that gave the choice. */
  ghost predicate ServedFrom(env: Env, rts: seq<RouteConfig>, scopes: seq<Scope>, host: string, q: Request,
                             healthy: nat -> bool, counter: nat,
                             o: Offer, j: int, m: Match, r: BackendRef, c: Choice)
  {
    && RoutesOf(env, rts).Ok? && Serves(RoutesOf(env, rts).value, scopes, host, q, o)
    && o.i < |rts| && rts[o.i].compiles && Compiled(env, rts[o.i].rules, j, m, o.rule) && MatchTakes(m, q)
    && !Redirects(rts[o.i].rules[j].rule) && r in rts[o.i].rules[j].rule.refs
    && Gives(env, r, c)
    && Pick(o.rule.choices, healthy, counter) == Some(c) && AsksHealth(o.rule.choices, healthy, c)
  }

  ghost function ScopesIn(env: Env, rts: seq<RouteConfig>, port: nat, takesShared: bool): seq<Scope> {
    if RoutesOf(env, rts).Ok? then ScopesFor(RoutesOf(env, rts).value, port, takesShared) else []
  }

  /** From config, lookups and health to the backend: the build, then one request on its table. */
  method Answer(env: Env, rts: seq<RouteConfig>, port: nat, takesShared: bool, host: string, utf8: string -> bool,
                q: Request, healthy: nat -> bool, counter: nat)
    returns (r: Result<Served>)
    ensures SameError(r, Build(env, HttpJobs(PlainRoutes(rts))))
    ensures r.Ok? ==> RoutesOf(env, rts).Ok?
    ensures r.Ok? && r.value.NotFound? ==> forall p ::
              !Stands(RoutesOf(env, rts).value, ScopesIn(env, rts, port, takesShared), HostText(host, utf8),
                      MatchesOf(q), p)
    ensures r.Ok? && r.value == Picked(None) ==> exists o ::
              Serves(RoutesOf(env, rts).value, ScopesIn(env, rts, port, takesShared), HostText(host, utf8), q, o)
              && Total(o.rule.choices) == 0
    ensures r.Ok? && r.value.Picked? && r.value.choice.Some? ==> exists o, j, m, ref ::
              ServedFrom(env, rts, ScopesIn(env, rts, port, takesShared), HostText(host, utf8), q, healthy, counter,
                         o, j, m, ref, r.value.choice.value)
  {
    hide TableOf, Stands, Serves, Compiled, Gives, RoutesOf, ScopesFor, HostText, MatchesOf, SameError, Build,
      HttpJobs, PlainRoutes, AsksHealth, Degraded, Owner, Alive, MatchTakes;
    var table := BuildHttp(env, rts);
    SameErrorIs(table, Build(env, HttpJobs(PlainRoutes(rts))));
    if table.Err? {
      return Err(table.error);
    }
    ghost var routes := RoutesOf(env, rts).value;
    ghost var scopes := ScopesIn(env, rts, port, takesShared);
    var served, o := Serve(table.value, routes, port, takesShared, host, utf8, q, healthy, counter);
    if served.Picked? && served.choice.Some? {
      ghost var j, m, ref := PickedIsResolved(env, rts, scopes, HostText(host, utf8), q, o, healthy, counter);
      PickIsChoice(o.rule.choices, healthy, counter);
      assert ServedFrom(env, rts, scopes, HostText(host, utf8), q, healthy, counter,
                        o, j, m, ref, served.choice.value);
    }
    return Ok(served);
  }

  lemma SameErrorIs<T, U>(a: Result<T>, b: Result<U>)
    requires SameError(a, b)
    ensures a.Err? <==> b.Err?
    ensures a.Err? ==> forall c: Result<Served> :: c == Err(a.error) ==> SameError(c, b)
    ensures a.Ok? ==> forall c: Result<Served> :: c.Ok? ==> SameError(c, b)
  {
  }
}
