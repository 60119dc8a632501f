/**
 What a reference or a filter resolves to (src/config/core.rs), said of the result:
 which address a backend dials, by what name, with TLS or not, and where a mirror
 sends its copies.
 */
module ResolvedBackends {
  import opened Options
  import opened Resolution

  /** The reference says https, or says nothing and its Service's port does. */
  predicate AsksTls(env: Env, r: BackendRef) {
    match r.appProtocol
    case Some(protocol) => protocol == "https"
    case None =>
      var key := (r.name, r.port);
      key in env.overrides.protocols && env.overrides.protocols[key] == "https"
  }

  /** The backend dials this endpoint of the reference. */
  ghost predicate DialsFor(env: Env, r: BackendRef, kind: Kind, e: Endpoint, b: Backend) {
    && b.addr == e.addr && b.serverName == e.name && b.weight == r.weight && !b.rejects
    && (if kind == Http then b.filters == r.filters && (b.useTls <==> AsksTls(env, r))
        else b.filters == [] && !b.useTls)
  }

  /** Stands for an invalid reference: it takes its weight and dials nothing. */
  ghost predicate StandsIn(r: BackendRef, b: Backend) {
    b.rejects && b.weight == r.weight && b.addr == 0 && b.filters == [] && !b.useTls && b.serverName == ""
  }

  /** A valid reference gives a backend for each endpoint, in order; an invalid one a stand-in. */
  lemma RefBackendsAre(env: Env, r: BackendRef, kind: Kind)
    requires RefBackends(env, r, kind).Ok?
    ensures var bs := RefBackends(env, r, kind).value;
            if r.invalid then |bs| == 1 && StandsIn(r, bs[0])
            else
              && Endpoints(env, (r.name, r.port), kind).Ok?
              && var es := Endpoints(env, (r.name, r.port), kind).value;
                 |bs| == |es| && forall i :: 0 <= i < |es| ==> DialsFor(env, r, kind, es[i], bs[i])
  {
    hide Endpoints;
  }

  /** What the reference gives. */
  ghost predicate GivenBy(env: Env, r: BackendRef, kind: Kind, b: Backend) {
    if r.invalid then StandsIn(r, b)
    else
      && Endpoints(env, (r.name, r.port), kind).Ok?
      && exists e :: e in Endpoints(env, (r.name, r.port), kind).value && DialsFor(env, r, kind, e, b)
  }

  lemma InRefBackends(env: Env, r: BackendRef, kind: Kind, b: Backend)
    requires RefBackends(env, r, kind).Ok?
    ensures b in RefBackends(env, r, kind).value <==> GivenBy(env, r, kind, b)
  {
    RefBackendsAre(env, r, kind);
    var bs := RefBackends(env, r, kind).value;
    hide RefBackends, Endpoints, AsksTls;
    if r.invalid {
      assert b == bs[0] <==> StandsIn(r, b);
    } else {
      var es := Endpoints(env, (r.name, r.port), kind).value;
      if b in bs {
        var i :| 0 <= i < |bs| && bs[i] == b;
        assert es[i] in es && DialsFor(env, r, kind, es[i], b);
      }
      if e :| e in es && DialsFor(env, r, kind, e, b) {
        var i :| 0 <= i < |es| && es[i] == e;
        assert DialsFor(env, r, kind, es[i], bs[i]);
        assert bs[i] == b;
      }
    }
  }

  /** The backends of a rule or route are exactly what its references give. */
  lemma {:induction false} InBackends(env: Env, refs: seq<BackendRef>, kind: Kind, b: Backend)
    requires Backends(env, refs, kind).Ok?
    ensures b in Backends(env, refs, kind).value <==> exists r :: r in refs && GivenBy(env, r, kind, b)
  {
    if refs != [] {
      InBackends(env, refs[1..], kind, b);
      InRefBackends(env, refs[0], kind, b);
      hide GivenBy, RefBackends;
      assert forall r :: r in refs <==> r == refs[0] || r in refs[1..];
    }
  }

  // ----- filters -----

  /** The least address of the endpoints. */
  lemma {:induction false} SmallestIs(es: seq<Endpoint>, a: Addr)
    ensures Smallest(es) == Some(a) <==> (exists e :: e in es && e.addr == a) && forall e :: e in es ==> a <= e.addr
  {
    if es != [] {
      var rest, last := es[..|es| - 1], es[|es| - 1];
      assert forall e :: e in es <==> e in rest || e == last;
      SmallestIs(rest, a);
      if Smallest(rest).Some? {
        SmallestIs(rest, Smallest(rest).value);
      }
    }
  }

  lemma NoSmallest(es: seq<Endpoint>)
    ensures Smallest(es) == None <==> es == []
  {
  }

  /** What a filter of the rule becomes: itself, or for a mirror the least address its backend resolves to. */
  ghost predicate FilterGives(env: Env, f: Filter, t: TableFilter) {
    match f
    case Ready(id) => t == Plain(id)
    case Redirect(id) => t == Plain(id)
    case Mirror(b, fraction) =>
      && !b.invalid && t.MirrorTo? && t.fraction == fraction
      && Endpoints(env, (b.name, b.port), RequestMirror).Ok?
      && var es := Endpoints(env, (b.name, b.port), RequestMirror).value;
         (exists e :: e in es && e.addr == t.addr) && forall e :: e in es ==> t.addr <= e.addr
  }

  lemma InRuleFilter(env: Env, f: Filter, t: TableFilter)
    requires RuleFilter(env, f).Ok?
    ensures t in RuleFilter(env, f).value <==> FilterGives(env, f, t)
  {
    hide Endpoints, Smallest;
    if f.Mirror? && !f.backend.invalid {
      var es := Endpoints(env, (f.backend.name, f.backend.port), RequestMirror).value;
      if t.MirrorTo? {
        SmallestIs(es, t.addr);
      }
      NoSmallest(es);
    }
  }

  /** The filters of a rule are exactly what its own become. */
  lemma {:induction false} InFilters(env: Env, fs: seq<Filter>, t: TableFilter)
    requires RuleFilters(env, fs).Ok?
    ensures t in RuleFilters(env, fs).value <==> exists f :: f in fs && FilterGives(env, f, t)
  {
    if fs != [] {
      InFilters(env, fs[1..], t);
      InRuleFilter(env, fs[0], t);
      hide FilterGives, RuleFilter;
      assert forall f :: f in fs <==> f == fs[0] || f in fs[1..];
    }
  }

  /** A redirecting rule has no backends, any other those of its references. */
  lemma EntryIsOfTheRule(env: Env, rule: HttpRule, b: Backend, t: TableFilter)
    requires JobEntry(env, HttpJob(rule)).Ok?
    ensures var es := JobEntry(env, HttpJob(rule)).value;
            && |es| == 1
            && (b in es[0].backends <==>
                  && (forall f :: f in rule.filters ==> !f.Redirect?)
                  && exists r :: r in rule.refs && GivenBy(env, r, Http, b))
            && (t in es[0].filters <==> exists f :: f in rule.filters && FilterGives(env, f, t))
  {
    hide GivenBy, FilterGives, Backends, RuleFilters;
    if !Redirects(rule) {
      InBackends(env, rule.refs, Http, b);
    }
    InFilters(env, rule.filters, t);
  }
}
