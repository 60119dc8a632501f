/**
 That a refresh of src/dataplane/dns_refresh.rs takes effect: a tick whose lookups
 came out differently has its table live, and then published, exactly when no
 other writer came between.
 */
module DnsEffect {
  import opened Options
  import opened DnsRefresh

  /** The step is not one of tick `r`. */
  predicate OfOther(step: Step, r: TaskId) {
    match step
    case TickLoads(q) => q != r
    case TickGivesUp(q) => q != r
    case TickRebuilds(q, _, _) => q != r
    case TickSwaps(q) => q != r
    case TickPublishes(q, _) => q != r
    case _ => true
  }

  ghost predicate AllOfOthers(steps: seq<Step>, r: TaskId) {
    forall i :: 0 <= i < |steps| ==> OfOther(steps[i], r)
  }

  lemma OthersLeaveTick(s: State, step: Step, r: TaskId)
    requires Enabled(s, step) && OfOther(step, r)
    ensures r in Apply(s, step).tasks <==> r in s.tasks
    ensures r in s.tasks ==> Apply(s, step).tasks[r] == s.tasks[r]
  {
    hide TableFree, PairFree;
  }

  lemma {:induction false} TickWaits(s: State, steps: seq<Step>, r: TaskId)
    requires Runs(s, steps) && AllOfOthers(steps, r)
    ensures r in End(s, steps).tasks <==> r in s.tasks
    ensures r in s.tasks ==> End(s, steps).tasks[r] == s.tasks[r] && HeldThroughout(s, steps, r, s.tasks[r].pair)
    decreases |steps|
  {
    hide Apply, Enabled;
    if steps != [] {
      OthersLeaveTick(s, steps[0], r);
      TickWaits(Apply(s, steps[0]), steps[1..], r);
    }
  }

  /** A rebuild goes on to swap exactly when the lookups changed the table's signature. */
  lemma RebuildGoesOnIff(s: State, r: TaskId, id: nat, signature: nat)
    requires Enabled(s, TickRebuilds(r, id, signature))
    ensures var s', pair := Apply(s, TickRebuilds(r, id, signature)), s.tasks[r].pair;
            && s'.routes == s.routes && s'.published == s.published
            && (r in s'.tasks <==> signature != pair.table.signature)
            && (r in s'.tasks ==> s'.tasks[r] == Rebuilt(pair, Table(id, Some(pair.config), signature)))
  {
    hide TableFree;
  }

  /**
   A tick resolves the pair whose table is live. Whatever the others do until it swaps,
   it gets to swap if and only if the signature changed, and its table is live right
   after that if and only if nobody replaced the live table in between.
   */
  lemma RefreshTakesEffect(s: State, r: TaskId, id: nat, signature: nat, between: seq<Step>)
    requires Inv(s) && r in s.tasks && s.routes.id == s.tasks[r].pair.table.id
    requires Runs(s, [TickRebuilds(r, id, signature)] + between) && AllOfOthers(between, r)
    ensures var pair, s' := s.tasks[r].pair, End(s, [TickRebuilds(r, id, signature)] + between);
            && (Enabled(s', TickSwaps(r)) <==> signature != pair.table.signature)
            && (Enabled(s', TickSwaps(r)) ==>
                  (Apply(s', TickSwaps(r)).routes == Table(id, Some(pair.config), signature)
                   <==> Untouched(s, [TickRebuilds(r, id, signature)] + between)))
  {
    var rebuild, pair := TickRebuilds(r, id, signature), s.tasks[r].pair;
    var steps := [rebuild] + between;
    assert steps[1..] == between && steps[0] == rebuild;
    RebuildGoesOnIff(s, r, id, signature);
    StepKeepsInv(s, rebuild);
    var s1 := Apply(s, rebuild);
    TickWaits(s1, between, r);
    RunKeepsInv(s1, between);
    var s' := End(s1, between);
    assert End(s, steps) == s';
    if signature != pair.table.signature {
      SwapsIffUntouched(s1, between, r, pair);
      SwapIsLiveIff(s', r);
    }
  }

  lemma SwapIsLiveIff(s: State, r: TaskId)
    requires Inv(s) && Enabled(s, TickSwaps(r))
    ensures Apply(s, TickSwaps(r)).routes == s.tasks[r].table <==> s.routes.id == s.tasks[r].pair.table.id
  {
    assert TaskBuilt(s, r, s.tasks[r].table);
  }

  // ----- and is published -----

  /** This step replaces the published pair. */
  ghost predicate Republishes(s: State, step: Step)
    requires Enabled(s, step)
  {
    || step.ApplyPublishes?
    || step.ClearPublishes?
    || (step.TickPublishes? && s.published.Some? && s.published.value.id == s.tasks[step.r].pair.id)
  }

  ghost predicate Unpublished(s: State, steps: seq<Step>)
    requires Runs(s, steps)
    decreases |steps|
  {
    steps == [] || (!Republishes(s, steps[0]) && Unpublished(Apply(s, steps[0]), steps[1..]))
  }

  lemma PublishedByAnother(s: State, step: Step, p: Pair)
    requires Enabled(s, step) && PairHeld(s, p)
    ensures if Republishes(s, step) then Apply(s, step).published != Some(p)
            else Apply(s, step).published == s.published
  {
    hide TableFree;
  }

  /** While a tick holds its pair, it is published at the end if and only if it was and nobody published since. */
  lemma {:induction false} StillPublishedIff(s: State, steps: seq<Step>, r: TaskId, p: Pair)
    requires Runs(s, steps) && HeldThroughout(s, steps, r, p)
    ensures End(s, steps).published == Some(p) <==> (s.published == Some(p) && Unpublished(s, steps))
    decreases |steps|
  {
    if steps != [] {
      assert PairHeld(s, p);
      PublishedByAnother(s, steps[0], p);
      hide Apply, Enabled, Republishes;
      StillPublishedIff(Apply(s, steps[0]), steps[1..], r, p);
    }
  }

  /**
   A tick that has swapped publishes its table with its config if and only if its pair
   was published then and nobody published since; outside an apply that table is live.
   */
  lemma RefreshIsPublishedIff(s: State, r: TaskId, between: seq<Step>, id: nat)
    requires Inv(s) && r in s.tasks && s.tasks[r].Swapped?
    requires Runs(s, between) && AllOfOthers(between, r) && PairFree(End(s, between), id)
    ensures var s', pair, table := End(s, between), s.tasks[r].pair, s.tasks[r].table;
            && Enabled(s', TickPublishes(r, id))
            && var t := Apply(s', TickPublishes(r, id));
               && (t.published == Some(Pair(id, pair.config, table))
                   <==> s.published == Some(pair) && Unpublished(s, between))
               && (s.published == Some(pair) && Unpublished(s, between) ==> MidApply(t) || t.routes == table)
  {
    var s', pair := End(s, between), s.tasks[r].pair;
    TickWaits(s, between, r);
    RunKeepsInv(s, between);
    StillPublishedIff(s, between, r, pair);
    hide Runs, End, Unpublished;
    PublishIff(s', r, id);
    if s'.published == Some(pair) {
      SwappedIsLive(s', r);
    }
  }

  lemma PublishIff(s: State, r: TaskId, id: nat)
    requires Inv(s) && Enabled(s, TickPublishes(r, id))
    ensures var t, pair, table := Apply(s, TickPublishes(r, id)), s.tasks[r].pair, s.tasks[r].table;
            && t.routes == s.routes && t.applier == s.applier
            && (t.published == Some(Pair(id, pair.config, table)) <==> s.published == Some(pair))
  {
    assert PairHeld(s, s.tasks[r].pair);
    assert s.published.Some? ==> PairHeld(s, s.published.value);
  }
}
