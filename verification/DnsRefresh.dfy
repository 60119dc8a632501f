/**
 The two writers of the live route table (src/dataplane/apply.rs and
 src/dataplane/dns_refresh.rs) as a machine over their atomic steps: one
 applier, which stores a table and then publishes it with its config, and any
 number of refresh ticks, which resolve a published config again and
 compare-and-swap the result in.

 Tables and pairs are immutable and are compared by identity: `id` is an
 address, and an address is used again once nobody holds what was there.
 */
module DnsRefresh {
  import opened Options

  type Config = nat
  type TaskId = nat

  /** `config`: what the table was built from, `None` for the empty table. */
  datatype Table = Table(id: nat, config: Option<Config>, signature: nat)

  datatype Pair = Pair(id: nat, config: Config, table: Table)

  /** Where the one applier stands. */
  datatype Applier =
    | Idle
    | Built(table: Table, config: Config)     // about to store the table
    | Stored(table: Table, config: Config)    // about to publish the pair
    | Clearing(table: Table)                  // about to store the empty table
    | Cleared                                 // about to publish nothing

  /** Where a refresh tick stands; it holds the pair it loaded throughout. */
  datatype Task =
    | Resolving(pair: Pair)
    | Rebuilt(pair: Pair, table: Table)       // about to swap the table
    | Swapped(pair: Pair, table: Table)       // about to swap the pair

  datatype State = State(
    routes: Table,
    published: Option<Pair>,
    applier: Applier,
    tasks: map<TaskId, Task>,
    latest: Option<Config>)                   // config of the last table the applier stored

  /** Nothing applied yet: the empty table is live and nothing is published. */
  const START: State := State(Table(0, None, 0), None, Idle, map[], None)

  // ----- who holds what -----

  ghost predicate PairHeld(s: State, p: Pair) {
    s.published == Some(p) || exists r :: r in s.tasks && s.tasks[r].pair == p
  }

  predicate ApplierHolds(s: State, t: Table) {
    (s.applier.Built? || s.applier.Stored? || s.applier.Clearing?) && s.applier.table == t
  }

  predicate TaskBuilt(s: State, r: TaskId, t: Table) {
    r in s.tasks && !s.tasks[r].Resolving? && s.tasks[r].table == t
  }

  /** No table is left at this address. */
  ghost predicate TableFree(s: State, id: nat) {
    && s.routes.id != id
    && (forall t :: ApplierHolds(s, t) ==> t.id != id)
    && (forall r, t :: TaskBuilt(s, r, t) ==> t.id != id)
    && (forall p :: PairHeld(s, p) ==> p.table.id != id)
  }

  ghost predicate PairFree(s: State, id: nat) {
    forall p :: PairHeld(s, p) ==> p.id != id
  }

  // ----- steps -----

  datatype Step =
    | ApplyBuilds(config: Config, id: nat, signature: nat)
    | ApplyStores
    | ApplyPublishes(id: nat)
    | ClearBegins(id: nat)
    | ClearStores
    | ClearPublishes
    | TickLoads(r: TaskId)
    | TickGivesUp(r: TaskId)                  // the rebuild failed or panicked
    | TickRebuilds(r: TaskId, id: nat, signature: nat)
    | TickSwaps(r: TaskId)
    | TickPublishes(r: TaskId, id: nat)

  ghost predicate Enabled(s: State, step: Step) {
    match step
    case ApplyBuilds(_, id, _) => s.applier.Idle? && TableFree(s, id)
    case ApplyStores => s.applier.Built?
    case ApplyPublishes(id) => s.applier.Stored? && PairFree(s, id)
    case ClearBegins(id) => s.applier.Idle? && TableFree(s, id)
    case ClearStores => s.applier.Clearing?
    case ClearPublishes => s.applier.Cleared?
    case TickLoads(r) => r !in s.tasks && s.published.Some?
    case TickGivesUp(r) => r in s.tasks && s.tasks[r].Resolving?
    case TickRebuilds(r, id, _) => r in s.tasks && s.tasks[r].Resolving? && TableFree(s, id)
    case TickSwaps(r) => r in s.tasks && s.tasks[r].Rebuilt?
    case TickPublishes(r, id) => r in s.tasks && s.tasks[r].Swapped? && PairFree(s, id)
  }

  function Rested(s: State, r: TaskId): State {
    s.(tasks := s.tasks - {r})
  }

  /** A tick's rebuild: dropped when the resolved backends are those of the pair's table. */
  function Rebuild(s: State, r: TaskId, id: nat, signature: nat): State
    requires r in s.tasks
  {
    var pair := s.tasks[r].pair;
    if signature == pair.table.signature then Rested(s, r)
    else s.(tasks := s.tasks[r := Rebuilt(pair, Table(id, Some(pair.config), signature))])
  }

  /** Compare-and-swap of the live table, by identity. */
  function Swap(s: State, r: TaskId): State
    requires r in s.tasks && s.tasks[r].Rebuilt?
  {
    var Rebuilt(pair, table) := s.tasks[r];
    if s.routes.id == pair.table.id
    then s.(routes := table, tasks := s.tasks[r := Swapped(pair, table)])
    else Rested(s, r)
  }

  /** Compare-and-swap of the published pair, by identity. */
  function Publish(s: State, r: TaskId, id: nat): State
    requires r in s.tasks && s.tasks[r].Swapped?
  {
    var Swapped(pair, table) := s.tasks[r];
    if s.published.Some? && s.published.value.id == pair.id
    then Rested(s, r).(published := Some(Pair(id, pair.config, table)))
    else Rested(s, r)
  }

  ghost function Apply(s: State, step: Step): State
    requires Enabled(s, step)
  {
    match step
    case ApplyBuilds(config, id, signature) =>
      s.(applier := Built(Table(id, Some(config), signature), config))
    case ApplyStores =>
      var Built(table, config) := s.applier;
      s.(routes := table, latest := Some(config), applier := Stored(table, config))
    case ApplyPublishes(id) =>
      s.(published := Some(Pair(id, s.applier.config, s.applier.table)), applier := Idle)
    case ClearBegins(id) =>
      s.(applier := Clearing(Table(id, None, 0)))
    case ClearStores =>
      s.(routes := s.applier.table, latest := None, applier := Cleared)
    case ClearPublishes =>
      s.(published := None, applier := Idle)
    case TickLoads(r) =>
      s.(tasks := s.tasks[r := Resolving(s.published.value)])
    case TickGivesUp(r) => Rested(s, r)
    case TickRebuilds(r, id, signature) => Rebuild(s, r, id, signature)
    case TickSwaps(r) => Swap(s, r)
    case TickPublishes(r, id) => Publish(s, r, id)
  }

  ghost predicate Runs(s: State, steps: seq<Step>)
    decreases |steps|
  {
    steps == [] || (Enabled(s, steps[0]) && Runs(Apply(s, steps[0]), steps[1..]))
  }

  ghost function End(s: State, steps: seq<Step>): State
    requires Runs(s, steps)
    decreases |steps|
  {
    if steps == [] then s else End(Apply(s, steps[0]), steps[1..])
  }

  // ----- what every step keeps -----

  /** What each holder holds was built from the config that goes with it. */
  ghost predicate Origins(s: State) {
    && s.routes.config == s.latest
    && (forall p :: PairHeld(s, p) ==> p.table.config == Some(p.config))
    && (forall r, t :: TaskBuilt(s, r, t) ==> t.config == Some(s.tasks[r].pair.config))
    && (s.applier.Built? || s.applier.Stored? ==> s.applier.table.config == Some(s.applier.config))
    && (s.applier.Clearing? ==> s.applier.table.config == None)
  }

  /** An address names one thing at a time, and a table goes with one pair at most. */
  ghost predicate Addresses(s: State) {
    && (forall p, q :: PairHeld(s, p) && PairHeld(s, q) && (p.id == q.id || p.table.id == q.table.id) ==> p == q)
    && (forall p :: PairHeld(s, p) && p.table.id == s.routes.id ==> p.table == s.routes)
    && (forall r, t :: TaskBuilt(s, r, t) && t.id == s.routes.id ==> t == s.routes)
  }

  /** A table on its way to the live cell is its builder's alone. */
  ghost predicate Private(s: State) {
    && (forall t :: ApplierHolds(s, t) ==>
          && (t.id == s.routes.id <==> s.applier.Stored?)
          && (forall p :: PairHeld(s, p) ==> p.table.id != t.id))
    && (forall t, r, u :: ApplierHolds(s, t) && TaskBuilt(s, r, u) ==> t.id != u.id)
    && (s.applier.Stored? ==> s.routes == s.applier.table)
    && (forall r, t :: TaskBuilt(s, r, t) ==>
          && (s.tasks[r].Rebuilt? ==> t.id != s.routes.id)
          && (forall p :: PairHeld(s, p) ==> p.table.id != t.id))
    && (forall r, q, t, u :: TaskBuilt(s, r, t) && TaskBuilt(s, q, u) && t.id == u.id ==> r == q)
  }

  /** A tick that swapped took its pair's table out of the live cell for good, and did so alone. */
  ghost predicate SwapsApart(s: State) {
    && (forall r :: r in s.tasks && s.tasks[r].Swapped? ==> s.tasks[r].pair.table.id != s.routes.id)
    && (forall r, q ::
          (r in s.tasks && q in s.tasks && s.tasks[r].Swapped? && s.tasks[q].Swapped?
           && s.tasks[r].pair == s.tasks[q].pair) ==> r == q)
  }

  predicate MidApply(s: State) {
    s.applier.Stored? || s.applier.Cleared?
  }

  ghost predicate AboutToPublish(s: State, r: TaskId, p: Pair) {
    r in s.tasks && s.tasks[r] == Swapped(p, s.routes)
  }

  /** The published table is the live one, unless someone is about to publish. */
  ghost predicate PublishedLive(s: State) {
    s.published.Some? ==>
      (|| MidApply(s)
       || s.published.value.table == s.routes
       || exists r :: AboutToPublish(s, r, s.published.value))
  }

  /** Outside an apply something is published exactly when a config is served. */
  predicate PublishedWhenServed(s: State) {
    if s.applier.Cleared? then s.latest == None
    else s.applier.Stored? || (s.published.Some? <==> s.latest.Some?)
  }

  ghost predicate Inv(s: State) {
    Origins(s) && Addresses(s) && Private(s) && SwapsApart(s) && PublishedLive(s) && PublishedWhenServed(s)
  }

  // ----- one step at a time -----

  lemma StartInv()
    ensures Inv(START)
  {
  }

  /** Steps of the applier that publish nothing: the pairs and the ticks stand as they did. */
  lemma ApplierBuilds(s: State, step: Step)
    requires Inv(s) && Enabled(s, step)
    requires step.ApplyBuilds? || step.ClearBegins?
    ensures Inv(Apply(s, step))
  {
    var t := Apply(s, step);
    assert forall p :: PairHeld(t, p) <==> PairHeld(s, p);
    assert forall r, u :: TaskBuilt(t, r, u) <==> TaskBuilt(s, r, u);
    assert forall u :: ApplierHolds(t, u) <==> u == t.applier.table;
    assert forall r, p :: AboutToPublish(s, r, p) <==> AboutToPublish(t, r, p);
  }

  lemma ApplierStores(s: State, step: Step)
    requires Inv(s) && Enabled(s, step)
    requires step.ApplyStores? || step.ClearStores?
    ensures Inv(Apply(s, step))
  {
    var t := Apply(s, step);
    assert ApplierHolds(s, s.applier.table);
    assert forall p :: PairHeld(t, p) <==> PairHeld(s, p);
    assert forall r, u :: TaskBuilt(t, r, u) <==> TaskBuilt(s, r, u);
    assert forall u :: ApplierHolds(t, u) ==> ApplierHolds(s, u);
    forall r | r in t.tasks && t.tasks[r].Swapped?
      ensures t.tasks[r].pair.table.id != t.routes.id
    {
      assert PairHeld(s, s.tasks[r].pair);
    }
  }

  lemma ApplierPublishes(s: State, step: Step)
    requires Inv(s) && Enabled(s, step)
    requires step.ApplyPublishes? || step.ClearPublishes?
    ensures Inv(Apply(s, step))
  {
    var t := Apply(s, step);
    assert forall p :: PairHeld(t, p) ==> PairHeld(s, p) || t.published == Some(p);
    assert forall r, u :: TaskBuilt(t, r, u) <==> TaskBuilt(s, r, u);
    if step.ApplyPublishes? {
      assert ApplierHolds(s, s.applier.table);
    }
  }

  lemma TickRests(s: State, r: TaskId)
    requires Inv(s) && r in s.tasks && !s.tasks[r].Swapped?
    ensures Inv(Rested(s, r))
  {
    var t := Rested(s, r);
    assert forall p :: PairHeld(t, p) ==> PairHeld(s, p);
    assert forall q, u :: TaskBuilt(t, q, u) ==> TaskBuilt(s, q, u);
    assert forall u :: ApplierHolds(t, u) <==> ApplierHolds(s, u);
    assert forall q, p :: AboutToPublish(s, q, p) ==> AboutToPublish(t, q, p);
  }

  /** Loading the published pair gives nobody anything new to hold. */
  lemma LoadedFrame(s: State, r: TaskId)
    requires Enabled(s, TickLoads(r))
    ensures var t := Apply(s, TickLoads(r));
            && t == s.(tasks := s.tasks[r := Resolving(s.published.value)])
            && (forall p :: PairHeld(t, p) ==> PairHeld(s, p))
            && (forall q, u :: TaskBuilt(t, q, u) <==> TaskBuilt(s, q, u))
            && (forall u :: ApplierHolds(t, u) <==> ApplierHolds(s, u))
            && (forall q, p :: AboutToPublish(s, q, p) ==> AboutToPublish(t, q, p))
  {
  }

  lemma TickLoaded(s: State, r: TaskId)
    requires Inv(s) && Enabled(s, TickLoads(r))
    ensures Inv(Apply(s, TickLoads(r)))
  {
    LoadedFrame(s, r);
    hide PairHeld, TaskBuilt, ApplierHolds, AboutToPublish, Apply;
  }

  lemma RebuiltFrame(s: State, r: TaskId, id: nat, signature: nat)
    requires Enabled(s, TickRebuilds(r, id, signature))
    requires signature != s.tasks[r].pair.table.signature
    ensures var t := Rebuild(s, r, id, signature);
            && (forall p :: PairHeld(t, p) ==> PairHeld(s, p))
            && (forall u :: ApplierHolds(t, u) <==> ApplierHolds(s, u))
            && (forall q, u :: TaskBuilt(t, q, u) ==> TaskBuilt(s, q, u) || (q == r && u == t.tasks[r].table))
            && (forall q, p :: AboutToPublish(s, q, p) ==> AboutToPublish(t, q, p))
  {
    assert Rebuild(s, r, id, signature).tasks[r].pair == s.tasks[r].pair;
  }

  lemma RebuiltPrivate(s: State, r: TaskId, id: nat, signature: nat)
    requires Private(s)
    requires Enabled(s, TickRebuilds(r, id, signature))
    requires signature != s.tasks[r].pair.table.signature
    ensures Private(Rebuild(s, r, id, signature))
  {
    RebuiltFrame(s, r, id, signature);
    hide PairHeld, ApplierHolds;
  }

  lemma TickRebuilt(s: State, r: TaskId, id: nat, signature: nat)
    requires Inv(s)
    requires Enabled(s, TickRebuilds(r, id, signature))
    requires signature != s.tasks[r].pair.table.signature
    ensures Inv(Rebuild(s, r, id, signature))
  {
    RebuiltFrame(s, r, id, signature);
    RebuiltPrivate(s, r, id, signature);
    hide Private, PairHeld, ApplierHolds, AboutToPublish;
  }

  /** The swap goes through only where nobody else has, and its table was no pair's. */
  lemma TickSwapped(s: State, r: TaskId)
    requires Inv(s) && Enabled(s, TickSwaps(r)) && s.routes.id == s.tasks[r].pair.table.id
    ensures Inv(Swap(s, r))
  {
    var t := Swap(s, r);
    var pair, table := s.tasks[r].pair, s.tasks[r].table;
    assert PairHeld(s, pair) && TaskBuilt(s, r, table);
    assert forall p :: PairHeld(t, p) ==> PairHeld(s, p);
    assert forall q, u :: TaskBuilt(t, q, u) <==> TaskBuilt(s, q, u);
    assert forall u :: ApplierHolds(t, u) <==> ApplierHolds(s, u);
    SwapPublishes(s, r);
  }

  lemma SwapPublishes(s: State, r: TaskId)
    requires Inv(s) && Enabled(s, TickSwaps(r)) && s.routes.id == s.tasks[r].pair.table.id
    ensures PublishedLive(Swap(s, r))
  {
    var t := Swap(s, r);
    var pair := s.tasks[r].pair;
    assert PairHeld(s, pair);
    if s.published.Some? && !MidApply(s) {
      var p := s.published.value;
      assert PairHeld(s, p);
      if q :| AboutToPublish(s, q, p) {
        assert TaskBuilt(s, q, s.routes);
      } else {
        assert AboutToPublish(t, r, p);
      }
    }
  }

  /** An apply published since: its pair stays. */
  lemma TickTooLate(s: State, r: TaskId)
    requires Inv(s) && r in s.tasks && s.tasks[r].Swapped?
    requires s.published == None || s.published.value != s.tasks[r].pair
    ensures Inv(Rested(s, r))
  {
    var t := Rested(s, r);
    assert forall p :: PairHeld(t, p) ==> PairHeld(s, p);
    assert forall q, u :: TaskBuilt(t, q, u) ==> TaskBuilt(s, q, u);
    assert forall u :: ApplierHolds(t, u) <==> ApplierHolds(s, u);
    assert forall q, p :: AboutToPublish(s, q, p) && p != s.tasks[r].pair ==> AboutToPublish(t, q, p);
  }

  /** Nobody published since the tick loaded its pair: outside an apply, its table is the live one. */
  lemma SwappedIsLive(s: State, r: TaskId)
    requires Inv(s) && r in s.tasks && s.tasks[r].Swapped? && s.published == Some(s.tasks[r].pair)
    ensures MidApply(s) || s.tasks[r].table == s.routes
  {
    if !MidApply(s) {
      assert s.tasks[r].pair.table != s.routes;
      var q :| AboutToPublish(s, q, s.tasks[r].pair);
      assert q == r;
    }
  }

  lemma PublishedFrame(s: State, r: TaskId, id: nat)
    requires Enabled(s, TickPublishes(r, id)) && s.published == Some(s.tasks[r].pair)
    ensures var t := Publish(s, r, id);
            && (forall p :: PairHeld(t, p) ==> PairHeld(s, p) || p == t.published.value)
            && (forall u :: ApplierHolds(t, u) <==> ApplierHolds(s, u))
            && (forall q, u :: TaskBuilt(t, q, u) ==> TaskBuilt(s, q, u) && q != r)
    ensures PairHeld(s, s.tasks[r].pair) && TaskBuilt(s, r, s.tasks[r].table)
  {
  }

  lemma TickPublished(s: State, r: TaskId, id: nat)
    requires Inv(s) && Enabled(s, TickPublishes(r, id)) && s.published == Some(s.tasks[r].pair)
    ensures Inv(Publish(s, r, id))
  {
    PublishedFrame(s, r, id);
    SwappedIsLive(s, r);
    hide PairHeld, ApplierHolds;
  }

  lemma TickPublishesOrNot(s: State, r: TaskId, id: nat)
    requires Inv(s) && Enabled(s, TickPublishes(r, id))
    ensures Inv(Publish(s, r, id))
  {
    var pair := s.tasks[r].pair;
    assert PairHeld(s, pair);
    if s.published.Some? && s.published.value.id == pair.id {
      assert PairHeld(s, s.published.value);
      TickPublished(s, r, id);
    } else {
      TickTooLate(s, r);
    }
  }

  lemma StepKeepsInv(s: State, step: Step)
    requires Inv(s) && Enabled(s, step)
    ensures Inv(Apply(s, step))
  {
    match step
    case ApplyBuilds(_, _, _) => ApplierBuilds(s, step);
    case ApplyStores => ApplierStores(s, step);
    case ApplyPublishes(_) => ApplierPublishes(s, step);
    case ClearBegins(_) => ApplierBuilds(s, step);
    case ClearStores => ApplierStores(s, step);
    case ClearPublishes => ApplierPublishes(s, step);
    case TickLoads(r) => TickLoaded(s, r);
    case TickGivesUp(r) => TickRests(s, r);
    case TickRebuilds(r, id, signature) =>
      if signature == s.tasks[r].pair.table.signature { TickRests(s, r); } else { TickRebuilt(s, r, id, signature); }
    case TickSwaps(r) =>
      if s.routes.id == s.tasks[r].pair.table.id { TickSwapped(s, r); } else { TickRests(s, r); }
    case TickPublishes(r, id) => TickPublishesOrNot(s, r, id);
  }

  // ----- whole runs -----

  lemma {:induction false} RunKeepsInv(s: State, steps: seq<Step>)
    requires Inv(s) && Runs(s, steps)
    ensures Inv(End(s, steps))
    decreases |steps|
  {
    if steps != [] {
      StepKeepsInv(s, steps[0]);
      RunKeepsInv(Apply(s, steps[0]), steps[1..]);
    }
  }

  /** What the applier stored last, read off the steps alone. */
  ghost function LastStored(s: State, steps: seq<Step>): Option<Config>
    requires Runs(s, steps)
    decreases |steps|
  {
    if steps == [] then s.routes.config
    else if (exists step :: step in steps[1..] && (step.ApplyStores? || step.ClearStores?))
    then LastStored(Apply(s, steps[0]), steps[1..])
    else if steps[0].ApplyStores? then Some(s.applier.config)
    else if steps[0].ClearStores? then None
    else s.routes.config
  }

  lemma {:induction false} LatestIsLastStored(s: State, steps: seq<Step>)
    requires Inv(s) && Runs(s, steps)
    ensures End(s, steps).latest == LastStored(s, steps)
    decreases |steps|
  {
    if steps != [] {
      StepKeepsInv(s, steps[0]);
      LatestIsLastStored(Apply(s, steps[0]), steps[1..]);
      NoStoreNoChange(Apply(s, steps[0]), steps[1..]);
    }
  }

  lemma {:induction false} NoStoreNoChange(s: State, steps: seq<Step>)
    requires Runs(s, steps)
    ensures (forall step :: step in steps ==> !step.ApplyStores? && !step.ClearStores?)
              ==> End(s, steps).latest == s.latest
    decreases |steps|
  {
    if steps != [] && forall step :: step in steps ==> !step.ApplyStores? && !step.ClearStores? {
      assert steps[0] in steps;
      NoStoreNoChange(Apply(s, steps[0]), steps[1..]);
    }
  }

  /** Whatever the interleaving, the live table is built from the config the applier stored last. */
  lemma LiveTableIsLatest(steps: seq<Step>)
    requires Runs(START, steps)
    ensures End(START, steps).routes.config == LastStored(START, steps)
  {
    StartInv();
    RunKeepsInv(START, steps);
    LatestIsLastStored(START, steps);
  }

  /** Nobody stands between its store and its publish. */
  ghost predicate Quiet(s: State) {
    !MidApply(s) && forall r :: r in s.tasks ==> !s.tasks[r].Swapped?
  }

  /** At rest the next tick resolves the config being served, against the table being served. */
  lemma QuietPairIsLive(steps: seq<Step>)
    requires Runs(START, steps)
    requires Quiet(End(START, steps))
    ensures var s := End(START, steps);
            && (s.published.Some? <==> LastStored(START, steps).Some?)
            && (s.published.Some? ==>
                  s.published.value.table == s.routes && Some(s.published.value.config) == LastStored(START, steps))
  {
    StartInv();
    RunKeepsInv(START, steps);
    LatestIsLastStored(START, steps);
    var s := End(START, steps);
    if s.published.Some? {
      assert PairHeld(s, s.published.value);
    }
  }

  // ----- comparing identities is enough -----

  /** This step replaces the live table. */
  ghost predicate Replaces(s: State, step: Step)
    requires Enabled(s, step)
  {
    || step.ApplyStores?
    || step.ClearStores?
    || (step.TickSwaps? && s.routes.id == s.tasks[step.r].pair.table.id)
  }

  ghost predicate Untouched(s: State, steps: seq<Step>)
    requires Runs(s, steps)
    decreases |steps|
  {
    steps == [] || (!Replaces(s, steps[0]) && Untouched(Apply(s, steps[0]), steps[1..]))
  }

  /** Tick `r` holds the pair `p` all along the run. */
  ghost predicate HeldThroughout(s: State, steps: seq<Step>, r: TaskId, p: Pair)
    requires Runs(s, steps)
    decreases |steps|
  {
    && r in s.tasks
    && s.tasks[r].pair == p
    && (steps == [] || HeldThroughout(Apply(s, steps[0]), steps[1..], r, p))
  }

  lemma ReplacedByAnother(s: State, step: Step, p: Pair)
    requires Inv(s) && Enabled(s, step) && PairHeld(s, p)
    ensures if Replaces(s, step) then Apply(s, step).routes.id != p.table.id else Apply(s, step).routes == s.routes
  {
    if step.ApplyStores? || step.ClearStores? {
      assert ApplierHolds(s, s.applier.table);
    } else if step.TickSwaps? {
      assert TaskBuilt(s, step.r, s.tasks[step.r].table);
    }
  }

  /**
   A tick's compare-and-swap tells exactly whether a writer came between: while it
   holds its pair, that pair's table is live at the end of a run if and only if it
   was live at the start and no step replaced it, although addresses are reused.
   */
  lemma {:induction false} SwapsIffUntouched(s: State, steps: seq<Step>, r: TaskId, p: Pair)
    requires Inv(s) && Runs(s, steps) && HeldThroughout(s, steps, r, p)
    ensures End(s, steps).routes.id == p.table.id <==> (s.routes.id == p.table.id && Untouched(s, steps))
    decreases |steps|
  {
    if steps != [] {
      StepKeepsInv(s, steps[0]);
      assert PairHeld(s, p);
      ReplacedByAnother(s, steps[0], p);
      SwapsIffUntouched(Apply(s, steps[0]), steps[1..], r, p);
    }
  }
}
