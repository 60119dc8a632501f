/**
 The health registry of src/proxy/health.rs as atomic steps of any number of
 threads and probe tasks over one sharded map. A step is one access to shared
 memory; a guard of a shard shuts out what the map's lock would.
 */
module HealthMachine {
  import opened Options

  type Addr = nat
  type Tid = nat
  type ProbeId = nat

  const FAILURE_THRESHOLD: nat := 3

  datatype Status = Healthy | Unhealthy | Probing

  datatype Entry = Entry(failures: nat, status: Status, slot: Option<ProbeId>)

  const FRESH: Entry := Entry(0, Healthy, None)

  /** A thread's place in the operation it runs; what it is about to do. */
  datatype Pc =
    // record_failure, the shard's write guard held from the insert on
    | FailLoadFlag(a: Addr)
    | FailRaiseFlag(a: Addr)
    | FailCount(a: Addr)
    // its caller, told to probe
    | Won(a: Addr)
    | Spawned(a: Addr, p: ProbeId)
    // record_success, a read guard held once it found the entry
    | SuccFind(a: Addr)
    | SuccLoadStatus(a: Addr)
    | SuccLoadCount(a: Addr)
    | SuccZero(a: Addr)
    | SuccHeal(a: Addr)
    // prune: filter shard i, count it, lower the flag, count again, raise it
    | PruneFilter(routed: set<Addr>, i: nat)
    | PruneCount(i: nat, found: bool)
    | PruneLower
    | PruneRecount(i: nat, found: bool)
    | PruneRaise

  /** A probe task's place in `run_probe`. */
  datatype ProbePc =
    | Asleep(first: bool)
    | Connecting
    | Connected
    | Zeroing
    | Healing
    | Finished

  datatype Probe = Probe(a: Addr, at: ProbePc, aborted: bool)

  datatype Registry = Registry(
    shards: nat,
    entries: map<Addr, Entry>,
    tracked: bool,
    threads: map<Tid, Pc>,
    probes: map<ProbeId, Probe>)

  function NewRegistry(shards: nat): Registry {
    Registry(shards, map[], false, map[], map[])
  }

  function ShardOf(shards: nat, a: Addr): (i: nat)
    requires shards > 0
    ensures i < shards
  {
    a % shards
  }

  // ----- guards -----

  function WriteGuard(pc: Pc): Option<Addr> {
    if pc.FailLoadFlag? || pc.FailRaiseFlag? || pc.FailCount? then Some(pc.a) else None
  }

  function ReadGuard(pc: Pc): Option<Addr> {
    if pc.SuccLoadStatus? || pc.SuccLoadCount? || pc.SuccZero? || pc.SuccHeal? then Some(pc.a) else None
  }

  predicate ProbeReads(probe: Probe) {
    probe.at.Zeroing? || probe.at.Healing?
  }

  predicate NoWriter(s: Registry, i: nat)
    requires s.shards > 0
  {
    forall t :: t in s.threads && WriteGuard(s.threads[t]).Some? ==>
      ShardOf(s.shards, WriteGuard(s.threads[t]).value) != i
  }

  predicate NoReader(s: Registry, i: nat)
    requires s.shards > 0
  {
    && (forall t :: t in s.threads && ReadGuard(s.threads[t]).Some? ==>
          ShardOf(s.shards, ReadGuard(s.threads[t]).value) != i)
    && (forall p :: p in s.probes && ProbeReads(s.probes[p]) ==> ShardOf(s.shards, s.probes[p].a) != i)
  }

  // ----- steps -----

  datatype Op = Failure(a: Addr) | Success(a: Addr) | Prune(routed: set<Addr>)

  datatype Step =
    | Begin(t: Tid, op: Op)
    | Go(t: Tid, task: ProbeId)        // `task` names the task a winner spawns
    | ProbeGo(p: ProbeId, connects: bool)  // `connects`: the backend answers this attempt

  predicate Enabled(s: Registry, step: Step) {
    s.shards > 0 &&
    match step
    case Begin(t, op) =>
      && t !in s.threads
      && (op.Failure? ==> NoWriter(s, ShardOf(s.shards, op.a)) && NoReader(s, ShardOf(s.shards, op.a)))
    case Go(t, task) =>
      t in s.threads &&
      (match s.threads[t]
       case Won(_) => task !in s.probes
       case Spawned(a, _) => NoWriter(s, ShardOf(s.shards, a))
       case SuccFind(a) => NoWriter(s, ShardOf(s.shards, a))
       case PruneFilter(_, i) => NoWriter(s, i) && NoReader(s, i)
       case PruneCount(i, _) => NoWriter(s, i)
       case PruneRecount(i, _) => NoWriter(s, i)
       case _ => true)
    case ProbeGo(p, _) =>
      && p in s.probes && !s.probes[p].at.Finished?
      && (s.probes[p].at.Asleep? || s.probes[p].at.Connected? ==> NoWriter(s, ShardOf(s.shards, s.probes[p].a)))
  }

  /** The guarded body of record_failure: the entry after it, and whether the caller is to probe. */
  function CountFailure(e: Entry): (r: (Entry, bool)) {
    var count := e.failures + 1;
    if count < FAILURE_THRESHOLD then (e.(failures := count), false)
    else
      var status := if e.status == Healthy then Unhealthy else e.status;
      var won := status == Unhealthy;
      (e.(failures := count, status := if won then Probing else status), won)
  }

  /** No thread but `t` differs. */
  ghost predicate OthersStay(before: map<Tid, Pc>, after: map<Tid, Pc>, t: Tid) {
    forall u :: u != t ==> (u in after <==> u in before) && (u in before ==> after[u] == before[u])
  }

  function At(s: Registry, t: Tid, pc: Pc): (s': Registry)
    ensures OthersStay(s.threads, s'.threads, t)
  {
    s.(threads := s.threads[t := pc])
  }

  function Left(s: Registry, t: Tid): (s': Registry)
    ensures OthersStay(s.threads, s'.threads, t)
  {
    s.(threads := s.threads - {t})
  }

  function ProbeAt(s: Registry, p: ProbeId, at: ProbePc): Registry
    requires p in s.probes
  {
    s.(probes := s.probes[p := s.probes[p].(at := at)])
  }

  function Begun(s: Registry, t: Tid, op: Op): Registry {
    match op
    case Failure(a) =>
      At(if a in s.entries then s else s.(entries := s.entries[a := FRESH]), t, FailLoadFlag(a))
    case Success(a) => if s.tracked then At(s, t, SuccFind(a)) else s
    case Prune(routed) => if s.tracked then At(s, t, PruneFilter(routed, 0)) else s
  }

  predicate Departs(s: Registry, routed: set<Addr>, i: nat, a: Addr)
    requires s.shards > 0
  {
    a in s.entries && ShardOf(s.shards, a) == i && a !in routed
  }

  /** The same probes at the same places; some may have been told to stop. */
  ghost predicate OnlyAborts(before: map<ProbeId, Probe>, after: map<ProbeId, Probe>) {
    && after.Keys == before.Keys
    && forall p :: p in before ==>
         after[p].a == before[p].a && after[p].at == before[p].at && (before[p].aborted ==> after[p].aborted)
  }

  /** Shard `i` filtered: an entry that leaves aborts the probe in its slot. */
  function Filtered(s: Registry, routed: set<Addr>, i: nat): (s': Registry)
    requires s.shards > 0
    ensures OnlyAborts(s.probes, s'.probes)
    ensures s'.shards == s.shards && s'.threads == s.threads && s'.tracked == s.tracked
  {
    s.(entries := map a | a in s.entries && !Departs(s, routed, i, a) :: s.entries[a],
       probes := map p | p in s.probes ::
         if (exists a :: a in s.entries && Departs(s, routed, i, a) && s.entries[a].slot == Some(p))
         then s.probes[p].(aborted := true)
         else s.probes[p])
  }

  predicate ShardUsed(s: Registry, i: nat)
    requires s.shards > 0
  {
    exists a :: a in s.entries && ShardOf(s.shards, a) == i
  }

  function Registered(s: Registry, a: Addr, p: ProbeId): (s': Registry)
    requires a in s.entries && p in s.probes
    ensures OnlyAborts(s.probes, s'.probes)
    ensures s'.shards == s.shards && s'.threads == s.threads && s'.tracked == s.tracked
  {
    var stale := s.entries[a].slot;
    s.(entries := s.entries[a := s.entries[a].(slot := Some(p))],
       probes := if stale.Some? && stale.value in s.probes
                 then s.probes[stale.value := s.probes[stale.value].(aborted := true)] else s.probes)
  }

  /** Places in record_failure and its caller. */
  predicate OfFailure(pc: Pc) {
    pc.FailLoadFlag? || pc.FailRaiseFlag? || pc.FailCount? || pc.Won? || pc.Spawned?
  }

  predicate OfSuccess(pc: Pc) {
    pc.SuccFind? || pc.SuccLoadStatus? || pc.SuccLoadCount? || pc.SuccZero? || pc.SuccHeal?
  }

  function FailureWent(s: Registry, t: Tid, task: ProbeId): (s': Registry)
    requires t in s.threads
    ensures s'.shards == s.shards && OthersStay(s.threads, s'.threads, t)
  {
    match s.threads[t]
    case FailLoadFlag(a) => At(s, t, if s.tracked then FailCount(a) else FailRaiseFlag(a))
    case FailRaiseFlag(a) => At(s.(tracked := true), t, FailCount(a))
    case FailCount(a) =>
      if a !in s.entries then s
      else
        var (entry, won) := CountFailure(s.entries[a]);
        var s' := s.(entries := s.entries[a := entry]);
        if won then At(s', t, Won(a)) else Left(s', t)
    case Won(a) => At(s.(probes := s.probes[task := Probe(a, Asleep(true), false)]), t, Spawned(a, task))
    case Spawned(a, p) =>
      if p !in s.probes then s
      else if a in s.entries then Left(Registered(s, a, p), t)
      else Left(s.(probes := s.probes[p := s.probes[p].(aborted := true)]), t)
    case _ => s
  }

  function SuccessWent(s: Registry, t: Tid): (s': Registry)
    requires t in s.threads
    ensures s'.shards == s.shards && OthersStay(s.threads, s'.threads, t)
    ensures s'.probes == s.probes && s'.tracked == s.tracked
  {
    match s.threads[t]
    case SuccFind(a) => if a in s.entries then At(s, t, SuccLoadStatus(a)) else Left(s, t)
    case SuccLoadStatus(a) =>
      if a !in s.entries then s
      else At(s, t, if s.entries[a].status != Healthy then SuccZero(a) else SuccLoadCount(a))
    case SuccLoadCount(a) =>
      if a !in s.entries then s
      else if s.entries[a].failures > 0 then At(s, t, SuccZero(a)) else Left(s, t)
    case SuccZero(a) =>
      if a !in s.entries then s
      else At(s.(entries := s.entries[a := s.entries[a].(failures := 0)]), t, SuccHeal(a))
    case SuccHeal(a) =>
      if a !in s.entries then s
      else Left(s.(entries := s.entries[a := s.entries[a].(status := Healthy)]), t)
    case _ => s
  }

  function PruneWent(s: Registry, t: Tid): (s': Registry)
    requires s.shards > 0 && t in s.threads
    ensures s'.shards == s.shards && OthersStay(s.threads, s'.threads, t)
    ensures !s.threads[t].PruneFilter? ==> s'.entries == s.entries && s'.probes == s.probes
  {
    match s.threads[t]
    case PruneFilter(routed, i) =>
      At(Filtered(s, routed, i), t, if i + 1 < s.shards then PruneFilter(routed, i + 1) else PruneCount(0, false))
    case PruneCount(i, found) =>
      var found' := found || ShardUsed(s, i);
      if i + 1 < s.shards then At(s, t, PruneCount(i + 1, found'))
      else if found' then Left(s, t)
      else At(s, t, PruneLower)
    case PruneLower => At(s.(tracked := false), t, PruneRecount(0, false))
    case PruneRecount(i, found) =>
      var found' := found || ShardUsed(s, i);
      if i + 1 < s.shards then At(s, t, PruneRecount(i + 1, found'))
      else if found' then At(s, t, PruneRaise)
      else Left(s, t)
    case PruneRaise => Left(s.(tracked := true), t)
    case _ => s
  }

  function Went(s: Registry, t: Tid, task: ProbeId): (s': Registry)
    requires Enabled(s, Go(t, task))
    ensures s'.shards == s.shards && OthersStay(s.threads, s'.threads, t)
  {
    if OfFailure(s.threads[t]) then FailureWent(s, t, task)
    else if OfSuccess(s.threads[t]) then SuccessWent(s, t)
    else PruneWent(s, t)
  }

  function ProbeWent(s: Registry, p: ProbeId, connects: bool): Registry
    requires p in s.probes
  {
    var a := s.probes[p].a;
    match s.probes[p].at
    case Asleep(_) =>
      ProbeAt(s, p, if a in s.entries && s.entries[a].status == Probing then Connecting else Finished)
    case Connecting => ProbeAt(s, p, if connects then Connected else Asleep(false))
    case Connected => ProbeAt(s, p, if a in s.entries then Zeroing else Finished)
    case Zeroing =>
      if a !in s.entries then s
      else ProbeAt(s.(entries := s.entries[a := s.entries[a].(failures := 0)]), p, Healing)
    case Healing =>
      if a !in s.entries then s
      else if s.entries[a].status == Probing
      then ProbeAt(s.(entries := s.entries[a := s.entries[a].(status := Healthy)]), p, Finished)
      else ProbeAt(s, p, Finished)
    case Finished => s
  }

  function Apply(s: Registry, step: Step): Registry
    requires Enabled(s, step)
  {
    match step
    case Begin(t, op) => Begun(s, t, op)
    case Go(t, task) => Went(s, t, task)
    case ProbeGo(p, connects) => ProbeWent(s, p, connects)
  }

  predicate Runs(s: Registry, steps: seq<Step>)
    decreases |steps|
  {
    steps == [] || (Enabled(s, steps[0]) && Runs(Apply(s, steps[0]), steps[1..]))
  }

  function End(s: Registry, steps: seq<Step>): Registry
    requires Runs(s, steps)
    decreases |steps|
  {
    if steps == [] then s else End(Apply(s, steps[0]), steps[1..])
  }

  /** What a request asking about `a` is told. */
  predicate IsHealthy(s: Registry, a: Addr) {
    !s.tracked || a !in s.entries || s.entries[a].status == Healthy
  }
}
