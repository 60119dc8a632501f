/**
 Who probes an ejected backend in src/proxy/health.rs: one caller per ejection,
 and exactly when an address has more than one running probe, or an ejected one
 has none.
 */
module HealthRecovery {
  import opened Options
  import opened HealthMachine
  import opened HealthFlag
  import opened HealthProbes

  // ----- every running probe is in its entry's slot, or on its way there -----

  ghost predicate SpawnedOk(s: Registry) {
    forall t :: t in s.threads && s.threads[t].Spawned? ==>
      var p := s.threads[t].p;
      p in s.probes && s.probes[p].a == s.threads[t].a && !s.probes[p].aborted
  }

  ghost predicate SpawnedApart(s: Registry) {
    && (forall t, u :: t in s.threads && u in s.threads && t != u && s.threads[t].Spawned? && s.threads[u].Spawned? ==>
          s.threads[t].p != s.threads[u].p)
    && (forall t, a :: t in s.threads && s.threads[t].Spawned? && a in s.entries ==>
          s.entries[a].slot != Some(s.threads[t].p))
  }

  ghost predicate SlotOk(s: Registry) {
    forall a :: a in s.entries && s.entries[a].slot.Some? ==>
      var p := s.entries[a].slot.value;
      p in s.probes && s.probes[p].a == a && !s.probes[p].aborted
  }

  ghost predicate Registering(s: Registry, t: Tid, p: ProbeId) {
    t in s.threads && s.threads[t].Spawned? && s.threads[t].p == p
  }

  ghost predicate InSlot(s: Registry, p: ProbeId)
    requires p in s.probes
  {
    s.probes[p].a in s.entries && s.entries[s.probes[p].a].slot == Some(p)
  }

  /** Not told to stop, and not at its end. */
  ghost predicate Running(s: Registry, p: ProbeId) {
    p in s.probes && !s.probes[p].aborted && !s.probes[p].at.Finished?
  }

  ghost predicate Accounted(s: Registry) {
    forall p :: Running(s, p) ==> InSlot(s, p) || exists t :: Registering(s, t, p)
  }

  ghost predicate OwnInv(s: Registry) {
    SpawnedOk(s) && SpawnedApart(s) && SlotOk(s) && Accounted(s)
  }

  ghost predicate SlotsStay(s: Registry, s': Registry) {
    && s'.entries.Keys >= s.entries.Keys
    && (forall a :: a in s.entries ==> s'.entries[a].slot == s.entries[a].slot)
    && (forall a :: a in s'.entries && a !in s.entries ==> s'.entries[a].slot.None?)
  }

  /** A step that neither spawns nor registers nor drops anything. */
  lemma OwnFrame(s: Registry, s': Registry, t: Tid)
    requires OwnInv(s) && OthersStay(s.threads, s'.threads, t)
    requires SlotsStay(s, s') && s'.probes == s.probes
    requires t in s.threads ==> !s.threads[t].Spawned?
    requires t in s'.threads ==> !s'.threads[t].Spawned?
    ensures OwnInv(s')
  {
    assert SpawnedOk(s');
    assert SpawnedApart(s');
    assert SlotOk(s');
    forall p | Running(s', p)
      ensures InSlot(s', p) || exists u :: Registering(s', u, p)
    {
      assert Running(s, p);
      if !InSlot(s, p) {
        var u :| Registering(s, u, p);
        assert Registering(s', u, p);
      }
    }
  }

  lemma SpawnOwns(s: Registry, t: Tid, a: Addr, task: ProbeId)
    requires OwnInv(s) && t in s.threads && s.threads[t] == Won(a) && task !in s.probes
    ensures OwnInv(At(s.(probes := s.probes[task := Probe(a, Asleep(true), false)]), t, Spawned(a, task)))
  {
    var s' := At(s.(probes := s.probes[task := Probe(a, Asleep(true), false)]), t, Spawned(a, task));
    assert SpawnedOk(s');
    assert SpawnedApart(s');
    assert SlotOk(s');
    forall p | Running(s', p)
      ensures InSlot(s', p) || exists u :: Registering(s', u, p)
    {
      if p == task {
        assert Registering(s', t, p);
      } else {
        assert Running(s, p);
        if !InSlot(s, p) {
          var u :| Registering(s, u, p);
          assert Registering(s', u, p);
        }
      }
    }
  }

  lemma RegisterOwns(s: Registry, t: Tid, a: Addr, p: ProbeId)
    requires OwnInv(s) && t in s.threads && s.threads[t] == Spawned(a, p) && a in s.entries && p in s.probes
    ensures OwnInv(Left(Registered(s, a, p), t))
  {
    var s' := Left(Registered(s, a, p), t);
    assert SpawnedOk(s');
    assert SpawnedApart(s');
    assert SlotOk(s');
    forall q | Running(s', q)
      ensures InSlot(s', q) || exists u :: Registering(s', u, q)
    {
      if q != p {
        assert Running(s, q);
        if !InSlot(s, q) {
          var u :| Registering(s, u, q);
          assert Registering(s', u, q);
        }
      }
    }
  }

  lemma DiscardOwns(s: Registry, t: Tid, a: Addr, p: ProbeId)
    requires OwnInv(s) && t in s.threads && s.threads[t] == Spawned(a, p) && a !in s.entries && p in s.probes
    ensures OwnInv(Left(s.(probes := s.probes[p := s.probes[p].(aborted := true)]), t))
  {
    var s' := Left(s.(probes := s.probes[p := s.probes[p].(aborted := true)]), t);
    assert SpawnedOk(s');
    assert SpawnedApart(s');
    assert SlotOk(s');
    forall q | Running(s', q)
      ensures InSlot(s', q) || exists u :: Registering(s', u, q)
    {
      assert Running(s, q);
      if !InSlot(s, q) {
        var u :| Registering(s, u, q);
        assert Registering(s', u, q);
      }
    }
  }

  lemma FilterOwns(s: Registry, t: Tid, routed: set<Addr>, i: nat, pc: Pc)
    requires OwnInv(s) && s.shards > 0 && t in s.threads && s.threads[t].PruneFilter? && !pc.Spawned?
    ensures OwnInv(At(Filtered(s, routed, i), t, pc))
  {
    var s' := At(Filtered(s, routed, i), t, pc);
    hide ShardOf, Departs;
    assert SpawnedOk(s');
    assert SpawnedApart(s');
    assert SlotOk(s');
    forall p | Running(s', p)
      ensures InSlot(s', p) || exists u :: Registering(s', u, p)
    {
      assert Running(s, p);
      if !InSlot(s, p) {
        var u :| Registering(s, u, p);
        assert Registering(s', u, p);
      }
    }
  }

  /** The steps that touch no probe and no slot. */
  lemma GoQuiet(s: Registry, t: Tid, task: ProbeId)
    requires Enabled(s, Go(t, task))
    requires var pc := s.threads[t]; !pc.Won? && !pc.Spawned? && !pc.PruneFilter?
    ensures var s' := Went(s, t, task);
            SlotsStay(s, s') && s'.probes == s.probes && (t in s'.threads ==> !s'.threads[t].Spawned?)
  {
    hide ShardOf, NoWriter, NoReader, ShardUsed, Filtered, Registered, OthersStay;
  }

  lemma WinnerOwns(s: Registry, t: Tid, task: ProbeId)
    requires OwnInv(s) && Enabled(s, Go(t, task)) && (s.threads[t].Won? || s.threads[t].Spawned?)
    ensures OwnInv(Went(s, t, task))
  {
    var pc := s.threads[t];
    assert pc.Spawned? ==> pc.p in s.probes;
    hide NoWriter, NoReader, OwnInv, Registered, OthersStay;
    if pc.Won? {
      SpawnOwns(s, t, pc.a, task);
    } else if pc.a in s.entries {
      RegisterOwns(s, t, pc.a, pc.p);
    } else {
      DiscardOwns(s, t, pc.a, pc.p);
    }
  }

  lemma PruneOwns(s: Registry, t: Tid, task: ProbeId)
    requires OwnInv(s) && Enabled(s, Go(t, task)) && s.threads[t].PruneFilter?
    ensures OwnInv(Went(s, t, task))
  {
    hide OwnInv, NoWriter, NoReader, Filtered, OthersStay;
    var pc := s.threads[t];
    FilterOwns(s, t, pc.routed, pc.i,
               if pc.i + 1 < s.shards then PruneFilter(pc.routed, pc.i + 1) else PruneCount(0, false));
  }

  lemma GoOwns(s: Registry, t: Tid, task: ProbeId)
    requires OwnInv(s) && Enabled(s, Go(t, task))
    ensures OwnInv(Went(s, t, task))
  {
    var pc := s.threads[t];
    if pc.Won? || pc.Spawned? {
      hide Went, OwnInv, NoWriter, NoReader;
      WinnerOwns(s, t, task);
    } else if pc.PruneFilter? {
      hide Went, OwnInv, NoWriter, NoReader;
      PruneOwns(s, t, task);
    } else {
      hide Went, OwnInv, NoWriter, NoReader;
      QuietOwns(s, t, task);
    }
  }

  lemma QuietOwns(s: Registry, t: Tid, task: ProbeId)
    requires OwnInv(s) && Enabled(s, Go(t, task))
    requires var pc := s.threads[t]; !pc.Won? && !pc.Spawned? && !pc.PruneFilter?
    ensures OwnInv(Went(s, t, task))
  {
    GoQuiet(s, t, task);
    hide Went, OwnInv, NoWriter, NoReader;
    OwnFrame(s, Went(s, t, task), t);
  }

  lemma BeginOwns(s: Registry, t: Tid, op: Op)
    requires OwnInv(s) && Enabled(s, Begin(t, op))
    ensures OwnInv(Begun(s, t, op))
  {
    hide NoWriter, NoReader, SpawnedOk, SpawnedApart, SlotOk, Accounted;
    if Begun(s, t, op) != s {
      OwnFrame(s, Begun(s, t, op), t);
    }
  }

  lemma ProbeOwns(s: Registry, p: ProbeId, connects: bool)
    requires OwnInv(s) && Enabled(s, ProbeGo(p, connects))
    ensures OwnInv(ProbeWent(s, p, connects))
  {
    var s' := ProbeWent(s, p, connects);
    ProbeFrame(s, p, connects);
    assert !s.probes[p].at.Finished?;
    hide ProbeWent, Enabled, ProbeReads, NoWriter, ShardOf;
    assert SpawnedOk(s');
    assert SpawnedApart(s');
    assert SlotOk(s');
    forall q | Running(s', q)
      ensures InSlot(s', q) || exists u :: Registering(s', u, q)
    {
      assert Running(s, q);
      if !InSlot(s, q) {
        var u :| Registering(s, u, q);
        assert Registering(s', u, q);
      }
    }
  }

  lemma StepOwns(s: Registry, step: Step)
    requires OwnInv(s) && Enabled(s, step)
    ensures OwnInv(Apply(s, step))
  {
    hide OwnInv, Begun, Went, ProbeWent;
    match step
    case Begin(t, op) => BeginOwns(s, t, op);
    case Go(t, task) => GoOwns(s, t, task);
    case ProbeGo(p, connects) => ProbeOwns(s, p, connects);
  }

  // ----- an ejected backend is never left alone -----

  ghost predicate Probed(s: Registry, a: Addr) {
    a in s.entries && s.entries[a].status == Probing
  }

  /** The thread won this ejection's probe and has yet to register it. */
  ghost predicate Attends(s: Registry, t: Tid, a: Addr) {
    t in s.threads && (s.threads[t] == Won(a) || (s.threads[t].Spawned? && s.threads[t].a == a))
  }

  ghost predicate LiveSlot(s: Registry, a: Addr) {
    a in s.entries && s.entries[a].slot.Some? && Running(s, s.entries[a].slot.value)
  }

  ghost predicate AttendedAt(s: Registry, a: Addr) {
    Probed(s, a) ==> LiveSlot(s, a) || exists t :: Attends(s, t, a)
  }

  ghost predicate AllAttended(s: Registry) {
    forall a :: a in s.entries ==> AttendedAt(s, a)
  }

  /** A winner registers a probe already at its end for an ejected backend nobody else attends. */
  ghost predicate Strands(s: Registry, step: Step) {
    && step.Go? && step.t in s.threads && s.threads[step.t].Spawned?
    && s.threads[step.t].p in s.probes && s.probes[s.threads[step.t].p].at.Finished?
    && Probed(s, s.threads[step.t].a)
    && forall u :: u != step.t ==> !Attends(s, u, s.threads[step.t].a)
  }

  /** Slots stay, no probe stops: whoever attended `a` before `t` moved still does. */
  lemma AttendedFrame(s: Registry, s': Registry, t: Tid, a: Addr)
    requires AttendedAt(s, a) && a in s.entries && s.entries[a].status == Probing && a in s'.entries
    requires OthersStay(s.threads, s'.threads, t) && !Attends(s, t, a)
    requires s'.entries[a].slot == s.entries[a].slot
    requires LiveSlot(s, a) ==> Running(s', s.entries[a].slot.value)
    ensures AttendedAt(s', a)
  {
    if !LiveSlot(s, a) {
      var u :| Attends(s, u, a);
      assert Attends(s', u, a);
    }
  }

  /** The registration itself: the backend is unattended after it exactly when it strands it. */
  lemma RegistrationStrandsIff(s: Registry, t: Tid, task: ProbeId)
    requires OwnInv(s) && Enabled(s, Go(t, task)) && s.threads[t].Spawned?
    ensures AttendedAt(Went(s, t, task), s.threads[t].a) <==> !Strands(s, Go(t, task))
  {
    var s' := Went(s, t, task);
    var Spawned(a, p) := s.threads[t];
    hide NoWriter, NoReader, ShardOf;
    assert OthersStay(s.threads, s'.threads, t) && t !in s'.threads;
    assert forall u :: Attends(s', u, a) <==> u != t && Attends(s, u, a);
    assert Probed(s', a) <==> Probed(s, a);
    if a in s.entries {
      assert s'.entries[a].slot == Some(p) && !s.probes[p].aborted;
      assert s'.probes[p].at == s.probes[p].at;
      assert LiveSlot(s', a) <==> !s.probes[p].at.Finished?;
    }
    hide Went, OthersStay;
  }

  lemma GoAttends(s: Registry, t: Tid, task: ProbeId, a: Addr)
    requires OwnInv(s) && AllAttended(s) && Enabled(s, Go(t, task)) && a in s.entries && !Strands(s, Go(t, task))
    ensures AttendedAt(Went(s, t, task), a)
  {
    var s' := Went(s, t, task);
    var pc := s.threads[t];
    if pc.Spawned? && pc.a == a {
      hide Went, Enabled, Strands;
      RegistrationStrandsIff(s, t, task);
    } else if Probed(s', a) {
      hide NoWriter, NoReader, ShardOf, ShardUsed;
      if pc == Won(a) {
        assert Attends(s', t, a);
      } else if pc.Won? || pc.Spawned? || pc.PruneFilter? {
        hide Departs;
        AttendedFrame(s, s', t, a);
      } else {
        QuietAttends(s, t, task, a);
      }
    }
  }

  lemma QuietAttends(s: Registry, t: Tid, task: ProbeId, a: Addr)
    requires AllAttended(s) && Enabled(s, Go(t, task)) && a in s.entries
    requires var pc := s.threads[t]; !pc.Won? && !pc.Spawned? && !pc.PruneFilter?
    ensures AttendedAt(Went(s, t, task), a)
  {
    var s' := Went(s, t, task);
    GoQuiet(s, t, task);
    GoEntry(s, t, task, a);
    hide NoWriter, NoReader;
    if s.threads[t] == FailCount(a) && s.entries[a].status != Probing {
      assert Probed(s', a) ==> Attends(s', t, a);
    } else if s.entries[a].status == Probing {
      hide Went;
      AttendedFrame(s, s', t, a);
    }
  }

  lemma ProbeAttends(s: Registry, p: ProbeId, connects: bool, a: Addr)
    requires OwnInv(s) && AllAttended(s) && Enabled(s, ProbeGo(p, connects)) && a in s.entries
    ensures AttendedAt(ProbeWent(s, p, connects), a)
  {
    hide NoWriter;
    var s' := ProbeWent(s, p, connects);
    if s'.entries[a].status == Probing {
      assert AttendedAt(s, a);
      if !LiveSlot(s, a) {
        var u :| Attends(s, u, a);
        assert Attends(s', u, a);
      }
    }
  }

  lemma BeginAttends(s: Registry, t: Tid, op: Op)
    requires AllAttended(s) && Enabled(s, Begin(t, op))
    ensures AllAttended(Begun(s, t, op))
  {
    hide NoWriter, NoReader, ShardOf;
    var s' := Begun(s, t, op);
    forall a | a in s'.entries
      ensures AttendedAt(s', a)
    {
      if a in s.entries && s.entries[a].status == Probing {
        AttendedFrame(s, s', t, a);
      }
    }
  }

  lemma ProbeAddsNothing(s: Registry, p: ProbeId, connects: bool)
    requires p in s.probes
    ensures ProbeWent(s, p, connects).entries.Keys == s.entries.Keys
  {}

  /** One step leaves every ejected backend attended if and only if it strands none. */
  lemma StepAttendsIff(s: Registry, step: Step)
    requires OwnInv(s) && AllAttended(s) && Enabled(s, step)
    ensures AllAttended(Apply(s, step)) <==> !Strands(s, step)
  {
    hide OwnInv, AttendedAt, Begun, Went, ProbeWent;
    match step
    case Begin(t, op) => BeginAttends(s, t, op);
    case Go(t, task) => GoAttendsIff(s, t, task);
    case ProbeGo(p, connects) =>
      ProbeAddsNothing(s, p, connects);
      forall a | a in Apply(s, step).entries
        ensures AttendedAt(Apply(s, step), a)
      {
        ProbeAttends(s, p, connects, a);
      }
  }

  lemma GoAttendsIff(s: Registry, t: Tid, task: ProbeId)
    requires OwnInv(s) && AllAttended(s) && Enabled(s, Go(t, task))
    ensures AllAttended(Went(s, t, task)) <==> !Strands(s, Go(t, task))
  {
    var s' := Went(s, t, task);
    if Strands(s, Go(t, task)) {
      RegistrationStrandsIff(s, t, task);
      assert s.threads[t].a in s'.entries;
    } else {
      GoAddsNothing(s, t, task);
      hide OwnInv, AttendedAt, Went, Enabled, Strands;
      forall a | a in s'.entries
        ensures AttendedAt(s', a)
      {
        GoAttends(s, t, task, a);
      }
    }
  }

  // ----- a first check after registration strands nothing -----

  /** A probe makes its first check only after its spawner has registered it. */
  ghost predicate Timely(s: Registry, step: Step) {
    step.ProbeGo? && step.p in s.probes && s.probes[step.p].at == Asleep(true) ==>
      forall t :: !Registering(s, t, step.p)
  }

  ghost predicate NotYetChecked(s: Registry) {
    forall t :: t in s.threads && s.threads[t].Spawned? && s.threads[t].p in s.probes ==>
      s.probes[s.threads[t].p].at == Asleep(true)
  }

  lemma GoNotYetChecked(s: Registry, t: Tid, task: ProbeId)
    requires OwnInv(s) && NotYetChecked(s) && Enabled(s, Go(t, task))
    ensures NotYetChecked(Went(s, t, task))
  {
    hide NoWriter, NoReader, ShardOf, ShardUsed, Filtered, Registered, SlotOk, Accounted, SpawnedApart;
    var pc := s.threads[t];
    if !pc.Won? && !pc.Spawned? && !pc.PruneFilter? {
      GoQuiet(s, t, task);
      hide Went;
    }
  }

  lemma ProbeNotYetChecked(s: Registry, p: ProbeId, connects: bool)
    requires NotYetChecked(s) && Enabled(s, ProbeGo(p, connects)) && Timely(s, ProbeGo(p, connects))
    ensures NotYetChecked(ProbeWent(s, p, connects))
  {
    hide NoWriter;
    var s' := ProbeWent(s, p, connects);
    assert s'.threads == s.threads;
    forall t | t in s'.threads && s'.threads[t].Spawned? && s'.threads[t].p in s'.probes
      ensures s'.probes[s'.threads[t].p].at == Asleep(true)
    {
      assert Registering(s, t, s.threads[t].p);
    }
  }

  lemma BeginNotYetChecked(s: Registry, t: Tid, op: Op)
    requires NotYetChecked(s) && Enabled(s, Begin(t, op))
    ensures NotYetChecked(Begun(s, t, op))
  {
    hide NoWriter, NoReader, ShardOf;
  }

  lemma StepTimely(s: Registry, step: Step)
    requires OwnInv(s) && NotYetChecked(s) && Enabled(s, step) && Timely(s, step)
    ensures NotYetChecked(Apply(s, step)) && !Strands(s, step)
  {
    assert !Strands(s, step);
    hide OwnInv, NotYetChecked, Begun, Went, ProbeWent, Strands;
    match step
    case Begin(t, op) => BeginNotYetChecked(s, t, op);
    case Go(t, task) => GoNotYetChecked(s, t, task);
    case ProbeGo(p, connects) => ProbeNotYetChecked(s, p, connects);
  }

  // ----- over whole runs -----

  ghost predicate SafeInv(s: Registry) {
    GuardInv(s) && ShapeInv(s) && OwnInv(s)
  }

  lemma StepSafe(s: Registry, step: Step)
    requires SafeInv(s) && Enabled(s, step)
    ensures SafeInv(Apply(s, step))
  {
    hide Apply, GuardInv, ShapeInv, OwnInv;
    StepKeepsGuards(s, step);
    StepKeepsShape(s, step);
    StepOwns(s, step);
  }

  lemma {:induction false} RunSafe(s: Registry, steps: seq<Step>)
    requires SafeInv(s) && Runs(s, steps)
    ensures SafeInv(End(s, steps))
    decreases |steps|
  {
    hide Apply, Enabled, GuardInv, ShapeInv, OwnInv;
    if steps != [] {
      StepSafe(s, steps[0]);
      RunSafe(Apply(s, steps[0]), steps[1..]);
    }
  }

  /** Every ejected backend is attended in every state of the run. */
  ghost predicate AlwaysAttended(s: Registry, steps: seq<Step>)
    requires Runs(s, steps)
    decreases |steps|
  {
    AllAttended(s) && (steps == [] || AlwaysAttended(Apply(s, steps[0]), steps[1..]))
  }

  ghost predicate NeverStrands(s: Registry, steps: seq<Step>)
    requires Runs(s, steps)
    decreases |steps|
  {
    steps == [] || (!Strands(s, steps[0]) && NeverStrands(Apply(s, steps[0]), steps[1..]))
  }

  ghost predicate AllTimely(s: Registry, steps: seq<Step>)
    requires Runs(s, steps)
    decreases |steps|
  {
    steps == [] || (Timely(s, steps[0]) && AllTimely(Apply(s, steps[0]), steps[1..]))
  }

  lemma {:induction false} RunAttendsIff(s: Registry, steps: seq<Step>)
    requires SafeInv(s) && AllAttended(s) && Runs(s, steps)
    ensures AlwaysAttended(s, steps) <==> NeverStrands(s, steps)
    ensures AlwaysAttended(s, steps) ==> AllAttended(End(s, steps))
    decreases |steps|
  {
    hide Apply, Enabled, GuardInv, ShapeInv, OwnInv, AllAttended, Strands;
    if steps != [] {
      StepSafe(s, steps[0]);
      StepAttendsIff(s, steps[0]);
      if AllAttended(Apply(s, steps[0])) {
        RunAttendsIff(Apply(s, steps[0]), steps[1..]);
      }
    }
  }

  lemma {:induction false} TimelyNeverStrands(s: Registry, steps: seq<Step>)
    requires SafeInv(s) && NotYetChecked(s) && Runs(s, steps) && AllTimely(s, steps)
    ensures NeverStrands(s, steps)
    decreases |steps|
  {
    hide Apply, Enabled, GuardInv, ShapeInv, OwnInv, NotYetChecked, Strands, Timely;
    if steps != [] {
      StepSafe(s, steps[0]);
      StepTimely(s, steps[0]);
      TimelyNeverStrands(Apply(s, steps[0]), steps[1..]);
    }
  }

  lemma NewIsSafe(shards: nat)
    requires shards > 0
    ensures SafeInv(NewRegistry(shards)) && AllAttended(NewRegistry(shards)) && NotYetChecked(NewRegistry(shards))
  {}

  ghost predicate Unguarded(s: Registry, a: Addr) {
    && (forall t :: t in s.threads ==> WriteGuard(s.threads[t]) != Some(a) && ReadGuard(s.threads[t]) != Some(a))
    && (forall p :: p in s.probes && s.probes[p].a == a ==> !ProbeReads(s.probes[p]))
  }

  /**
   In every run, an entry nobody is inside is healthy with fewer than three
   failures, or being probed after at least three; there is no third state.
   */
  lemma EntriesAreHealthyOrProbed(shards: nat, steps: seq<Step>, a: Addr)
    requires shards > 0 && Runs(NewRegistry(shards), steps)
    requires a in End(NewRegistry(shards), steps).entries && Unguarded(End(NewRegistry(shards), steps), a)
    ensures var e := End(NewRegistry(shards), steps).entries[a];
            || (e.status == Healthy && e.failures < FAILURE_THRESHOLD)
            || (e.status == Probing && e.failures >= FAILURE_THRESHOLD)
  {
    NewIsSafe(shards);
    RunSafe(NewRegistry(shards), steps);
    var s := End(NewRegistry(shards), steps);
    hide Runs, End, GuardInv, OwnInv;
    assert ShapeAt(s, a);
    assert !Heals(s, a);
  }

  /** In every run, an address has at most one running probe past its registration. */
  lemma OneProbePerAddress(shards: nat, steps: seq<Step>, p: ProbeId, q: ProbeId)
    requires shards > 0 && Runs(NewRegistry(shards), steps)
    requires var s := End(NewRegistry(shards), steps);
             && Running(s, p) && Running(s, q) && s.probes[p].a == s.probes[q].a
             && forall t :: !Registering(s, t, p) && !Registering(s, t, q)
    ensures p == q
  {
    NewIsSafe(shards);
    RunSafe(NewRegistry(shards), steps);
    hide Runs, End, GuardInv, ShapeInv;
  }

  ghost predicate RunningAt(s: Registry, p: ProbeId, a: Addr) {
    Running(s, p) && s.probes[p].a == a
  }

  /** The thread has spawned a probe of `a`, still running, and not registered it yet. */
  ghost predicate Carries(s: Registry, t: Tid, a: Addr) {
    t in s.threads && s.threads[t].Spawned? && RunningAt(s, s.threads[t].p, a)
  }

  ghost predicate OneRuns(s: Registry, a: Addr) {
    forall p, q :: RunningAt(s, p, a) && RunningAt(s, q, a) ==> p == q
  }

  /** Nobody carries a probe of `a` beside another, in a second hand or in the slot. */
  ghost predicate NoneBeside(s: Registry, a: Addr) {
    && (forall t, u :: Carries(s, t, a) && Carries(s, u, a) ==> t == u)
    && (LiveSlot(s, a) ==> forall t :: !Carries(s, t, a))
  }

  lemma OneRunsIff(s: Registry, a: Addr)
    requires OwnInv(s)
    ensures OneRuns(s, a) <==> NoneBeside(s, a)
  {
    if OneRuns(s, a) && LiveSlot(s, a) {
      assert RunningAt(s, s.entries[a].slot.value, a);
    }
    if NoneBeside(s, a) {
      forall p, q | RunningAt(s, p, a) && RunningAt(s, q, a)
        ensures p == q
      {
        HeldSomewhere(s, p, a);
        HeldSomewhere(s, q, a);
      }
    }
  }

  lemma HeldSomewhere(s: Registry, p: ProbeId, a: Addr)
    requires OwnInv(s) && RunningAt(s, p, a)
    ensures (LiveSlot(s, a) && s.entries[a].slot == Some(p)) || exists t :: Carries(s, t, a) && s.threads[t].p == p
  {
    if !InSlot(s, p) {
      var t :| Registering(s, t, p);
      assert Carries(s, t, a);
    }
  }

  /**
   In every run, at most one un-aborted probe of an address runs if and only if no
   caller holds one it has spawned and not registered beside another caller's or
   beside one running in the slot.
   */
  lemma OneProbePerAddressIff(shards: nat, steps: seq<Step>, a: Addr)
    requires shards > 0 && Runs(NewRegistry(shards), steps)
    ensures var s := End(NewRegistry(shards), steps); OneRuns(s, a) <==> NoneBeside(s, a)
  {
    NewIsSafe(shards);
    RunSafe(NewRegistry(shards), steps);
    hide Runs, End, GuardInv, ShapeInv, OneRuns, NoneBeside, OwnInv;
    OneRunsIff(End(NewRegistry(shards), steps), a);
  }

  /**
   A run has every ejected backend attended all along, by a running probe in its
   slot or a winner about to register one, if and only if no step of it registers
   a probe already at its end for an ejected backend nobody else attends.
   */
  lemma AttendedIffNeverStranded(shards: nat, steps: seq<Step>)
    requires shards > 0 && Runs(NewRegistry(shards), steps)
    ensures AlwaysAttended(NewRegistry(shards), steps) <==> NeverStrands(NewRegistry(shards), steps)
  {
    NewIsSafe(shards);
    RunAttendsIff(NewRegistry(shards), steps);
  }

  /** So it has where every probe makes its first check after its registration. */
  lemma EjectedIsAttended(shards: nat, steps: seq<Step>, a: Addr)
    requires shards > 0 && Runs(NewRegistry(shards), steps) && AllTimely(NewRegistry(shards), steps)
    ensures AlwaysAttended(NewRegistry(shards), steps)
    ensures var s := End(NewRegistry(shards), steps); Probed(s, a) ==> LiveSlot(s, a) || exists t :: Attends(s, t, a)
  {
    NewIsSafe(shards);
    TimelyNeverStrands(NewRegistry(shards), steps);
    RunAttendsIff(NewRegistry(shards), steps);
    hide Runs, End;
    assert Probed(End(NewRegistry(shards), steps), a) ==> AttendedAt(End(NewRegistry(shards), steps), a);
  }

  // ----- one winner per ejection -----

  ghost predicate Ejects(s: Registry, step: Step, a: Addr)
    requires Enabled(s, step)
  {
    !Probed(s, a) && Probed(Apply(s, step), a)
  }

  /** The step ends a record_failure that answers its caller "spawn a probe". */
  ghost predicate Wins(s: Registry, step: Step, a: Addr)
    requires Enabled(s, step)
  {
    step.Go? && s.threads[step.t] == FailCount(a) && Attends(Apply(s, step), step.t, a)
  }

  lemma GoEjects(s: Registry, t: Tid, task: ProbeId, a: Addr)
    requires SafeInv(s) && Enabled(s, Go(t, task))
    ensures Ejects(s, Go(t, task), a) <==> Wins(s, Go(t, task), a)
  {
    hide NoWriter, NoReader, ShardOf, OwnInv;
    GoAddsNothing(s, t, task);
    var pc := s.threads[t];
    if a in s.entries {
      assert ShapeAt(s, a);
      GoEntry(s, t, task, a);
      if pc != FailCount(a) {
        hide Went;
      } else {
        hide SuccessWent, PruneWent;
      }
    } else {
      assert pc != FailCount(a);
      hide Went;
    }
  }

  lemma ProbeEjectsNot(s: Registry, p: ProbeId, connects: bool, a: Addr)
    requires Enabled(s, ProbeGo(p, connects))
    ensures Probed(ProbeWent(s, p, connects), a) ==> Probed(s, a)
  {
    hide NoWriter, ShardOf;
  }

  lemma BeginEjectsNot(s: Registry, t: Tid, op: Op, a: Addr)
    requires Enabled(s, Begin(t, op))
    ensures Probed(Begun(s, t, op), a) ==> Probed(s, a)
  {
    hide NoWriter, NoReader, ShardOf;
  }

  lemma EjectionIsWon(s: Registry, step: Step, a: Addr)
    requires SafeInv(s) && Enabled(s, step)
    ensures Ejects(s, step, a) <==> Wins(s, step, a)
  {
    match step
    case Begin(t, op) =>
      BeginEjectsNot(s, t, op, a);
      hide SafeInv, Enabled, Begun;
    case ProbeGo(p, connects) =>
      ProbeEjectsNot(s, p, connects, a);
      hide SafeInv, Enabled, ProbeWent;
    case Go(t, task) =>
      hide SafeInv, Enabled, Went, Ejects, Wins;
      GoEjects(s, t, task, a);
  }

  ghost function Ejections(s: Registry, steps: seq<Step>, a: Addr): nat
    requires Runs(s, steps)
    decreases |steps|
  {
    if steps == [] then 0
    else (if Ejects(s, steps[0], a) then 1 else 0) + Ejections(Apply(s, steps[0]), steps[1..], a)
  }

  ghost function Winners(s: Registry, steps: seq<Step>, a: Addr): nat
    requires Runs(s, steps)
    decreases |steps|
  {
    if steps == [] then 0
    else (if Wins(s, steps[0], a) then 1 else 0) + Winners(Apply(s, steps[0]), steps[1..], a)
  }

  /** Over every run, as many callers are told to probe `a` as times `a` was ejected. */
  lemma {:induction false} OneWinnerPerEjection(s: Registry, steps: seq<Step>, a: Addr)
    requires SafeInv(s) && Runs(s, steps)
    ensures Ejections(s, steps, a) == Winners(s, steps, a)
    decreases |steps|
  {
    hide Apply, Enabled, SafeInv, Ejects, Wins;
    if steps != [] {
      EjectionIsWon(s, steps[0], a);
      StepSafe(s, steps[0]);
      OneWinnerPerEjection(Apply(s, steps[0]), steps[1..], a);
    }
  }
}
