/**
 Ejection and recovery in src/proxy/health.rs, over every interleaving: the guards
 on an entry, and what an entry can look like.
 */
module HealthProbes {
  import opened Options
  import opened HealthMachine
  import opened HealthFlag

  // ----- guards keep what they guard -----

  ghost predicate ThreadGuards(s: Registry) {
    forall t :: t in s.threads ==>
      && (WriteGuard(s.threads[t]).Some? ==> WriteGuard(s.threads[t]).value in s.entries)
      && (ReadGuard(s.threads[t]).Some? ==> ReadGuard(s.threads[t]).value in s.entries)
  }

  ghost predicate ProbeGuards(s: Registry) {
    forall p :: p in s.probes && ProbeReads(s.probes[p]) ==> s.probes[p].a in s.entries
  }

  /** Whoever writes an entry is alone with it. */
  ghost predicate WriterAlone(s: Registry) {
    && (forall t, u :: t in s.threads && u in s.threads && t != u && WriteGuard(s.threads[t]).Some? ==>
          && WriteGuard(s.threads[u]) != WriteGuard(s.threads[t])
          && ReadGuard(s.threads[u]) != WriteGuard(s.threads[t]))
    && (forall t, p :: t in s.threads && p in s.probes && WriteGuard(s.threads[t]).Some? && ProbeReads(s.probes[p]) ==>
          s.probes[p].a != WriteGuard(s.threads[t]).value)
  }

  ghost predicate GuardInv(s: Registry) {
    s.shards > 0 && ThreadGuards(s) && ProbeGuards(s) && WriterAlone(s)
  }

  /** No probe holds a guard it did not hold before. */
  ghost predicate ProbeGuardsShrink(s: Registry, s': Registry) {
    forall p :: p in s'.probes && ProbeReads(s'.probes[p]) ==>
      p in s.probes && ProbeReads(s.probes[p]) && s'.probes[p].a == s.probes[p].a
  }

  /** A step that takes no guard and removes no guarded entry. */
  ghost predicate Shrinks(s: Registry, s': Registry, t: Tid) {
    && s.shards > 0 && t in s.threads && s'.shards == s.shards
    && OthersStay(s.threads, s'.threads, t)
    && (t in s'.threads ==>
          && (WriteGuard(s'.threads[t]).None? || WriteGuard(s'.threads[t]) == WriteGuard(s.threads[t]))
          && (ReadGuard(s'.threads[t]).None? || ReadGuard(s'.threads[t]) == ReadGuard(s.threads[t])))
    && ProbeGuardsShrink(s, s')
    && (forall a :: a in s.entries && a !in s'.entries ==>
          NoWriter(s, ShardOf(s.shards, a)) && NoReader(s, ShardOf(s.shards, a)))
  }

  lemma ThreadGuardsShrink(s: Registry, s': Registry, t: Tid)
    requires ThreadGuards(s) && Shrinks(s, s', t)
    ensures ThreadGuards(s')
  {
    hide ShardOf, WriteGuard, ReadGuard, ProbeReads;
  }

  lemma ProbesGuardsShrink(s: Registry, s': Registry, t: Tid)
    requires ProbeGuards(s) && Shrinks(s, s', t)
    ensures ProbeGuards(s')
  {
    hide ShardOf, WriteGuard, ReadGuard, ProbeReads;
  }

  lemma WriterStaysAlone(s: Registry, s': Registry, t: Tid)
    requires s.shards > 0 && WriterAlone(s) && Shrinks(s, s', t)
    ensures WriterAlone(s')
  {
    hide ShardOf, WriteGuard, ReadGuard, ProbeReads;
  }

  lemma GuardsShrink(s: Registry, s': Registry, t: Tid)
    requires GuardInv(s) && Shrinks(s, s', t)
    ensures GuardInv(s')
  {
    ThreadGuardsShrink(s, s', t);
    ProbesGuardsShrink(s, s', t);
    WriterStaysAlone(s, s', t);
    hide ThreadGuards, ProbeGuards, WriterAlone, ProbeGuardsShrink, NoWriter, NoReader, ShardOf;
  }

  lemma TakesReadGuard(s: Registry, s': Registry, t: Tid, a: Addr)
    requires GuardInv(s) && t in s.threads && t in s'.threads
    requires s' == At(s, t, s'.threads[t])
    requires WriteGuard(s'.threads[t]).None? && ReadGuard(s'.threads[t]) == Some(a)
    requires a in s.entries && NoWriter(s, ShardOf(s.shards, a))
    ensures GuardInv(s')
  {
    hide ShardOf, WriteGuard, ReadGuard, ProbeReads;
    assert ThreadGuards(s');
    assert ProbeGuards(s');
    assert WriterAlone(s');
  }

  lemma TakesWriteGuard(s: Registry, s': Registry, t: Tid, a: Addr)
    requires GuardInv(s) && t !in s.threads && t in s'.threads
    requires s'.shards == s.shards && s'.threads == s.threads[t := s'.threads[t]] && s'.probes == s.probes
    requires s'.entries.Keys == s.entries.Keys + {a}
    requires ReadGuard(s'.threads[t]).None? && WriteGuard(s'.threads[t]) == Some(a)
    requires NoWriter(s, ShardOf(s.shards, a)) && NoReader(s, ShardOf(s.shards, a))
    ensures GuardInv(s')
  {
    hide ShardOf, WriteGuard, ReadGuard, ProbeReads;
    assert ThreadGuards(s');
    assert ProbeGuards(s');
    assert WriterAlone(s');
  }

  lemma TakesNoGuard(s: Registry, t: Tid, pc: Pc)
    requires GuardInv(s) && t !in s.threads && WriteGuard(pc).None? && ReadGuard(pc).None?
    ensures GuardInv(At(s, t, pc))
  {
    hide WriteGuard, ReadGuard, ProbeReads;
    var s' := At(s, t, pc);
    assert ThreadGuards(s');
    assert ProbeGuards(s');
    assert WriterAlone(s');
  }

  lemma BeginKeepsGuards(s: Registry, t: Tid, op: Op)
    requires GuardInv(s) && Enabled(s, Begin(t, op))
    ensures GuardInv(Begun(s, t, op))
  {
    hide GuardInv, NoWriter, NoReader;
    match op
    case Failure(a) => TakesWriteGuard(s, Begun(s, t, op), t, a);
    case Success(a) => TakesNoGuard(s, t, SuccFind(a));
    case Prune(routed) => TakesNoGuard(s, t, PruneFilter(routed, 0));
  }

  lemma GoThreadShape(s: Registry, t: Tid, task: ProbeId)
    requires Enabled(s, Go(t, task)) && !s.threads[t].SuccFind?
    ensures var s' := Went(s, t, task);
            t in s'.threads ==>
              && (WriteGuard(s'.threads[t]).None? || WriteGuard(s'.threads[t]) == WriteGuard(s.threads[t]))
              && (ReadGuard(s'.threads[t]).None? || ReadGuard(s'.threads[t]) == ReadGuard(s.threads[t]))
  {
    hide ShardOf, NoWriter, NoReader, CountFailure, ShardUsed, Filtered, Registered, OthersStay;
  }

  lemma GoProbeShape(s: Registry, t: Tid, task: ProbeId)
    requires Enabled(s, Go(t, task))
    ensures ProbeGuardsShrink(s, Went(s, t, task))
  {
    hide ShardOf, NoWriter, NoReader, CountFailure, ShardUsed, Filtered, Registered, OthersStay;
  }

  lemma GoEntryShape(s: Registry, t: Tid, task: ProbeId)
    requires Enabled(s, Go(t, task))
    ensures forall a :: a in s.entries && a !in Went(s, t, task).entries ==>
              NoWriter(s, ShardOf(s.shards, a)) && NoReader(s, ShardOf(s.shards, a))
  {
    hide ShardOf, NoWriter, NoReader, CountFailure, ShardUsed, OthersStay;
  }

  lemma GoKeepsGuards(s: Registry, t: Tid, task: ProbeId)
    requires GuardInv(s) && Enabled(s, Go(t, task))
    ensures GuardInv(Went(s, t, task))
  {
    var s' := Went(s, t, task);
    var pc := s.threads[t];
    if pc.SuccFind? && pc.a in s.entries {
      TakesReadGuard(s, s', t, pc.a);
    } else {
      if !pc.SuccFind? {
        GoThreadShape(s, t, task);
      }
      GoProbeShape(s, t, task);
      GoEntryShape(s, t, task);
      GuardsShrink(s, s', t);
    }
  }

  /** What a step of a probe can touch: its place, and the count or status of its entry. */
  lemma ProbeFrame(s: Registry, p: ProbeId, connects: bool)
    requires Enabled(s, ProbeGo(p, connects))
    ensures var s' := ProbeWent(s, p, connects);
            && s'.shards == s.shards && s'.threads == s.threads && s'.entries.Keys == s.entries.Keys
            && (forall a :: a in s.entries ==> s'.entries[a].slot == s.entries[a].slot)
            && p in s'.probes && s'.probes == s.probes[p := s.probes[p].(at := s'.probes[p].at)]
            && (ProbeReads(s'.probes[p]) && !ProbeReads(s.probes[p]) ==>
                  s.probes[p].a in s.entries && NoWriter(s, ShardOf(s.shards, s.probes[p].a)))
  {
    hide NoWriter, ShardOf;
    assert s.probes[p := s.probes[p]] == s.probes;
  }

  lemma ProbeKeepsGuards(s: Registry, p: ProbeId, connects: bool)
    requires GuardInv(s) && Enabled(s, ProbeGo(p, connects))
    ensures GuardInv(ProbeWent(s, p, connects))
  {
    var s' := ProbeWent(s, p, connects);
    ProbeFrame(s, p, connects);
    hide ShardOf, WriteGuard, ReadGuard, ProbeReads, ProbeWent, Enabled;
    assert ThreadGuards(s');
    assert ProbeGuards(s');
    assert WriterAlone(s');
  }

  lemma StepKeepsGuards(s: Registry, step: Step)
    requires GuardInv(s) && Enabled(s, step)
    ensures GuardInv(Apply(s, step))
  {
    hide GuardInv, Begun, Went, ProbeWent;
    match step
    case Begin(t, op) => BeginKeepsGuards(s, t, op);
    case Go(t, task) => GoKeepsGuards(s, t, task);
    case ProbeGo(p, connects) => ProbeKeepsGuards(s, p, connects);
  }

  // ----- what an entry looks like -----

  ghost predicate ThreadHeals(s: Registry, t: Tid, a: Addr) {
    t in s.threads && s.threads[t] == SuccHeal(a)
  }

  ghost predicate ProbeHeals(s: Registry, p: ProbeId, a: Addr) {
    p in s.probes && s.probes[p].a == a && s.probes[p].at.Healing?
  }

  /** Someone has zeroed the count under a read guard and is about to store the status. */
  ghost predicate Heals(s: Registry, a: Addr) {
    (exists t :: ThreadHeals(s, t, a)) || (exists p :: ProbeHeals(s, p, a))
  }

  ghost predicate ShapeAt(s: Registry, a: Addr) {
    a in s.entries ==>
      var e := s.entries[a];
      && e.status != Unhealthy
      && (e.status == Healthy ==> e.failures < FAILURE_THRESHOLD)
      && (e.status == Probing && e.failures < FAILURE_THRESHOLD ==> Heals(s, a))
      && (Heals(s, a) ==> e.failures == 0)
  }

  ghost predicate ShapeInv(s: Registry) {
    forall a :: a in s.entries ==> ShapeAt(s, a)
  }

  /** Nobody but `t` starts or stops healing `a`. */
  lemma HealsFrame(s: Registry, s': Registry, t: Tid, a: Addr)
    requires OthersStay(s.threads, s'.threads, t)
    requires !ThreadHeals(s, t, a) && !ThreadHeals(s', t, a)
    requires forall p :: ProbeHeals(s', p, a) <==> ProbeHeals(s, p, a)
    ensures Heals(s', a) <==> Heals(s, a)
  {
    if Heals(s, a) && exists u :: ThreadHeals(s, u, a) {
      var u :| ThreadHeals(s, u, a);
      assert ThreadHeals(s', u, a);
    }
    if Heals(s', a) && exists u :: ThreadHeals(s', u, a) {
      var u :| ThreadHeals(s', u, a);
      assert ThreadHeals(s, u, a);
    }
  }

  lemma AloneHealsNot(s: Registry, t: Tid, a: Addr)
    requires GuardInv(s) && t in s.threads && WriteGuard(s.threads[t]) == Some(a)
    ensures !Heals(s, a)
  {}

  lemma AbsentHealsNot(s: Registry, a: Addr)
    requires GuardInv(s) && a !in s.entries
    ensures !Heals(s, a)
  {}

  lemma BeginKeepsShape(s: Registry, t: Tid, op: Op, a: Addr)
    requires GuardInv(s) && ShapeAt(s, a) && Enabled(s, Begin(t, op))
    ensures ShapeAt(Begun(s, t, op), a)
  {
    var s' := Begun(s, t, op);
    if s' != s {
      if a !in s.entries {
        AbsentHealsNot(s, a);
      }
      hide NoWriter, NoReader, GuardInv;
      HealsFrame(s, s', t, a);
    }
  }

  /** A step's effect on one entry's count and status. */
  lemma GoCounts(s: Registry, t: Tid, task: ProbeId, a: Addr)
    requires Enabled(s, Go(t, task)) && a in s.entries && a in Went(s, t, task).entries
    ensures var (pc, e, e') := (s.threads[t], s.entries[a], Went(s, t, task).entries[a]);
            if pc == FailCount(a) then e' == CountFailure(e).0
            else if pc == SuccZero(a) then e' == e.(failures := 0)
            else if pc == SuccHeal(a) then e' == e.(status := Healthy)
            else e'.status == e.status && e'.failures == e.failures
  {
    hide ShardOf, NoWriter, NoReader, CountFailure, ShardUsed, OthersStay, OnlyAborts;
  }

  lemma GoHealers(s: Registry, t: Tid, task: ProbeId, a: Addr)
    requires Enabled(s, Go(t, task)) && a in s.entries
    ensures forall p :: ProbeHeals(Went(s, t, task), p, a) <==> ProbeHeals(s, p, a)
  {
    hide ShardOf, NoWriter, NoReader, CountFailure, ShardUsed, OthersStay;
  }

  /** A step's effect on one entry's count and status, and on who heals it. */
  lemma GoEntry(s: Registry, t: Tid, task: ProbeId, a: Addr)
    requires Enabled(s, Go(t, task)) && a in s.entries
    ensures var (s', pc, e) := (Went(s, t, task), s.threads[t], s.entries[a]);
            && (forall p :: ProbeHeals(s', p, a) <==> ProbeHeals(s, p, a))
            && (ThreadHeals(s', t, a) ==> pc == SuccZero(a))
            && (a in s'.entries ==>
                  var e' := s'.entries[a];
                  if pc == FailCount(a) then e' == CountFailure(e).0
                  else if pc == SuccZero(a) then e' == e.(failures := 0)
                  else if pc == SuccHeal(a) then e' == e.(status := Healthy)
                  else e'.status == e.status && e'.failures == e.failures)
  {
    GoHealers(s, t, task, a);
    if a in Went(s, t, task).entries {
      GoCounts(s, t, task, a);
    }
    hide ShardOf, NoWriter, NoReader, CountFailure, ShardUsed, OthersStay, Filtered, Registered, ProbeHeals;
  }

  lemma GoKeepsShape(s: Registry, t: Tid, task: ProbeId, a: Addr)
    requires GuardInv(s) && ShapeAt(s, a) && a in s.entries && Enabled(s, Go(t, task))
    ensures ShapeAt(Went(s, t, task), a)
  {
    var s' := Went(s, t, task);
    var pc := s.threads[t];
    GoEntry(s, t, task, a);
    if a in s'.entries {
      if pc == FailCount(a) {
        AloneHealsNot(s, t, a);
        hide GuardInv, Enabled, Went;
        HealsFrame(s, s', t, a);
      } else if pc == SuccZero(a) {
        assert ThreadHeals(s', t, a);
      } else if pc == SuccHeal(a) {
        assert ThreadHeals(s, t, a);
      } else {
        hide GuardInv, Enabled, Went;
        HealsFrame(s, s', t, a);
      }
    }
  }

  lemma ProbeKeepsShape(s: Registry, p: ProbeId, connects: bool, a: Addr)
    requires ShapeAt(s, a) && a in s.entries && Enabled(s, ProbeGo(p, connects))
    ensures ShapeAt(ProbeWent(s, p, connects), a)
  {
    hide NoWriter, NoReader, Heals;
    var s' := ProbeWent(s, p, connects);
    var probe := s.probes[p];
    if probe.a == a && probe.at.Zeroing? {
      HealsBy(s', p, a);
    } else if probe.a == a && probe.at.Healing? {
      HealsBy(s, p, a);
    } else {
      ProbeHealsFrame(s, s', a);
    }
  }

  lemma HealsBy(s: Registry, p: ProbeId, a: Addr)
    requires ProbeHeals(s, p, a)
    ensures Heals(s, a)
  {}

  lemma ProbeHealsFrame(s: Registry, s': Registry, a: Addr)
    requires s'.threads == s.threads && forall p :: ProbeHeals(s', p, a) <==> ProbeHeals(s, p, a)
    ensures Heals(s', a) <==> Heals(s, a)
  {
    assert forall t :: ThreadHeals(s', t, a) <==> ThreadHeals(s, t, a);
  }

  lemma StepKeepsShape(s: Registry, step: Step)
    requires GuardInv(s) && ShapeInv(s) && Enabled(s, step)
    ensures ShapeInv(Apply(s, step))
  {
    var s' := Apply(s, step);
    forall a | a in s'.entries
      ensures ShapeAt(s', a)
    {
      match step
      case Begin(t, op) =>
        assert ShapeAt(s, a);
        BeginKeepsShape(s, t, op, a);
      case Go(t, task) =>
        GoAddsNothing(s, t, task);
        GoKeepsShape(s, t, task, a);
      case ProbeGo(p, connects) =>
        ProbeKeepsShape(s, p, connects, a);
    }
  }
}
