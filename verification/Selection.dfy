/**
 Which backend of a rule a request gets (src/routing/mod.rs): by weight while
 all are healthy or none is, else the rejecting stand-ins by theirs and the
 forwarding share spread over the healthy. `alive(i)`: backend `i` is healthy, for
 as long as the pick takes.
 */
module Selection {
  import opened Options
  import opened Weights

  /** A backend the forwarding share goes to while some are unhealthy. */
  predicate IsLive(c: Choice, alive: bool) {
    !c.rejects && c.weight > 0 && alive
  }

  /** The same backends, those that are not live without weight. */
  function Live(cs: seq<Choice>, alive: nat -> bool): (r: seq<Choice>)
    ensures |r| == |cs|
    ensures forall i :: 0 <= i < |cs| ==> r[i] == if IsLive(cs[i], alive(i)) then cs[i] else cs[i].(weight := 0)
  {
    seq(|cs|, i requires 0 <= i < |cs| => if IsLive(cs[i], alive(i)) then cs[i] else cs[i].(weight := 0))
  }

  /** The weight of the rejecting among the first `n`. */
  function Rejected(cs: seq<Choice>, n: nat): nat
    requires n <= |cs|
  {
    if n == 0 then 0 else Rejected(cs, n - 1) + if cs[n - 1].rejects then cs[n - 1].weight else 0
  }

  /** That of those whose range ends at or below `slot`. */
  function RejectedBelow(cs: seq<Choice>, n: nat, slot: nat): nat
    requires n <= |cs|
  {
    if n == 0 then 0
    else RejectedBelow(cs, n - 1, slot) + if cs[n - 1].rejects && Prefix(cs, n) <= slot then cs[n - 1].weight else 0
  }

  lemma {:induction false} RejectedIsPart(cs: seq<Choice>, n: nat, slot: nat)
    requires n <= |cs|
    ensures Rejected(cs, n) <= Prefix(cs, n)
    ensures RejectedBelow(cs, n, slot) <= slot && RejectedBelow(cs, n, slot) <= Rejected(cs, n)
  {
    if n > 0 {
      RejectedIsPart(cs, n - 1, slot);
    }
  }

  /** The forwarding picks made before this one. */
  function ForwardPick(cs: seq<Choice>, counter: nat): nat
    requires Total(cs) > 0
  {
    var total, slot := Total(cs), counter % Total(cs);
    RejectedIsPart(cs, |cs|, slot);
    Times(counter / total, total - Rejected(cs, |cs|)) + (slot - RejectedBelow(cs, |cs|, slot))
  }

  /** The pick while some backend with weight is unhealthy. */
  function Degraded(cs: seq<Choice>, alive: nat -> bool, counter: nat): (i: nat)
    requires Total(cs) > 0
    ensures i < |cs|
  {
    var owner, live := Owner(cs, counter % Total(cs)), Live(cs, alive);
    if cs[owner].rejects || Total(live) == 0 then owner
    else Owner(live, ForwardPick(cs, counter) % Total(live))
  }

  /** The sums a degraded pick goes by. */
  method Weigh(cs: seq<Choice>, alive: nat -> bool, slot: nat) returns (rejected: nat, below: nat, healthy: nat)
    ensures rejected == Rejected(cs, |cs|) && below == RejectedBelow(cs, |cs|, slot)
    ensures healthy == Total(Live(cs, alive))
  {
    ghost var live := Live(cs, alive);
    var cumulative := 0;
    rejected, below, healthy := 0, 0, 0;
    for k := 0 to |cs|
      invariant cumulative == Prefix(cs, k) && rejected == Rejected(cs, k)
      invariant below == RejectedBelow(cs, k, slot) && healthy == Prefix(live, k)
    {
      if cs[k].rejects {
        rejected := rejected + cs[k].weight;
        if cumulative + cs[k].weight <= slot {
          below := below + cs[k].weight;
        }
      } else if cs[k].weight > 0 && alive(k) {
        healthy := healthy + cs[k].weight;
      }
      cumulative := cumulative + cs[k].weight;
    }
  }

  method SelectDegraded(cs: seq<Choice>, alive: nat -> bool, counter: nat) returns (i: nat)
    requires Total(cs) > 0
    ensures i == Degraded(cs, alive, counter)
  {
    hide Times, Prefix, Rejected, RejectedBelow;
    var total := Total(cs);
    var slot := counter % total;
    var owner := SlotOwner(cs, slot);
    var rejected, below, healthy := Weigh(cs, alive, slot);
    if cs[owner.value].rejects || healthy == 0 {
      return owner.value;
    }
    RejectedIsPart(cs, |cs|, slot);
    var pick := Times(counter / total, total - rejected) + (slot - below);
    assert pick == ForwardPick(cs, counter);
    var found := NthHealthy(cs, alive, pick % healthy);
    i := found.value;
  }

  /** The walk over the live backends alone. */
  method NthHealthy(cs: seq<Choice>, alive: nat -> bool, slot: nat) returns (o: Option<nat>)
    ensures var live := Live(cs, alive); o == if slot < Total(live) then Some(Owner(live, slot)) else None
  {
    ghost var live := Live(cs, alive);
    var cumulative := 0;
    for i := 0 to |cs|
      invariant cumulative == Prefix(live, i) <= slot
    {
      if cs[i].weight == 0 || cs[i].rejects || !alive(i) {
        continue;
      }
      cumulative := cumulative + cs[i].weight;
      if cumulative > slot {
        OwnerIs(live, i, slot);
        return Some(i);
      }
    }
    return None;
  }

  // ----- the counter of forwarding picks -----

  predicate Forwards(cs: seq<Choice>, counter: nat)
    requires Total(cs) > 0
  {
    !cs[Owner(cs, counter % Total(cs))].rejects
  }

  /** The slots below `n` owned by the rejecting among the first `k`. */
  function RejectSlots(cs: seq<Choice>, k: nat, n: nat): nat
    requires k <= |cs|
  {
    if k == 0 then 0
    else RejectSlots(cs, k - 1, n) + if cs[k - 1].rejects then Hits((c: nat) => Owns(cs, k - 1, c), 0, n) else 0
  }

  /** One slot more adds one where its owner rejects. */
  lemma {:induction false} RejectSlotsStep(cs: seq<Choice>, k: nat, n: nat)
    requires k <= |cs| && n < Total(cs)
    ensures RejectSlots(cs, k, n + 1)
         == RejectSlots(cs, k, n) + if Owner(cs, n) < k && cs[Owner(cs, n)].rejects then 1 else 0
  {
    if k > 0 {
      RejectSlotsStep(cs, k - 1, n);
      if Owns(cs, k - 1, n) {
        OwnerIs(cs, k - 1, n);
      }
    }
  }

  /** Within one turn, a slot is forwarding or rejecting. */
  lemma {:induction false} SlotsSplit(cs: seq<Choice>, n: nat)
    requires n <= Total(cs) && Total(cs) > 0
    ensures Hits((c: nat) => Forwards(cs, c), 0, n) + RejectSlots(cs, |cs|, n) == n
  {
    if n == 0 {
      NoRejectSlots(cs, |cs|);
    } else {
      SlotsSplit(cs, n - 1);
      RejectSlotsStep(cs, |cs|, n - 1);
      SmallModulo(n - 1, Total(cs));
    }
  }

  lemma {:induction false} NoRejectSlots(cs: seq<Choice>, k: nat)
    requires k <= |cs|
    ensures RejectSlots(cs, k, 0) == 0
  {
    if k > 0 {
      NoRejectSlots(cs, k - 1);
    }
  }

  lemma {:induction false} RejectSlotsWhole(cs: seq<Choice>, k: nat)
    requires k <= |cs|
    ensures RejectSlots(cs, k, Total(cs)) == Rejected(cs, k)
  {
    if k > 0 {
      RejectSlotsWhole(cs, k - 1);
      ShareIsWeight(cs, k - 1);
    }
  }

  /** Below a forwarding slot a rejecting range lies whole or not at all. */
  lemma {:induction false} RejectSlotsBelow(cs: seq<Choice>, k: nat, slot: nat)
    requires k <= |cs| && slot < Total(cs) && !cs[Owner(cs, slot)].rejects
    ensures RejectSlots(cs, k, slot) == RejectedBelow(cs, k, slot)
  {
    if k > 0 {
      RejectSlotsBelow(cs, k - 1, slot);
      SlotsBelow(cs, k - 1, slot);
      if Owns(cs, k - 1, slot) {
        OwnerIs(cs, k - 1, slot);
      }
    }
  }

  lemma {:induction false} WholeTurns(p: nat -> bool, total: nat, turns: nat)
    requires Periodic(p, total)
    ensures Hits(p, 0, Times(turns, total)) == Times(turns, Hits(p, 0, total))
  {
    hide Times, Periodic;
    if turns == 0 {
      TimesLaws(0, total);
      TimesLaws(0, Hits(p, 0, total));
    } else {
      WholeTurns(p, total, turns - 1);
      TimesLaws(turns - 1, total);
      TimesLaws(turns - 1, Hits(p, 0, total));
      HitsOfConcat(p, 0, Times(turns - 1, total), total);
      EveryWindow(p, total, Times(turns - 1, total));
    }
  }

  lemma ForwardsPeriodic(cs: seq<Choice>)
    requires Total(cs) > 0
    ensures Periodic((c: nat) => Forwards(cs, c), Total(cs))
  {
    forall c: nat
      ensures Forwards(cs, c + Total(cs)) == Forwards(cs, c)
    {
      TurnsOver(c, Total(cs));
    }
  }

  lemma HitsByTurns(p: nat -> bool, total: nat, counter: nat)
    requires total > 0 && Periodic(p, total)
    ensures Hits(p, 0, counter) == Times(counter / total, Hits(p, 0, total)) + Hits(p, 0, counter % total)
  {
    hide Times, Periodic, Hits;
    var turns, slot := counter / total, counter % total;
    Quotient(counter, total);
    WholeTurns(p, total, turns);
    HitsOfConcat(p, 0, Times(turns, total), slot);
    LaterWindow(p, total, turns, slot);
  }

  lemma ForwardSlots(cs: seq<Choice>, slot: nat)
    requires slot < Total(cs) && !cs[Owner(cs, slot)].rejects
    ensures var p := (c: nat) => Forwards(cs, c);
            && Hits(p, 0, Total(cs)) + Rejected(cs, |cs|) == Total(cs)
            && Hits(p, 0, slot) + RejectedBelow(cs, |cs|, slot) == slot
  {
    hide Hits, RejectSlots, Rejected, RejectedBelow, Forwards;
    SlotsSplit(cs, Total(cs));
    SlotsSplit(cs, slot);
    RejectSlotsWhole(cs, |cs|);
    RejectSlotsBelow(cs, |cs|, slot);
  }

  /** A forwarding pick's number is how many forwarding picks came before it: they rotate without a gap. */
  lemma ForwardPickCounts(cs: seq<Choice>, counter: nat)
    requires Total(cs) > 0 && Forwards(cs, counter)
    ensures ForwardPick(cs, counter) == Hits((c: nat) => Forwards(cs, c), 0, counter)
  {
    var p := (c: nat) => Forwards(cs, c);
    ForwardSlots(cs, counter % Total(cs));
    ForwardsPeriodic(cs);
    hide Times, Periodic, Hits, Rejected, RejectedBelow, Forwards;
    HitsByTurns(p, Total(cs), counter);
  }

  lemma {:induction false} LaterWindow(p: nat -> bool, total: nat, turns: nat, n: nat)
    requires Periodic(p, total)
    ensures Hits(p, Times(turns, total), n) == Hits(p, 0, n)
  {
    hide Times, Periodic;
    if n > 0 {
      LaterWindow(p, total, turns, n - 1);
      SameAfterTurns(p, total, turns, n - 1);
    }
  }

  lemma {:induction false} SameAfterTurns(p: nat -> bool, total: nat, turns: nat, c: nat)
    requires Periodic(p, total)
    ensures p(Times(turns, total) + c) == p(c)
  {
    hide Times;
    if turns == 0 {
      TimesLaws(0, total);
    } else {
      SameAfterTurns(p, total, turns - 1, c);
      TimesLaws(turns - 1, total);
      assert p((Times(turns - 1, total) + c) + total) == p(Times(turns - 1, total) + c);
    }
  }

  // ----- who gets what share -----

  /** The weight of the healthy among the first `n` that forward. */
  function ForwardingWeight(cs: seq<Choice>, alive: nat -> bool, n: nat): nat
    requires n <= |cs|
  {
    if n == 0 then 0
    else ForwardingWeight(cs, alive, n - 1) + if !cs[n - 1].rejects && alive(n - 1) then cs[n - 1].weight else 0
  }

  lemma {:induction false} LiveWeighs(cs: seq<Choice>, alive: nat -> bool, n: nat)
    requires n <= |cs|
    ensures Prefix(Live(cs, alive), n) == ForwardingWeight(cs, alive, n)
    ensures ForwardingWeight(cs, alive, n) == 0 <==>
              forall i :: 0 <= i < n && cs[i].weight > 0 && !cs[i].rejects ==> !alive(i)
  {
    if n > 0 {
      LiveWeighs(cs, alive, n - 1);
    }
  }

  /** A degraded pick is a rejecting stand-in or healthy, unless nothing that forwards is healthy. */
  lemma DegradedIsHealthy(cs: seq<Choice>, alive: nat -> bool, counter: nat)
    requires Total(cs) > 0
    ensures var i := Degraded(cs, alive, counter);
            || cs[i].rejects
            || alive(i)
            || forall j :: 0 <= j < |cs| && cs[j].weight > 0 && !cs[j].rejects ==> !alive(j)
  {
    var live := Live(cs, alive);
    LiveWeighs(cs, alive, |cs|);
    if Total(live) > 0 {
      var slot := ForwardPick(cs, counter) % Total(live);
      OneOwner(live, Owner(live, slot), Owner(live, slot), slot);
    }
  }

  /** Over any as many forwarding picks as the live weigh, each live backend gets exactly its weight of them. */
  lemma LiveShares(cs: seq<Choice>, alive: nat -> bool, i: nat, from: nat)
    requires i < |cs| && Total(Live(cs, alive)) > 0
    ensures var live := Live(cs, alive);
            Hits((k: nat) => Owner(live, k % Total(live)) == i, from, Total(live))
            == if !cs[i].rejects && alive(i) then cs[i].weight else 0
  {
    RotationShares(Live(cs, alive), i, from);
  }

  /** A live backend is picked where its turn among the forwarding picks falls. */
  lemma PickIsTurn(cs: seq<Choice>, alive: nat -> bool, i: nat, counter: nat)
    requires i < |cs| && !cs[i].rejects && Total(cs) > 0 && Total(Live(cs, alive)) > 0
    ensures Degraded(cs, alive, counter) == i <==>
              && Forwards(cs, counter)
              && Owner(Live(cs, alive), Hits((c: nat) => Forwards(cs, c), 0, counter) % Total(Live(cs, alive))) == i
  {
    if Forwards(cs, counter) {
      ForwardPickCounts(cs, counter);
    }
    hide ForwardPick, Owner, Hits, Live, Total;
  }

  lemma LastHit(p: nat -> bool, from: nat, n: nat)
    ensures Hits(p, from, 0) == 0 && Hits(p, from, n + 1) == Hits(p, from, n) + if p(from + n) then 1 else 0
  {
  }

  /** Where each hit of `p` is a hit of `q` at its number among those of `f`, so is a run of them. */
  lemma {:induction false} HitsByNumber(f: nat -> bool, p: nat -> bool, q: nat -> bool, from: nat, n: nat)
    requires forall c: nat :: p(c) <==> f(c) && q(Hits(f, 0, c))
    ensures Hits(p, from, n) == Hits(q, Hits(f, 0, from), Hits(f, from, n))
  {
    hide Hits;
    if n == 0 {
      LastHit(p, from, 0);
      LastHit(f, from, 0);
      LastHit(q, Hits(f, 0, from), 0);
    } else {
      HitsByNumber(f, p, q, from, n - 1);
      HitsOfConcat(f, 0, from, n - 1);
      LastHit(p, from, n - 1);
      LastHit(f, from, n - 1);
      LastHit(q, Hits(f, 0, from), Hits(f, from, n - 1));
      assert p(from + n - 1) <==> f(from + n - 1) && q(Hits(f, 0, from + n - 1));
    }
  }

  /**
   While some are unhealthy, over any run of picks with as many forwarding ones as
   the live weigh, each live backend is picked exactly by its weight.
   */
  lemma DegradedShares(cs: seq<Choice>, alive: nat -> bool, i: nat, from: nat, n: nat)
    requires i < |cs| && !cs[i].rejects && Total(cs) > 0 && ForwardingWeight(cs, alive, |cs|) > 0
    requires Hits((c: nat) => Forwards(cs, c), from, n) == ForwardingWeight(cs, alive, |cs|)
    ensures Hits((c: nat) => Degraded(cs, alive, c) == i, from, n)
         == if alive(i) then cs[i].weight else 0
  {
    LiveWeighs(cs, alive, |cs|);
    var live := Live(cs, alive);
    var forwards, picks := (c: nat) => Forwards(cs, c), (c: nat) => Degraded(cs, alive, c) == i;
    var turns := (k: nat) => Owner(live, k % Total(live)) == i;
    forall c: nat
      ensures picks(c) <==> forwards(c) && turns(Hits(forwards, 0, c))
    {
      PickIsTurn(cs, alive, i, c);
      SameHits(forwards, (c: nat) => Forwards(cs, c), 0, c);
    }
    HitsByNumber(forwards, picks, turns, from, n);
    LiveShares(cs, alive, i, Hits(forwards, 0, from));
    SameHits(turns, (k: nat) => Owner(live, k % Total(live)) == i, Hits(forwards, 0, from), Total(live));
  }

  lemma DegradedRejects(cs: seq<Choice>, alive: nat -> bool, i: nat, counter: nat)
    requires i < |cs| && cs[i].rejects && Total(cs) > 0
    ensures Degraded(cs, alive, counter) == i <==> Owner(cs, counter % Total(cs)) == i
  {
    var owner, live := Owner(cs, counter % Total(cs)), Live(cs, alive);
    if !cs[owner].rejects && Total(live) > 0 {
      var slot := ForwardPick(cs, counter) % Total(live);
      OneOwner(live, Owner(live, slot), Owner(live, slot), slot);
    }
  }

  /** A rejecting stand-in keeps exactly its weight of every turn, whoever is unhealthy. */
  lemma RejectKeepsShare(cs: seq<Choice>, alive: nat -> bool, i: nat, from: nat)
    requires i < |cs| && cs[i].rejects && Total(cs) > 0
    ensures Hits((c: nat) => Degraded(cs, alive, c) == i, from, Total(cs)) == cs[i].weight
  {
    var p := (c: nat) => Degraded(cs, alive, c) == i;
    var q := (c: nat) => Owner(cs, c % Total(cs)) == i;
    forall c: nat
      ensures p(c) == q(c)
    {
      DegradedRejects(cs, alive, i, c);
    }
    SameHits(p, q, from, Total(cs));
    RotationShares(cs, i, from);
  }

  // ----- the whole pick -----

  /** The weight of the backends that have some and are healthy, the rejecting included. */
  function HealthyWeight(cs: seq<Choice>, alive: nat -> bool, n: nat): nat
    requires n <= |cs|
  {
    if n == 0 then 0 else HealthyWeight(cs, alive, n - 1) + if alive(n - 1) then cs[n - 1].weight else 0
  }

  /** Nobody with weight is unhealthy. */
  predicate AllHealthy(cs: seq<Choice>, alive: nat -> bool) {
    forall i :: 0 <= i < |cs| && cs[i].weight > 0 ==> alive(i)
  }

  predicate NoneHealthy(cs: seq<Choice>, alive: nat -> bool) {
    forall i :: 0 <= i < |cs| && cs[i].weight > 0 ==> !alive(i)
  }

  lemma {:induction false} HealthyWeightIs(cs: seq<Choice>, alive: nat -> bool, n: nat)
    requires n <= |cs|
    ensures HealthyWeight(cs, alive, n) <= Prefix(cs, n)
    ensures HealthyWeight(cs, alive, n) == Prefix(cs, n) <==> AllHealthy(cs[..n], alive)
    ensures HealthyWeight(cs, alive, n) == 0 <==> NoneHealthy(cs[..n], alive)
  {
    if n > 0 {
      HealthyWeightIs(cs, alive, n - 1);
      assert forall i :: 0 <= i < n - 1 ==> cs[..n][i] == cs[..n - 1][i];
      assert cs[..n][n - 1] == cs[n - 1];
    }
  }

  /** The pick: by the precomputed sums where all are healthy or none is, else degraded. */
  method SelectBackend(cs: seq<Choice>, cumulative: seq<nat>, total: nat, alive: nat -> bool, counter: nat)
    returns (o: Option<nat>)
    requires cumulative == Cumulative(cs) && total == Total(cs)
    ensures o.None? <==> Total(cs) == 0
    ensures o.Some? ==> o.value < |cs| && cs[o.value].weight > 0
    ensures o.Some? ==> o.value == if AllHealthy(cs, alive) || NoneHealthy(cs, alive) || |cs| == 1
                                   then Owner(cs, counter % Total(cs)) else Degraded(cs, alive, counter)
  {
    if |cs| == 1 {
      assert Prefix(cs, 1) == Prefix(cs, 0) + cs[0].weight;
      if cs[0].weight > 0 {
        OwnerIs(cs, 0, counter % total);
        return Some(0);
      }
      return None;
    }
    var healthy := 0;
    for i := 0 to |cs|
      invariant healthy == HealthyWeight(cs, alive, i)
    {
      if cs[i].weight > 0 && alive(i) {
        healthy := healthy + cs[i].weight;
      }
    }
    HealthyWeightIs(cs, alive, |cs|);
    assert cs[..|cs|] == cs;
    var pool := if healthy == 0 then total else healthy;
    if pool == 0 {
      return None;
    }
    if pool == total {
      var slot := counter % total;
      var k := PartitionPoint(cs, cumulative, slot);
      OneOwner(cs, k, k, slot);
      return Some(k);
    }
    var i := SelectDegraded(cs, alive, counter);
    DegradedHasWeight(cs, alive, counter);
    return Some(i);
  }

  lemma DegradedHasWeight(cs: seq<Choice>, alive: nat -> bool, counter: nat)
    requires Total(cs) > 0
    ensures cs[Degraded(cs, alive, counter)].weight > 0
  {
    var owner, live := Owner(cs, counter % Total(cs)), Live(cs, alive);
    OneOwner(cs, owner, owner, counter % Total(cs));
    if !cs[owner].rejects && Total(live) > 0 {
      var slot := ForwardPick(cs, counter) % Total(live);
      OneOwner(live, Owner(live, slot), Owner(live, slot), slot);
    }
  }
}
