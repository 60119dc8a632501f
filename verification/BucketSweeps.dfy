/**
 What the sweep of src/rate_limit.rs costs one client's limit. A request that read
 its clock before a sweep and reaches the map after it starts a full bucket in the
 past: how much that can grant, and exactly when no sweep is ever noticed.
 */
module BucketSweeps {
  import opened Options
  import opened TokenBucket
  import opened Words
  import opened BucketRaces
  import opened BucketForgetting

  // ----- the bound, whatever was swept -----

  /** What `ms` milliseconds refill. */
  function Refilled(limits: Limits, ms: nat): nat {
    limits.rate * ms
  }

  lemma RefilledAdds(limits: Limits, x: nat, y: nat)
    ensures Refilled(limits, x + y) == Refilled(limits, x) + Refilled(limits, y)
  {
    Distribute(limits.rate, x, y);
  }

  lemma RefilledGrows(limits: Limits, x: nat, y: nat)
    requires x <= y
    ensures Refilled(limits, x) <= Refilled(limits, y)
  {
    ScaleUp(limits.rate, x, y);
  }

  /** What `drops` sweeps hand back too early: the refill of the lateness, each time. */
  function Regained(limits: Limits, late: nat, drops: nat): nat {
    limits.rate * late * drops
  }

  lemma RegainedOne(limits: Limits, late: nat, drops: nat)
    ensures Regained(limits, late, 0) == 0
    ensures Regained(limits, late, drops + 1) == Regained(limits, late, drops) + Refilled(limits, late)
  {
    Distribute(limits.rate * late, drops, 1);
  }

  lemma TouchAtPays(b: Bucket, t: nat, limits: Limits)
    requires b.tokens <= limits.burst
    ensures var (next, granted) := TouchAt(b, t, limits);
            && next.tokens <= limits.burst
            && next.stamp == (if b.stamp < t then t else b.stamp)
            && (if granted then COST else 0) + next.tokens <= b.tokens + Refilled(limits, next.stamp - b.stamp)
  {
    ScaleUp(limits.rate, 0, if b.stamp < t then t - b.stamp else 0);
  }

  /** The sweeps that take the client's bucket out of the map. */
  function Drops(o: Option<Bucket>, events: seq<Event>, limits: Limits): nat
    decreases |events|
  {
    if events == [] then 0
    else
      var next := Next(o, events[0], limits);
      (if o.Some? && next.None? then 1 else 0) + Drops(next, events[1..], limits)
  }

  predicate AskedBy(events: seq<Event>, until: nat) {
    forall i :: 0 <= i < |events| && events[i].Ask? ==> events[i].t <= until
  }

  lemma AskedOn(events: seq<Event>, until: nat)
    requires events != [] && AskedBy(events, until)
    ensures AskedBy(events[1..], until) && (events[0].Ask? ==> events[0].t <= until)
  {
  }

  function Cost(o: Option<Bucket>, events: seq<Event>, limits: Limits): nat {
    COST * Grants(Answers(o, events, limits))
  }

  lemma CostOne(o: Option<Bucket>, events: seq<Event>, limits: Limits)
    requires events != []
    ensures var next := Next(o, events[0], limits);
            Cost(o, events, limits)
            == Cost(next, events[1..], limits) + COST * Grants(Answer(o, events[0], limits))
  {
    var next := Next(o, events[0], limits);
    var first, more := Answer(o, events[0], limits), Answers(next, events[1..], limits);
    if first == [] {
      assert first + more == more;
    } else {
      assert (first + more)[1..] == more && first[1..] == [];
    }
  }

  /** What a drop hands back had been refilled by the sweep's clock, `late` ms ahead of the next request's at most. */
  lemma DropPays(b: Bucket, t: nat, floor: nat, until: nat, late: nat, limits: Limits)
    requires FullBy(b, t, limits) && t <= floor <= until + late && b.stamp <= until
    ensures limits.burst + Refilled(limits, until + late - floor)
         <= b.tokens + Refilled(limits, until - b.stamp) + Refilled(limits, late)
  {
    assert limits.burst <= b.tokens + Refilled(limits, t - b.stamp);
    hide Refilled;
    RefilledGrows(limits, until + late - floor, until + late - t);
    RefilledAdds(limits, t - b.stamp, until + late - t);
    RefilledAdds(limits, until - b.stamp, late);
  }

  /** From a bucket held, and from none since a sweep at `floor`. */
  lemma {:induction false} HeldBound(b: Bucket, events: seq<Event>, floor: nat, until: nat, late: nat, limits: Limits)
    requires b.tokens <= limits.burst <= limits.rate * STALE_MS && b.stamp <= until
    requires NotBefore(events, floor, late) && AskedBy(events, until)
    ensures Cost(Some(b), events, limits)
         <= b.tokens + Refilled(limits, until - b.stamp) + Regained(limits, late, Drops(Some(b), events, limits))
    decreases |events|
  {
    hide TouchAt, FirstTouchAt, KeepsAt, FullBy, Cost, AskedBy, Refilled, Regained;
    if events == [] {
      NoCost(Some(b), limits);
    } else {
      var e, rest := events[0], events[1..];
      CostOne(Some(b), events, limits);
      AskedOn(events, until);
      if e.Ask? {
        var (next, granted) := TouchAt(b, e.t, limits);
        TouchAtPays(b, e.t, limits);
        HeldBound(next, rest, floor, until, late, limits);
        RefilledAdds(limits, next.stamp - b.stamp, until - next.stamp);
      } else if KeepsAt(b, e.t, limits) {
        HeldBound(b, rest, if floor < e.t then e.t else floor, until, late, limits);
      } else {
        var floor' := if floor < e.t then e.t else floor;
        EvictedWasFull(b, e.t, limits);
        NoneBound(rest, floor', until, late, limits);
        RegainedOne(limits, late, Drops(None, rest, limits));
        if Cost(None, rest, limits) != 0 {
          DropPays(b, e.t, floor', until, late, limits);
        }
      }
    }
  }

  lemma {:induction false} NoneBound(events: seq<Event>, floor: nat, until: nat, late: nat, limits: Limits)
    requires limits.burst <= limits.rate * STALE_MS
    requires NotBefore(events, floor, late) && AskedBy(events, until)
    ensures || Cost(None, events, limits) == 0
            || (floor <= until + late
                && Cost(None, events, limits)
                   <= limits.burst + Refilled(limits, until + late - floor)
                      + Regained(limits, late, Drops(None, events, limits)))
    decreases |events|
  {
    hide TouchAt, FirstTouchAt, KeepsAt, Cost, AskedBy, Refilled, Regained;
    if events == [] {
      NoCost(None, limits);
    } else {
      var e, rest := events[0], events[1..];
      CostOne(None, events, limits);
      AskedOn(events, until);
      if e.Ask? {
        FirstPays(e.t, limits);
        HeldBound(FirstTouchAt(e.t, limits).0, rest, floor, until, late, limits);
        RefilledGrows(limits, until - e.t, until + late - floor);
      } else {
        var floor' := if floor < e.t then e.t else floor;
        NoneBound(rest, floor', until, late, limits);
        if floor' <= until + late {
          RefilledGrows(limits, until + late - floor', until + late - floor);
        }
      }
    }
  }

  lemma FirstPays(t: nat, limits: Limits)
    ensures var (next, granted) := FirstTouchAt(t, limits);
            next.stamp == t && (if granted then COST else 0) + next.tokens == limits.burst
  {
  }

  lemma NoCost(o: Option<Bucket>, limits: Limits)
    ensures Cost(o, [], limits) == 0
  {
  }

  /** The requests lie between `from`, the first, and `until`; none reads over `late` ms behind a past sweep. */
  ghost predicate InWindow(events: seq<Event>, from: nat, until: nat, late: nat) {
    && NotBefore(events, 0, late)
    && AskedBy(events, until)
    && from <= until
    && (Asks(events) != [] ==> Asks(events)[0].t == from)
  }

  /**
   Where the stale age refills a whole burst, a client's grants over its whole life
   cost at most the burst, the rate over the time since its first request, and the
   rate over the lateness once for each sweep that dropped it.
   */
  lemma LifetimeBound(events: seq<Event>, from: nat, until: nat, late: nat, limits: Limits)
    requires limits.burst <= limits.rate * STALE_MS && InWindow(events, from, until, late)
    ensures Cost(None, events, limits)
         <= limits.burst + limits.rate * (until - from) + limits.rate * late * Drops(None, events, limits)
  {
    hide Cost, AskedBy, Drops;
    BoundFrom(events, 0, from, until, late, limits);
  }

  lemma {:induction false} BoundFrom(events: seq<Event>, floor: nat, from: nat, until: nat, late: nat, limits: Limits)
    requires limits.burst <= limits.rate * STALE_MS && from <= until
    requires NotBefore(events, floor, late) && AskedBy(events, until)
    requires Asks(events) != [] ==> Asks(events)[0].t == from
    ensures Cost(None, events, limits)
         <= limits.burst + Refilled(limits, until - from) + Regained(limits, late, Drops(None, events, limits))
    decreases |events|
  {
    hide TouchAt, FirstTouchAt, KeepsAt, Cost, AskedBy, Refilled, Regained;
    if events == [] {
      NoCost(None, limits);
    } else {
      var e, rest := events[0], events[1..];
      CostOne(None, events, limits);
      AskedOn(events, until);
      if e.Ask? {
        FirstPays(e.t, limits);
        HeldBound(FirstTouchAt(e.t, limits).0, rest, floor, until, late, limits);
      } else {
        assert [] + Asks(rest) == Asks(rest);
        BoundFrom(rest, if floor < e.t then e.t else floor, from, until, late, limits);
      }
    }
  }

  // ----- schedules that spend more -----

  function Repeat(t: nat, k: nat): (asks: seq<Event>)
    ensures |asks| == k
    ensures forall i :: 0 <= i < k ==> asks[i] == Ask(t)
  {
    seq(k, _ => Ask(t))
  }

  lemma {:induction false} AnswersConcat(o: Option<Bucket>, a: seq<Event>, b: seq<Event>, limits: Limits)
    ensures Answers(o, a + b, limits) == Answers(o, a, limits) + Answers(After(o, a, limits), b, limits)
    ensures After(o, a + b, limits) == After(After(o, a, limits), b, limits)
    decreases |a|
  {
    hide Next, Answer;
    if a == [] {
      assert a + b == b;
      assert [] + Answers(o, b, limits) == Answers(o, b, limits);
    } else {
      assert (a + b)[1..] == a[1..] + b;
      var o' := Next(o, a[0], limits);
      AnswersConcat(o', a[1..], b, limits);
      var x, y := Answer(o, a[0], limits), Answers(o', a[1..], limits);
      var z := Answers(After(o', a[1..], limits), b, limits);
      assert x + (y + z) == (x + y) + z;
    }
  }

  /** Requests at one instant: granted while tokens last. */
  lemma {:induction false} Drain(b: Bucket, k: nat, limits: Limits)
    requires COST * k <= b.tokens <= limits.burst
    ensures false !in Answers(Some(b), Repeat(b.stamp, k), limits)
    ensures After(Some(b), Repeat(b.stamp, k), limits) == Some(Bucket(b.stamp, b.tokens - COST * k))
    decreases k
  {
    if k > 0 {
      var asks := Repeat(b.stamp, k);
      assert asks[0] == Ask(b.stamp) && asks[1..] == Repeat(b.stamp, k - 1);
      AheadSelf(b, limits);
      var next := Bucket(b.stamp, b.tokens - COST);
      assert TouchAt(b, b.stamp, limits) == (next, true);
      var more := Answers(Some(next), asks[1..], limits);
      assert Answers(Some(b), asks, limits) == [true] + more;
      Drain(next, k - 1, limits);
    }
  }

  lemma DrainFresh(t: nat, k: nat, limits: Limits)
    requires k > 0 && COST * k <= limits.burst
    ensures false !in Answers(None, Repeat(t, k), limits)
    ensures After(None, Repeat(t, k), limits) == Some(Bucket(t, limits.burst - COST * k))
  {
    var full := Bucket(t, limits.burst);
    AheadSelf(full, limits);
    assert TouchAt(full, t, limits) == FirstTouchAt(t, limits);
    assert Repeat(t, k)[0] == Ask(t);
    assert Answers(None, Repeat(t, k), limits) == Answers(Some(full), Repeat(t, k), limits);
    assert After(None, Repeat(t, k), limits) == After(Some(full), Repeat(t, k), limits);
    hide Answers, After;
    Drain(full, k, limits);
  }

  lemma {:induction false} AllGranted(flags: seq<bool>)
    requires false !in flags
    ensures Grants(flags) == |flags|
  {
    if flags != [] {
      AllGranted(flags[1..]);
    }
  }

  lemma AskFirst(t: nat, rest: seq<Event>, floor: nat, late: nat)
    requires floor <= t + late && NotBefore(rest, floor, late)
    ensures NotBefore([Ask(t)] + rest, floor, late) && Asks([Ask(t)] + rest) == [Ask(t)] + Asks(rest)
  {
    assert ([Ask(t)] + rest)[1..] == rest;
  }

  lemma {:induction false} AsksFirst(asks: seq<Event>, rest: seq<Event>, floor: nat, late: nat)
    requires forall i :: 0 <= i < |asks| ==> asks[i].Ask? && floor <= asks[i].t + late
    requires NotBefore(rest, floor, late)
    ensures NotBefore(asks + rest, floor, late) && Asks(asks + rest) == asks + Asks(rest)
    decreases |asks|
  {
    hide NotBefore, Asks;
    if asks == [] {
      assert asks + rest == rest && asks + Asks(rest) == Asks(rest);
    } else {
      var t, more := asks[0].t, asks[1..];
      AsksFirst(more, rest, floor, late);
      AskFirst(t, more + rest, floor, late);
      assert asks == [Ask(t)] + more;
      assert asks + rest == [Ask(t)] + (more + rest);
      assert asks + Asks(rest) == [Ask(t)] + (more + Asks(rest));
    }
  }

  /** Spend `m` tokens at time 0, be looked at by sweeps, the last at `d`, go on with `tail`. */
  function Spent(m: nat, looks: seq<Event>, d: nat, tail: seq<Event>): seq<Event> {
    Repeat(0, m) + (looks + ([Look(d)] + tail))
  }

  /** Requests, from time 0 on, that cost more than the limits allow. */
  ghost predicate Overspent(events: seq<Event>, until: nat, late: nat, limits: Limits) {
    InWindow(events, 0, until, late) && Cost(None, events, limits) > limits.burst + limits.rate * until
  }

  predicate Tail(tail: seq<Event>, d: nat, until: nat, late: nat, limits: Limits) {
    && (forall i :: 0 <= i < |tail| ==> tail[i].Ask? && d <= tail[i].t + late && tail[i].t <= until)
    && false !in Answers(None, tail, limits)
  }

  /** The bucket spent from is left by all sweeps but the last. */
  ghost predicate Dropped(m: nat, looks: seq<Event>, d: nat, limits: Limits) {
    0 < m && COST * m <= limits.burst &&
    var b := Bucket(0, limits.burst - COST * m);
    && !KeepsAt(b, d, limits)
    && forall e :: e in looks ==> e.Look? && e.t <= d && KeepsAt(b, e.t, limits)
  }

  lemma {:induction false} LooksFirst(looks: seq<Event>, d: nat, tail: seq<Event>, floor: nat, late: nat)
    requires floor <= d && forall e :: e in looks ==> e.Look? && e.t <= d
    requires forall i :: 0 <= i < |tail| ==> tail[i].Ask? && d <= tail[i].t + late
    ensures NotBefore(looks + ([Look(d)] + tail), floor, late) && Asks(looks + ([Look(d)] + tail)) == tail
    decreases |looks|
  {
    hide NotBefore, Asks;
    var rest := [Look(d)] + tail;
    if looks == [] {
      LookedAt(d, tail, floor, late);
      assert looks + rest == rest;
    } else {
      var t, more := looks[0].t, looks[1..];
      assert looks[0] in looks;
      LooksFirst(more, d, tail, if floor < t then t else floor, late);
      LookFirst(t, more + rest, floor, late);
      assert looks + rest == [Look(t)] + (more + rest);
    }
  }

  lemma LookFirst(t: nat, rest: seq<Event>, floor: nat, late: nat)
    requires NotBefore(rest, if floor < t then t else floor, late)
    ensures NotBefore([Look(t)] + rest, floor, late) && Asks([Look(t)] + rest) == Asks(rest)
  {
    assert ([Look(t)] + rest)[1..] == rest;
    assert [] + Asks(rest) == Asks(rest);
  }

  lemma LookedAt(d: nat, tail: seq<Event>, floor: nat, late: nat)
    requires floor <= d && forall i :: 0 <= i < |tail| ==> tail[i].Ask? && d <= tail[i].t + late
    ensures NotBefore([Look(d)] + tail, floor, late) && Asks([Look(d)] + tail) == tail
  {
    assert NotBefore([], d, late) && Asks([]) == [];
    hide NotBefore, Asks;
    AsksFirst(tail, [], d, late);
    assert tail + [] == tail;
    LookFirst(d, tail, floor, late);
  }

  lemma SpentAsks(m: nat, looks: seq<Event>, d: nat, tail: seq<Event>, until: nat, late: nat, limits: Limits)
    requires Dropped(m, looks, d, limits) && Tail(tail, d, until, late, limits)
    ensures InWindow(Spent(m, looks, d, tail), 0, until, late)
    ensures Asks(Spent(m, looks, d, tail)) == Repeat(0, m) + tail
  {
    hide NotBefore, Asks, Answers;
    LooksFirst(looks, d, tail, 0, late);
    AsksFirst(Repeat(0, m), looks + ([Look(d)] + tail), 0, late);
    assert (Repeat(0, m) + tail)[0] == Ask(0);
    SpentBy(m, looks, d, tail, until);
    hide Spent, AskedBy, Dropped;
  }

  lemma SpentBy(m: nat, looks: seq<Event>, d: nat, tail: seq<Event>, until: nat)
    requires forall e :: e in looks ==> e.Look?
    requires forall i :: 0 <= i < |tail| ==> tail[i].t <= until
    ensures AskedBy(Spent(m, looks, d, tail), until)
  {
    var events := Spent(m, looks, d, tail);
    forall i | m <= i < m + |looks|
      ensures events[i].Look?
    {
      assert events[i] == looks[i - m] && looks[i - m] in looks;
    }
    forall i | 0 <= i < |events| && events[i].Ask?
      ensures events[i].t <= until
    {
      if i > m + |looks| {
        assert events[i] == tail[i - m - |looks| - 1];
      }
    }
  }

  lemma {:induction false} LooksKeep(b: Bucket, looks: seq<Event>, rest: seq<Event>, limits: Limits)
    requires forall e :: e in looks ==> e.Look? && KeepsAt(b, e.t, limits)
    ensures Answers(Some(b), looks + rest, limits) == Answers(Some(b), rest, limits)
    decreases |looks|
  {
    if looks == [] {
      assert looks + rest == rest;
    } else {
      assert looks[0] in looks && (looks + rest)[1..] == looks[1..] + rest;
      hide KeepsAt;
      LooksKeep(b, looks[1..], rest, limits);
      assert [] + Answers(Some(b), rest, limits) == Answers(Some(b), rest, limits);
    }
  }

  lemma SpentAnswers(m: nat, looks: seq<Event>, d: nat, tail: seq<Event>, limits: Limits)
    requires Dropped(m, looks, d, limits) && false !in Answers(None, tail, limits)
    ensures false !in Answers(None, Spent(m, looks, d, tail), limits)
  {
    var spend, rest, b := Repeat(0, m), [Look(d)] + tail, Bucket(0, limits.burst - COST * m);
    LooksKeep(b, looks, rest, limits);
    assert rest[1..] == tail && rest[0] == Look(d);
    hide KeepsAt;
    assert [] + Answers(None, tail, limits) == Answers(None, tail, limits);
    assert Answers(Some(b), rest, limits) == Answers(None, tail, limits);
    hide Answers, After;
    DrainFresh(0, m, limits);
    AnswersConcat(None, spend, looks + rest, limits);
  }

  lemma SpentOverspends(m: nat, looks: seq<Event>, d: nat, tail: seq<Event>, until: nat, late: nat, limits: Limits)
    requires Dropped(m, looks, d, limits) && Tail(tail, d, until, late, limits)
    requires COST * (m + |tail|) > limits.burst + limits.rate * until
    ensures Overspent(Spent(m, looks, d, tail), until, late, limits)
  {
    hide Answers, InWindow, Asks, Dropped;
    var events := Spent(m, looks, d, tail);
    SpentAsks(m, looks, d, tail, until, late, limits);
    SpentAnswers(m, looks, d, tail, limits);
    AnswersCount(None, events, limits);
    AllGranted(Answers(None, events, limits));
  }

  /** A look every millisecond up to `n`. */
  function Looks(n: nat): (looks: seq<Event>)
    ensures forall e :: e in looks ==> e.Look? && 0 < e.t <= n
  {
    if n == 0 then [] else Looks(n - 1) + [Look(n)]
  }

  /** A burst that the stale age does not refill comes back full too early, however often it was looked at. */
  lemma StaleOverspends(tokens: U32, rate: U32, late: nat)
    requires BurstMillitokens(tokens) > rate * STALE_MS
    ensures var limits := Limits(rate, BurstMillitokens(tokens));
            var k := limits.burst / COST;
            && Dropped(k, Looks(STALE_MS - 1), STALE_MS, limits)
            && Overspent(Spent(k, Looks(STALE_MS - 1), STALE_MS, Repeat(STALE_MS, k)), STALE_MS, late, limits)
  {
    hide Overspent, Answers, Looks;
    var limits := Limits(rate, BurstMillitokens(tokens));
    var k := limits.burst / COST;
    SlowBurst(tokens, rate);
    DrainFresh(STALE_MS, k, limits);
    forall e | e in Looks(STALE_MS - 1)
      ensures KeepsAt(Bucket(0, limits.burst - COST * k), e.t, limits)
    {
      ScaleUp(rate, e.t, STALE_MS);
    }
    assert Dropped(k, Looks(STALE_MS - 1), STALE_MS, limits);
    hide Dropped;
    SpentOverspends(k, Looks(STALE_MS - 1), STALE_MS, Repeat(STALE_MS, k), STALE_MS, late, limits);
  }

  lemma SlowBurst(tokens: U32, rate: U32)
    requires BurstMillitokens(tokens) > rate * STALE_MS
    ensures var burst := BurstMillitokens(tokens);
            var k := burst / COST;
            0 < k && burst - COST * k + STALE_MS * rate < COST * k <= burst
  {
    if tokens * COST < TWO_32 {
      assert BurstMillitokens(tokens) == tokens * COST;
      WholeTokens(tokens);
    } else {
      assert BurstMillitokens(tokens) == TWO_32 - 1;
      assert rate == 0 || rate == 1 || rate == 2 || rate == 3;
    }
  }

  lemma WholeTokens(tokens: nat)
    ensures tokens * COST / COST == tokens
  {
  }

  /** How a sweep is outrun: `m` tokens spent, dropped at `d`, `k` and `more` requests on a clock 1 ms older. */
  datatype Outrun = Outrun(m: nat, d: nat, k: nat, more: Option<nat>)

  function OutrunTail(x: Outrun): seq<Event>
    requires x.d > 0
  {
    Repeat(x.d - 1, x.k) + if x.more.Some? then [Ask(x.d - 1 + x.more.value)] else []
  }

  function OutrunUntil(x: Outrun): nat
    requires x.d > 0
  {
    x.d - 1 + if x.more.Some? then x.more.value else 0
  }

  /** Refilled at `d` and not the millisecond before, by more than the burst has beyond whole tokens. */
  predicate Outruns(x: Outrun, limits: Limits) {
    && 0 < x.m && 0 < x.d <= COST && 0 < x.k && COST * x.m <= limits.burst && COST * x.k <= limits.burst
    && x.d * limits.rate >= COST * x.m
    && (x.more.Some? ==> 0 < x.more.value <= COST && limits.burst - COST * x.k + x.more.value * limits.rate >= COST)
    && COST * (x.m + x.k + if x.more.Some? then 1 else 0) > limits.burst + limits.rate * OutrunUntil(x)
  }

  lemma OutrunTailGranted(x: Outrun, late: nat, limits: Limits)
    requires Outruns(x, limits) && late > 0
    ensures Tail(OutrunTail(x), x.d, OutrunUntil(x), late, limits)
  {
    var asks := Repeat(x.d - 1, x.k);
    DrainFresh(x.d - 1, x.k, limits);
    if x.more.Some? {
      LastGranted(Bucket(x.d - 1, limits.burst - COST * x.k), x.more.value, limits);
      hide Answers, After, Outruns;
      AnswersConcat(None, asks, [Ask(x.d - 1 + x.more.value)], limits);
    } else {
      hide Answers, After;
      assert asks + [] == asks;
    }
  }

  lemma LastGranted(b: Bucket, wait: nat, limits: Limits)
    requires b.tokens + wait * limits.rate >= COST && limits.burst >= COST
    ensures Answers(Some(b), [Ask(b.stamp + wait)], limits) == [true]
  {
    assert [Ask(b.stamp + wait)][1..] == [];
    assert TouchAt(b, b.stamp + wait, limits).1;
  }

  lemma OutrunOverspends(x: Outrun, late: nat, limits: Limits)
    requires Outruns(x, limits) && late > 0
    ensures Overspent(Spent(x.m, [], x.d, OutrunTail(x)), OutrunUntil(x), late, limits)
  {
    OutrunTailGranted(x, late, limits);
    assert Dropped(x.m, [], x.d, limits);
    hide Overspent, Tail, Dropped;
    SpentOverspends(x.m, [], x.d, OutrunTail(x), OutrunUntil(x), late, limits);
  }

  /** The least `n` with `n * rate >= x`. */
  lemma {:induction false} Ceil(x: nat, rate: nat) returns (n: nat)
    requires 0 < x && 0 < rate
    ensures 0 < n <= x && n * rate - rate < x <= n * rate
    decreases x
  {
    if x <= rate {
      n := 1;
    } else {
      var n' := Ceil(x - rate, rate);
      n := n' + 1;
      assert n * rate == n' * rate + rate;
    }
  }

  /** Every limit that ever grants and refills is outrun by one millisecond. */
  lemma SomeOutruns(tokens: U32, rate: U32) returns (x: Outrun)
    requires tokens > 0 && rate > 0
    ensures Outruns(x, Limits(rate, BurstMillitokens(tokens)))
  {
    var burst := BurstMillitokens(tokens);
    if tokens * COST < TWO_32 {
      var d := Ceil(COST, rate);
      x := Outrun(1, d, tokens, None);
      assert burst == COST * tokens;
    } else if rate >= COST {
      x := Outrun(1, 1, burst / COST, None);
    } else {
      var n := Ceil(705, rate);
      x := Outrun(rate, COST, burst / COST, Some(n));
      assert burst == TWO_32 - 1 && burst - COST * x.k == 295;
      assert COST * (rate + x.k + 1) > burst + rate * (COST - 1 + n) by {
        Distribute(rate, COST - 1, n);
      }
    }
  }

  // ----- exactly when no sweep is noticed -----

  /** The stale age refills the burst, and nobody is late or nothing is granted anyway. */
  predicate Unhurried(limits: Limits, late: nat) {
    limits.burst <= limits.rate * STALE_MS && (late == 0 || limits.burst == 0)
  }

  /** No schedule whose requests read at most `late` ms behind a past sweep tells the sweeps were there. */
  ghost predicate SweepsUnseen(limits: Limits, late: nat) {
    forall events: seq<Event> :: NotBefore(events, 0, late) ==>
      Answers(None, events, limits) == Answers(None, Asks(events), limits)
  }

  /** No such schedule spends more than burst and rate allow. */
  ghost predicate WithinLimits(limits: Limits, late: nat) {
    forall events: seq<Event>, from: nat, until: nat :: InWindow(events, from, until, late) ==>
      Cost(None, events, limits) <= limits.burst + limits.rate * (until - from)
  }

  lemma SomeOverspends(tokens: U32, rate: U32, late: nat) returns (events: seq<Event>, until: nat)
    requires !Unhurried(Limits(rate, BurstMillitokens(tokens)), late)
    ensures Overspent(events, until, late, Limits(rate, BurstMillitokens(tokens)))
  {
    hide Overspent, Outruns;
    var limits := Limits(rate, BurstMillitokens(tokens));
    if limits.burst > rate * STALE_MS {
      StaleOverspends(tokens, rate, late);
      var k := limits.burst / COST;
      events, until := Spent(k, Looks(STALE_MS - 1), STALE_MS, Repeat(STALE_MS, k)), STALE_MS;
    } else {
      var x := SomeOutruns(tokens, rate);
      OutrunOverspends(x, late, limits);
      assert x.d > 0 by { assert Outruns(x, limits); }
      events, until := Spent(x.m, [], x.d, OutrunTail(x)), OutrunUntil(x);
    }
  }

  /** Without sweeps the limits are kept, so whoever overspends has noticed one. */
  lemma OverspentIsSeen(events: seq<Event>, until: nat, late: nat, limits: Limits)
    requires Overspent(events, until, late, limits)
    ensures Answers(None, events, limits) != Answers(None, Asks(events), limits)
  {
    hide Answers;
    AskedAlone(events, until);
    AsksAlone(events);
    KeptBound(Asks(events), 0, until, limits);
  }

  lemma {:induction false} AskedAlone(events: seq<Event>, until: nat)
    requires AskedBy(events, until)
    ensures AskedBy(Asks(events), until)
    decreases |events|
  {
    if events != [] {
      AskedOn(events, until);
      AskedAlone(events[1..], until);
    }
  }

  /** A bucket nobody looks at keeps to its limits. */
  lemma {:induction false} UnsweptBound(b: Bucket, asks: seq<Event>, until: nat, limits: Limits)
    requires b.tokens <= limits.burst && b.stamp <= until
    requires AskedBy(asks, until) && forall i :: 0 <= i < |asks| ==> asks[i].Ask?
    ensures Cost(Some(b), asks, limits) <= b.tokens + Refilled(limits, until - b.stamp)
    decreases |asks|
  {
    hide TouchAt, Cost, AskedBy, Refilled;
    if asks == [] {
      NoCost(Some(b), limits);
    } else {
      CostOne(Some(b), asks, limits);
      AskedOn(asks, until);
      var next := TouchAt(b, asks[0].t, limits).0;
      TouchAtPays(b, asks[0].t, limits);
      UnsweptBound(next, asks[1..], until, limits);
      RefilledAdds(limits, next.stamp - b.stamp, until - next.stamp);
    }
  }

  lemma KeptBound(asks: seq<Event>, from: nat, until: nat, limits: Limits)
    requires AskedBy(asks, until) && from <= until && forall i :: 0 <= i < |asks| ==> asks[i].Ask?
    requires asks != [] ==> asks[0].t == from
    ensures Cost(None, asks, limits) <= limits.burst + Refilled(limits, until - from)
  {
    hide Cost, AskedBy, FirstTouchAt, Refilled;
    if asks == [] {
      NoCost(None, limits);
    } else {
      CostOne(None, asks, limits);
      AskedOn(asks, until);
      FirstPays(from, limits);
      UnsweptBound(FirstTouchAt(from, limits).0, asks[1..], until, limits);
    }
  }

  /**
   Sweeps go unseen exactly for limits that refill a whole burst within the stale
   age, and that nobody reaches late unless they grant nothing: one millisecond
   between a request's clock read and its turn is enough.
   */
  lemma SweepsUnseenIff(tokens: U32, rate: U32, late: nat)
    ensures var limits := Limits(rate, BurstMillitokens(tokens));
            SweepsUnseen(limits, late) <==> Unhurried(limits, late)
    ensures rate >= 4 ==> (SweepsUnseen(Limits(rate, BurstMillitokens(tokens)), late) <==> late == 0 || tokens == 0)
  {
    assert rate >= 4 ==> rate * STALE_MS >= TWO_32;
    hide Answers, Asks, NotBefore;
    var limits := Limits(rate, BurstMillitokens(tokens));
    if !Unhurried(limits, late) {
      var events, until := SomeOverspends(tokens, rate, late);
      OverspentIsSeen(events, until, late, limits);
      assert NotBefore(events, 0, late);
      assert !SweepsUnseen(limits, late);
    } else {
      forall events: seq<Event> | NotBefore(events, 0, late)
        ensures Answers(None, events, limits) == Answers(None, Asks(events), limits)
      {
        if limits.burst == 0 {
          NoneGrantedAlike(events, limits);
        } else {
          SweptAsIfKept(None, None, events, 0, limits);
        }
      }
    }
  }

  /** And exactly those keep every client to its burst and rate over its whole life. */
  lemma WithinLimitsIff(tokens: U32, rate: U32, late: nat)
    ensures var limits := Limits(rate, BurstMillitokens(tokens));
            WithinLimits(limits, late) <==> Unhurried(limits, late)
  {
    hide Answers, Asks, NotBefore, Cost;
    var limits := Limits(rate, BurstMillitokens(tokens));
    if !Unhurried(limits, late) {
      var events, until := SomeOverspends(tokens, rate, late);
      assert InWindow(events, 0, until, late);
      assert !WithinLimits(limits, late);
    } else {
      forall events: seq<Event>, from: nat, until: nat | InWindow(events, from, until, late)
        ensures Cost(None, events, limits) <= limits.burst + limits.rate * (until - from)
      {
        LateFree(events, from, until, late, limits);
      }
    }
  }

  lemma LateFree(events: seq<Event>, from: nat, until: nat, late: nat, limits: Limits)
    requires Unhurried(limits, late) && InWindow(events, from, until, late)
    ensures Cost(None, events, limits) <= limits.burst + limits.rate * (until - from)
  {
    hide Answers, Asks, NotBefore;
    ScaleUp(limits.rate, 0, until - from);
    if limits.burst == 0 {
      NothingGranted(None, events, limits);
      NoGrants(Answers(None, events, limits));
    } else {
      LifetimeBound(events, from, until, late, limits);
      assert limits.rate * late * Drops(None, events, limits) == 0;
    }
  }

  lemma {:induction false} NoGrants(flags: seq<bool>)
    requires true !in flags
    ensures Grants(flags) == 0
  {
    if flags != [] {
      NoGrants(flags[1..]);
    }
  }
}
