/**
 Exactly when the packed limiter of src/rate_limit.rs keeps every client to its
 burst and rate: the lives in which one gets more, played on one client's bucket.
 */
module BucketClients {
  import opened Options
  import opened TokenBucket
  import opened Words
  import opened BucketClock
  import Alone = BucketForgetting
  import Races = BucketRaces
  import opened BucketSweeps
  import opened BucketLives

  // ----- a life of one client, read off its bucket -----

  /** The cell of `key`, if any, is the only one, holds `o` and was last seen at `seen` or later. */
  ghost predicate Lone(s: Life, key: Key, o: Option<Bucket>, clock: nat, seen: nat) {
    && Wf(s) && s.clock == clock
    && s.cells.Keys == (if o.Some? then {key} else {})
    && (o.Some? ==> s.stamps[key] == o.value.stamp && Holds(s.cells[key], o.value) && seen <= s.seen[key])
  }

  /** The events are all of `key`, and allowed where its bucket is `o`. */
  predicate Plays(o: Option<Bucket>, clock: nat, seen: nat, events: seq<Event>, key: Key,
                  gap: nat, late: nat, limits: Limits)
    decreases |events|
  {
    events == []
    || match events[0]
       case Tick(d) =>
         (o.Some? ==> clock + d <= seen + gap) && Plays(o, clock + d, seen, events[1..], key, gap, late, limits)
       case Request(k, t) =>
         && k == key && t <= clock <= t + late
         && Plays(Alone.Next(o, Alone.Ask(t), limits), clock, if o.Some? then seen else clock, events[1..],
                  key, gap, late, limits)
       case Sweep(k, t) =>
         && k == key && o.Some? && t <= clock <= t + late
         && Plays(Alone.Next(o, Alone.Look(t), limits), clock, Max(seen, t), events[1..], key, gap, late, limits)
  }

  lemma TickAlone(s: Life, key: Key, o: Option<Bucket>, clock: nat, seen: nat, d: nat, limits: Limits)
    requires Lone(s, key, o, clock, seen)
    ensures Lone(Apply(s, Tick(d), limits), key, o, clock + d, seen)
  {
  }

  lemma RequestAlone(s: Life, key: Key, o: Option<Bucket>, clock: nat, seen: nat, t: nat, limits: Limits)
    requires Lone(s, key, o, clock, seen) && Truthful(s, Request(key, t))
    ensures Lone(Apply(s, Request(key, t), limits), key, Alone.Next(o, Alone.Ask(t), limits), clock,
                 if o.Some? then seen else clock)
  {
    hide Touch, FirstTouch, Holds;
    if o.Some? {
      TouchRefines(s.cells[key], o.value, t, limits);
      HeldStamp(s.cells[key], o.value);
    } else {
      FirstTouchRefines(t, limits);
    }
  }

  lemma SweepAlone(s: Life, key: Key, o: Option<Bucket>, clock: nat, seen: nat, t: nat, limits: Limits)
    requires Lone(s, key, o, clock, seen) && o.Some? && Truthful(s, Sweep(key, t))
    ensures Lone(Apply(s, Sweep(key, t), limits), key, Alone.Next(o, Alone.Look(t), limits), clock, Max(seen, t))
  {
    hide Keeps, KeepsAt;
    KeepsRefines(s.cells[key], o.value, t, limits);
  }

  /** What plays on the client's bucket runs on the packed limiter. */
  lemma {:induction false} PlaysRuns(s: Life, o: Option<Bucket>, clock: nat, seen: nat, events: seq<Event>, key: Key,
                                     gap: nat, late: nat, limits: Limits)
    requires Lone(s, key, o, clock, seen) && Fresh(s, gap, late) && gap + Leftover(late) < TWO_31
    requires Plays(o, clock, seen, events, key, gap, late, limits)
    ensures Runs(s, events, gap, late, limits)
    decreases |events|
  {
    if events != [] {
      var e, rest := events[0], events[1..];
      assert Allowed(s, e, gap, late);
      hide Allowed, Fresh, Truthful, Apply, Lone, Alone.Next;
      assert Wf(s) by { assert Lone(s, key, o, clock, seen); }
      FreshIsTruthful(s, e, gap, late);
      FreshStays(s, e, gap, late, limits);
      var s' := Apply(s, e, limits);
      match e
      case Tick(d) =>
        TickAlone(s, key, o, clock, seen, d, limits);
        PlaysRuns(s', o, clock + d, seen, rest, key, gap, late, limits);
      case Request(_, t) =>
        RequestAlone(s, key, o, clock, seen, t, limits);
        PlaysRuns(s', Alone.Next(o, Alone.Ask(t), limits), clock, if o.Some? then seen else clock, rest,
                  key, gap, late, limits);
      case Sweep(_, t) =>
        SweepAlone(s, key, o, clock, seen, t, limits);
        PlaysRuns(s', Alone.Next(o, Alone.Look(t), limits), clock, Max(seen, t), rest, key, gap, late, limits);
    }
  }

  // ----- the pieces of such a life -----

  lemma PlaysRequest(o: Option<Bucket>, clock: nat, seen: nat, t: nat, rest: seq<Event>,
                     key: Key, gap: nat, late: nat, limits: Limits)
    requires t <= clock <= t + late
    requires Plays(Alone.Next(o, Alone.Ask(t), limits), clock, if o.Some? then seen else clock, rest,
                   key, gap, late, limits)
    ensures Plays(o, clock, seen, [Request(key, t)] + rest, key, gap, late, limits)
  {
    assert ([Request(key, t)] + rest)[1..] == rest;
  }

  /** A tick and the sweep that follows it at once. */
  lemma PlaysSweep(b: Bucket, clock: nat, seen: nat, d: nat, rest: seq<Event>,
                   key: Key, gap: nat, late: nat, limits: Limits)
    requires seen <= clock && clock + d <= seen + gap
    requires Plays(Alone.Next(Some(b), Alone.Look(clock + d), limits), clock + d, clock + d, rest,
                   key, gap, late, limits)
    ensures Plays(Some(b), clock, seen, [Tick(d), Sweep(key, clock + d)] + rest, key, gap, late, limits)
  {
    hide Alone.Next;
    var swept := [Sweep(key, clock + d)] + rest;
    assert swept[1..] == rest;
    assert Plays(Some(b), clock + d, seen, swept, key, gap, late, limits);
    var ticked := [Tick(d)] + swept;
    assert ticked[1..] == swept;
    assert [Tick(d), Sweep(key, clock + d)] + rest == ticked;
  }

  function Requests(key: Key, t: nat, k: nat): (requests: seq<Event>)
    ensures |requests| == k
    ensures forall i :: 0 <= i < k ==> requests[i] == Request(key, t)
  {
    seq(k, _ => Request(key, t))
  }

  lemma {:induction false} RequestsPlay(o: Option<Bucket>, clock: nat, seen: nat, t: nat, k: nat, rest: seq<Event>,
                                        key: Key, gap: nat, late: nat, limits: Limits)
    requires t <= clock <= t + late && k > 0
    requires Plays(Alone.After(o, Repeat(t, k), limits), clock, if o.Some? then seen else clock, rest,
                   key, gap, late, limits)
    ensures Plays(o, clock, seen, Requests(key, t, k) + rest, key, gap, late, limits)
    decreases k
  {
    hide Plays, Alone.Next;
    var asks, next := Repeat(t, k), Alone.Next(o, Alone.Ask(t), limits);
    var more := Requests(key, t, k - 1) + rest;
    assert asks[0] == Alone.Ask(t) && asks[1..] == Repeat(t, k - 1);
    assert Alone.After(o, asks, limits) == Alone.After(next, Repeat(t, k - 1), limits);
    if k == 1 {
      assert more == rest;
    } else {
      NextAsked(o, t, limits);
      RequestsPlay(next, clock, if o.Some? then seen else clock, t, k - 1, rest, key, gap, late, limits);
    }
    PlaysRequest(o, clock, seen, t, more, key, gap, late, limits);
    assert Requests(key, t, k) + rest == [Request(key, t)] + more;
  }

  lemma NextAsked(o: Option<Bucket>, t: nat, limits: Limits)
    ensures Alone.Next(o, Alone.Ask(t), limits).Some?
  {
  }

  lemma OwnFirst(e: Event, rest: seq<Event>, key: Key)
    requires !e.Tick? ==> e.key == key
    ensures Own([e] + rest, key)
         == (if e.Request? then [Alone.Ask(e.t)] else if e.Sweep? then [Alone.Look(e.t)] else []) + Own(rest, key)
  {
    assert ([e] + rest)[1..] == rest;
  }

  /** A tick, and then a sweep. */
  lemma OwnSwept(d: nat, t: nat, rest: seq<Event>, key: Key)
    ensures Own([Tick(d), Sweep(key, t)] + rest, key) == [Alone.Look(t)] + Own(rest, key)
  {
    hide Own;
    OwnFirst(Sweep(key, t), rest, key);
    OwnFirst(Tick(d), [Sweep(key, t)] + rest, key);
    assert [Tick(d), Sweep(key, t)] + rest == [Tick(d)] + ([Sweep(key, t)] + rest);
    assert [] + ([Alone.Look(t)] + Own(rest, key)) == [Alone.Look(t)] + Own(rest, key);
  }

  lemma {:induction false} OwnRequests(key: Key, t: nat, k: nat, rest: seq<Event>)
    ensures Own(Requests(key, t, k) + rest, key) == Repeat(t, k) + Own(rest, key)
    decreases k
  {
    hide Own;
    if k == 0 {
      assert Requests(key, t, 0) + rest == rest && Repeat(t, 0) + Own(rest, key) == Own(rest, key);
    } else {
      var more := Requests(key, t, k - 1) + rest;
      OwnRequests(key, t, k - 1, rest);
      OwnFirst(Request(key, t), more, key);
      assert Requests(key, t, k) + rest == [Request(key, t)] + more;
      assert Repeat(t, k) + Own(rest, key) == [Alone.Ask(t)] + (Repeat(t, k - 1) + Own(rest, key));
    }
  }

  /** A sweep every millisecond, `n` of them from `clock` on. */
  function Waits(key: Key, clock: nat, n: nat): seq<Event>
    decreases n
  {
    if n == 0 then [] else [Tick(1), Sweep(key, clock + 1)] + Waits(key, clock + 1, n - 1)
  }

  lemma {:induction false} WaitsPlay(b: Bucket, clock: nat, n: nat, rest: seq<Event>,
                                     key: Key, gap: nat, late: nat, limits: Limits)
    requires gap > 0 && forall t :: clock < t <= clock + n ==> KeepsAt(b, t, limits)
    requires Plays(Some(b), clock + n, clock + n, rest, key, gap, late, limits)
    ensures Plays(Some(b), clock, clock, Waits(key, clock, n) + rest, key, gap, late, limits)
    decreases n
  {
    hide Plays;
    if n == 0 {
      assert Waits(key, clock, 0) + rest == rest;
    } else {
      var more := Waits(key, clock + 1, n - 1) + rest;
      WaitsPlay(b, clock + 1, n - 1, rest, key, gap, late, limits);
      assert Alone.Next(Some(b), Alone.Look(clock + 1), limits) == Some(b);
      hide KeepsAt;
      PlaysSweep(b, clock, clock, 1, more, key, gap, late, limits);
      assert Waits(key, clock, n) + rest == [Tick(1), Sweep(key, clock + 1)] + more;
    }
  }

  lemma {:induction false} OwnWaits(key: Key, n: nat, k: nat, rest: seq<Event>)
    requires k <= n
    ensures Looks(n - k) + Own(Waits(key, n - k, k) + rest, key) == Looks(n) + Own(rest, key)
    decreases k
  {
    hide Own;
    if k == 0 {
      assert Waits(key, n, 0) + rest == rest;
    } else {
      var c := n - k;
      OwnWaits(key, n, k - 1, rest);
      var more := Waits(key, c + 1, k - 1) + rest;
      OwnSwept(1, c + 1, more, key);
      assert Waits(key, c, k) + rest == [Tick(1), Sweep(key, c + 1)] + more;
      assert Looks(c) + ([Alone.Look(c + 1)] + Own(more, key)) == Looks(c + 1) + Own(more, key);
    }
  }

  // ----- a request that outruns a sweep -----

  function Ending(x: Outrun, key: Key): seq<Event>
    requires x.d > 0
  {
    if x.more.Some? && x.more.value > 0 then [Tick(x.more.value - 1), Request(key, x.d - 1 + x.more.value)] else []
  }

  function Outrunning(x: Outrun, key: Key): seq<Event>
    requires x.d > 0
  {
    Requests(key, 0, x.m) + ([Tick(x.d), Sweep(key, x.d)] + (Requests(key, x.d - 1, x.k) + Ending(x, key)))
  }

  lemma OwnEnding(x: Outrun, key: Key)
    requires x.d > 0 && (x.more.Some? ==> x.more.value > 0)
    ensures Own(Ending(x, key), key) == if x.more.Some? then [Alone.Ask(x.d - 1 + x.more.value)] else []
  {
    if x.more.Some? {
      var last := Request(key, x.d - 1 + x.more.value);
      OwnFirst(last, [], key);
      OwnFirst(Tick(x.more.value - 1), [last] + [], key);
      assert Ending(x, key) == [Tick(x.more.value - 1)] + ([last] + []);
      assert Own([], key) == [];
    }
  }

  lemma OutrunningOwn(x: Outrun, key: Key, limits: Limits)
    requires Outruns(x, limits)
    ensures Own(Outrunning(x, key), key) == Spent(x.m, [], x.d, OutrunTail(x))
  {
    var again := Requests(key, x.d - 1, x.k) + Ending(x, key);
    OwnEnding(x, key);
    hide Own, Ending, Outruns;
    OwnRequests(key, x.d - 1, x.k, Ending(x, key));
    assert Own(again, key) == OutrunTail(x);
    hide OutrunTail;
    OwnSwept(x.d, x.d, again, key);
    OwnRequests(key, 0, x.m, [Tick(x.d), Sweep(key, x.d)] + again);
    hide Repeat, Requests;
    assert [] + ([Alone.Look(x.d)] + OutrunTail(x)) == [Alone.Look(x.d)] + OutrunTail(x);
  }

  lemma OutrunningPlays(x: Outrun, key: Key, gap: nat, late: nat, limits: Limits)
    requires Outruns(x, limits) && late > 0 && gap >= COST
    ensures Plays(None, 0, 0, Outrunning(x, key), key, gap, late, limits)
  {
    var b := Bucket(0, limits.burst - COST * x.m);
    var again := Requests(key, x.d - 1, x.k) + Ending(x, key);
    DrainFresh(x.d - 1, x.k, limits);
    EndingPlays(Bucket(x.d - 1, limits.burst - COST * x.k), x, key, gap, late, limits);
    RequestsPlay(None, x.d, x.d, x.d - 1, x.k, Ending(x, key), key, gap, late, limits);
    assert Alone.Next(Some(b), Alone.Look(x.d), limits) == None;
    PlaysSweep(b, 0, 0, x.d, again, key, gap, late, limits);
    DrainFresh(0, x.m, limits);
    hide Plays, Alone.After, KeepsAt;
    RequestsPlay(None, 0, 0, 0, x.m, [Tick(x.d), Sweep(key, x.d)] + again, key, gap, late, limits);
  }

  lemma EndingPlays(b: Bucket, x: Outrun, key: Key, gap: nat, late: nat, limits: Limits)
    requires Outruns(x, limits) && gap >= COST
    ensures Plays(Some(b), x.d, x.d, Ending(x, key), key, gap, late, limits)
  {
    if x.more.Some? {
      assert Ending(x, key)[1..][1..] == [];
    }
  }

  // ----- a burst dropped as stale -----

  function Stale(k: nat, key: Key): seq<Event> {
    Requests(key, 0, k) + (Waits(key, 0, STALE_MS - 1) + ([Tick(1), Sweep(key, STALE_MS)] + Requests(key, STALE_MS, k)))
  }

  lemma StaleOwn(k: nat, key: Key)
    ensures Own(Stale(k, key), key) == Spent(k, Looks(STALE_MS - 1), STALE_MS, Repeat(STALE_MS, k))
  {
    var again := Requests(key, STALE_MS, k);
    assert Own([], key) == [] && Looks(0) == [];
    hide Own, Waits, Looks;
    OwnRequests(key, STALE_MS, k, []);
    assert again + [] == again && Repeat(STALE_MS, k) + [] == Repeat(STALE_MS, k);
    var swept := [Tick(1), Sweep(key, STALE_MS)] + again;
    OwnSwept(1, STALE_MS, again, key);
    OwnWaits(key, STALE_MS - 1, STALE_MS - 1, swept);
    var waited := Waits(key, 0, STALE_MS - 1) + swept;
    assert [] + Own(waited, key) == Own(waited, key);
    OwnRequests(key, 0, k, waited);
  }

  lemma StalePlays(k: nat, key: Key, gap: nat, late: nat, limits: Limits)
    requires Dropped(k, Looks(STALE_MS - 1), STALE_MS, limits) && gap > 0
    ensures Plays(None, 0, 0, Stale(k, key), key, gap, late, limits)
  {
    hide Looks;
    var b, again := Bucket(0, limits.burst - COST * k), Requests(key, STALE_MS, k);
    var swept := [Tick(1), Sweep(key, STALE_MS)] + again;
    AgainPlays(b, k, key, gap, late, limits);
    forall t | 0 < t <= STALE_MS - 1
      ensures KeepsAt(b, t, limits)
    {
      LooksAll(STALE_MS - 1, t);
    }
    hide KeepsAt, Plays, Alone.After, Dropped;
    WaitsPlay(b, 0, STALE_MS - 1, swept, key, gap, late, limits);
    assert 0 < k && COST * k <= limits.burst by { assert Dropped(k, Looks(STALE_MS - 1), STALE_MS, limits); }
    DrainFresh(0, k, limits);
    RequestsPlay(None, 0, 0, 0, k, Waits(key, 0, STALE_MS - 1) + swept, key, gap, late, limits);
  }

  lemma {:induction false} LooksAll(n: nat, t: nat)
    requires 0 < t <= n
    ensures Alone.Look(t) in Looks(n)
    decreases n
  {
    if t < n {
      LooksAll(n - 1, t);
    }
  }

  lemma AgainPlays(b: Bucket, k: nat, key: Key, gap: nat, late: nat, limits: Limits)
    requires k > 0 && gap > 0 && !KeepsAt(b, STALE_MS, limits)
    ensures Plays(Some(b), STALE_MS - 1, STALE_MS - 1, [Tick(1), Sweep(key, STALE_MS)] + Requests(key, STALE_MS, k),
                  key, gap, late, limits)
  {
    var again := Requests(key, STALE_MS, k);
    RequestsPlay(None, STALE_MS, STALE_MS, STALE_MS, k, [], key, gap, late, limits);
    assert again + [] == again;
    assert Alone.Next(Some(b), Alone.Look(STALE_MS), limits) == None;
    hide Plays, KeepsAt;
    PlaysSweep(b, STALE_MS - 1, STALE_MS - 1, 1, again, key, gap, late, limits);
  }

  // ----- exactly when -----

  /** The requests of the client in the life lie between `from`, the first, and `until`. */
  ghost predicate Spans(events: seq<Event>, key: Key, from: nat, until: nat) {
    && AskedBy(Own(events, key), until)
    && from <= until
    && (Alone.Asks(Own(events, key)) != [] ==> Alone.Asks(Own(events, key))[0].t == from)
  }

  /** In no life within the margins is a client granted more than burst and rate allow. */
  ghost predicate ClientsKept(limits: Limits, gap: nat, late: nat) {
    forall events: seq<Event>, key: Key, from: nat, until: nat ::
      Runs(BORN, events, gap, late, limits) && Spans(events, key, from, until) ==>
        COST * Races.Grants(Told(BORN, events, gap, late, limits, key)) <= limits.burst + limits.rate * (until - from)
  }

  lemma BornRuns(events: seq<Event>, key: Key, gap: nat, late: nat, limits: Limits)
    requires gap + Leftover(late) < TWO_31 && Plays(None, 0, 0, events, key, gap, late, limits)
    ensures Runs(BORN, events, gap, late, limits)
  {
    hide Plays, Runs;
    PlaysRuns(BORN, None, 0, 0, events, key, gap, late, limits);
  }

  /** A life in which client 0 is granted too much. */
  lemma SomeLifeOverspends(tokens: U32, rate: U32, gap: nat, late: nat) returns (events: seq<Event>, until: nat)
    requires COST <= gap && gap + Leftover(late) < TWO_31
    requires !Unhurried(Limits(rate, BurstMillitokens(tokens)), late)
    ensures var limits := Limits(rate, BurstMillitokens(tokens));
            Runs(BORN, events, gap, late, limits) && Overspent(Own(events, 0), until, late, limits)
  {
    hide Overspent, Plays, Runs, Own;
    var limits := Limits(rate, BurstMillitokens(tokens));
    if limits.burst > rate * STALE_MS {
      var k := limits.burst / COST;
      StaleOverspends(tokens, rate, late);
      StaleOwn(k, 0);
      StalePlays(k, 0, gap, late, limits);
      events, until := Stale(k, 0), STALE_MS;
    } else {
      var x := SomeOutruns(tokens, rate);
      OutrunOverspends(x, late, limits);
      OutrunningOwn(x, 0, limits);
      OutrunningPlays(x, 0, gap, late, limits);
      events, until := Outrunning(x, 0), OutrunUntil(x);
    }
    BornRuns(events, 0, gap, late, limits);
  }

  /**
   The shortest such life: one token, a thousand a second. The sweep of the next
   millisecond finds the bucket full again; a request that had read its clock
   before reaches the map after, and is granted a second token at time 0.
   */
  lemma LateReadIsGranted() returns (events: seq<Event>)
    ensures var limits := Limits(1000, BurstMillitokens(1));
            && limits.burst <= limits.rate * STALE_MS && 1 + Leftover(1) < TWO_31
            && Runs(BORN, events, 1, 1, limits)
            && Spans(events, 7, 0, 0)
            && Told(BORN, events, 1, 1, limits, 7) == [true, true]
            && Alone.Answers(None, Alone.Asks(Own(events, 7)), limits) == [true, false]
  {
    var limits := Limits(1000, BurstMillitokens(1));
    var b := Bucket(0, 0);
    events := [Request(7, 0)] + ([Tick(1), Sweep(7, 1)] + ([Request(7, 0)] + []));
    assert FirstTouchAt(0, limits) == (b, true) && TouchAt(b, 0, limits) == (b, false);
    assert !KeepsAt(b, 1, limits);
    hide Plays, Runs, Told, Own, KeepsAt, TouchAt, FirstTouchAt, Alone.Answers, Alone.Asks;
    ShortAnswers(b, limits);
    ShortPlays(b, limits);
    ShortOwn();
    BornRuns(events, 7, 1, 1, limits);
    ClientsAreApart(events, 1, 1, limits, 7);
  }

  lemma ShortOwn()
    ensures Own([Request(7, 0)] + ([Tick(1), Sweep(7, 1)] + ([Request(7, 0)] + [])), 7)
         == [Alone.Ask(0)] + [Alone.Look(1), Alone.Ask(0)]
  {
    var again := [Request(7, 0)] + [];
    assert Own([], 7) == [];
    hide Own;
    OwnFirst(Request(7, 0), [], 7);
    OwnSwept(1, 1, again, 7);
    OwnFirst(Request(7, 0), [Tick(1), Sweep(7, 1)] + again, 7);
  }

  lemma ShortPlays(b: Bucket, limits: Limits)
    requires FirstTouchAt(0, limits).0 == b && !KeepsAt(b, 1, limits)
    ensures Plays(None, 0, 0, [Request(7, 0)] + ([Tick(1), Sweep(7, 1)] + ([Request(7, 0)] + [])), 7, 1, 1, limits)
  {
    var again := [Request(7, 0)] + [];
    PlaysRequest(None, 1, 1, 0, [], 7, 1, 1, limits);
    PlaysSweep(b, 0, 0, 1, again, 7, 1, 1, limits);
    PlaysRequest(None, 0, 0, 0, [Tick(1), Sweep(7, 1)] + again, 7, 1, 1, limits);
  }

  lemma ShortAnswers(b: Bucket, limits: Limits)
    requires FirstTouchAt(0, limits) == (b, true) && TouchAt(b, 0, limits) == (b, false) && !KeepsAt(b, 1, limits)
    ensures var events := [Alone.Ask(0)] + [Alone.Look(1), Alone.Ask(0)];
            && Alone.Answers(None, events, limits) == [true, true]
            && Alone.Asks(events) == [Alone.Ask(0), Alone.Ask(0)]
            && Alone.Answers(None, Alone.Asks(events), limits) == [true, false]
  {
    hide TouchAt, FirstTouchAt, KeepsAt;
    var events := [Alone.Ask(0)] + [Alone.Look(1), Alone.Ask(0)];
    var again := [Alone.Ask(0)];
    assert again[1..] == [] && events[1..][1..] == again;
    assert Alone.Answers(None, again, limits) == [true] && Alone.Answers(Some(b), again, limits) == [false];
    assert Alone.Answers(Some(b), events[1..], limits) == [] + [true];
    assert Alone.Asks(again) == again && Alone.Asks(events[1..]) == [] + again;
    assert [Alone.Ask(0), Alone.Ask(0)][1..] == again;
  }

  /**
   With sweeps a second or more apart and the clock's margins kept, every client of
   the packed limiter is kept to its burst and rate if and only if the stale age
   refills the burst and no request is late, unless none is ever granted.
   */
  lemma ClientsKeptIff(tokens: U32, rate: U32, gap: nat, late: nat)
    requires COST <= gap && gap + Leftover(late) < TWO_31
    ensures var limits := Limits(rate, BurstMillitokens(tokens));
            ClientsKept(limits, gap, late) <==> Unhurried(limits, late)
  {
    hide Runs, Own, Told, Races.Grants, Alone.Answers;
    var limits := Limits(rate, BurstMillitokens(tokens));
    if Unhurried(limits, late) {
      forall events: seq<Event>, key: Key, from: nat, until: nat
        | Runs(BORN, events, gap, late, limits) && Spans(events, key, from, until)
        ensures COST * Races.Grants(Told(BORN, events, gap, late, limits, key))
             <= limits.burst + limits.rate * (until - from)
      {
        ClientsAreApart(events, gap, late, limits, key);
        OwnNotBefore(BORN, events, gap, late, limits, key, 0);
        LateFree(Own(events, key), from, until, late, limits);
      }
    } else {
      var events, until := SomeLifeOverspends(tokens, rate, gap, late);
      ClientsAreApart(events, gap, late, limits, 0);
      assert Spans(events, 0, 0, until);
      assert !ClientsKept(limits, gap, late);
    }
  }
}
