/**
 That the limiter of src/rate_limit.rs denies no one within their limits: a client
 whose every stretch of requests keeps to burst and rate is granted them all,
 whatever is swept in between, and one that is denied exceeded them somewhere.
 */
module BucketFairness {
  import opened Options
  import opened TokenBucket
  import opened Words
  import Clock = BucketClock
  import opened BucketRaces
  import opened BucketForgetting
  import opened BucketSweeps
  import opened BucketLives

  /** Clock reads in order. */
  predicate InOrder(ts: seq<nat>) {
    forall i, j :: 0 <= i <= j < |ts| ==> ts[i] <= ts[j]
  }

  /** What the limits leave over for requests `i` to `j`, theirs included. */
  function Slack(ts: seq<nat>, i: nat, j: nat, limits: Limits): int
    requires i <= j < |ts| && ts[i] <= ts[j]
  {
    limits.burst + Refilled(limits, ts[j] - ts[i]) - COST * (j - i + 1)
  }

  /** Every stretch of requests keeps to burst and rate. */
  ghost predicate Conforms(ts: seq<nat>, limits: Limits) {
    InOrder(ts) && forall i, j :: 0 <= i <= j < |ts| ==> Slack(ts, i, j, limits) >= 0
  }

  /** The times of the requests. */
  function TimesOf(events: seq<Event>): seq<nat> {
    if events == [] then []
    else (if events[0].Ask? then [events[0].t] else []) + TimesOf(events[1..])
  }

  /** After requests `0` to `n - 1`, all granted, the bucket holds what one of their stretches left over. */
  ghost predicate Leaves(o: Option<Bucket>, ts: seq<nat>, n: nat, limits: Limits) {
    o.Some? ==>
      && 0 < n <= |ts| && o.value.stamp == ts[n - 1]
      && exists i :: 0 <= i < n && ts[i] <= ts[n - 1] && o.value.tokens == Slack(ts, i, n - 1, limits)
  }

  lemma AskLeaves(o: Option<Bucket>, ts: seq<nat>, n: nat, limits: Limits)
    requires Conforms(ts, limits) && n < |ts| && Leaves(o, ts, n, limits)
    ensures Answer(o, Ask(ts[n]), limits) == [true] && Leaves(Next(o, Ask(ts[n]), limits), ts, n + 1, limits)
  {
    var next := Next(o, Ask(ts[n]), limits).value;
    assert Slack(ts, n, n, limits) >= 0;
    assert Refilled(limits, 0) == 0;
    if o.Some? {
      var i :| 0 <= i < n && ts[i] <= ts[n - 1] && o.value.tokens == Slack(ts, i, n - 1, limits);
      var filled := Filled(o.value, ts[n], limits);
      assert Refilled(limits, ts[n] - ts[n - 1]) == (ts[n] - ts[n - 1]) * limits.rate;
      RefilledAdds(limits, ts[n - 1] - ts[i], ts[n] - ts[n - 1]);
      hide Refilled;
      assert Slack(ts, i, n, limits) >= 0;
      if filled < limits.burst {
        assert filled - COST == Slack(ts, i, n, limits);
      } else {
        assert filled - COST == Slack(ts, n, n, limits);
      }
    } else {
      assert next.tokens == Slack(ts, n, n, limits);
    }
  }

  lemma LookLeaves(o: Option<Bucket>, t: nat, ts: seq<nat>, n: nat, limits: Limits)
    requires Leaves(o, ts, n, limits)
    ensures Leaves(Next(o, Look(t), limits), ts, n, limits)
  {
  }

  lemma {:induction false} ConformingFrom(o: Option<Bucket>, events: seq<Event>, ts: seq<nat>, n: nat, limits: Limits)
    requires Conforms(ts, limits) && n <= |ts| && TimesOf(events) == ts[n..] && Leaves(o, ts, n, limits)
    ensures false !in Answers(o, events, limits)
    decreases |events|
  {
    hide Conforms, Leaves, Next, Answer;
    if events != [] {
      var e, rest := events[0], events[1..];
      if e.Ask? {
        assert ts[n..][0] == e.t && TimesOf(rest) == ts[n..][1..];
        assert ts[n..][1..] == ts[n + 1..];
        AskLeaves(o, ts, n, limits);
        ConformingFrom(Next(o, e, limits), rest, ts, n + 1, limits);
      } else {
        assert [] + TimesOf(rest) == TimesOf(rest);
        LookLeaves(o, e.t, ts, n, limits);
        ConformingFrom(Next(o, e, limits), rest, ts, n, limits);
        assert Answer(o, e, limits) == [] by { LookAnswers(o, e.t, limits); }
      }
    }
  }

  lemma LookAnswers(o: Option<Bucket>, t: nat, limits: Limits)
    ensures Answer(o, Look(t), limits) == []
  {
  }

  /** Whoever conforms is granted everything, however often and whenever a sweep looks. */
  lemma ConformingIsGranted(events: seq<Event>, limits: Limits)
    requires Conforms(TimesOf(events), limits)
    ensures false !in Answers(None, events, limits)
  {
    hide Conforms;
    var ts := TimesOf(events);
    assert ts[0..] == ts;
    ConformingFrom(None, events, ts, 0, limits);
  }

  /** In every life within the clock's margins a client that conforms is granted everything by the packed limiter. */
  lemma ConformingClientIsGranted(events: seq<Clock.Event>, gap: nat, late: nat, limits: Limits, key: Clock.Key)
    requires Clock.Runs(Clock.BORN, events, gap, late, limits) && gap + Clock.Leftover(late) < TWO_31
    requires Conforms(TimesOf(Own(events, key)), limits)
    ensures false !in Told(Clock.BORN, events, gap, late, limits, key)
  {
    hide Clock.Runs, Told, Own, Conforms, TimesOf, Answers;
    ClientsAreApart(events, gap, late, limits, key);
    ConformingIsGranted(Own(events, key), limits);
  }

  // ----- and only whoever conforms -----

  function AsksAt(ts: seq<nat>): (asks: seq<Event>)
    ensures |asks| == |ts| && forall i :: 0 <= i < |ts| ==> asks[i] == Ask(ts[i])
  {
    seq(|ts|, i requires 0 <= i < |ts| => Ask(ts[i]))
  }

  lemma {:induction false} TimesOfAsks(ts: seq<nat>)
    ensures TimesOf(AsksAt(ts)) == ts
    decreases |ts|
  {
    if ts != [] {
      TimesOfAsks(ts[1..]);
      assert AsksAt(ts)[1..] == AsksAt(ts[1..]);
      assert ts == [ts[0]] + ts[1..];
    }
  }

  /** What a stretch of requests can cost, whatever bucket it finds. */
  lemma StretchBound(o: Option<Bucket>, ts: seq<nat>, limits: Limits)
    requires ts != [] && InOrder(ts)
    requires o.Some? ==> o.value.tokens <= limits.burst && o.value.stamp <= ts[0]
    ensures Cost(o, AsksAt(ts), limits) <= limits.burst + Refilled(limits, ts[|ts| - 1] - ts[0])
  {
    var asks, until := AsksAt(ts), ts[|ts| - 1];
    var next := Next(o, Ask(ts[0]), limits).value;
    assert next.stamp == ts[0];
    assert COST * Grants(Answer(o, Ask(ts[0]), limits)) + next.tokens <= limits.burst by {
      FirstCosts(o, ts[0], limits);
    }
    CostOne(o, asks, limits);
    hide Refilled, Cost, Next, Answer;
    UnsweptBound(next, asks[1..], until, limits);
  }

  lemma FirstCosts(o: Option<Bucket>, t: nat, limits: Limits)
    requires o.Some? ==> o.value.tokens <= limits.burst
    ensures COST * Grants(Answer(o, Ask(t), limits)) + Next(o, Ask(t), limits).value.tokens <= limits.burst
  {
    var granted := Answer(o, Ask(t), limits)[0];
    assert Answer(o, Ask(t), limits) == [granted] && [granted][1..] == [];
    assert Grants([granted]) == if granted then 1 else 0;
  }

  lemma {:induction false} StampKept(o: Option<Bucket>, ts: seq<nat>, until: nat, limits: Limits)
    requires forall i :: 0 <= i < |ts| ==> ts[i] <= until
    requires o.Some? ==> o.value.tokens <= limits.burst && o.value.stamp <= until
    ensures var after := After(o, AsksAt(ts), limits);
            after.Some? ==> after.value.tokens <= limits.burst && after.value.stamp <= until
    decreases |ts|
  {
    if ts != [] {
      assert AsksAt(ts)[1..] == AsksAt(ts[1..]);
      StampKept(Next(o, Ask(ts[0]), limits), ts[1..], until, limits);
    }
  }

  lemma AsksConcat(a: seq<nat>, b: seq<nat>)
    ensures AsksAt(a + b) == AsksAt(a) + AsksAt(b)
  {
  }

  /** A stretch of requests all granted finds some bucket, and is granted all from it. */
  lemma StretchGranted(before: seq<nat>, stretch: seq<nat>, behind: seq<nat>, limits: Limits)
    requires false !in Answers(None, AsksAt(before + (stretch + behind)), limits)
    ensures false !in Answers(After(None, AsksAt(before), limits), AsksAt(stretch), limits)
  {
    hide Answers, After, AsksAt;
    var o := After(None, AsksAt(before), limits);
    AsksConcat(before, stretch + behind);
    AsksConcat(stretch, behind);
    AnswersConcat(None, AsksAt(before), AsksAt(stretch) + AsksAt(behind), limits);
    AnswersConcat(o, AsksAt(stretch), AsksAt(behind), limits);
    var x, y := Answers(o, AsksAt(stretch), limits), Answers(After(o, AsksAt(stretch), limits), AsksAt(behind), limits);
    assert forall flag :: flag in x ==> flag in x + y;
  }

  lemma GrantedStretchConforms(ts: seq<nat>, i: nat, j: nat, limits: Limits)
    requires InOrder(ts) && i <= j < |ts| && false !in Answers(None, AsksAt(ts), limits)
    ensures Slack(ts, i, j, limits) >= 0
  {
    hide Answers, After, AsksAt, Refilled;
    var before, stretch, behind := ts[..i], ts[i..j + 1], ts[j + 1..];
    var o := After(None, AsksAt(before), limits);
    assert before + (stretch + behind) == ts;
    StretchGranted(before, stretch, behind, limits);
    StampKept(None, before, ts[i], limits);
    AllGranted(Answers(o, AsksAt(stretch), limits));
    AnswersCount(o, AsksAt(stretch), limits);
    AsksAreAsks(stretch);
    assert stretch[|stretch| - 1] == ts[j] && stretch[0] == ts[i];
    StretchBound(o, stretch, limits);
  }

  lemma {:induction false} AsksAreAsks(ts: seq<nat>)
    ensures |Asks(AsksAt(ts))| == |ts|
    decreases |ts|
  {
    if ts != [] {
      assert AsksAt(ts)[1..] == AsksAt(ts[1..]);
      AsksAreAsks(ts[1..]);
    }
  }

  /**
   A client whose requests come in order, never swept, is granted all of them if and
   only if every stretch of them keeps to burst and rate.
   */
  lemma GrantedIffConforms(ts: seq<nat>, limits: Limits)
    requires InOrder(ts)
    ensures false !in Answers(None, AsksAt(ts), limits) <==> Conforms(ts, limits)
  {
    hide Answers;
    if Conforms(ts, limits) {
      TimesOfAsks(ts);
      ConformingIsGranted(AsksAt(ts), limits);
    }
    if false !in Answers(None, AsksAt(ts), limits) {
      forall i, j | 0 <= i <= j < |ts|
        ensures Slack(ts, i, j, limits) >= 0
      {
        GrantedStretchConforms(ts, i, j, limits);
      }
    }
  }
}
