/**
 The arithmetic of src/rate_limit.rs: one bucket packed in 64 bits, and the
 same bucket on a clock that never wraps.
 */
module TokenBucket {
  import opened Options
  import opened Words

  type U32 = x: int | 0 <= x < 0x1_0000_0000
  type U64 = x: int | 0 <= x < 0x1_0000_0000_0000_0000

  /** Millitokens one request costs. */
  const COST: nat := 1000
  const BACKWARDS_MS: nat := TWO_31
  const STALE_MS: nat := TWO_30

  /** Millitokens per millisecond, and the capacity in millitokens. */
  datatype Limits = Limits(rate: U32, burst: U32)

  function Min(a: int, b: int): int {
    if a < b then a else b
  }

  /** A burst in whole tokens, as configured: saturates at 32 bits. */
  function BurstMillitokens(tokens: U32): U32 {
    Min(tokens * COST, TWO_32 - 1)
  }

  // ----- the packed cell -----

  function Pack(now: U32, tokens: U32): U64 {
    now * TWO_32 + tokens
  }

  function Unpack(cell: U64): (U32, U32) {
    (cell / TWO_32, cell % TWO_32)
  }

  lemma PackRoundTrip(now: U32, tokens: U32, cell: U64)
    ensures Unpack(Pack(now, tokens)) == (now, tokens)
    ensures Pack(Unpack(cell).0, Unpack(cell).1) == cell
  {}

  /** Wrapping age of `last` at `now`; `None` when `now` is the older of the two. */
  function Elapsed(now: U32, last: U32): Option<U32> {
    var dt := (now - last) % TWO_32;
    if dt < BACKWARDS_MS then Some(dt) else None
  }

  function Refill(tokens: U32, dt: U32, limits: Limits): U32 {
    Min(tokens + dt * limits.rate, limits.burst)
  }

  /** One attempt of `consume`: the cell to swap in, and whether the request passes. */
  function Touch(cell: U64, now: U32, limits: Limits): (U64, bool) {
    var (last, tokens) := Unpack(cell);
    var (stamp, filled) := match Elapsed(now, last) {
      case Some(dt) => (now, Refill(tokens, dt, limits))
      case None => (last, tokens)
    };
    if filled >= COST then (Pack(stamp, filled - COST), true) else (Pack(stamp, filled), false)
  }

  /** A client's first request: a full bucket, less its own cost when it passes. */
  function FirstTouch(now: U32, limits: Limits): (U64, bool) {
    var granted := limits.burst >= COST;
    (Pack(now, if granted then limits.burst - COST else limits.burst), granted)
  }

  /** What the sweep leaves in the map. */
  predicate Keeps(cell: U64, now: U32, limits: Limits) {
    var (last, tokens) := Unpack(cell);
    match Elapsed(now, last)
    case None => true
    case Some(dt) => dt < STALE_MS && Refill(tokens, dt, limits) < limits.burst
  }

  // ----- the same on an unbounded clock -----

  datatype Bucket = Bucket(stamp: nat, tokens: nat)

  function Filled(b: Bucket, t: nat, limits: Limits): nat {
    if t >= b.stamp then Min(b.tokens + (t - b.stamp) * limits.rate, limits.burst) else b.tokens
  }

  function TouchAt(b: Bucket, t: nat, limits: Limits): (Bucket, bool) {
    var filled := Filled(b, t, limits);
    var stamp := if t >= b.stamp then t else b.stamp;
    if filled >= COST then (Bucket(stamp, filled - COST), true) else (Bucket(stamp, filled), false)
  }

  function FirstTouchAt(t: nat, limits: Limits): (Bucket, bool) {
    var granted := limits.burst >= COST;
    (Bucket(t, if granted then limits.burst - COST else limits.burst), granted)
  }

  predicate KeepsAt(b: Bucket, t: nat, limits: Limits) {
    t < b.stamp || (t - b.stamp < STALE_MS && Filled(b, t, limits) < limits.burst)
  }

  /** `cell` holds `b`, its stamp cut to 32 bits. */
  predicate Holds(cell: U64, b: Bucket) {
    Unpack(cell) == (b.stamp % TWO_32, b.tokens)
  }

  function TrueAge(t: nat, stamp: nat): Option<nat> {
    if t >= stamp then Some(t - stamp) else None
  }

  /** The 32-bit age agrees with the true one. */
  predicate AgeExact(t: nat, stamp: nat) {
    Elapsed(t % TWO_32, stamp % TWO_32) == TrueAge(t, stamp)
  }

  lemma WrappedDifference(t: nat, stamp: nat)
    ensures (t % TWO_32 - stamp % TWO_32) % TWO_32 == (t - stamp) % TWO_32
  {
    var q := t / TWO_32 - stamp / TWO_32;
    assert t - stamp == q * TWO_32 + (t % TWO_32 - stamp % TWO_32);
    WholeTurns(t % TWO_32 - stamp % TWO_32, q);
  }

  lemma {:induction false} WholeTurns(x: int, q: int)
    ensures (q * TWO_32 + x) % TWO_32 == x % TWO_32
    decreases if q < 0 then -q else q
  {
    if q > 0 {
      WholeTurns(x, q - 1);
      assert q * TWO_32 + x == ((q - 1) * TWO_32 + x) + TWO_32;
    } else if q < 0 {
      WholeTurns(x, q + 1);
      assert q * TWO_32 + x == ((q + 1) * TWO_32 + x) - TWO_32;
    }
  }

  /**
   Exactly when the wrapping subtraction tells the truth: a newer clock less
   than 2^31 ms ahead, or an older one 1 to 2^31 ms behind, whole turns aside.
   */
  lemma AgeExactIff(t: nat, stamp: nat)
    ensures AgeExact(t, stamp)
       <==> if t >= stamp then t - stamp < TWO_31 else 1 <= (stamp - t) % TWO_32 <= TWO_31
  {
    WrappedDifference(t, stamp);
    if t < stamp {
      var d := stamp - t;
      var q, r := d / TWO_32, d % TWO_32;
      assert t - stamp == (-q) * TWO_32 + (-r);
      WholeTurns(-r, -q);
    }
  }

  /** Where ages are exact, the packed attempt is the unbounded one. */
  lemma TouchRefines(cell: U64, b: Bucket, t: nat, limits: Limits)
    requires Holds(cell, b) && AgeExact(t, b.stamp)
    ensures Holds(Touch(cell, t % TWO_32, limits).0, TouchAt(b, t, limits).0)
    ensures Touch(cell, t % TWO_32, limits).1 == TouchAt(b, t, limits).1
  {
    var (last, tokens) := Unpack(cell);
    var filled := Filled(b, t, limits);
    assert filled < TWO_32;
    var stamp := if t >= b.stamp then t else b.stamp;
    PackRoundTrip(stamp % TWO_32, if filled >= COST then filled - COST else filled, cell);
  }

  lemma FirstTouchRefines(t: nat, limits: Limits)
    ensures Holds(FirstTouch(t % TWO_32, limits).0, FirstTouchAt(t, limits).0)
    ensures FirstTouch(t % TWO_32, limits).1 == FirstTouchAt(t, limits).1
  {
    PackRoundTrip(t % TWO_32, if limits.burst >= COST then limits.burst - COST else limits.burst, 0);
  }

  lemma KeepsRefines(cell: U64, b: Bucket, t: nat, limits: Limits)
    requires Holds(cell, b) && AgeExact(t, b.stamp)
    ensures Keeps(cell, t % TWO_32, limits) <==> KeepsAt(b, t, limits)
  {}
}

/**
 A limiter as the source holds it: limits and a map of packed cells, updated
 in place. Each method is one operation run alone.
 */
module RateLimiter {
  import opened TokenBucket

  type Key = nat

  /** `observed`: what the loop's load and failed swaps read, in order; the last swap succeeds. */
  method Consume(observed: seq<U64>, now: U32, limits: Limits) returns (next: U64, granted: bool)
    requires observed != []
    ensures (next, granted) == Touch(observed[|observed| - 1], now, limits)
  {
    var cur, k := observed[0], 0;
    while true
      invariant 0 <= k < |observed| && cur == observed[k]
      decreases |observed| - k
    {
      var (last, tokens) := Unpack(cur);
      var stamp: U32, filled: U32 := last, tokens;
      var age := Elapsed(now, last);
      if age.Some? {
        stamp, filled := now, Refill(tokens, age.value, limits);
      }
      if filled >= COST {
        next, granted := Pack(stamp, filled - COST), true;
      } else {
        next, granted := Pack(stamp, filled), false;
      }
      if k == |observed| - 1 {
        return;
      }
      k := k + 1;
      cur := observed[k];
    }
  }

  class Limiter {
    var limits: Limits
    var buckets: map<Key, U64>

    constructor (rps: U32, burst: U32)
      ensures limits == Limits(rps, BurstMillitokens(burst)) && buckets == map[]
    {
      limits := Limits(rps, BurstMillitokens(burst));
      buckets := map[];
    }

    /** New limits; every client keeps the tokens it has. */
    method Reconfigure(rps: U32, burst: U32)
      modifies this
      ensures limits == Limits(rps, BurstMillitokens(burst)) && buckets == old(buckets)
    {
      limits := Limits(rps, BurstMillitokens(burst));
    }

    method CheckAt(key: Key, now: U32) returns (granted: bool)
      modifies this
      ensures limits == old(limits)
      ensures var (cell, ok) := if key in old(buckets) then Touch(old(buckets)[key], now, limits)
                                else FirstTouch(now, limits);
              granted == ok && buckets == old(buckets)[key := cell]
    {
      var cell: U64;
      if key in buckets {
        cell, granted := Consume([buckets[key]], now, limits);
      } else {
        granted := limits.burst >= COST;
        cell := Pack(now, if granted then limits.burst - COST else limits.burst);
      }
      buckets := buckets[key := cell];
    }

    /** Drop what a fresh bucket would replace unnoticed, and what has grown too old. */
    method SweepAt(now: U32)
      modifies this
      ensures limits == old(limits)
      ensures buckets == map k | k in old(buckets) && Keeps(old(buckets)[k], now, limits) :: old(buckets)[k]
    {
      var todo := buckets.Keys;
      while todo != {}
        invariant todo <= buckets.Keys <= old(buckets).Keys && limits == old(limits)
        invariant forall k :: k in buckets ==> buckets[k] == old(buckets)[k]
        invariant forall k :: k in old(buckets) && k !in todo ==>
                    (k in buckets <==> Keeps(old(buckets)[k], now, limits))
        decreases todo
      {
        var k :| k in todo;
        if !Keeps(buckets[k], now, limits) {
          buckets := buckets - {k};
        }
        todo := todo - {k};
      }
    }
  }
}
