/**
 Weighted slots (src/routing/build.rs and src/routing/mod.rs): prefix sums of the
 backends' weights, who owns which slot, and how often a slot comes up.
 */
module Weights {
  import opened Options

  /** A backend as selection sees it; `addr` is what it dials and what its health goes by. */
  datatype Choice = Choice(weight: nat, rejects: bool, filtered: bool, addr: nat)

  /** The weight of the first `n`. */
  function Prefix(cs: seq<Choice>, n: nat): nat
    requires n <= |cs|
  {
    if n == 0 then 0 else Prefix(cs, n - 1) + cs[n - 1].weight
  }

  function Total(cs: seq<Choice>): nat {
    Prefix(cs, |cs|)
  }

  function Cumulative(cs: seq<Choice>): (r: seq<nat>)
    ensures |r| == |cs| && forall i :: 0 <= i < |cs| ==> r[i] == Prefix(cs, i + 1)
  {
    seq(|cs|, i requires 0 <= i < |cs| => Prefix(cs, i + 1))
  }

  method Accumulate(cs: seq<Choice>) returns (cumulative: seq<nat>, total: nat)
    ensures cumulative == Cumulative(cs) && total == Total(cs)
  {
    cumulative, total := [], 0;
    for i := 0 to |cs|
      invariant total == Prefix(cs, i) && |cumulative| == i
      invariant forall k :: 0 <= k < i ==> cumulative[k] == Prefix(cs, k + 1)
    {
      total := total + cs[i].weight;
      cumulative := cumulative + [total];
    }
  }

  lemma {:induction false} PrefixGrows(cs: seq<Choice>, i: nat, j: nat)
    requires i <= j <= |cs|
    ensures Prefix(cs, i) <= Prefix(cs, j)
    decreases j
  {
    if i < j {
      PrefixGrows(cs, i, j - 1);
    }
  }

  // ----- owners -----

  predicate Owns(cs: seq<Choice>, i: nat, slot: nat) {
    i < |cs| && Prefix(cs, i) <= slot < Prefix(cs, i + 1)
  }

  /** A slot below the total has one owner, and it has weight. */
  lemma OneOwner(cs: seq<Choice>, i: nat, j: nat, slot: nat)
    requires Owns(cs, i, slot) && Owns(cs, j, slot)
    ensures i == j && cs[i].weight > 0
  {
    if i < j {
      PrefixGrows(cs, i + 1, j);
    } else if j < i {
      PrefixGrows(cs, j + 1, i);
    }
  }

  function Owner(cs: seq<Choice>, slot: nat): (i: nat)
    requires slot < Total(cs)
    ensures Owns(cs, i, slot)
  {
    OwnerFrom(cs, slot, 0)
  }

  function OwnerFrom(cs: seq<Choice>, slot: nat, i: nat): (o: nat)
    requires i <= |cs| && Prefix(cs, i) <= slot < Total(cs)
    ensures Owns(cs, o, slot)
    decreases |cs| - i
  {
    if slot < Prefix(cs, i + 1) then i else OwnerFrom(cs, slot, i + 1)
  }

  lemma OwnerIs(cs: seq<Choice>, i: nat, slot: nat)
    requires Owns(cs, i, slot)
    ensures slot < Total(cs) && Owner(cs, slot) == i
  {
    PrefixGrows(cs, i + 1, |cs|);
    OneOwner(cs, i, Owner(cs, slot), slot);
  }

  /** The walk over running sums. */
  method SlotOwner(cs: seq<Choice>, slot: nat) returns (o: Option<nat>)
    ensures o == if slot < Total(cs) then Some(Owner(cs, slot)) else None
  {
    var cumulative := 0;
    for i := 0 to |cs|
      invariant cumulative == Prefix(cs, i) <= slot
    {
      cumulative := cumulative + cs[i].weight;
      if cumulative > slot {
        OwnerIs(cs, i, slot);
        return Some(i);
      }
    }
    return None;
  }

  /** The binary search over the precomputed sums lands on the owner. */
  method PartitionPoint(cs: seq<Choice>, cumulative: seq<nat>, slot: nat) returns (k: nat)
    requires cumulative == Cumulative(cs) && slot < Total(cs)
    ensures k == Owner(cs, slot)
  {
    var lo, hi := 0, |cumulative|;
    while lo < hi
      invariant 0 <= lo <= hi <= |cs|
      invariant Prefix(cs, lo) <= slot
      invariant hi < |cs| ==> slot < Prefix(cs, hi + 1)
    {
      var mid := (lo + hi) / 2;
      if cumulative[mid] <= slot {
        lo := mid + 1;
      } else {
        hi := mid;
      }
    }
    OwnerIs(cs, lo, slot);
    k := lo;
  }

  // ----- how often -----

  /** How many of the `n` numbers from `from` on satisfy `p`. */
  function Hits(p: nat -> bool, from: nat, n: nat): nat {
    if n == 0 then 0 else Hits(p, from, n - 1) + if p(from + n - 1) then 1 else 0
  }

  ghost predicate Periodic(p: nat -> bool, period: nat) {
    forall c: nat :: p(c + period) == p(c)
  }

  lemma {:induction false} HitsSlide(p: nat -> bool, from: nat, n: nat)
    ensures Hits(p, from, n + 1) == (if p(from) then 1 else 0) + Hits(p, from + 1, n)
  {
    if n > 0 {
      HitsSlide(p, from, n - 1);
    }
  }

  /** Every window of one period sees the same hits. */
  lemma {:induction false} EveryWindow(p: nat -> bool, period: nat, from: nat)
    requires Periodic(p, period)
    ensures Hits(p, from, period) == Hits(p, 0, period)
    decreases from
  {
    if from > 0 {
      EveryWindow(p, period, from - 1);
      HitsSlide(p, from - 1, period);
      assert p((from - 1) + period) == p(from - 1);
    }
  }

  lemma {:induction false} HitsOfConcat(p: nat -> bool, from: nat, m: nat, n: nat)
    ensures Hits(p, from, m + n) == Hits(p, from, m) + Hits(p, from + m, n)
  {
    if n > 0 {
      HitsOfConcat(p, from, m, n - 1);
    }
  }

  lemma {:induction false} SameHits(p: nat -> bool, q: nat -> bool, from: nat, n: nat)
    requires forall c :: from <= c < from + n ==> p(c) == q(c)
    ensures Hits(p, from, n) == Hits(q, from, n)
  {
    if n > 0 {
      SameHits(p, q, from, n - 1);
    }
  }

  function Clamp(x: int, most: nat): nat {
    if x < 0 then 0 else if x > most then most else x
  }

  /** Below `n`, a backend owns as many slots as `n` reaches into its range. */
  lemma {:induction false} SlotsBelow(cs: seq<Choice>, i: nat, n: nat)
    requires i < |cs|
    ensures Hits((c: nat) => Owns(cs, i, c), 0, n) == Clamp(n - Prefix(cs, i), cs[i].weight)
  {
    if n > 0 {
      SlotsBelow(cs, i, n - 1);
    }
  }

  /** Over the whole range, exactly its weight. */
  lemma ShareIsWeight(cs: seq<Choice>, i: nat)
    requires i < |cs|
    ensures Hits((c: nat) => Owns(cs, i, c), 0, Total(cs)) == cs[i].weight
  {
    SlotsBelow(cs, i, Total(cs));
    PrefixGrows(cs, i + 1, |cs|);
  }

  /** The slot of a counter is the counter modulo the total, so any run of that many picks serves each by weight. */
  lemma RotationShares(cs: seq<Choice>, i: nat, from: nat)
    requires i < |cs| && Total(cs) > 0
    ensures Hits((c: nat) => Owner(cs, c % Total(cs)) == i, from, Total(cs)) == cs[i].weight
  {
    var total := Total(cs);
    var p := (c: nat) => Owner(cs, c % total) == i;
    forall c: nat
      ensures p(c + total) == p(c)
    {
      TurnsOver(c, total);
    }
    EveryWindow(p, total, from);
    var q := (c: nat) => Owns(cs, i, c);
    forall c: nat | c < total
      ensures p(c) == q(c)
    {
      SmallModulo(c, total);
      if q(c) {
        OwnerIs(cs, i, c);
      }
    }
    SameHits(p, q, 0, total);
    ShareIsWeight(cs, i);
  }

  /** Multiplication behind a name, so that proofs go by its laws. */
  function Times(a: nat, b: nat): nat {
    a * b
  }

  lemma TimesLaws(a: nat, b: nat)
    ensures Times(0, b) == 0 && Times(a + 1, b) == Times(a, b) + b
  {
    assert (a + 1) * b == a * b + b;
  }

  lemma Quotient(n: nat, total: nat)
    requires total > 0
    ensures n == Times(n / total, total) + n % total && n % total < total
  {
  }

  lemma SmallModulo(c: nat, total: nat)
    requires c < total
    ensures c % total == c
  {
  }

  lemma TurnsOver(c: nat, total: nat)
    requires total > 0
    ensures (c + total) % total == c % total && (c + total) / total == c / total + 1
  {
    var q, r := c / total, c % total;
    assert c == q * total + r;
    assert c + total == (q + 1) * total + r;
    Divides(c + total, total, q + 1, r);
  }

  lemma Divides(n: nat, total: nat, q: nat, r: nat)
    requires total > 0 && n == q * total + r && r < total
    ensures n / total == q && n % total == r
  {
    OneQuotient(total, q, r, n / total, n % total);
  }

  lemma OneQuotient(total: nat, q: nat, r: nat, q': nat, r': nat)
    requires q * total + r == q' * total + r' && r < total && r' < total
    ensures q == q' && r == r'
  {
    if q < q' {
      NextMultiple(q, q', total);
    } else if q' < q {
      NextMultiple(q', q, total);
    }
  }

  lemma {:induction false} NextMultiple(a: nat, b: nat, total: nat)
    requires a < b
    ensures a * total + total <= b * total
  {
    assert b * total == (b - 1) * total + total;
    if a < b - 1 {
      NextMultiple(a, b - 1, total);
    }
  }
}
