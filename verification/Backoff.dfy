/** Full-jitter exponential backoff (src/dataplane/remote.rs), in seconds. */
module Backoffs {
  import opened Options
  import Numbers

  const FIRST_BACKOFF: nat := 1
  const HOLD: nat := 30

  /** The ceiling after `k` waits in a row. */
  function Ceiling(k: nat): (c: nat)
    ensures FIRST_BACKOFF <= c <= HOLD
  {
    if FIRST_BACKOFF * Numbers.Pow(2, k) < HOLD then FIRST_BACKOFF * Numbers.Pow(2, k) else HOLD
  }

  /** One second at first, twice as long after each wait, half a minute at most. */
  lemma CeilingDoubles(k: nat)
    ensures Ceiling(0) == 1
    ensures Ceiling(k + 1) == if Ceiling(k) < 15 then 2 * Ceiling(k) else 30
  {
    assert Numbers.Pow(2, 0) == 1;
    assert Numbers.Pow(2, k + 1) == 2 * Numbers.Pow(2, k);
  }

  /** Uniform below the ceiling: `jitter` is the random share of it. */
  function Jittered(ceiling: nat, jitter: real): (wait: real)
    requires ceiling > 0 && 0.0 <= jitter < 1.0
    ensures 0.0 <= wait < ceiling as real
  {
    assert ceiling as real * (1.0 - jitter) > 0.0;
    ceiling as real * jitter
  }

  class Backoff {
    var ceiling: nat
    ghost var waits: nat                      // since the last reset

    ghost predicate Valid()
      reads this
    {
      ceiling == Ceiling(waits)
    }

    constructor ()
      ensures Valid() && waits == 0
    {
      ceiling, waits := FIRST_BACKOFF, 0;
    }

    /** Doubling a capped ceiling is capping the doubled one. */
    method NextCeiling() returns (c: nat)
      requires Valid()
      modifies this
      ensures Valid() && waits == old(waits) + 1
      ensures c == Ceiling(old(waits))
    {
      c := ceiling;
      ceiling := if c * 2 < HOLD then c * 2 else HOLD;
      waits := waits + 1;
    }

    method Wait(jitter: real) returns (wait: real)
      requires Valid() && 0.0 <= jitter < 1.0
      modifies this
      ensures Valid() && waits == old(waits) + 1
      ensures wait == Jittered(Ceiling(old(waits)), jitter)
    {
      var c := NextCeiling();
      wait := Jittered(c, jitter);
    }

    /** Never shorter than the controller asked, up to the hold, and never longer than both allow. */
    method WaitAtLeast(floor: Option<real>, jitter: real) returns (wait: real)
      requires Valid() && 0.0 <= jitter < 1.0
      modifies this
      ensures Valid() && waits == old(waits) + 1
      ensures 0.0 <= wait <= HOLD as real
      ensures floor.Some? ==> wait >= floor.value || wait == HOLD as real
      ensures wait < Ceiling(old(waits)) as real || (floor.Some? && wait <= floor.value)
      ensures wait >= Jittered(Ceiling(old(waits)), jitter)
    {
      wait := Wait(jitter);
      if floor.Some? {
        var capped := if floor.value < HOLD as real then floor.value else HOLD as real;
        if capped > wait {
          wait := capped;
        }
      }
    }

    method Reset()
      modifies this
      ensures Valid() && waits == 0
    {
      ceiling, waits := FIRST_BACKOFF, 0;
    }
  }
}
