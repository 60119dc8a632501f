/**
 Durations as text (src/config/parsing.rs), in nanoseconds. `rnd` is the
 rounding of 64-bit floating point, which the parser computes with: where that
 gives infinity, any real past 2^64 does as well, for the product is cut to 64
 bits.
 */
module Durations {
  import opened Options
  import opened Words
  import opened Numbers
  import opened Ascii

  const SECOND: nat := 1_000_000_000

  datatype Unit = Nanosecond | Microsecond | GreekMicrosecond | Millisecond | Second | Minute | Hour

  function Suffix(u: Unit): (s: string)
    ensures 1 <= |s| <= 2
  {
    match u
    case Nanosecond => "ns"
    case Microsecond => "us"
    case GreekMicrosecond => "\U{03BC}s"
    case Millisecond => "ms"
    case Second => "s"
    case Minute => "m"
    case Hour => "h"
  }

  function Nanos(u: Unit): nat {
    match u
    case Nanosecond => 1
    case Microsecond => 1_000
    case GreekMicrosecond => 1_000
    case Millisecond => 1_000_000
    case Second => SECOND
    case Minute => 60_000_000_000
    case Hour => 3_600_000_000_000
  }

  /** In the order the parser tries them. */
  const UNITS: seq<Unit> := [Nanosecond, Microsecond, GreekMicrosecond, Millisecond, Second, Minute, Hour]

  datatype Problem = Empty | NoUnit | BadFormat | BadNumber | Negative

  /** `Overflows`: the sum passes what a duration holds, and adding it panics. */
  datatype Result = Ok(nanos: nat) | Err(problem: Problem) | Overflows

  /** The longest duration: a 64-bit number of seconds and a second short of a nanosecond. */
  const LONGEST: nat := TWO_64 * SECOND - 1

  // ----- parsing -----

  predicate IsNumberChar(c: char) {
    IsDigit(c) || c == '.' || c == '-'
  }

  function NumberLength(s: string): (n: nat)
    ensures n <= |s|
  {
    if s == "" || !IsNumberChar(s[0]) then 0 else 1 + NumberLength(s[1..])
  }

  function FirstUnit(units: seq<Unit>, s: string): (u: Option<Unit>)
    ensures u.Some? ==> StartsWith(s, Suffix(u.value))
  {
    if units == [] then None
    else if StartsWith(s, Suffix(units[0])) then Some(units[0])
    else FirstUnit(units[1..], s)
  }

  /** One segment's nanoseconds: a float product, cut to 64 bits. */
  function Amount(number: real, u: Unit, rnd: real -> real): nat {
    ToWord(rnd(rnd(number) * Nanos(u) as real))
  }

  /** The sum of the segments onto `total`, up to the first that is not one or is too much. */
  function Segments(total: nat, s: string, rnd: real -> real): Result
    decreases |s|, 0
  {
    if s == "" then Ok(total)
    else
      var n := NumberLength(s);
      if n == |s| then Err(NoUnit)
      else
        var u := FirstUnit(UNITS, s[n..]);
        var number := ParseNumber(s[..n]);
        if u.None? then Err(BadFormat)
        else if number.None? then Err(BadNumber)
        else if rnd(number.value) < 0.0 then Err(Negative)
        else Onward(total + Amount(number.value, u.value, rnd), s[n + |Suffix(u.value)|..], rnd)
  }

  function Onward(sum: nat, rest: string, rnd: real -> real): Result
    decreases |rest|, 1
  {
    if sum > LONGEST then Overflows else Segments(sum, rest, rnd)
  }

  /** Unicode's White_Space. */
  predicate IsSpace(c: char) {
    || '\t' <= c <= '\r'
    || c == ' '
    || c == '\U{0085}'
    || c == '\U{00A0}'
    || c == '\U{1680}'
    || '\U{2000}' <= c <= '\U{200A}'
    || c == '\U{2028}'
    || c == '\U{2029}'
    || c == '\U{202F}'
    || c == '\U{205F}'
    || c == '\U{3000}'
  }

  function TrimStart(s: string): string {
    if s != "" && IsSpace(s[0]) then TrimStart(s[1..]) else s
  }

  function TrimEnd(s: string): string {
    if s != "" && IsSpace(s[|s| - 1]) then TrimEnd(s[..|s| - 1]) else s
  }

  /** `lower` maps a text to its Unicode lowercase. */
  function Normal(s: string, lower: string -> string): string {
    lower(TrimEnd(TrimStart(s)))
  }

  /** On ASCII text, lowercase is ASCII lowercase. */
  ghost predicate LowersAscii(lower: string -> string) {
    forall s :: (forall i :: 0 <= i < |s| ==> s[i] < '\U{0080}') ==> lower(s) == Lower(s)
  }

  /** A whole number of seconds without a unit, if it fits. */
  function BareSeconds(s: string): Option<nat> {
    var body := if s != "" && s[0] == '+' then s[1..] else s;
    if body != "" && AllDigits(body) && Value(body) < TWO_64 then Some(Value(body)) else None
  }

  function Parsed(s: string, lower: string -> string, rnd: real -> real): Result {
    var t := Normal(s, lower);
    if BareSeconds(t).Some? then Ok(BareSeconds(t).value * SECOND)
    else if t == "" then Err(Empty)
    else Segments(0, t, rnd)
  }

  method FindUnit(s: string) returns (u: Option<Unit>)
    ensures u == FirstUnit(UNITS, s)
  {
    for i := 0 to |UNITS|
      invariant FirstUnit(UNITS, s) == FirstUnit(UNITS[i..], s)
    {
      assert UNITS[i..][0] == UNITS[i] && UNITS[i..][1..] == UNITS[i + 1..];
      if StartsWith(s, Suffix(UNITS[i])) {
        return Some(UNITS[i]);
      }
    }
    u := None;
  }

  /** What the front segment, as read, makes of the whole. */
  lemma FrontSegment(total: nat, s: string, rnd: real -> real, n: nat, u: Option<Unit>, number: Option<real>)
    requires s != "" && n == NumberLength(s)
    requires n < |s| ==> u == FirstUnit(UNITS, s[n..]) && number == ParseNumber(s[..n])
    ensures n == |s| ==> Segments(total, s, rnd) == Err(NoUnit)
    ensures n < |s| && u.None? ==> Segments(total, s, rnd) == Err(BadFormat)
    ensures n < |s| && u.Some? && number.None? ==> Segments(total, s, rnd) == Err(BadNumber)
    ensures n < |s| && u.Some? && number.Some? && rnd(number.value) < 0.0 ==> Segments(total, s, rnd) == Err(Negative)
    ensures n < |s| && u.Some? ==> n + |Suffix(u.value)| <= |s|
    ensures n < |s| && u.Some? && number.Some? && rnd(number.value) >= 0.0 ==>
              Segments(total, s, rnd)
              == Onward(total + Amount(number.value, u.value, rnd), s[n + |Suffix(u.value)|..], rnd)
  {
    hide ParseNumber, NumberLength, FirstUnit, Amount, Suffix, Onward;
  }

  lemma EmptyIsRead(total: nat, rnd: real -> real)
    ensures Segments(total, "", rnd) == Ok(total)
  {
  }

  method ParseSegments(s: string, rnd: real -> real) returns (r: Result)
    ensures r == Segments(0, s, rnd)
  {
    hide Segments, Amount, FirstUnit, ParseNumber, NumberLength;
    var total: nat, rest := 0, s;
    while rest != ""
      invariant Segments(0, s, rnd) == Segments(total, rest, rnd)
      decreases |rest|
    {
      var n := NumberLength(rest);
      if n == |rest| {
        FrontSegment(total, rest, rnd, n, None, None);
        return Err(NoUnit);
      }
      var u := FindUnit(rest[n..]);
      var number := ParseNumber(rest[..n]);
      FrontSegment(total, rest, rnd, n, u, number);
      if u.None? {
        return Err(BadFormat);
      }
      if number.None? {
        return Err(BadNumber);
      }
      if rnd(number.value) < 0.0 {
        return Err(Negative);
      }
      total := total + Amount(number.value, u.value, rnd);
      if total > LONGEST {
        return Overflows;
      }
      rest := rest[n + |Suffix(u.value)|..];
    }
    EmptyIsRead(total, rnd);
    return Ok(total);
  }

  method ParseDuration(s: string, lower: string -> string, rnd: real -> real) returns (r: Result)
    ensures r == Parsed(s, lower, rnd)
  {
    var t := Normal(s, lower);
    if BareSeconds(t).Some? {
      return Ok(BareSeconds(t).value * SECOND);
    }
    if t == "" {
      return Err(Empty);
    }
    r := ParseSegments(t, rnd);
  }

  // ----- formatting -----

  datatype Part = Part(value: nat, unit: Unit)

  function Parts(d: nat): (ps: seq<Part>)
    ensures |ps| == 6
  {
    var secs, nanos := d / SECOND, d % SECOND;
    [Part(secs / 3600, Hour), Part(secs % 3600 / 60, Minute), Part(secs % 60, Second),
     Part(nanos / 1_000_000, Millisecond), Part(nanos / 1_000 % 1_000, Microsecond), Part(nanos % 1_000, Nanosecond)]
  }

  function Written(p: Part): string {
    if p.value > 0 then Digits(p.value) + Suffix(p.unit) else ""
  }

  function WrittenAll(ps: seq<Part>): string {
    if ps == [] then "" else Written(ps[0]) + WrittenAll(ps[1..])
  }

  function Formatted(d: nat): string {
    if WrittenAll(Parts(d)) == "" then "0s" else WrittenAll(Parts(d))
  }

  method FormatDuration(d: nat) returns (s: string)
    ensures s == Formatted(d)
  {
    hide Parts, Digits, Suffix;
    var ps := Parts(d);
    s := "";
    for i := 0 to 6
      invariant s + WrittenAll(ps[i..]) == WrittenAll(ps)
    {
      assert ps[i..][0] == ps[i] && ps[i..][1..] == ps[i + 1..];
      assert s + (Written(ps[i]) + WrittenAll(ps[i + 1..])) == (s + Written(ps[i])) + WrittenAll(ps[i + 1..]);
      if ps[i].value > 0 {
        s := s + (Digits(ps[i].value) + Suffix(ps[i].unit));
      } else {
        assert s + "" == s;
      }
    }
    assert s + "" == s;
    if s == "" {
      s := "0s";
    }
  }

  // ----- one segment -----

  /** What can follow a segment: nothing, or another one's number. */
  predicate OpensNumber(s: string) {
    s == "" || IsNumberChar(s[0])
  }

  predicate AllNumber(s: string) {
    forall i :: 0 <= i < |s| ==> IsNumberChar(s[i])
  }

  lemma {:induction false} NumberEnds(text: string, tail: string)
    requires AllNumber(text) && tail != "" && !IsNumberChar(tail[0])
    ensures NumberLength(text + tail) == |text|
  {
    if text == "" {
      assert text + tail == tail;
    } else {
      assert (text + tail)[1..] == text[1..] + tail;
      NumberEnds(text[1..], tail);
    }
  }

  lemma {:induction false} NumberOfSuch(s: string)
    ensures AllNumber(s[..NumberLength(s)])
  {
    if s != "" && IsNumberChar(s[0]) {
      NumberOfSuch(s[1..]);
      var n := NumberLength(s[1..]);
      assert s[..n + 1] == [s[0]] + s[1..][..n];
    }
  }

  /** No suffix is misread for another before a number or the end, `m` for `ms` neither. */
  lemma UnitIsRead(u: Unit, rest: string)
    requires OpensNumber(rest)
    ensures FirstUnit(UNITS, Suffix(u) + rest) == Some(u)
  {
    var s := Suffix(u) + rest;
    var i :| 0 <= i < |UNITS| && UNITS[i] == u by {
      assert UNITS[0].Nanosecond? && UNITS[1].Microsecond? && UNITS[2].GreekMicrosecond? && UNITS[3].Millisecond?
             && UNITS[4].Second? && UNITS[5].Minute? && UNITS[6].Hour?;
    }
    forall j | 0 <= j < i
      ensures !StartsWith(s, Suffix(UNITS[j]))
    {
      assert s[0] == Suffix(u)[0];
      if u.Minute? && UNITS[j].Millisecond? && |s| > 1 {
        assert s[1] == rest[0];
        assert Suffix(UNITS[j])[1] == 's';
      } else {
        assert Suffix(UNITS[j])[0] != s[0] || |s| == 1;
      }
    }
    FirstUnitAt(UNITS, s, i);
  }

  lemma {:induction false} FirstUnitAt(units: seq<Unit>, s: string, i: nat)
    requires i < |units| && StartsWith(s, Suffix(units[i]))
    requires forall j :: 0 <= j < i ==> !StartsWith(s, Suffix(units[j]))
    ensures FirstUnit(units, s) == Some(units[i])
  {
    if i > 0 {
      FirstUnitAt(units[1..], s, i - 1);
    }
  }
}
