/** A formatted duration read back (src/config/parsing.rs): exactly when it comes out the same. */
module DurationRoundTrip {
  import opened Options
  import opened Words
  import opened Numbers
  import opened Ascii
  import opened Durations

  // ----- the text is read as written -----

  lemma Cut(a: string, b: string, c: string)
    ensures var s := a + (b + c);
            s == (a + b) + c && s[..|a|] == a && s[|a|..] == b + c && s[|a| + |b|..] == c
  {
  }

  lemma SegmentIsRead(total: nat, text: string, number: real, u: Unit, rest: string, rnd: real -> real)
    requires AllNumber(text) && ParseNumber(text) == Some(number) && rnd(number) >= 0.0 && OpensNumber(rest)
    ensures Segments(total, text + (Suffix(u) + rest), rnd) == Onward(total + Amount(number, u, rnd), rest, rnd)
  {
    hide Segments, FirstUnit, ParseNumber, Amount, Onward;
    var tail := Suffix(u) + rest;
    Cut(text, Suffix(u), rest);
    assert !IsNumberChar(tail[0]);
    NumberEnds(text, tail);
    UnitIsRead(u, rest);
    hide NumberLength, Suffix;
    FrontSegment(total, text + tail, rnd, |text|, Some(u), Some(number));
  }

  lemma DigitsAreRead(total: nat, value: nat, u: Unit, rest: string, rnd: real -> real)
    requires IsRounding(rnd) && OpensNumber(rest)
    ensures Segments(total, Digits(value) + (Suffix(u) + rest), rnd)
         == Onward(total + Amount(value as real, u, rnd), rest, rnd)
  {
    hide Segments, ParseNumber, Digits, Amount, Suffix, IsRounding, Onward;
    ParseDigits(value);
    NatRoundsUp(value, rnd);
    SegmentIsRead(total, Digits(value), value as real, u, rest, rnd);
  }

  lemma NatRoundsUp(value: nat, rnd: real -> real)
    requires IsRounding(rnd)
    ensures rnd(value as real) >= 0.0
  {
    SmallIsExact(rnd, 0);
    assert rnd(value as real) >= rnd(0.0);
  }

  /** What a sum of segments comes to. */
  function Read(sum: nat): Result {
    if sum > LONGEST then Overflows else Ok(sum)
  }

  function Total(ps: seq<Part>, rnd: real -> real): nat {
    if ps == [] then 0 else Amount(ps[0].value as real, ps[0].unit, rnd) + Total(ps[1..], rnd)
  }

  lemma ZeroAmount(u: Unit, rnd: real -> real)
    requires IsRounding(rnd)
    ensures Amount(0.0, u, rnd) == 0
  {
    SmallIsExact(rnd, 0);
    assert rnd(0.0) * Nanos(u) as real == 0.0;
  }

  lemma PartIsRead(total: nat, p: Part, rest: string, rnd: real -> real)
    requires IsRounding(rnd) && OpensNumber(rest) && total <= LONGEST
    ensures OpensNumber(Written(p) + rest)
    ensures Segments(total, Written(p) + rest, rnd) == Onward(total + Amount(p.value as real, p.unit, rnd), rest, rnd)
  {
    hide Segments, Amount, Suffix, IsRounding, Digits;
    if p.value > 0 {
      Cut(Digits(p.value), Suffix(p.unit), rest);
      DigitsAreRead(total, p.value, p.unit, rest, rnd);
    } else {
      assert "" + rest == rest;
      ZeroAmount(p.unit, rnd);
    }
  }

  lemma {:induction false} WrittenOpens(ps: seq<Part>)
    ensures OpensNumber(WrittenAll(ps))
  {
    if ps != [] {
      WrittenOpens(ps[1..]);
      assert ps[0].value == 0 ==> Written(ps[0]) + WrittenAll(ps[1..]) == WrittenAll(ps[1..]);
    }
  }

  /** The parts add up, those left out for being zero included. */
  lemma {:induction false} PartsAreRead(total: nat, ps: seq<Part>, rnd: real -> real)
    requires IsRounding(rnd) && total <= LONGEST
    ensures Segments(total, WrittenAll(ps), rnd) == Read(total + Total(ps, rnd))
    decreases |ps|
  {
    hide Segments, Amount, Written, IsRounding, OpensNumber;
    if ps == [] {
      EmptyIsRead(total, rnd);
    } else {
      WrittenOpens(ps[1..]);
      PartIsRead(total, ps[0], WrittenAll(ps[1..]), rnd);
      var sum := total + Amount(ps[0].value as real, ps[0].unit, rnd);
      if sum <= LONGEST {
        PartsAreRead(sum, ps[1..], rnd);
      }
    }
  }

  /** Formatted text has no capital, no space and, ending in a unit, no reading as bare seconds. */
  ghost predicate Plain(s: string) {
    && (forall c :: c in s ==> LowerChar(c) == c && !IsSpace(c) && c != '+' && c < '\U{0080}')
    && (s == "" || !IsDigit(s[|s| - 1]))
  }

  lemma PlainPart(p: Part)
    requires p.value > 0 && !p.unit.GreekMicrosecond?
    ensures Plain(Written(p)) && Written(p) != ""
  {
    var s := Written(p);
    assert s[|s| - 1] == Suffix(p.unit)[|Suffix(p.unit)| - 1];
    forall c | c in s
      ensures LowerChar(c) == c && !IsSpace(c) && c != '+' && c < '\U{0080}'
    {
      if c in Digits(p.value) {
      } else {
        assert c in Suffix(p.unit);
      }
    }
  }

  lemma {:induction false} PlainParts(ps: seq<Part>)
    requires forall i :: 0 <= i < |ps| ==> !ps[i].unit.GreekMicrosecond?
    ensures Plain(WrittenAll(ps))
  {
    if ps != [] {
      PlainParts(ps[1..]);
      var rest := WrittenAll(ps[1..]);
      if ps[0].value > 0 {
        PlainPart(ps[0]);
        var s := Written(ps[0]) + rest;
        assert s[|s| - 1] == if rest == "" then Written(ps[0])[|Written(ps[0])| - 1] else rest[|rest| - 1];
      } else {
        assert WrittenAll(ps) == rest;
      }
    }
  }

  lemma PlainIsNormal(s: string, lower: string -> string)
    requires Plain(s) && LowersAscii(lower)
    ensures Normal(s, lower) == s && BareSeconds(s) == None
  {
    assert forall i :: 0 <= i < |s| ==> s[i] in s;
    Untrimmed(s);
    Unlowered(s);
    hide IsSpace, TrimStart, TrimEnd;
    if s != "" {
      assert !AllDigits(s);
    }
  }

  lemma ZeroIsPlain(zero: string)
    requires |zero| == 2 && zero[0] == '0' && zero[1] == 's'
    ensures Plain(zero)
  {
    assert forall c :: c in zero ==> c == '0' || c == 's';
  }

  lemma ZeroIsRead(zero: string, rnd: real -> real)
    requires IsRounding(rnd) && zero == Digits(0) + (Suffix(Second) + "")
    ensures Segments(0, zero, rnd) == Ok(0)
  {
    hide Segments, Amount, IsRounding, Digits, Suffix;
    DigitsAreRead(0, 0, Second, "", rnd);
    EmptyIsRead(0, rnd);
    ZeroAmount(Second, rnd);
  }

  lemma ZeroIs()
    ensures "0s" == Digits(0) + (Suffix(Second) + "")
  {
  }

  lemma PlainIsParsed(s: string, lower: string -> string, rnd: real -> real)
    requires Plain(s) && s != "" && LowersAscii(lower)
    ensures Parsed(s, lower, rnd) == Segments(0, s, rnd)
  {
    hide Segments, Normal, BareSeconds, Plain, LowersAscii;
    PlainIsNormal(s, lower);
  }

  lemma NoGreek(d: nat)
    ensures forall i :: 0 <= i < 6 ==> !Parts(d)[i].unit.GreekMicrosecond?
  {
  }

  /** Reading a formatted duration adds up its parts. */
  lemma FormattedIsRead(d: nat, lower: string -> string, rnd: real -> real)
    requires LowersAscii(lower) && IsRounding(rnd)
    ensures Parsed(Formatted(d), lower, rnd) == Read(Total(Parts(d), rnd))
  {
    hide Segments, Parsed, Parts, WrittenAll, IsRounding, Total, Plain, LowersAscii;
    var ps := Parts(d);
    NoGreek(d);
    PartsAreRead(0, ps, rnd);
    PlainParts(ps);
    if WrittenAll(ps) == "" {
      EmptyIsRead(0, rnd);
      ZeroIs();
      ZeroIsPlain("0s");
      ZeroIsRead("0s", rnd);
      PlainIsParsed("0s", lower, rnd);
    } else {
      PlainIsParsed(WrittenAll(ps), lower, rnd);
    }
  }

  // ----- the float products are exact -----

  lemma ExactProduct(value: nat, n: nat, rnd: real -> real)
    requires IsRounding(rnd) && value < TWO_53 && rnd((value * n) as real) == (value * n) as real
    ensures rnd(rnd(value as real) * n as real) == (value * n) as real
  {
    SmallIsExact(rnd, value);
    CastTimes(value, n);
  }

  /** Below 2^53 nanoseconds there is nothing to round. */
  lemma SmallAmount(value: nat, u: Unit, rnd: real -> real)
    requires IsRounding(rnd) && value * Nanos(u) < TWO_53 && value < TWO_53
    ensures Amount(value as real, u, rnd) == value * Nanos(u)
  {
    hide Nanos;
    var product := value * Nanos(u);
    SmallIsExact(rnd, product);
    ExactProduct(value, Nanos(u), rnd);
    hide IsRounding;
    assert (product as real).Floor == product;
  }

  const HOUR: nat := 3_600_000_000_000
  const HOUR_ODD: nat := 439_453_125 // HOUR / 2^13

  lemma HourFactors()
    ensures HOUR == HOUR_ODD * Pow(2, 13)
  {
    assert Pow(2, 4) == 16;
    assert Pow(2, 8) == 256;
    assert Pow(2, 12) == 4096;
    assert Pow(2, 13) == 8192;
  }

  /** Hours that fit a word are exact: 3.6e12 is an odd number of 29 bits times 2^13. */
  lemma HoursThatFit(hours: nat, rnd: real -> real)
    requires IsRounding(rnd) && hours * HOUR < TWO_64
    ensures Amount(hours as real, Hour, rnd) == hours * HOUR
  {
    assert hours < TWO_53 && hours * HOUR_ODD < TWO_53;
    HourFactors();
    assert hours * HOUR == (hours * HOUR_ODD) * Pow(2, 13);
    Exact(rnd, hours * HOUR, hours * HOUR_ODD, 13);
    ExactProduct(hours, HOUR, rnd);
  }

  lemma WordIsExact(rnd: real -> real)
    requires IsRounding(rnd)
    ensures rnd(TWO_64 as real) == TWO_64 as real
  {
    assert Pow(2, 4) == 16;
    assert Pow(2, 8) == 0x100;
    assert Pow(2, 12) == 0x1000;
    assert Pow(2, 16) == 0x1_0000;
    assert Pow(2, 20) == 0x10_0000;
    assert Pow(2, 24) == 0x100_0000;
    assert Pow(2, 28) == 0x1000_0000;
    assert Pow(2, 32) == 0x1_0000_0000;
    Exact(rnd, TWO_64, 0x1_0000_0000, 32);
  }

  /** Hours that do not fit are held at the largest word. */
  lemma HoursThatDoNotFit(hours: nat, rnd: real -> real)
    requires IsRounding(rnd) && hours < TWO_53 && hours * HOUR >= TWO_64
    ensures Amount(hours as real, Hour, rnd) == TWO_64 - 1
  {
    SmallIsExact(rnd, hours);
    CastTimes(hours, HOUR);
    WordIsExact(rnd);
    assert rnd(TWO_64 as real) <= rnd((hours * HOUR) as real);
  }

  // ----- the round trip -----

  lemma PartsAddUp(d: nat)
    ensures var ps := Parts(d);
            d == ps[0].value * HOUR + ps[1].value * Nanos(Minute) + ps[2].value * SECOND
                 + ps[3].value * 1_000_000 + ps[4].value * 1_000 + ps[5].value
    ensures var ps := Parts(d); ps[1].value < 60 && ps[2].value < 60
    ensures var ps := Parts(d); ps[3].value < 1_000 && ps[4].value < 1_000 && ps[5].value < 1_000
  {
    var secs, nanos := d / SECOND, d % SECOND;
    assert secs % 3600 % 60 == secs % 60;
    assert nanos / 1_000 / 1_000 == nanos / 1_000_000;
  }

  lemma TotalOfSix(ps: seq<Part>, rnd: real -> real)
    requires |ps| == 6
    ensures Total(ps, rnd)
         == Amount(ps[0].value as real, ps[0].unit, rnd) + Amount(ps[1].value as real, ps[1].unit, rnd)
            + Amount(ps[2].value as real, ps[2].unit, rnd) + Amount(ps[3].value as real, ps[3].unit, rnd)
            + Amount(ps[4].value as real, ps[4].unit, rnd) + Amount(ps[5].value as real, ps[5].unit, rnd)
  {
    hide Amount;
    assert ps[1..][0] == ps[1] && ps[1..][1..] == ps[2..];
    assert ps[2..][0] == ps[2] && ps[2..][1..] == ps[3..];
    assert ps[3..][0] == ps[3] && ps[3..][1..] == ps[4..];
    assert ps[4..][0] == ps[4] && ps[4..][1..] == ps[5..];
    assert ps[5..][0] == ps[5] && ps[5..][1..] == [];
    assert Total(ps[5..], rnd) == Amount(ps[5].value as real, ps[5].unit, rnd);
    assert Total(ps[1..], rnd) == Amount(ps[1].value as real, ps[1].unit, rnd)
                                  + (Amount(ps[2].value as real, ps[2].unit, rnd) + Total(ps[3..], rnd));
    assert Total(ps[3..], rnd) == Amount(ps[3].value as real, ps[3].unit, rnd)
                                  + (Amount(ps[4].value as real, ps[4].unit, rnd) + Total(ps[5..], rnd));
  }

  /** Everything below the hours is read exactly. */
  lemma TotalIs(d: nat, rnd: real -> real)
    requires IsRounding(rnd)
    ensures Total(Parts(d), rnd)
         == d - Parts(d)[0].value * HOUR + Amount(Parts(d)[0].value as real, Hour, rnd)
  {
    var ps := Parts(d);
    PartsAddUp(d);
    TotalOfSix(ps, rnd);
    SmallAmount(ps[1].value, Minute, rnd);
    SmallAmount(ps[2].value, Second, rnd);
    SmallAmount(ps[3].value, Millisecond, rnd);
    SmallAmount(ps[4].value, Microsecond, rnd);
    SmallAmount(ps[5].value, Nanosecond, rnd);
    hide Amount, Total;
  }

  /**
   A duration survives its text form if and only if its hours fit 64 bits of
   nanoseconds: up to 5124095 hours. `d` is any duration of a 64-bit number of
   seconds.
   */
  lemma RoundTripIff(d: nat, lower: string -> string, rnd: real -> real)
    requires LowersAscii(lower) && IsRounding(rnd) && d <= LONGEST
    ensures Parsed(Formatted(d), lower, rnd) == Ok(d) <==> d / HOUR * HOUR < TWO_64
    ensures d / HOUR * HOUR < TWO_64 <==> d / HOUR <= 5_124_095
  {
    var hours := d / HOUR;
    HoursOf(d);
    HoursRange(hours);
    hide Amount, Total, Parsed, Formatted, Parts, LowersAscii, IsRounding;
    FormattedIsRead(d, lower, rnd);
    TotalIs(d, rnd);
    ReadIff(d, hours, Amount(hours as real, Hour, rnd), Total(Parts(d), rnd));
    if hours * HOUR < TWO_64 {
      HoursThatFit(hours, rnd);
    } else {
      HoursThatDoNotFit(hours, rnd);
    }
  }

  lemma HoursOf(d: nat)
    ensures Parts(d)[0] == Part(d / HOUR, Hour)
    ensures d <= LONGEST ==> d / HOUR < TWO_53
  {
    assert d / SECOND / 3600 == d / HOUR;
  }

  lemma HoursRange(hours: nat)
    ensures hours * HOUR < TWO_64 <==> hours <= 5_124_095
  {
  }

  lemma ReadIff(d: nat, hours: nat, amount: nat, total: nat)
    requires d <= LONGEST && total == d - hours * HOUR + amount
    ensures Read(total) == Ok(d) <==> amount == hours * HOUR
  {
  }

  lemma DigitsAreNormal(s: string, lower: string -> string)
    requires s != "" && AllDigits(s) && LowersAscii(lower)
    ensures Normal(s, lower) == s
  {
    Untrimmed(s);
    Unlowered(s);
    hide IsSpace, TrimStart, TrimEnd;
  }

  lemma Untrimmed(s: string)
    requires s == "" || (!IsSpace(s[0]) && !IsSpace(s[|s| - 1]))
    ensures TrimEnd(TrimStart(s)) == s
  {
    hide IsSpace;
  }

  lemma Unlowered(s: string)
    requires forall i :: 0 <= i < |s| ==> LowerChar(s[i]) == s[i]
    ensures Lower(s) == s
  {
  }

  /** A number without a unit is that many seconds, if it fits 64 bits, and an error if it does not. */
  lemma BareNumberIsRead(n: nat, lower: string -> string, rnd: real -> real)
    requires LowersAscii(lower)
    ensures Parsed(Digits(n), lower, rnd) == if n < TWO_64 then Ok(n * SECOND) else Err(NoUnit)
  {
    hide Digits, Normal, LowersAscii, Segments, NumberLength;
    var s := Digits(n);
    DigitsAreNormal(s, lower);
    DigitsRoundTrip(n);
    OnlyNumber(s);
    FrontSegment(0, s, rnd, |s|, None, None);
  }

  lemma {:induction false} OnlyNumber(s: string)
    requires AllDigits(s)
    ensures NumberLength(s) == |s|
  {
    if s != "" {
      OnlyNumber(s[1..]);
    }
  }

  // ----- what the parser takes -----

  datatype Segment = Segment(text: string, unit: Unit)

  /** A decimal number that does not round below zero. */
  predicate IsSegment(g: Segment, rnd: real -> real) {
    AllNumber(g.text) && ParseNumber(g.text).Some? && rnd(ParseNumber(g.text).value) >= 0.0
  }

  predicate AllSegments(gs: seq<Segment>, rnd: real -> real) {
    forall i :: 0 <= i < |gs| ==> IsSegment(gs[i], rnd)
  }

  function Spelled(gs: seq<Segment>): string {
    if gs == [] then "" else gs[0].text + (Suffix(gs[0].unit) + Spelled(gs[1..]))
  }

  function Sum(gs: seq<Segment>, rnd: real -> real): nat
    requires AllSegments(gs, rnd)
  {
    if gs == [] then 0 else Amount(ParseNumber(gs[0].text).value, gs[0].unit, rnd) + Sum(gs[1..], rnd)
  }

  lemma NumberOpens(text: string, tail: string)
    requires AllNumber(text) && ParseNumber(text).Some?
    ensures OpensNumber(text + tail)
  {
    assert text != "";
  }

  lemma {:induction false} SpelledOpens(gs: seq<Segment>, rnd: real -> real)
    requires AllSegments(gs, rnd)
    ensures OpensNumber(Spelled(gs))
  {
    hide ParseNumber, Suffix;
    if gs != [] {
      NumberOpens(gs[0].text, Suffix(gs[0].unit) + Spelled(gs[1..]));
    }
  }

  lemma {:induction false} SpelledIsRead(total: nat, gs: seq<Segment>, rnd: real -> real)
    requires AllSegments(gs, rnd) && total <= LONGEST
    ensures Segments(total, Spelled(gs), rnd) == Read(total + Sum(gs, rnd))
    decreases |gs|
  {
    hide Segments, ParseNumber, Amount, Suffix;
    if gs == [] {
      EmptyIsRead(total, rnd);
    } else {
      var g := gs[0];
      SpelledOpens(gs[1..], rnd);
      SegmentIsRead(total, g.text, ParseNumber(g.text).value, g.unit, Spelled(gs[1..]), rnd);
      var sum := total + Amount(ParseNumber(g.text).value, g.unit, rnd);
      if sum <= LONGEST {
        SpelledIsRead(sum, gs[1..], rnd);
      }
    }
  }

  lemma CutBehind(s: string, n: nat, suffix: string)
    requires n <= |s| && StartsWith(s[n..], suffix)
    ensures n + |suffix| <= |s| && s == s[..n] + (suffix + s[n + |suffix|..])
  {
    assert s[n..][..|suffix|] == suffix;
    assert s == s[..n] + (s[n..][..|suffix|] + s[n + |suffix|..]);
  }

  /** The front segment of a text that is read. */
  lemma FrontOfRead(total: nat, s: string, rnd: real -> real) returns (g: Segment, rest: string)
    requires s != "" && Segments(total, s, rnd).Ok?
    ensures IsSegment(g, rnd) && s == g.text + (Suffix(g.unit) + rest) && |rest| < |s|
    ensures Segments(total + Amount(ParseNumber(g.text).value, g.unit, rnd), rest, rnd).Ok?
  {
    hide Segments, ParseNumber, NumberLength, FirstUnit, Suffix, Amount;
    var n := NumberLength(s);
    NumberOfSuch(s);
    if n == |s| {
      FrontSegment(total, s, rnd, n, None, None);
      assert false;
    }
    var u, number := FirstUnit(UNITS, s[n..]), ParseNumber(s[..n]);
    FrontSegment(total, s, rnd, n, u, number);
    CutBehind(s, n, Suffix(u.value));
    g := Segment(s[..n], u.value);
    rest := s[n + |Suffix(u.value)|..];
  }

  lemma {:induction false} ReadIsSpelled(total: nat, s: string, rnd: real -> real) returns (gs: seq<Segment>)
    requires Segments(total, s, rnd).Ok?
    ensures AllSegments(gs, rnd) && Spelled(gs) == s
    decreases |s|
  {
    hide Segments, Suffix, ParseNumber, Amount;
    if s == "" {
      gs := [];
    } else {
      var g, rest := FrontOfRead(total, s, rnd);
      var more := ReadIsSpelled(total + Amount(ParseNumber(g.text).value, g.unit, rnd), rest, rnd);
      gs := [g] + more;
      assert gs[1..] == more;
    }
  }

  ghost predicate SpellsOut(gs: seq<Segment>, s: string, total: nat, rnd: real -> real) {
    AllSegments(gs, rnd) && Spelled(gs) == s && Sum(gs, rnd) == total
  }

  lemma SpelledOut(gs: seq<Segment>, s: string, total: nat, rnd: real -> real)
    requires SpellsOut(gs, s, total, rnd)
    ensures Segments(0, s, rnd) == Read(total)
  {
    hide Segments, Spelled, Sum, AllSegments;
    SpelledIsRead(0, gs, rnd);
  }

  lemma ReadOut(s: string, total: nat, rnd: real -> real)
    requires Segments(0, s, rnd) == Ok(total)
    ensures total <= LONGEST && exists gs :: SpellsOut(gs, s, total, rnd)
  {
    hide Segments, Spelled, Sum, AllSegments;
    var gs := ReadIsSpelled(0, s, rnd);
    SpelledIsRead(0, gs, rnd);
    assert SpellsOut(gs, s, total, rnd);
  }

  /** Past bare seconds and nothing at all, the parser takes exactly the sequences of segments, and sums them. */
  lemma ParserTakesSegments(s: string, lower: string -> string, rnd: real -> real, total: nat)
    requires BareSeconds(Normal(s, lower)).None? && Normal(s, lower) != ""
    ensures Parsed(s, lower, rnd) == Ok(total)
       <==> total < TWO_64 * 1_000_000_000 && exists gs :: SpellsOut(gs, Normal(s, lower), total, rnd)
    ensures total >= TWO_64 * 1_000_000_000 && (exists gs :: SpellsOut(gs, Normal(s, lower), total, rnd)) ==>
              Parsed(s, lower, rnd) == Overflows
  {
    hide Normal, BareSeconds, Segments, SpellsOut;
    var t := Normal(s, lower);
    if Segments(0, t, rnd) == Ok(total) {
      ReadOut(t, total, rnd);
    }
    if gs :| SpellsOut(gs, t, total, rnd) {
      SpelledOut(gs, t, total, rnd);
    }
  }
}
