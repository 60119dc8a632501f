/**
 What the texts of src/config/parsing.rs mean: decimals by where their dot stands, and
 each unit by its length.
 */
module DurationMeaning {
  import opened Options
  import opened Words
  import opened Numbers
  import opened Durations
  import opened DurationRoundTrip

  // ----- decimals -----

  lemma {:induction false} DotAfter(w: string, rest: string)
    requires AllDigits(w)
    ensures DotAt(w + "." + rest) == |w|
  {
    if w != "" {
      assert (w + "." + rest)[1..] == w[1..] + "." + rest;
      DotAfter(w[1..], rest);
    }
  }

  lemma DotCuts(w: string, p: string)
    requires AllDigits(w)
    ensures var s := w + "." + p;
            DotAt(s) == |w| && |w| < |s| && s[..|w|] == w && s[|w| + 1..] == p && s[0] != '-'
  {
    DotAfter(w, p);
    hide DotAt;
    var s := w + "." + p;
    assert s[..|w|] == w && s[|w| + 1..] == p;
  }

  /** Digits before the dot, digits behind it; a sign in front counts from zero down. */
  lemma DecimalIsRead(w: string, p: string)
    requires AllDigits(w) && AllDigits(p) && w + p != ""
    ensures ParseNumber(w + "." + p) == Some(Decimal(w, p))
    ensures ParseNumber("-" + (w + "." + p)) == Some(-Decimal(w, p))
  {
    hide Decimal, DotAt, AllDigits, ParseNumber;
    var s := w + "." + p;
    DotCuts(w, p);
    CutIsRead(s, w, p);
    NegatedIsRead(s);
  }

  lemma CutIsRead(s: string, w: string, p: string)
    requires AllDigits(w) && AllDigits(p) && w + p != "" && DotAt(s) == |w| < |s| && s[0] != '-'
    requires s[..|w|] == w && s[|w| + 1..] == p
    ensures ParseNumber(s) == Some(Decimal(w, p))
  {
    hide Decimal, DotAt, AllDigits;
  }

  lemma NegatedIsRead(s: string)
    requires s != "" && s[0] != '-' && ParseNumber(s).Some?
    ensures ParseNumber("-" + s) == Some(-ParseNumber(s).value)
  {
    hide Decimal, DotAt, AllDigits;
    var t := "-" + s;
    assert t[0] == '-' && t[1..] == s;
  }

  /** A digit in front of `k` others. */
  function Placed(v: nat, k: nat): nat {
    v * Pow(10, k)
  }

  lemma PlacedOn(v: nat, k: nat)
    ensures Placed(v, 0) == v && Placed(v, k + 1) == 10 * Placed(v, k)
  {
    var n := Pow(10, k);
    assert Pow(10, k + 1) == 10 * n;
    assert v * (10 * n) == 10 * (v * n);
  }

  lemma {:induction false} ValueFront(d: char, p: string)
    requires IsDigit(d) && AllDigits(p)
    ensures Value([d] + p) == Placed((d - '0') as nat, |p|) + Value(p)
  {
    var s, v := [d] + p, (d - '0') as nat;
    hide Placed;
    if p == "" {
      assert s[..|s| - 1] == "" && Value("") == 0;
      PlacedOn(v, 0);
    } else {
      var front := p[..|p| - 1];
      ValueFront(d, front);
      PlacedOn(v, |front|);
      assert s[..|s| - 1] == [d] + front;
    }
  }

  lemma ValueLast(w: string, d: char)
    requires IsDigit(d) && AllDigits(w)
    ensures Value(w + [d]) == Value(w) * 10 + (d - '0') as nat
  {
    assert (w + [d])[..|w|] == w;
  }

  lemma Shifted(v: nat, d: nat, tail: nat, n: nat)
    requires n > 0
    ensures 10.0 * (v as real + (d * n + tail) as real / (10 * n) as real)
         == (v * 10 + d) as real + tail as real / n as real
  {
    CastTimes(d, n);
    var x, y := n as real, tail as real;
    assert (d * n + tail) as real == d as real * x + y;
    assert (10 * n) as real == 10.0 * x;
    assert 10.0 * ((d as real * x + y) / (10.0 * x)) == d as real + y / x by {
      assert (d as real * x + y) / (10.0 * x) * (10.0 * x) == d as real * x + y;
      assert (d as real + y / x) * x == d as real * x + y;
      assert 10.0 * ((d as real * x + y) / (10.0 * x)) * x == (d as real + y / x) * x;
    }
  }

  lemma DecimalMoves(w: string, d: char, p: string)
    requires AllDigits(w) && IsDigit(d) && AllDigits(p)
    ensures Decimal(w + [d], p) == 10.0 * Decimal(w, [d] + p)
  {
    ValueFront(d, p);
    ValueLast(w, d);
    assert Pow(10, |[d] + p|) == 10 * Pow(10, |p|);
    hide Value, Pow;
    Shifted(Value(w), (d - '0') as nat, Value(p), Pow(10, |p|));
  }

  lemma WholeDecimal(w: string)
    requires AllDigits(w)
    ensures Decimal(w, "") == Value(w) as real
  {
    assert Value("") == 0 && Pow(10, 0) == 1;
  }

  /** Moving the dot one digit on multiplies by ten; with the dot behind the last digit it is the whole number. */
  lemma DotMoves(w: string, d: char, p: string)
    requires AllDigits(w) && IsDigit(d) && AllDigits(p)
    ensures var behind, before := ParseNumber(w + "." + ([d] + p)), ParseNumber((w + [d]) + "." + p);
            behind.Some? && before.Some? && before.value == 10.0 * behind.value
    ensures w != "" ==> ParseNumber(w + "." + "") == Some(Value(w) as real)
  {
    hide Decimal, Value, ParseNumber;
    DecimalIsRead(w, [d] + p);
    DecimalIsRead(w + [d], p);
    DecimalMoves(w, d, p);
    if w != "" {
      DecimalIsRead(w, "");
      WholeDecimal(w);
    }
  }

  // ----- units -----

  /** A number and its product, both exact. */
  lemma BothExact(n: nat, x: nat, rnd: real -> real)
    requires IsRounding(rnd) && n <= x < TWO_53
    ensures rnd(n as real) == n as real && rnd(x as real) == x as real && ToWord(x as real) == x
  {
    SmallIsExact(rnd, n);
    SmallIsExact(rnd, x);
    WordOfNat(x);
  }

  lemma Nanoseconds(n: nat, rnd: real -> real)
    requires IsRounding(rnd) && n < TWO_53
    ensures Amount(n as real, Nanosecond, rnd) == n
  {
    BothExact(n, n, rnd);
    hide IsRounding, ToWord;
  }

  lemma Microseconds(n: nat, rnd: real -> real)
    requires IsRounding(rnd) && n * 1_000 < TWO_53
    ensures Amount(n as real, Microsecond, rnd) == n * 1_000
  {
    BothExact(n, n * 1_000, rnd);
    hide IsRounding, ToWord;
  }

  lemma GreekMicroseconds(n: nat, rnd: real -> real)
    requires IsRounding(rnd) && n * 1_000 < TWO_53
    ensures Amount(n as real, GreekMicrosecond, rnd) == n * 1_000
  {
    BothExact(n, n * 1_000, rnd);
    hide IsRounding, ToWord;
  }

  lemma Milliseconds(n: nat, rnd: real -> real)
    requires IsRounding(rnd) && n * 1_000_000 < TWO_53
    ensures Amount(n as real, Millisecond, rnd) == n * 1_000_000
  {
    BothExact(n, n * 1_000_000, rnd);
    hide IsRounding, ToWord;
  }

  lemma Seconds(n: nat, rnd: real -> real)
    requires IsRounding(rnd) && n * 1_000_000_000 < TWO_53
    ensures Amount(n as real, Second, rnd) == n * 1_000_000_000
  {
    BothExact(n, n * 1_000_000_000, rnd);
    hide IsRounding, ToWord;
  }

  lemma Minutes(n: nat, rnd: real -> real)
    requires IsRounding(rnd) && n * 60_000_000_000 < TWO_53
    ensures Amount(n as real, Minute, rnd) == n * 60_000_000_000
  {
    BothExact(n, n * 60_000_000_000, rnd);
    hide IsRounding, ToWord;
  }

  lemma Hours(n: nat, rnd: real -> real)
    requires IsRounding(rnd) && n * 3_600_000_000_000 < TWO_53
    ensures Amount(n as real, Hour, rnd) == n * 3_600_000_000_000
  {
    BothExact(n, n * 3_600_000_000_000, rnd);
    hide IsRounding, ToWord;
  }

  lemma WordOfNat(x: nat)
    requires x < TWO_53
    ensures ToWord(x as real) == x
  {
  }

  lemma UnitMeans(n: nat, u: Unit, x: nat, rnd: real -> real)
    requires IsRounding(rnd) && x < TWO_53 && Amount(n as real, u, rnd) == x
    ensures Segments(0, Digits(n) + Suffix(u), rnd) == Ok(x)
  {
    hide Amount, IsRounding, Digits, Suffix, Segments;
    assert Digits(n) + (Suffix(u) + "") == Digits(n) + Suffix(u);
    DigitsAreRead(0, n, u, "", rnd);
    EmptyIsRead(x, rnd);
  }

  /** Each suffix by its own length in nanoseconds, wherever the product is exact. */
  lemma UnitsMean(n: nat, rnd: real -> real)
    requires IsRounding(rnd)
    ensures n < TWO_53 ==> Segments(0, Digits(n) + "ns", rnd) == Ok(n)
    ensures n * 1_000 < TWO_53 ==> Segments(0, Digits(n) + "us", rnd) == Ok(n * 1_000)
    ensures n * 1_000 < TWO_53 ==> Segments(0, Digits(n) + "\U{03BC}s", rnd) == Ok(n * 1_000)
    ensures n * 1_000_000 < TWO_53 ==> Segments(0, Digits(n) + "ms", rnd) == Ok(n * 1_000_000)
    ensures n * 1_000_000_000 < TWO_53 ==> Segments(0, Digits(n) + "s", rnd) == Ok(n * 1_000_000_000)
    ensures n * 60_000_000_000 < TWO_53 ==> Segments(0, Digits(n) + "m", rnd) == Ok(n * 60_000_000_000)
    ensures n * 3_600_000_000_000 < TWO_53 ==> Segments(0, Digits(n) + "h", rnd) == Ok(n * 3_600_000_000_000)
  {
    hide Segments, Digits, IsRounding, Amount;
    if n < TWO_53 {
      Nanoseconds(n, rnd);
      UnitMeans(n, Nanosecond, n, rnd);
    }
    if n * 1_000 < TWO_53 {
      Microseconds(n, rnd);
      UnitMeans(n, Microsecond, n * 1_000, rnd);
      GreekMicroseconds(n, rnd);
      UnitMeans(n, GreekMicrosecond, n * 1_000, rnd);
    }
    if n * 1_000_000 < TWO_53 {
      Milliseconds(n, rnd);
      UnitMeans(n, Millisecond, n * 1_000_000, rnd);
    }
    LongUnitsMean(n, rnd);
  }

  lemma LongUnitsMean(n: nat, rnd: real -> real)
    requires IsRounding(rnd)
    ensures n * 1_000_000_000 < TWO_53 ==> Segments(0, Digits(n) + "s", rnd) == Ok(n * 1_000_000_000)
    ensures n * 60_000_000_000 < TWO_53 ==> Segments(0, Digits(n) + "m", rnd) == Ok(n * 60_000_000_000)
    ensures n * 3_600_000_000_000 < TWO_53 ==> Segments(0, Digits(n) + "h", rnd) == Ok(n * 3_600_000_000_000)
  {
    hide Segments, Digits, IsRounding, Amount;
    if n * 1_000_000_000 < TWO_53 {
      Seconds(n, rnd);
      UnitMeans(n, Second, n * 1_000_000_000, rnd);
    }
    if n * 60_000_000_000 < TWO_53 {
      Minutes(n, rnd);
      UnitMeans(n, Minute, n * 60_000_000_000, rnd);
    }
    if n * 3_600_000_000_000 < TWO_53 {
      Hours(n, rnd);
      UnitMeans(n, Hour, n * 3_600_000_000_000, rnd);
    }
  }

  // ----- what stands around it -----

  predicate IsBlank(c: char) {
    c == ' ' || c == '\t' || c == '\n' || c == '\r'
  }

  lemma {:induction false} TrimsFront(a: string, t: string)
    requires (forall i :: 0 <= i < |a| ==> IsBlank(a[i])) && t != "" && !IsSpace(t[0])
    ensures TrimStart(a + t) == t
    decreases |a|
  {
    if a == "" {
      assert a + t == t;
    } else {
      assert (a + t)[1..] == a[1..] + t;
      TrimsFront(a[1..], t);
    }
  }

  lemma {:induction false} TrimsBack(t: string, b: string)
    requires (forall i :: 0 <= i < |b| ==> IsBlank(b[i])) && t != "" && !IsSpace(t[|t| - 1])
    ensures TrimEnd(t + b) == t
    decreases |b|
  {
    if b == "" {
      assert t + b == t;
    } else {
      var n := |b| - 1;
      assert (t + b)[..|t + b| - 1] == t + b[..n] && (t + b)[|t + b| - 1] == b[n];
      TrimsBack(t, b[..n]);
    }
  }

  /** Blanks around a text change nothing. */
  lemma BlanksAround(a: string, t: string, b: string, lower: string -> string, rnd: real -> real)
    requires forall i :: 0 <= i < |a| ==> IsBlank(a[i])
    requires forall i :: 0 <= i < |b| ==> IsBlank(b[i])
    requires t != "" && !IsSpace(t[0]) && !IsSpace(t[|t| - 1])
    ensures Parsed(a + (t + b), lower, rnd) == Parsed(t, lower, rnd)
  {
    hide IsSpace, IsBlank, TrimStart, TrimEnd, Segments, BareSeconds;
    TrimsFront(a, t + b);
    TrimsBack(t, b);
    TrimsFront("", t);
    TrimsBack(t, "");
    assert "" + t == t && t + "" == t;
  }
}
