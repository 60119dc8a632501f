/**
 Numbers as text, and floating point as far as durations use it: a rounding of
 the reals that is monotone and leaves alone what has at most 53 significant
 bits.
 */
module Numbers {
  import opened Options
  import opened Words

  predicate IsDigit(c: char) {
    '0' <= c <= '9'
  }

  predicate AllDigits(s: string) {
    forall i :: 0 <= i < |s| ==> IsDigit(s[i])
  }

  function DigitOf(n: nat): char
    requires n < 10
  {
    '0' + n as char
  }

  function Digits(n: nat): (s: string)
    ensures s != "" && AllDigits(s)
  {
    if n < 10 then [DigitOf(n)] else Digits(n / 10) + [DigitOf(n % 10)]
  }

  function Value(s: string): nat
    requires AllDigits(s)
  {
    if s == "" then 0 else Value(s[..|s| - 1]) * 10 + (s[|s| - 1] - '0') as nat
  }

  lemma {:induction false} DigitsRoundTrip(n: nat)
    ensures Value(Digits(n)) == n
  {
    if n < 10 {
      assert Digits(n)[..0] == "";
    } else {
      DigitsRoundTrip(n / 10);
      assert Digits(n)[..|Digits(n)| - 1] == Digits(n / 10);
    }
  }

  function Pow(b: nat, k: nat): (p: nat)
    requires b > 0
    ensures p > 0
  {
    if k == 0 then 1 else b * Pow(b, k - 1)
  }

  /** Where the first dot is, the length without one. */
  function DotAt(s: string): (i: nat)
    ensures i <= |s|
  {
    if s == "" || s[0] == '.' then 0 else 1 + DotAt(s[1..])
  }

  /** Digits before a dot and behind it. */
  function Decimal(whole: string, part: string): real
    requires AllDigits(whole) && AllDigits(part)
  {
    Value(whole) as real + Value(part) as real / Pow(10, |part|) as real
  }

  /** A decimal number: a sign or none, digits with at most one dot among or around them. */
  function ParseNumber(s: string): Option<real> {
    var minus := s != "" && s[0] == '-';
    var body := if minus then s[1..] else s;
    var dot := DotAt(body);
    var whole := body[..dot];
    var part := if dot < |body| then body[dot + 1..] else "";
    if AllDigits(whole) && AllDigits(part) && whole + part != "" then
      Some(if minus then -Decimal(whole, part) else Decimal(whole, part))
    else None
  }

  lemma {:induction false} NoDot(s: string)
    requires AllDigits(s)
    ensures DotAt(s) == |s|
  {
    if s != "" {
      NoDot(s[1..]);
    }
  }

  lemma ParseDigits(n: nat)
    ensures ParseNumber(Digits(n)) == Some(n as real)
  {
    var s := Digits(n);
    NoDot(s);
    assert s[..|s|] == s && s + "" == s;
    assert Value("") == 0 && Pow(10, 0) == 1;
    DigitsRoundTrip(n);
  }

  // ----- floating point -----

  function Float(m: nat, e: nat): real {
    m as real * Pow(2, e) as real
  }

  ghost predicate IsRounding(rnd: real -> real) {
    && (forall x, y :: x <= y ==> rnd(x) <= rnd(y))
    && (forall m: nat, e: nat :: m < TWO_53 && e <= 100 ==> rnd(Float(m, e)) == Float(m, e))
  }

  lemma {:induction false} CastTimes(m: nat, n: nat)
    ensures (m * n) as real == m as real * n as real
  {
    if n > 0 {
      CastTimes(m, n - 1);
      assert m * n == m * (n - 1) + m;
      assert m as real * n as real == m as real * (n - 1) as real + m as real;
    }
  }

  /** A multiple of 2^e below 2^53 times it is exact. */
  lemma Exact(rnd: real -> real, x: nat, m: nat, e: nat)
    requires IsRounding(rnd) && m < TWO_53 && e <= 100 && x == m * Pow(2, e)
    ensures rnd(x as real) == x as real
  {
    CastTimes(m, Pow(2, e));
    assert Float(m, e) == x as real;
  }

  lemma SmallIsExact(rnd: real -> real, x: nat)
    requires IsRounding(rnd) && x < TWO_53
    ensures rnd(x as real) == x as real
  {
    assert Pow(2, 0) == 1;
    Exact(rnd, x, x, 0);
  }

  /** A float cast to 64 bits: cut, and held at the largest word. */
  function ToWord(x: real): nat {
    if x >= TWO_64 as real then TWO_64 - 1 else if x < 0.0 then 0 else x.Floor
  }
}
