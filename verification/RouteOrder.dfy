/**
 Match precedence between HTTP route rules and what a stable sort by it gives
 (src/routing/build.rs). Strings are byte strings, a `char` a byte.
 */
module RouteOrder {
  import opened Options
  import opened Weights

  datatype PathKind = Exact | RegularExpression | Prefix

  /** A header or query parameter to test, by name, and with which matcher. */
  datatype Test = Test(name: string, matcher: nat)

  /**
   `filtered`: the rule has filters of its own; `payload`: what neither matching nor
   selection looks at. The last three are worked out when the rule is pushed.
   */
  datatype Rule = Rule(
    kind: PathKind,
    path: string,
    methodMatch: Option<string>,
    headers: seq<Test>,
    params: seq<Test>,
    filtered: bool,
    choices: seq<Choice>,
    routeIndex: nat,
    payload: nat,
    hasFilters: bool,
    cumulative: seq<nat>,
    total: nat)

  datatype Ordering = Less | Equal | Greater

  function Compare(x: int, y: int): Ordering {
    if x < y then Less else if x == y then Equal else Greater
  }

  function Then(first: Ordering, second: Ordering): Ordering {
    if first.Equal? then second else first
  }

  function Rank(k: PathKind): nat {
    match k
    case Exact => 0
    case RegularExpression => 1
    case Prefix => 2
  }

  function AsksMethod(r: Rule): nat {
    if r.methodMatch.Some? then 1 else 0
  }

  /** Exact, then regex, then prefix; the longer path; a method; more headers; more query params. */
  function MatchPrecedence(a: Rule, b: Rule): Ordering {
    Then(Compare(Rank(a.kind), Rank(b.kind)),
    Then(Compare(|b.path|, |a.path|),
    Then(Compare(AsksMethod(b), AsksMethod(a)),
    Then(Compare(|b.headers|, |a.headers|),
         Compare(|b.params|, |a.params|)))))
  }

  predicate Before(a: Rule, b: Rule) {
    !MatchPrecedence(a, b).Greater?
  }

  predicate Tied(a: Rule, b: Rule) {
    MatchPrecedence(a, b).Equal?
  }

  /** A total preorder, which is what a sort needs of its comparison. */
  lemma PrecedenceIsAnOrder(a: Rule, b: Rule, c: Rule)
    ensures Tied(a, a)
    ensures MatchPrecedence(a, b).Less? <==> MatchPrecedence(b, a).Greater?
    ensures Tied(a, b) ==>
              MatchPrecedence(a, c) == MatchPrecedence(b, c) && MatchPrecedence(c, a) == MatchPrecedence(c, b)
    ensures Before(a, b) && Before(b, c) ==> Before(a, c)
  {
  }

  /** What a rule is specific about, the most telling first; smaller is more specific. */
  function Specifics(r: Rule): (k: seq<int>)
    ensures |k| == 5
  {
    [if r.kind.Exact? then 0 else if r.kind.RegularExpression? then 1 else 2,
     0 - |r.path|, if r.methodMatch.Some? then 0 else 1, 0 - |r.headers|, 0 - |r.params|]
  }

  ghost predicate DecidedAt(a: Rule, b: Rule, i: int) {
    0 <= i < 5 && Specifics(a)[i] < Specifics(b)[i] && forall j :: 0 <= j < i ==> Specifics(a)[j] == Specifics(b)[j]
  }

  /** The first thing two rules differ in decides, and only rules alike in all five tie. */
  lemma FirstDifferenceDecides(a: Rule, b: Rule)
    ensures MatchPrecedence(a, b).Less? <==> exists i :: DecidedAt(a, b, i)
    ensures Tied(a, b) <==> Specifics(a) == Specifics(b)
  {
    var k, l := Specifics(a), Specifics(b);
    if MatchPrecedence(a, b).Less? {
      assert DecidedAt(a, b, 0) || DecidedAt(a, b, 1) || DecidedAt(a, b, 2) || DecidedAt(a, b, 3) || DecidedAt(a, b, 4);
    }
    if i :| DecidedAt(a, b, i) {
      assert i > 0 ==> k[0] == l[0];
      assert i > 1 ==> k[1] == l[1];
      assert i > 2 ==> k[2] == l[2];
      assert i > 3 ==> k[3] == l[3];
    }
    if k == l {
      assert k[0] == l[0] && k[1] == l[1] && k[2] == l[2] && k[3] == l[3] && k[4] == l[4];
    }
  }

  // ----- stable sorts -----

  ghost predicate Sorted(s: seq<Rule>) {
    forall i, j :: 0 <= i < j < |s| ==> Before(s[i], s[j])
  }

  /** The rules neither before nor after `r`, in order. */
  function Ties(s: seq<Rule>, r: Rule): seq<Rule> {
    if s == [] then []
    else if Tied(s[0], r) then [s[0]] + Ties(s[1..], r)
    else Ties(s[1..], r)
  }

  ghost predicate SameTies(s: seq<Rule>, t: seq<Rule>) {
    forall r :: Ties(s, r) == Ties(t, r)
  }

  /** What a stable sort promises: in order, and equal rules in the order they came. */
  ghost predicate IsStableSort(input: seq<Rule>, output: seq<Rule>) {
    Sorted(output) && SameTies(input, output)
  }

  lemma {:induction false} TiesOfConcat(s: seq<Rule>, t: seq<Rule>, r: Rule)
    ensures Ties(s + t, r) == Ties(s, r) + Ties(t, r)
  {
    if s == [] {
      assert s + t == t;
    } else {
      assert (s + t)[1..] == s[1..] + t;
      TiesOfConcat(s[1..], t, r);
    }
  }

  lemma {:induction false} InTies(s: seq<Rule>, x: Rule, r: Rule)
    ensures x in Ties(s, r) <==> x in s && Tied(x, r)
  {
    if s != [] {
      InTies(s[1..], x, r);
      assert s == [s[0]] + s[1..];
    }
  }

  lemma SameTiesSameRules(s: seq<Rule>, t: seq<Rule>, x: Rule)
    requires SameTies(s, t)
    ensures x in s <==> x in t
  {
    PrecedenceIsAnOrder(x, x, x);
    assert Ties(s, x) == Ties(t, x);
    InTies(s, x, x);
    InTies(t, x, x);
  }

  /** Two sorted lists with the same ties start with the same rule. */
  lemma SameHead(s: seq<Rule>, t: seq<Rule>)
    requires Sorted(s) && Sorted(t) && SameTies(s, t) && s != []
    ensures t != [] && s[0] == t[0]
  {
    SameTiesSameRules(s, t, s[0]);
    SameTiesSameRules(s, t, t[0]);
    var i :| 0 <= i < |s| && s[i] == t[0];
    var j :| 0 <= j < |t| && t[j] == s[0];
    PrecedenceIsAnOrder(s[0], s[0], s[0]);
    PrecedenceIsAnOrder(t[0], t[0], t[0]);
    assert Before(s[0], t[0]) && Before(t[0], s[0]);
    PrecedenceIsAnOrder(s[0], t[0], s[0]);
    assert Ties(s, s[0])[0] == s[0] && Ties(t, s[0])[0] == t[0];
  }

  lemma {:induction false} SortedUnique(s: seq<Rule>, t: seq<Rule>)
    requires Sorted(s) && Sorted(t) && SameTies(s, t)
    ensures s == t
    decreases |s|
  {
    if s == [] {
      if t != [] {
        SameHead(t, s);
      }
    } else {
      SameHead(s, t);
      forall r
        ensures Ties(s[1..], r) == Ties(t[1..], r)
      {
        assert Ties(s, r) == Ties(t, r);
        if Tied(s[0], r) {
          assert Ties(s[1..], r) == Ties(s, r)[1..];
          assert Ties(t[1..], r) == Ties(t, r)[1..];
        }
      }
      SortedUnique(s[1..], t[1..]);
      assert s == [s[0]] + s[1..] && t == [t[0]] + t[1..];
    }
  }

  /** There is one stable sort of a list. */
  lemma StableSortUnique(input: seq<Rule>, s: seq<Rule>, t: seq<Rule>)
    requires IsStableSort(input, s) && IsStableSort(input, t)
    ensures s == t
  {
    forall r
      ensures Ties(s, r) == Ties(t, r)
    {
      assert Ties(input, r) == Ties(s, r) && Ties(input, r) == Ties(t, r);
    }
    SortedUnique(s, t);
  }

  /** A rule appended to an arrangement ends up where it would have in the push order. */
  lemma AppendKeepsTies(pushed: seq<Rule>, held: seq<Rule>, x: Rule)
    requires SameTies(pushed, held)
    ensures SameTies(pushed + [x], held + [x])
  {
    forall r
      ensures Ties(pushed + [x], r) == Ties(held + [x], r)
    {
      assert Ties(pushed, r) == Ties(held, r);
      TiesOfConcat(pushed, [x], r);
      TiesOfConcat(held, [x], r);
    }
  }

  lemma SortOfArrangement(pushed: seq<Rule>, held: seq<Rule>, sorted: seq<Rule>)
    requires SameTies(pushed, held) && IsStableSort(held, sorted)
    ensures IsStableSort(pushed, sorted)
  {
    forall r
      ensures Ties(pushed, r) == Ties(sorted, r)
    {
      assert Ties(pushed, r) == Ties(held, r) && Ties(held, r) == Ties(sorted, r);
    }
  }

  // ----- sorting -----

  /** Where a new rule goes in a sorted list: behind every rule not after it. */
  method Insert(s: seq<Rule>, x: Rule) returns (t: seq<Rule>)
    requires Sorted(s)
    ensures IsStableSort(s + [x], t)
  {
    var i := |s|;
    while i > 0 && !Before(s[i - 1], x)
      invariant 0 <= i <= |s|
      invariant forall j :: i <= j < |s| ==> !Before(s[j], x)
    {
      i := i - 1;
    }
    t := s[..i] + [x] + s[i..];
    InsertSorted(s, x, i);
    InsertKeepsTies(s, x, i);
  }

  lemma InsertSorted(s: seq<Rule>, x: Rule, i: nat)
    requires Sorted(s) && i <= |s|
    requires i > 0 ==> Before(s[i - 1], x)
    requires forall j :: i <= j < |s| ==> !Before(s[j], x)
    ensures Sorted(s[..i] + [x] + s[i..])
  {
    var t := s[..i] + [x] + s[i..];
    forall j, k | 0 <= j < k < |t|
      ensures Before(t[j], t[k])
    {
      if j < i && k == i {
        PrecedenceIsAnOrder(s[j], s[i - 1], x);
      } else if j == i {
        PrecedenceIsAnOrder(x, s[k - 1], x);
      }
    }
  }

  lemma InsertKeepsTies(s: seq<Rule>, x: Rule, i: nat)
    requires i <= |s|
    requires forall j :: i <= j < |s| ==> !Before(s[j], x)
    ensures SameTies(s + [x], s[..i] + [x] + s[i..])
  {
    forall r
      ensures Ties(s + [x], r) == Ties(s[..i] + [x] + s[i..], r)
    {
      assert s == s[..i] + s[i..];
      TiesOfConcat(s[..i], s[i..], r);
      TiesOfConcat(s, [x], r);
      TiesOfConcat(s[..i] + [x], s[i..], r);
      TiesOfConcat(s[..i], [x], r);
      if Tied(x, r) {
        NoTies(s[i..], x, r);
      }
    }
  }

  lemma {:induction false} NoTies(s: seq<Rule>, x: Rule, r: Rule)
    requires Tied(x, r) && forall y :: y in s ==> !Before(y, x)
    ensures Ties(s, r) == []
  {
    if s != [] {
      assert s[0] in s;
      PrecedenceIsAnOrder(x, r, s[0]);
      NoTies(s[1..], x, r);
    }
  }

  method SortRules(rules: seq<Rule>) returns (sorted: seq<Rule>)
    ensures IsStableSort(rules, sorted)
  {
    sorted := [];
    for i := 0 to |rules|
      invariant IsStableSort(rules[..i], sorted)
    {
      ghost var held := sorted;
      sorted := Insert(sorted, rules[i]);
      AppendKeepsTies(rules[..i], held, rules[i]);
      assert rules[..i] + [rules[i]] == rules[..i + 1];
      SortOfArrangement(rules[..i + 1], held + [rules[i]], sorted);
    }
    assert rules[..|rules|] == rules;
  }

  // ----- which rule a request gets -----

  ghost predicate FirstIs(s: seq<Rule>, matches: Rule -> bool, i: nat) {
    i < |s| && matches(s[i]) && forall j :: 0 <= j < i ==> !matches(s[j])
  }

  /** Rule `i` wins among the matching rules: precedence first, then the order they came in. */
  ghost predicate Wins(pushed: seq<Rule>, matches: Rule -> bool, i: nat) {
    && i < |pushed|
    && matches(pushed[i])
    && forall j :: 0 <= j < |pushed| && matches(pushed[j]) ==>
         MatchPrecedence(pushed[i], pushed[j]).Less? || (Tied(pushed[i], pushed[j]) && i <= j)
  }

  /** Looking for the first match among the ties only. */
  lemma {:induction false} FirstTie(s: seq<Rule>, matches: Rule -> bool, r: Rule, i: nat) returns (k: nat)
    requires i < |s| && matches(s[i]) && Tied(s[i], r)
    requires forall j :: 0 <= j < i ==> !(matches(s[j]) && Tied(s[j], r))
    ensures FirstIs(Ties(s, r), matches, k) && Ties(s, r)[k] == s[i]
  {
    if i == 0 {
      k := 0;
    } else {
      k := FirstTie(s[1..], matches, r, i - 1);
      if Tied(s[0], r) {
        k := k + 1;
      }
    }
  }

  lemma {:induction false} LeastSuch(s: seq<Rule>, matches: Rule -> bool, r: Rule, n: nat) returns (i: nat)
    requires n < |s| && matches(s[n]) && Tied(s[n], r)
    ensures i < |s| && matches(s[i]) && Tied(s[i], r)
    ensures forall j :: 0 <= j < i ==> !(matches(s[j]) && Tied(s[j], r))
    decreases n
  {
    if m :| 0 <= m < n && matches(s[m]) && Tied(s[m], r) {
      i := LeastSuch(s, matches, r, m);
    } else {
      i := n;
    }
  }

  /** The first match in the sorted entry is the winner among everything pushed. */
  lemma FirstMatchWins(pushed: seq<Rule>, sorted: seq<Rule>, matches: Rule -> bool, f: nat) returns (i: nat)
    requires IsStableSort(pushed, sorted) && FirstIs(sorted, matches, f)
    ensures Wins(pushed, matches, i) && pushed[i] == sorted[f]
  {
    var r := sorted[f];
    PrecedenceIsAnOrder(r, r, r);
    SameTiesSameRules(pushed, sorted, r);
    var n :| 0 <= n < |pushed| && pushed[n] == r;
    i := LeastSuch(pushed, matches, r, n);
    var k := FirstTie(pushed, matches, r, i);
    var l := FirstTie(sorted, matches, r, f);
    assert Ties(pushed, r) == Ties(sorted, r);
    forall j | 0 <= j < |pushed| && matches(pushed[j])
      ensures MatchPrecedence(r, pushed[j]).Less? || (Tied(r, pushed[j]) && i <= j)
    {
      SameTiesSameRules(pushed, sorted, pushed[j]);
      var m :| 0 <= m < |sorted| && sorted[m] == pushed[j];
      assert Before(r, pushed[j]);
      PrecedenceIsAnOrder(r, pushed[j], r);
    }
  }

  /** No match in the entry, none among what was pushed. */
  lemma NoMatchAnywhere(pushed: seq<Rule>, sorted: seq<Rule>, matches: Rule -> bool)
    requires IsStableSort(pushed, sorted)
    ensures (forall r :: r in sorted ==> !matches(r)) <==> (forall r :: r in pushed ==> !matches(r))
  {
    forall r
      ensures r in sorted <==> r in pushed
    {
      SameTiesSameRules(pushed, sorted, r);
    }
  }
}
