/**
 Host entries of a route table (src/routing/build.rs): rules are pushed to the
 entry of their port, listener hostname and route hostname, and sorted either
 after every push or once after the last.
 */
module RouteTables {
  import opened Options
  import opened RouteOrder
  import opened Ascii
  import opened Weights

  /** `*` is the catch-all, `*.example.com` is kept by its parent, any other host by itself. */
  datatype HostKey = CatchAll | Wildcard(parent: string) | Named(host: string)

  function HostKeyOf(routeHost: string): HostKey {
    var lower := Lower(routeHost);
    if lower == "*" then CatchAll
    else if StartsWith(lower, "*.") then Wildcard(lower[2..])
    else Named(lower)
  }

  /** Hosts share an entry exactly when they differ in case only. */
  lemma HostKeyIsTheHost(a: string, b: string)
    ensures HostKeyOf(a) == HostKeyOf(b) <==> Lower(a) == Lower(b)
  {
    if HostKeyOf(a) == HostKeyOf(b) && HostKeyOf(a).Wildcard? {
      assert Lower(a) == "*." + Lower(a)[2..] && Lower(b) == "*." + Lower(b)[2..];
    }
  }

  datatype Slot = Slot(port: nat, listener: Option<string>, host: HostKey)

  datatype Push = Push(port: nat, listener: Option<string>, routeHost: string, rule: Rule)

  function SlotOf(p: Push): Slot {
    Slot(p.port, if p.listener.Some? then Some(Lower(p.listener.value)) else None, HostKeyOf(p.routeHost))
  }

  predicate SameText(a: Option<string>, b: Option<string>) {
    if a.Some? && b.Some? then Lower(a.value) == Lower(b.value) else a == b
  }

  /** Rules share an entry exactly when port, listener and route hostname agree, case aside. */
  lemma SlotIsThePlace(p: Push, q: Push)
    ensures SlotOf(p) == SlotOf(q)
       <==> p.port == q.port && SameText(p.listener, q.listener) && Lower(p.routeHost) == Lower(q.routeHost)
  {
    HostKeyIsTheHost(p.routeHost, q.routeHost);
  }

  /** A rule with what its requests go by worked out. */
  function Prepared(r: Rule): Rule {
    r.(hasFilters := r.filtered || exists c :: c in r.choices && c.filtered,
       cumulative := Cumulative(r.choices),
       total := Total(r.choices))
  }

  method Prepare(r: Rule) returns (prepared: Rule)
    ensures prepared == Prepared(r)
  {
    var hasFilters := r.filtered;
    for i := 0 to |r.choices|
      invariant hasFilters <==> r.filtered || exists c :: c in r.choices[..i] && c.filtered
    {
      assert r.choices[..i + 1] == r.choices[..i] + [r.choices[i]];
      hasFilters := hasFilters || r.choices[i].filtered;
    }
    assert r.choices[..|r.choices|] == r.choices;
    var cumulative, total := Accumulate(r.choices);
    prepared := r.(hasFilters := hasFilters, cumulative := cumulative, total := total);
  }

  /** The rules pushed to an entry, in push order. */
  function RulesFor(pushes: seq<Push>, slot: Slot): seq<Rule> {
    if pushes == [] then []
    else
      var rest, last := pushes[..|pushes| - 1], pushes[|pushes| - 1];
      if SlotOf(last) == slot then RulesFor(rest, slot) + [Prepared(last.rule)] else RulesFor(rest, slot)
  }

  /** Each entry holds its rules with ties in push order, sorted or not. */
  ghost predicate Arranged(pushes: seq<Push>, entries: map<Slot, seq<Rule>>) {
    && (forall slot :: slot in entries <==> RulesFor(pushes, slot) != [])
    && (forall slot :: slot in entries ==> SameTies(RulesFor(pushes, slot), entries[slot]))
  }

  ghost predicate AllSorted(entries: map<Slot, seq<Rule>>) {
    forall slot :: slot in entries ==> Sorted(entries[slot])
  }

  /** Sorted entries are a function of the pushes, whichever way they were built. */
  lemma OneTable(pushes: seq<Push>, e: map<Slot, seq<Rule>>, f: map<Slot, seq<Rule>>)
    requires Arranged(pushes, e) && AllSorted(e)
    requires Arranged(pushes, f) && AllSorted(f)
    ensures e == f
  {
    forall slot | slot in e
      ensures slot in f && e[slot] == f[slot]
    {
      assert RulesFor(pushes, slot) != [];
      StableSortUnique(RulesFor(pushes, slot), e[slot], f[slot]);
    }
    assert forall slot :: slot in f ==> slot in e;
  }

  /** A request finds in its entry the winner of all rules ever pushed to that entry. */
  lemma EntryServesWinner(pushes: seq<Push>, entries: map<Slot, seq<Rule>>, slot: Slot, matches: Rule -> bool, f: nat)
    returns (i: nat)
    requires Arranged(pushes, entries) && AllSorted(entries) && slot in entries
    requires FirstIs(entries[slot], matches, f)
    ensures Wins(RulesFor(pushes, slot), matches, i) && RulesFor(pushes, slot)[i] == entries[slot][f]
  {
    i := FirstMatchWins(RulesFor(pushes, slot), entries[slot], matches, f);
  }

  lemma PushedMore(pushes: seq<Push>, p: Push)
    ensures forall slot ::
              RulesFor(pushes + [p], slot)
              == RulesFor(pushes, slot) + if SlotOf(p) == slot then [Prepared(p.rule)] else []
  {
    assert (pushes + [p])[..|pushes|] == pushes;
  }

  lemma PushArranged(pushes: seq<Push>, entries: map<Slot, seq<Rule>>, p: Push, held: seq<Rule>)
    requires Arranged(pushes, entries)
    requires held == if SlotOf(p) in entries then entries[SlotOf(p)] else []
    ensures Arranged(pushes + [p], entries[SlotOf(p) := held + [Prepared(p.rule)]])
  {
    var slot := SlotOf(p);
    PushedMore(pushes, p);
    assert SameTies(RulesFor(pushes, slot), held);
    AppendKeepsTies(RulesFor(pushes, slot), held, Prepared(p.rule));
    hide SameTies, SlotOf, Prepared;
  }

  class RouteTable {
    var entries: map<Slot, seq<Rule>>
    ghost var pushed: seq<Push>

    ghost predicate Valid()
      reads this
    {
      Arranged(pushed, entries)
    }

    constructor ()
      ensures Valid() && pushed == [] && AllSorted(entries)
    {
      entries, pushed := map[], [];
    }

    /** Appends to the entry, which stays as unordered as it becomes. */
    method PushRoute(p: Push)
      requires Valid()
      modifies this
      ensures Valid() && pushed == old(pushed) + [p]
      ensures SlotOf(p) in entries && entries == old(entries)[SlotOf(p) := entries[SlotOf(p)]]
    {
      var slot := SlotOf(p);
      var held := if slot in entries then entries[slot] else [];
      PushArranged(pushed, entries, p, held);
      var rule := Prepare(p.rule);
      entries := entries[slot := held + [rule]];
      pushed := pushed + [p];
    }

    method SortEntry(slot: Slot)
      requires Valid() && slot in entries
      modifies this`entries
      ensures Valid() && Sorted(entries[slot])
      ensures entries.Keys == old(entries.Keys)
      ensures forall s :: s in entries && s != slot ==> entries[s] == old(entries[s])
    {
      var sorted := SortRules(entries[slot]);
      SortOfArrangement(RulesFor(pushed, slot), entries[slot], sorted);
      entries := entries[slot := sorted];
    }

    /** One rule at a time: its entry is put in order at once. */
    method AddRoute(p: Push)
      requires Valid()
      modifies this
      ensures Valid() && pushed == old(pushed) + [p]
      ensures old(AllSorted(entries)) ==> AllSorted(entries)
    {
      PushRoute(p);
      SortEntry(SlotOf(p));
    }

    /** Puts every entry in order. */
    method SortRoutes()
      requires Valid()
      modifies this`entries
      ensures Valid() && AllSorted(entries)
    {
      var slots := entries.Keys;
      while slots != {}
        invariant Valid() && slots <= entries.Keys
        invariant forall s :: s in entries && s !in slots ==> Sorted(entries[s])
      {
        var slot :| slot in slots;
        SortEntry(slot);
        slots := slots - {slot};
      }
    }
  }

  /** Sorting after each insert, the simple way, quadratic in the rules of a host. */
  method BuildOneByOne(pushes: seq<Push>) returns (table: RouteTable)
    ensures table.pushed == pushes && table.Valid() && AllSorted(table.entries)
  {
    table := new RouteTable();
    for i := 0 to |pushes|
      invariant table.Valid() && fresh(table) && table.pushed == pushes[..i] && AllSorted(table.entries)
    {
      table.AddRoute(pushes[i]);
    }
  }

  /** Pushing all, then sorting once. */
  method BuildBatch(pushes: seq<Push>) returns (table: RouteTable)
    ensures table.pushed == pushes && table.Valid() && AllSorted(table.entries)
  {
    table := new RouteTable();
    for i := 0 to |pushes|
      invariant table.Valid() && fresh(table) && table.pushed == pushes[..i]
    {
      table.PushRoute(pushes[i]);
    }
    table.SortRoutes();
  }

  /** The fast build and the simple one give the same host entries. */
  method BuildsAgree(pushes: seq<Push>) returns (same: bool)
    ensures same
  {
    var simple := BuildOneByOne(pushes);
    var batch := BuildBatch(pushes);
    OneTable(pushes, simple.entries, batch.entries);
    same := simple.entries == batch.entries;
  }
}
