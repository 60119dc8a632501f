/**
 That a changed address shows in the DNS signature (src/routing/build.rs): which
 addresses it covers, and what replacing one does to it.
 */
module SignatureChanges {
  import opened Words
  import opened Resolution
  import opened ResolutionOrder

  /** The entry dials the address or mirrors to it. */
  ghost predicate Names(e: Entry, a: Addr) {
    || (exists i :: 0 <= i < |e.backends| && e.backends[i].addr == a)
    || (exists i :: 0 <= i < |e.filters| && e.filters[i].MirrorTo? && e.filters[i].addr == a)
  }

  lemma {:induction false} AddressesAre(bs: seq<Backend>, a: Addr)
    ensures |Addresses(bs)| == |bs| && forall i :: 0 <= i < |bs| ==> Addresses(bs)[i] == bs[i].addr
  {
    if bs != [] {
      AddressesAre(bs[1..], a);
    }
  }

  lemma {:induction false} InMirrors(fs: seq<TableFilter>, a: Addr)
    ensures a in Mirrors(fs) <==> exists i :: 0 <= i < |fs| && fs[i].MirrorTo? && fs[i].addr == a
  {
    if fs != [] {
      InMirrors(fs[1..], a);
      if i :| 0 <= i < |fs[1..]| && fs[1..][i].MirrorTo? && fs[1..][i].addr == a {
        assert fs[i + 1].MirrorTo? && fs[i + 1].addr == a;
      }
      if i :| 0 <= i < |fs| && fs[i].MirrorTo? && fs[i].addr == a {
        if i > 0 {
          assert fs[1..][i - 1].MirrorTo? && fs[1..][i - 1].addr == a;
        }
      }
    }
  }

  lemma EntryAddressesAre(e: Entry, a: Addr)
    ensures a in EntryAddresses(e) <==> Names(e, a)
  {
    AddressesAre(e.backends, a);
    InMirrors(e.filters, a);
    var bs := Addresses(e.backends);
    hide Addresses, Mirrors;
    assert a in bs <==> exists i :: 0 <= i < |e.backends| && e.backends[i].addr == a by {
      if i :| 0 <= i < |e.backends| && e.backends[i].addr == a {
        assert bs[i] == a;
      }
    }
  }

  /** The signature covers exactly the addresses of the entries held. */
  lemma {:induction false} TableAddressesAre(entries: seq<Entry>, held: seq<nat>, a: Addr)
    requires Indexes(held, |entries|)
    ensures a in TableAddresses(entries, held) <==> exists k :: k in held && k < |entries| && Names(entries[k], a)
  {
    if held != [] {
      TableAddressesAre(entries, held[1..], a);
      EntryAddressesAre(entries[held[0]], a);
      hide Names, EntryAddresses;
      assert forall k :: k in held <==> k == held[0] || k in held[1..];
    }
  }

  // ----- one address replaced -----

  lemma {:induction false} AddressesUpdate(bs: seq<Backend>, i: nat, b: Backend, hash: Addr -> nat)
    requires i < |bs|
    ensures Sum(Addresses(bs[i := b]), hash) + hash(bs[i].addr) == Sum(Addresses(bs), hash) + hash(b.addr)
  {
    if i > 0 {
      AddressesUpdate(bs[1..], i - 1, b, hash);
      assert bs[i := b][1..] == bs[1..][i - 1 := b];
    } else {
      assert bs[i := b][1..] == bs[1..];
    }
  }

  lemma {:induction false} MirrorsUpdate(fs: seq<TableFilter>, i: nat, a: Addr, hash: Addr -> nat)
    requires i < |fs| && fs[i].MirrorTo?
    ensures Sum(Mirrors(fs[i := MirrorTo(a, fs[i].fraction)]), hash) + hash(fs[i].addr)
         == Sum(Mirrors(fs), hash) + hash(a)
  {
    var t := fs[i := MirrorTo(a, fs[i].fraction)];
    if i > 0 {
      MirrorsUpdate(fs[1..], i - 1, a, hash);
      assert t[1..] == fs[1..][i - 1 := MirrorTo(a, fs[i].fraction)];
      var own := if fs[0].MirrorTo? then [fs[0].addr] else [];
      SumOfConcat(own, Mirrors(fs[1..]), hash);
      SumOfConcat(own, Mirrors(t[1..]), hash);
    } else {
      assert t[1..] == fs[1..];
      assert ([a] + Mirrors(fs[1..]))[1..] == Mirrors(fs[1..]);
      assert ([fs[0].addr] + Mirrors(fs[1..]))[1..] == Mirrors(fs[1..]);
    }
  }

  /** The entry with one address, `x`, replaced by `y`: a backend's or a mirror's. */
  ghost predicate Replaced(e: Entry, e': Entry, x: Addr, y: Addr) {
    || (exists i, b :: IsBackendReplaced(e, e', i, b) && e.backends[i].addr == x && b.addr == y)
    || (exists i :: 0 <= i < |e.filters| && e.filters[i].MirrorTo? && e.filters[i].addr == x
                    && e' == e.(filters := e.filters[i := MirrorTo(y, e.filters[i].fraction)]))
  }

  ghost predicate IsBackendReplaced(e: Entry, e': Entry, i: int, b: Backend) {
    0 <= i < |e.backends| && e' == e.(backends := e.backends[i := b])
  }

  lemma ReplacedSum(e: Entry, e': Entry, x: Addr, y: Addr, hash: Addr -> nat)
    requires Replaced(e, e', x, y)
    ensures Sum(EntryAddresses(e'), hash) + hash(x) == Sum(EntryAddresses(e), hash) + hash(y)
  {
    SumOfConcat(Addresses(e.backends), Mirrors(e.filters), hash);
    SumOfConcat(Addresses(e'.backends), Mirrors(e'.filters), hash);
    if i, b :| IsBackendReplaced(e, e', i, b) && e.backends[i].addr == x && b.addr == y {
      AddressesUpdate(e.backends, i, b, hash);
    } else {
      var i :| 0 <= i < |e.filters| && e.filters[i].MirrorTo? && e.filters[i].addr == x
               && e' == e.(filters := e.filters[i := MirrorTo(y, e.filters[i].fraction)]);
      MirrorsUpdate(e.filters, i, y, hash);
    }
  }

  /** `v` for each time the entry is held. */
  function EachTime(held: seq<nat>, j: nat, v: nat): nat {
    if held == [] then 0 else (if held[0] == j then v else 0) + EachTime(held[1..], j, v)
  }

  lemma {:induction false} OnceOnly(held: seq<nat>, j: nat, v: nat)
    requires EachTime(held, j, 1) <= 1
    ensures EachTime(held, j, v) == if EachTime(held, j, 1) == 1 then v else 0
  {
    if held != [] {
      OnceOnly(held[1..], j, v);
    }
  }

  lemma {:induction false} HeldSums(entries: seq<Entry>, j: nat, e': Entry, held: seq<nat>, hash: Addr -> nat,
                                    x: Addr, y: Addr)
    requires Indexes(held, |entries|) && j < |entries| && Replaced(entries[j], e', x, y)
    ensures Sum(held, EntrySum(entries[j := e'], hash)) + EachTime(held, j, hash(x))
         == Sum(held, EntrySum(entries, hash)) + EachTime(held, j, hash(y))
  {
    if held != [] {
      HeldSums(entries, j, e', held[1..], hash, x, y);
      ReplacedSum(entries[j], e', x, y, hash);
      hide Replaced, EntryAddresses;
    }
  }

  lemma SameRemainderIff(a: nat, b: nat, x: nat, y: nat)
    requires b + x == a + y && x < TWO_64 && y < TWO_64
    ensures a % TWO_64 == b % TWO_64 <==> x == y
  {
    var q, r := a / TWO_64, b / TWO_64;
    if a % TWO_64 == b % TWO_64 {
      assert x - y == (q - r) * TWO_64;
      assert q == r;
    }
  }

  /**
   Lookups that replace one address of an entry held once, a backend's or a mirror's,
   leave the signature as it was if and only if the two addresses hash alike.
   */
  lemma ChangedAddressShowsIff(entries: seq<Entry>, j: nat, e': Entry, held: seq<nat>, hash: Addr -> nat,
                               x: Addr, y: Addr)
    requires Indexes(held, |entries|) && j < |entries| && EachTime(held, j, 1) == 1
    requires Replaced(entries[j], e', x, y) && hash(x) < TWO_64 && hash(y) < TWO_64
    ensures DnsSignature(entries, held, hash) == DnsSignature(entries[j := e'], held, hash) <==> hash(x) == hash(y)
  {
    hide Sum, EntrySum, Replaced, DnsSignature;
    SignatureIsSum(entries, held, hash);
    SignatureIsSum(entries[j := e'], held, hash);
    HeldSums(entries, j, e', held, hash, x, y);
    OnceOnly(held, j, hash(x));
    OnceOnly(held, j, hash(y));
    SameRemainderIff(Sum(held, EntrySum(entries, hash)), Sum(held, EntrySum(entries[j := e'], hash)), hash(x), hash(y));
  }
}
