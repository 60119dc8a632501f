/**
 The observer of src/proxy/chunked.rs: a class whose `Advance` scans a read
 with the bulk path for chunk data, and the plain byte-at-a-time machine it is
 proved against.
 */
module ChunkedMachine {
  import opened Options
  import opened Words
  import opened ChunkedGrammar

  datatype Phase =
    | Size(hex: nat, hasDigit: bool)
    | SizeExt(size: nat)
    | SizeCrlf(size: nat)
    | Data(remaining: nat)
    | DataCrlf(sawCr: bool)
    | TrailerLineStart
    | TrailerLine(sawColon: bool)
    | TrailerCr(blank: bool)
    | Done
    | Broken
  {
    /** 64-bit counters, and no data run of length zero. */
    predicate Valid() {
      match this
      case Size(hex, hasDigit) => hex < TWO_64 && (!hasDigit ==> hex == 0)
      case SizeExt(size) => size < TWO_64
      case SizeCrlf(size) => size < TWO_64
      case Data(remaining) => 0 < remaining < TWO_64
      case _ => true
    }

    predicate Terminal() {
      Done? || Broken?
    }
  }

  const START: Phase := Size(0, false)

  /** `None` when the shifted value would not fit 64 bits. */
  function ShiftHex(hex: nat, nibble: nat): (r: Option<nat>)
    requires hex < TWO_64 && nibble < 16
    ensures r.Some? <==> 16 * hex + nibble < TWO_64
    ensures r.Some? ==> r.value == 16 * hex + nibble
  {
    if hex / TWO_60 != 0 then None else Some(hex * 16 + nibble)
  }

  /** One byte, chunk data included: the machine without its bulk path. */
  function Next(p: Phase, b: Byte): (q: Phase)
    requires p.Valid()
    ensures q.Valid()
  {
    match p
    case Size(hex, hasDigit) =>
      if IsHexByte(b) then
        match ShiftHex(hex, Nibble(b)) {
          case Some(h) => Size(h, true)
          case None => Broken
        }
      else if b == SEMICOLON && hasDigit then SizeExt(hex)
      else if b == CR && hasDigit then SizeCrlf(hex)
      else Broken
    case SizeExt(size) =>
      if b == CR then SizeCrlf(size)
      else if IsFieldByte(b) then SizeExt(size)
      else Broken
    case SizeCrlf(size) =>
      if b != LF then Broken
      else if size == 0 then TrailerLineStart
      else Data(size)
    case Data(remaining) =>
      if remaining == 1 then DataCrlf(false) else Data(remaining - 1)
    case DataCrlf(sawCr) =>
      if !sawCr && b == CR then DataCrlf(true)
      else if sawCr && b == LF then START
      else Broken
    case TrailerLineStart =>
      if b == CR then TrailerCr(true)
      else if b == SP || b == HTAB || b == COLON || !IsFieldByte(b) then Broken
      else TrailerLine(false)
    case TrailerLine(sawColon) =>
      if b == CR && sawColon then TrailerCr(false)
      else if b == COLON then TrailerLine(true)
      else if IsFieldByte(b) then TrailerLine(sawColon)
      else Broken
    case TrailerCr(blank) =>
      if b != LF then Broken
      else if blank then Done
      else TrailerLineStart
    case Done => Broken
    case Broken => Broken
  }

  /** What a read does: the phase after it, the bytes taken, the payload found. */
  datatype Outcome = Outcome(phase: Phase, consumed: nat, payload: seq<Byte>) {
    /** This outcome, then `o` from where it left off. */
    function Then(o: Outcome): Outcome {
      Outcome(o.phase, consumed + o.consumed, payload + o.payload)
    }
  }

  /** Byte at a time: stop at the terminator, or before the byte that breaks. */
  function Observed(p: Phase, w: seq<Byte>): (o: Outcome)
    requires p.Valid()
    ensures o.phase.Valid() && o.consumed <= |w|
    ensures o.consumed < |w| ==> o.phase.Terminal()
    decreases |w|
  {
    if w == [] || p.Terminal() then Outcome(p, 0, [])
    else
      var q := Next(p, w[0]);
      if q.Broken? then Outcome(Broken, 0, [])
      else Outcome(q, 1, if p.Data? then [w[0]] else []).Then(Observed(q, w[1..]))
  }

  class ChunkedStream {
    var phase: Phase

    constructor ()
      ensures phase == START
    {
      phase := START;
    }

    /** One byte outside chunk data; inside it, the caller broke the contract. */
    method Step(b: Byte)
      requires phase.Valid()
      modifies this
      ensures phase == if old(phase).Data? then Broken else Next(old(phase), b)
    {
      match phase {
        case Size(hex, hasDigit) =>
          if 48 <= b <= 57 {
            var h := ShiftHex(hex, b - 48);
            phase := if h.Some? then Size(h.value, true) else Broken;
          } else if 97 <= b <= 102 {
            var h := ShiftHex(hex, b - 97 + 10);
            phase := if h.Some? then Size(h.value, true) else Broken;
          } else if 65 <= b <= 70 {
            var h := ShiftHex(hex, b - 65 + 10);
            phase := if h.Some? then Size(h.value, true) else Broken;
          } else if b == SEMICOLON && hasDigit {
            phase := SizeExt(hex);
          } else if b == CR && hasDigit {
            phase := SizeCrlf(hex);
          } else {
            phase := Broken;
          }
        case SizeExt(size) =>
          if b == CR {
            phase := SizeCrlf(size);
          } else if !IsFieldByte(b) {
            phase := Broken;
          }
        case SizeCrlf(size) =>
          if b == LF && size == 0 {
            phase := TrailerLineStart;
          } else if b == LF {
            phase := Data(size);
          } else {
            phase := Broken;
          }
        case Data(_) =>
          phase := Broken;
        case DataCrlf(sawCr) =>
          if !sawCr && b == CR {
            phase := DataCrlf(true);
          } else if sawCr && b == LF {
            phase := START;
          } else {
            phase := Broken;
          }
        case TrailerLineStart =>
          if b == CR {
            phase := TrailerCr(true);
          } else if b == SP || b == HTAB || b == COLON {
            phase := Broken;
          } else if !IsFieldByte(b) {
            phase := Broken;
          } else {
            phase := TrailerLine(false);
          }
        case TrailerLine(sawColon) =>
          if b == CR && sawColon {
            phase := TrailerCr(false);
          } else if b == COLON {
            phase := TrailerLine(true);
          } else if b == HTAB {
            phase := TrailerLine(sawColon);
          } else if !IsFieldByte(b) {
            phase := Broken;
          } else {
            phase := TrailerLine(sawColon);
          }
        case TrailerCr(blank) =>
          if b == LF && blank {
            phase := Done;
          } else if b == LF {
            phase := TrailerLineStart;
          } else {
            phase := Broken;
          }
        case Done =>
          phase := Broken;
        case Broken =>
          phase := Broken;
      }
    }

    /** Scan one read, whole data runs at a time, collecting the payload. */
    method Advance(bytes: seq<Byte>) returns (consumed: nat, payload: seq<Byte>)
      requires phase.Valid()
      modifies this
      ensures phase.Valid()
      ensures Outcome(phase, consumed, payload) == Observed(old(phase), bytes)
    {
      hide Next, Observed;
      payload := [];
      var i := 0;
      ghost var whole := Observed(phase, bytes);
      assert bytes[0..] == bytes;
      NothingThen(phase, whole);
      while i < |bytes|
        invariant 0 <= i <= |bytes|
        invariant phase.Valid()
        invariant phase.Broken? ==> i == 0
        invariant whole == Resumed(Outcome(phase, i, payload), bytes)
      {
        ghost var before := Outcome(phase, i, payload);
        if phase.Done? {
          NoByteOn(phase, bytes[i..]);
          return i, payload;
        }
        if phase.Broken? {
          NoByteOn(phase, bytes[i..]);
          return 0, payload;
        }
        if phase.Data? {
          var take := if phase.remaining < |bytes| - i then phase.remaining else |bytes| - i;
          BulkStep(before, bytes, take);
          payload := payload + bytes[i..i + take];
          i := i + take;
          phase := AfterData(phase.remaining - take);
          continue;
        }
        PlainStep(before, bytes);
        Step(bytes[i]);
        if phase.Broken? {
          return i, payload;
        }
        i := i + 1;
      }
      NoByteOn(phase, bytes[i..]);
      return i, payload;
    }

    /** How many bytes of the read belong to the stream. */
    method Observe(bytes: seq<Byte>) returns (consumed: nat)
      requires phase.Valid()
      modifies this
      ensures phase.Valid()
      ensures phase == Observed(old(phase), bytes).phase
      ensures consumed == Observed(old(phase), bytes).consumed
    {
      var payload;
      consumed, payload := Advance(bytes);
    }

    /** The same scan, the payload appended to `out`. */
    method DecodeInto(bytes: seq<Byte>, out: seq<Byte>) returns (consumed: nat, out': seq<Byte>)
      requires phase.Valid()
      modifies this
      ensures phase.Valid()
      ensures phase == Observed(old(phase), bytes).phase
      ensures consumed == Observed(old(phase), bytes).consumed
      ensures out' == out + Observed(old(phase), bytes).payload
    {
      var payload;
      consumed, payload := Advance(bytes);
      out' := out + payload;
    }

    /** A caller's read loop: every read goes to the same observer. */
    method DecodeReads(cuts: seq<seq<Byte>>) returns (consumed: nat, out: seq<Byte>)
      requires phase.Valid()
      modifies this
      ensures phase.Valid()
      ensures Outcome(phase, consumed, out) == Observed(old(phase), Flatten(cuts))
    {
      hide Observed;
      consumed, out := 0, [];
      var k := 0;
      assert cuts[0..] == cuts;
      NothingThen(phase, Observed(phase, Flatten(cuts)));
      while k < |cuts|
        invariant 0 <= k <= |cuts|
        invariant phase.Valid()
        invariant Observed(old(phase), Flatten(cuts))
               == Outcome(phase, consumed, out).Then(Observed(phase, Flatten(cuts[k..])))
      {
        ObservedConcat(phase, cuts[k], Flatten(cuts[k + 1..]));
        assert cuts[k..][1..] == cuts[k + 1..];
        var first := Observed(phase, cuts[k]);
        ThenAssoc(Outcome(phase, consumed, out), first, Observed(first.phase, Flatten(cuts[k + 1..])));
        var n;
        n, out := DecodeInto(cuts[k], out);
        consumed := consumed + n;
        k := k + 1;
      }
      NoByteOn(phase, Flatten(cuts[k..]));
    }
  }

  /** `bytes` read from where `o` stands in them. */
  function Resumed(o: Outcome, bytes: seq<Byte>): Outcome
    requires o.phase.Valid() && o.consumed <= |bytes|
  {
    o.Then(Observed(o.phase, bytes[o.consumed..]))
  }

  function AfterData(remaining: nat): Phase {
    if remaining == 0 then DataCrlf(false) else Data(remaining)
  }

  function Flatten(cuts: seq<seq<Byte>>): seq<Byte> {
    if cuts == [] then [] else cuts[0] + Flatten(cuts[1..])
  }

  lemma ThenAssoc(a: Outcome, b: Outcome, c: Outcome)
    ensures a.Then(b).Then(c) == a.Then(b.Then(c))
  {
    assert (a.payload + b.payload) + c.payload == a.payload + (b.payload + c.payload);
  }

  lemma NothingThen(p: Phase, a: Outcome)
    ensures Outcome(p, 0, []).Then(a) == a
  {
    assert [] + a.payload == a.payload;
  }

  lemma OneByteOn(p: Phase, w: seq<Byte>)
    requires p.Valid() && !p.Terminal() && w != []
    ensures var q := Next(p, w[0]);
            Observed(p, w)
            == if q.Broken? then Outcome(Broken, 0, [])
               else Outcome(q, 1, if p.Data? then [w[0]] else []).Then(Observed(q, w[1..]))
  {
    hide Next;
  }

  lemma NoByteOn(p: Phase, w: seq<Byte>)
    requires p.Valid() && (p.Terminal() || w == [])
    ensures Observed(p, w) == Outcome(p, 0, [])
  {}

  lemma OneDataByte(remaining: nat, w: seq<Byte>)
    requires 0 < remaining < TWO_64 && w != []
    ensures Observed(Data(remaining), w)
         == Outcome(AfterData(remaining - 1), 1, [w[0]]).Then(Observed(AfterData(remaining - 1), w[1..]))
  {
    assert Next(Data(remaining), w[0]) == AfterData(remaining - 1);
  }

  /** A bulk step over chunk data is the byte machine run over it. */
  lemma {:induction false} DataRun(remaining: nat, w: seq<Byte>, take: nat)
    requires 0 < remaining < TWO_64
    requires 0 < take <= remaining && take <= |w|
    ensures Observed(Data(remaining), w)
         == Outcome(AfterData(remaining - take), take, w[..take])
            .Then(Observed(AfterData(remaining - take), w[take..]))
  {
    hide Observed;
    OneDataByte(remaining, w);
    if take == 1 {
      assert w[..1] == [w[0]];
    } else {
      DataRun(remaining - 1, w[1..], take - 1);
      assert w[1..][..take - 1] == w[1..take] && w[1..][take - 1..] == w[take..];
      assert w[..take] == [w[0]] + w[1..take];
      ThenAssoc(Outcome(AfterData(remaining - 1), 1, [w[0]]),
                Outcome(AfterData(remaining - take), take - 1, w[1..take]),
                Observed(AfterData(remaining - take), w[take..]));
    }
  }

  /** Where `before` has read `bytes` up to, a data run of `take` bytes moves it on. */
  lemma BulkStep(before: Outcome, bytes: seq<Byte>, take: nat)
    requires before.phase.Data? && before.phase.Valid()
    requires 0 < take <= before.phase.remaining && before.consumed + take <= |bytes|
    ensures var i := before.consumed;
            var q := AfterData(before.phase.remaining - take);
            Resumed(before, bytes) == Resumed(Outcome(q, i + take, before.payload + bytes[i..i + take]), bytes)
  {
    hide Observed;
    var i := before.consumed;
    var q := AfterData(before.phase.remaining - take);
    DataRun(before.phase.remaining, bytes[i..], take);
    assert bytes[i..][..take] == bytes[i..i + take] && bytes[i..][take..] == bytes[i + take..];
    ThenAssoc(before, Outcome(q, take, bytes[i..i + take]), Observed(q, bytes[i + take..]));
  }

  /** Where `before` has read `bytes` up to, one framing byte moves it on, or breaks it. */
  lemma PlainStep(before: Outcome, bytes: seq<Byte>)
    requires before.phase.Valid() && !before.phase.Terminal() && !before.phase.Data?
    requires before.consumed < |bytes|
    ensures var i := before.consumed;
            var q := Next(before.phase, bytes[i]);
            Resumed(before, bytes)
            == if q.Broken? then Outcome(q, i, before.payload)
               else Resumed(Outcome(q, i + 1, before.payload), bytes)
  {
    hide Next, Observed;
    var i := before.consumed;
    var q := Next(before.phase, bytes[i]);
    OneByteOn(before.phase, bytes[i..]);
    assert bytes[i..][1..] == bytes[i + 1..];
    assert before.payload + [] == before.payload;
    ThenAssoc(before, Outcome(q, 1, []), Observed(q, bytes[i + 1..]));
  }

  /** Cutting the bytes into two reads changes nothing. */
  lemma {:induction false} ObservedConcat(p: Phase, a: seq<Byte>, b: seq<Byte>)
    requires p.Valid()
    ensures Observed(p, a + b) == Observed(p, a).Then(Observed(Observed(p, a).phase, b))
    decreases |a|
  {
    hide Next, Observed;
    if p.Terminal() {
      NoByteOn(p, a);
      NoByteOn(p, b);
      NoByteOn(p, a + b);
      NothingThen(p, Observed(p, b));
    } else if a == [] {
      NoByteOn(p, a);
      assert a + b == b;
      NothingThen(p, Observed(p, b));
    } else {
      var q := Next(p, a[0]);
      assert (a + b)[1..] == a[1..] + b;
      OneByteOn(p, a + b);
      OneByteOn(p, a);
      if q.Broken? {
        NoByteOn(q, b);
        NothingThen(q, Outcome(q, 0, []));
      } else {
        ObservedConcat(q, a[1..], b);
        var o := Observed(q, a[1..]);
        ThenAssoc(Outcome(q, 1, if p.Data? then [a[0]] else []), o, Observed(o.phase, b));
      }
    }
  }

  /** One read after another, each taken by the byte machine. */
  function ObservedReads(p: Phase, cuts: seq<seq<Byte>>): (o: Outcome)
    requires p.Valid()
    ensures o.phase.Valid()
    decreases |cuts|
  {
    if cuts == [] then Outcome(p, 0, [])
    else
      var first := Observed(p, cuts[0]);
      first.Then(ObservedReads(first.phase, cuts[1..]))
  }

  /** However the bytes are cut into reads, the outcome is that of one read. */
  lemma {:induction false} ReadSizeIndependence(p: Phase, cuts: seq<seq<Byte>>)
    requires p.Valid()
    ensures ObservedReads(p, cuts) == Observed(p, Flatten(cuts))
    decreases |cuts|
  {
    if cuts != [] {
      ObservedConcat(p, cuts[0], Flatten(cuts[1..]));
      ReadSizeIndependence(Observed(p, cuts[0]).phase, cuts[1..]);
    }
  }
}
