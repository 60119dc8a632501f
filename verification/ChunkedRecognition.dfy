/**
 The observer recognises exactly the grammar: it ends at the last byte of a
 complete body and nowhere else, breaks at the first byte no body could hold,
 and hands out the chunk payloads of what it read.
 */
module ChunkedRecognition {
  import opened Options
  import opened Words
  import opened ChunkedGrammar
  import opened ChunkedMachine

  /** The machine takes all of `w` and is done with its last byte. */
  predicate Accepts(p: Phase, w: seq<Byte>)
    requires p.Valid()
  {
    Observed(p, w).phase.Done? && Observed(p, w).consumed == |w|
  }

  // ----- a body's bytes drive the machine to Done -----

  /** `w`, read from `p`, leads to `q` and leaves `z` to read, `out` found on the way. */
  predicate Drives(p: Phase, w: seq<Byte>, q: Phase, out: seq<Byte>, z: seq<Byte>)
    requires p.Valid() && q.Valid()
  {
    Observed(p, w + z) == Outcome(q, |w|, out).Then(Observed(q, z))
  }

  lemma DrivesThen(p: Phase, v: seq<Byte>, q: Phase, out: seq<Byte>, w: seq<Byte>, r: Phase, out': seq<Byte>,
                   z: seq<Byte>)
    requires p.Valid() && q.Valid() && r.Valid()
    requires Drives(p, v, q, out, w + z) && Drives(q, w, r, out', z)
    ensures Drives(p, v + w, r, out + out', z)
  {
    hide Observed;
    assert v + (w + z) == (v + w) + z;
    ThenAssoc(Outcome(q, |v|, out), Outcome(r, |w|, out'), Observed(r, z));
  }

  /** The same between framing bytes, which carry no payload. */
  lemma DrivesOn(p: Phase, v: seq<Byte>, q: Phase, w: seq<Byte>, r: Phase, z: seq<Byte>)
    requires p.Valid() && q.Valid() && r.Valid()
    requires Drives(p, v, q, [], w + z) && Drives(q, w, r, [], z)
    ensures Drives(p, v + w, r, [], z)
  {
    hide Drives;
    var none: seq<Byte> := [];
    DrivesThen(p, v, q, none, w, r, none, z);
    assert none + none == none;
  }

  lemma DrivesByte(p: Phase, b: Byte, z: seq<Byte>)
    requires p.Valid() && !p.Terminal() && !Next(p, b).Broken?
    ensures Drives(p, [b], Next(p, b), if p.Data? then [b] else [], z)
  {
    hide Next;
    assert ([b] + z)[1..] == z;
  }

  lemma DrivesNothing(p: Phase, z: seq<Byte>)
    requires p.Valid()
    ensures Drives(p, [], p, [], z)
  {
    assert [] + z == z;
    NothingThen(p, Observed(p, z));
  }

  lemma {:induction false} DrivesDigits(seen: seq<Byte>, digits: seq<Byte>, z: seq<Byte>)
    requires AllHex(seen) && AllHex(digits) && AllHex(seen + digits) && HexValue(seen + digits) < TWO_64
    ensures HexValue(seen) < TWO_64 && Size(HexValue(seen), seen != []).Valid()
    ensures Drives(Size(HexValue(seen), seen != []), digits, Size(HexValue(seen + digits), seen + digits != []), [], z)
    decreases |digits|
  {
    hide Drives;
    HexPrefix(seen, digits);
    var p := Size(HexValue(seen), seen != []);
    if digits == [] {
      assert seen + digits == seen;
      DrivesNothing(p, z);
    } else {
      var d := digits[0];
      var more := seen + [d];
      HexOneMore(seen, d);
      hide HexValue;
      assert more + digits[1..] == seen + digits;
      HexPrefix(more, digits[1..]);
      DrivesDigits(more, digits[1..], z);
      DrivesDigit(p, d, digits[1..] + z);
      DrivesOn(p, [d], Size(HexValue(more), true), digits[1..], Size(HexValue(seen + digits), true), z);
      assert [d] + digits[1..] == digits;
    }
  }

  lemma HexOneMore(seen: seq<Byte>, d: Byte)
    requires AllHex(seen) && IsHexByte(d)
    ensures AllHex(seen + [d]) && HexValue(seen + [d]) == 16 * HexValue(seen) + Nibble(d)
  {
    assert (seen + [d])[..|seen|] == seen;
  }

  lemma DrivesDigit(p: Phase, d: Byte, z: seq<Byte>)
    requires p.Size? && p.Valid() && IsHexByte(d) && 16 * p.hex + Nibble(d) < TWO_64
    ensures Drives(p, [d], Size(16 * p.hex + Nibble(d), true), [], z)
  {
    DrivesByte(p, d, z);
  }

  lemma {:induction false} HexPrefix(a: seq<Byte>, b: seq<Byte>)
    requires AllHex(a) && AllHex(b)
    ensures AllHex(a + b) && HexValue(a) <= HexValue(a + b)
    decreases |b|
  {
    if b == [] {
      assert a + b == a;
    } else {
      HexPrefix(a, b[..|b| - 1]);
      assert (a + b)[..|a + b| - 1] == a + b[..|b| - 1];
    }
  }

  lemma {:induction false} DrivesExt(size: nat, ext: seq<Byte>, z: seq<Byte>)
    requires size < TWO_64 && AllField(ext)
    ensures Drives(SizeExt(size), ext, SizeExt(size), [], z)
    decreases |ext|
  {
    if ext == [] {
      DrivesNothing(SizeExt(size), z);
    } else {
      DrivesByte(SizeExt(size), ext[0], ext[1..] + z);
      DrivesExt(size, ext[1..], z);
      DrivesOn(SizeExt(size), [ext[0]], SizeExt(size), ext[1..], SizeExt(size), z);
      assert [ext[0]] + ext[1..] == ext;
    }
  }

  function AfterSizeLine(size: nat): Phase {
    if size == 0 then TrailerLineStart else Data(size)
  }

  lemma DrivesCrlf(p: Phase, mid: Phase, q: Phase, z: seq<Byte>)
    requires p.Valid() && mid.Valid() && q.Valid()
    requires !p.Terminal() && !p.Data? && !mid.Terminal() && !mid.Data? && !q.Broken?
    requires Next(p, CR) == mid && Next(mid, LF) == q
    ensures Drives(p, CRLF, q, [], z)
  {
    hide Next;
    DrivesByte(p, CR, [LF] + z);
    DrivesByte(mid, LF, z);
    DrivesOn(p, [CR], mid, [LF], q, z);
    assert [CR] + [LF] == CRLF;
  }

  lemma DrivesSizeLine(line: SizeLine, z: seq<Byte>)
    requires line.Valid()
    ensures Drives(START, line.Render(), AfterSizeLine(line.Size()), [], z)
  {
    hide Drives;
    var size := line.Size();
    var digits := line.digits;
    var q := AfterSizeLine(size);
    var ext := if line.ext.Some? then [SEMICOLON] + line.ext.value else [];
    assert [] + digits == digits;
    DrivesDigits([], digits, ext + CRLF + z);
    if line.ext.Some? {
      DrivesByte(Size(size, true), SEMICOLON, line.ext.value + (CRLF + z));
      DrivesExt(size, line.ext.value, CRLF + z);
      DrivesOn(Size(size, true), [SEMICOLON], SizeExt(size), line.ext.value, SizeExt(size), CRLF + z);
      DrivesCrlf(SizeExt(size), SizeCrlf(size), q, z);
      DrivesOn(Size(size, true), ext, SizeExt(size), CRLF, q, z);
    } else {
      DrivesCrlf(Size(size, true), SizeCrlf(size), q, z);
      assert ext + CRLF == CRLF;
    }
    assert ext + CRLF + z == (ext + CRLF) + z;
    DrivesOn(START, digits, Size(size, true), ext + CRLF, q, z);
    assert digits + (ext + CRLF) == line.Render();
  }

  lemma DrivesData(data: seq<Byte>, z: seq<Byte>)
    requires 0 < |data| < TWO_64
    ensures Drives(Data(|data|), data, DataCrlf(false), data, z)
  {
    hide Observed;
    DataRun(|data|, data + z, |data|);
    assert (data + z)[..|data|] == data && (data + z)[|data|..] == z;
  }

  lemma DrivesChunk(c: Chunk, z: seq<Byte>)
    requires c.Valid()
    ensures Drives(START, c.Render(), START, c.data, z)
  {
    hide Drives;
    var n, line, data := |c.data|, c.line.Render(), c.data;
    DrivesSizeLine(c.line, (data + CRLF) + z);
    DrivesData(data, CRLF + z);
    DrivesCrlf(DataCrlf(false), DataCrlf(true), START, z);
    DrivesThen(Data(n), data, DataCrlf(false), data, CRLF, START, [], z);
    assert data + [] == data && [] + data == data;
    DrivesThen(START, line, Data(n), [], data + CRLF, START, data, z);
    assert line + (data + CRLF) == c.Render();
  }

  lemma {:induction false} DrivesChunks(chunks: seq<Chunk>, z: seq<Byte>)
    requires forall i :: 0 <= i < |chunks| ==> chunks[i].Valid()
    ensures Drives(START, RenderChunks(chunks), START, JoinData(chunks), z)
    decreases |chunks|
  {
    hide Drives;
    if chunks == [] {
      DrivesNothing(START, z);
    } else {
      DrivesChunk(chunks[0], RenderChunks(chunks[1..]) + z);
      DrivesChunks(chunks[1..], z);
      DrivesThen(START, chunks[0].Render(), START, chunks[0].data,
                 RenderChunks(chunks[1..]), START, JoinData(chunks[1..]), z);
    }
  }

  lemma {:induction false} DrivesTrailerLine(sawColon: bool, rest: seq<Byte>, z: seq<Byte>)
    requires AllField(rest)
    ensures Drives(TrailerLine(sawColon), rest, TrailerLine(sawColon || COLON in rest), [], z)
    decreases |rest|
  {
    hide Drives;
    if rest == [] {
      DrivesNothing(TrailerLine(sawColon), z);
    } else {
      var saw := sawColon || rest[0] == COLON;
      DrivesByte(TrailerLine(sawColon), rest[0], rest[1..] + z);
      DrivesTrailerLine(saw, rest[1..], z);
      DrivesOn(TrailerLine(sawColon), [rest[0]], TrailerLine(saw), rest[1..],
               TrailerLine(saw || COLON in rest[1..]), z);
      assert [rest[0]] + rest[1..] == rest;
    }
  }

  lemma DrivesTrailer(line: seq<Byte>, z: seq<Byte>)
    requires ValidTrailer(line)
    ensures Drives(TrailerLineStart, line + CRLF, TrailerLineStart, [], z)
  {
    hide Drives;
    var rest := line[1..];
    assert [line[0]] + rest == line;
    DrivesByte(TrailerLineStart, line[0], rest + (CRLF + z));
    DrivesTrailerLine(false, rest, CRLF + z);
    DrivesOn(TrailerLineStart, [line[0]], TrailerLine(false), rest, TrailerLine(true), CRLF + z);
    DrivesCrlf(TrailerLine(true), TrailerCr(false), TrailerLineStart, z);
    DrivesOn(TrailerLineStart, line, TrailerLine(true), CRLF, TrailerLineStart, z);
  }

  lemma {:induction false} DrivesTrailers(lines: seq<seq<Byte>>, z: seq<Byte>)
    requires forall i :: 0 <= i < |lines| ==> ValidTrailer(lines[i])
    ensures Drives(TrailerLineStart, RenderTrailers(lines), Done, [], z)
    decreases |lines|
  {
    hide Drives;
    if lines == [] {
      DrivesCrlf(TrailerLineStart, TrailerCr(true), Done, z);
    } else {
      DrivesTrailer(lines[0], RenderTrailers(lines[1..]) + z);
      DrivesTrailers(lines[1..], z);
      DrivesOn(TrailerLineStart, lines[0] + CRLF, TrailerLineStart, RenderTrailers(lines[1..]), Done, z);
    }
  }

  /**
   Decoding undoes encoding: whatever bytes follow, a body is read to its end
   and no further, and its payload is its chunks' data in order.
   */
  lemma DecodeRoundTrip(body: Body, z: seq<Byte>)
    requires body.Valid()
    ensures Observed(START, body.Render() + z) == Outcome(Done, |body.Render()|, JoinData(body.chunks))
  {
    var chunks, last, trailers := RenderChunks(body.chunks), body.last.Render(), RenderTrailers(body.trailers);
    var data := JoinData(body.chunks);
    assert Drives(START, body.Render(), Done, data, z) by {
      hide Drives;
      DrivesChunks(body.chunks, last + (trailers + z));
      DrivesSizeLine(body.last, trailers + z);
      DrivesTrailers(body.trailers, z);
      DrivesThen(START, chunks, START, data, last, TrailerLineStart, [], trailers + z);
      assert data + [] == data;
      DrivesThen(START, chunks + last, TrailerLineStart, data, trailers, Done, [], z);
    }
    assert Observed(Done, z) == Outcome(Done, 0, []);
    assert data + [] == data;
  }

  // ----- what drives the machine to Done is a body's bytes -----

  lemma AcceptsTail(p: Phase, w: seq<Byte>)
    requires p.Valid() && !p.Done? && Accepts(p, w)
    ensures w != [] && !p.Broken? && !Next(p, w[0]).Broken? && Accepts(Next(p, w[0]), w[1..])
  {
    hide Next;
  }

  lemma AcceptsLf(p: Phase, w: seq<Byte>)
    requires p.SizeCrlf? || p == DataCrlf(true) || p.TrailerCr?
    requires p.Valid() && Accepts(p, w)
    ensures w != [] && w[0] == LF && Accepts(Next(p, LF), w[1..])
  {
    AcceptsTail(p, w);
  }

  lemma {:induction false} SplitExt(size: nat, w: seq<Byte>) returns (ext: seq<Byte>, rest: seq<Byte>)
    requires size < TWO_64 && Accepts(SizeExt(size), w)
    ensures AllField(ext) && w == ext + CRLF + rest
    ensures Accepts(AfterSizeLine(size), rest)
    decreases |w|
  {
    AcceptsTail(SizeExt(size), w);
    if w[0] == CR {
      AcceptsLf(SizeCrlf(size), w[1..]);
      ext, rest := [], w[2..];
      assert w[1..][1..] == rest;
    } else {
      ext, rest := SplitExt(size, w[1..]);
      ext := [w[0]] + ext;
    }
  }

  lemma {:induction false} SplitSizeLine(seen: seq<Byte>, w: seq<Byte>) returns (line: SizeLine, rest: seq<Byte>)
    requires AllHex(seen) && HexValue(seen) < TWO_64
    requires Size(HexValue(seen), seen != []).Valid() && Accepts(Size(HexValue(seen), seen != []), w)
    ensures line.Valid() && seen + w == line.Render() + rest
    ensures Accepts(AfterSizeLine(line.Size()), rest)
    decreases |w|
  {
    hide Accepts;
    var size := HexValue(seen);
    AcceptsTail(Size(size, seen != []), w);
    var b := w[0];
    if IsHexByte(b) {
      var more := seen + [b];
      assert more[..|more| - 1] == seen;
      line, rest := SplitSizeLine(more, w[1..]);
      assert more + w[1..] == seen + w;
    } else if b == SEMICOLON {
      var ext;
      ext, rest := SplitExt(size, w[1..]);
      line := SizeLine(seen, Some(ext));
      assert w == [SEMICOLON] + (ext + CRLF + rest);
    } else {
      AcceptsLf(SizeCrlf(size), w[1..]);
      rest := w[2..];
      assert w[1..][1..] == rest;
      line := SizeLine(seen, None);
      assert w == CRLF + rest;
    }
  }

  lemma {:induction false} SplitTrailerLine(sawColon: bool, w: seq<Byte>) returns (line: seq<Byte>, rest: seq<Byte>)
    requires Accepts(TrailerLine(sawColon), w)
    ensures AllField(line) && (sawColon || COLON in line) && w == line + CRLF + rest
    ensures Accepts(TrailerLineStart, rest)
    decreases |w|
  {
    AcceptsTail(TrailerLine(sawColon), w);
    if w[0] == CR {
      AcceptsLf(TrailerCr(false), w[1..]);
      line, rest := [], w[2..];
      assert w[1..][1..] == rest;
    } else {
      line, rest := SplitTrailerLine(sawColon || w[0] == COLON, w[1..]);
      line := [w[0]] + line;
    }
  }

  lemma {:induction false} SplitTrailers(w: seq<Byte>) returns (lines: seq<seq<Byte>>)
    requires Accepts(TrailerLineStart, w)
    ensures forall i :: 0 <= i < |lines| ==> ValidTrailer(lines[i])
    ensures w == RenderTrailers(lines)
    decreases |w|
  {
    AcceptsTail(TrailerLineStart, w);
    if w[0] == CR {
      AcceptsLf(TrailerCr(true), w[1..]);
      lines := [];
      assert w == CRLF;
    } else {
      var line, rest := SplitTrailerLine(false, w[1..]);
      var first := [w[0]] + line;
      assert ValidTrailer(first) by {
        assert forall i :: 0 <= i < |line| ==> first[i + 1] == line[i];
      }
      assert w == first + CRLF + rest;
      var more := SplitTrailers(rest);
      lines := [first] + more;
      assert lines[1..] == more;
    }
  }

  lemma {:induction false} SplitData(remaining: nat, w: seq<Byte>)
    requires 0 < remaining < TWO_64 && Accepts(Data(remaining), w)
    ensures remaining + 2 <= |w| && w[remaining..remaining + 2] == CRLF
    ensures Accepts(START, w[remaining + 2..])
    decreases remaining
  {
    AcceptsTail(Data(remaining), w);
    if remaining > 1 {
      SplitData(remaining - 1, w[1..]);
      assert w[1..][remaining - 1..remaining + 1] == w[remaining..remaining + 2];
      assert w[1..][remaining + 1..] == w[remaining + 2..];
    } else {
      AcceptsTail(DataCrlf(false), w[1..]);
      AcceptsLf(DataCrlf(true), w[1..][1..]);
      assert w[1..3] == CRLF;
      assert w[1..][1..][1..] == w[3..];
    }
  }

  /** The body an accepted byte string spells out. */
  lemma {:induction false} SplitBody(w: seq<Byte>) returns (body: Body)
    requires Accepts(START, w)
    ensures body.Valid() && body.Render() == w
    decreases |w|
  {
    hide Accepts;
    var line, rest := SplitSizeLine([], w);
    assert [] + w == w;
    var n := line.Size();
    if n == 0 {
      var lines := SplitTrailers(rest);
      body := Body([], line, lines);
    } else {
      SplitData(n, rest);
      var chunk := Chunk(line, rest[..n]);
      var tail := SplitBody(rest[n + 2..]);
      body := Body([chunk] + tail.chunks, tail.last, tail.trailers);
      RenderCons(chunk, tail);
      RenderChunk(line, rest, n);
    }
  }

  lemma RenderChunk(line: SizeLine, rest: seq<Byte>, n: nat)
    requires n + 2 <= |rest| && rest[n..n + 2] == CRLF
    ensures Chunk(line, rest[..n]).Render() + rest[n + 2..] == line.Render() + rest
  {
    assert rest == rest[..n] + CRLF + rest[n + 2..];
  }

  lemma RenderCons(chunk: Chunk, tail: Body)
    ensures Body([chunk] + tail.chunks, tail.last, tail.trailers).Render() == chunk.Render() + tail.Render()
  {
    var chunks := [chunk] + tail.chunks;
    assert chunks[0] == chunk && chunks[1..] == tail.chunks;
    var a, b, c, d := chunk.Render(), RenderChunks(tail.chunks), tail.last.Render(), RenderTrailers(tail.trailers);
    assert (a + b) + c + d == a + (b + c + d);
  }

  lemma AcceptsIffStream(w: seq<Byte>)
    ensures Accepts(START, w) <==> IsStream(w)
  {
    if Accepts(START, w) {
      var body := SplitBody(w);
    }
    if IsStream(w) {
      var body: Body :| body.Valid() && body.Render() == w;
      DecodeRoundTrip(body, []);
      assert w + [] == w;
    }
  }

  // ----- the observer's verdicts -----

  lemma {:induction false} OutcomeOfPrefix(p: Phase, w: seq<Byte>, n: nat)
    requires p.Valid() && n <= Observed(p, w).consumed
    ensures !p.Broken? ==> Observed(p, w[..n]).consumed == n && !Observed(p, w[..n]).phase.Broken?
    ensures n == Observed(p, w).consumed && !Observed(p, w).phase.Broken? ==> Observed(p, w[..n]) == Observed(p, w)
    decreases n
  {
    hide Next;
    if n > 0 {
      OutcomeOfPrefix(Next(p, w[0]), w[1..], n - 1);
      assert w[..n][1..] == w[1..][..n - 1];
    }
  }

  /**
   Exact recognition: the observer is done after `n` bytes if and only if those
   `n` bytes are one complete body.
   */
  lemma DoneExactlyAtBodyEnd(w: seq<Byte>, n: nat)
    requires n <= |w|
    ensures Observed(START, w).phase.Done? && Observed(START, w).consumed == n <==> IsStream(w[..n])
  {
    hide Observed, IsStream;
    if Observed(START, w).phase.Done? && Observed(START, w).consumed == n {
      OutcomeOfPrefix(START, w, n);
      AcceptsIffStream(w[..n]);
    }
    if IsStream(w[..n]) {
      assert w == w[..n] + w[n..];
      AcceptsIffStream(w[..n]);
      ObservedConcat(START, w[..n], w[n..]);
      NoByteOn(Done, w[n..]);
    }
  }

  /** Bytes that finish a body from a phase that is not broken. */
  function Completion(p: Phase): (w: seq<Byte>)
    requires p.Valid() && !p.Broken?
  {
    match p
    case Size(hex, hasDigit) =>
      var w := CRLF + AfterSizeCompletion(hex);
      if hasDigit then w else [48] + w
    case SizeExt(size) => CRLF + AfterSizeCompletion(size)
    case SizeCrlf(size) => [LF] + AfterSizeCompletion(size)
    case Data(remaining) => DataCompletion(remaining)
    case DataCrlf(sawCr) => if sawCr then [LF] + EMPTY_BODY else CRLF + EMPTY_BODY
    case TrailerLineStart => CRLF
    case TrailerLine(sawColon) =>
      var w := CRLF + CRLF;
      if sawColon then w else [COLON] + w
    case TrailerCr(blank) => if blank then [LF] else [LF] + CRLF
    case Done => []
  }

  const EMPTY_BODY: seq<Byte> := [48] + (CRLF + CRLF)

  function DataCompletion(remaining: nat): seq<Byte> {
    seq(remaining, _ => 0 as Byte) + (CRLF + EMPTY_BODY)
  }

  function AfterSizeCompletion(size: nat): seq<Byte> {
    if size == 0 then CRLF else DataCompletion(size)
  }

  lemma AcceptsCons(p: Phase, b: Byte, w: seq<Byte>)
    requires p.Valid() && !p.Terminal() && !Next(p, b).Broken? && Accepts(Next(p, b), w)
    ensures Accepts(p, [b] + w)
  {
    hide Next;
    assert ([b] + w)[1..] == w;
  }

  lemma AcceptsCrlf(p: Phase, mid: Phase, w: seq<Byte>)
    requires p.Valid() && mid.Valid() && !p.Terminal() && !mid.Terminal()
    requires Next(p, CR) == mid && !Next(mid, LF).Broken? && Accepts(Next(mid, LF), w)
    ensures Accepts(p, CRLF + w)
  {
    hide Next, Accepts;
    AcceptsCons(mid, LF, w);
    AcceptsCons(p, CR, [LF] + w);
    CrlfThen(w);
  }

  lemma CrlfThen(w: seq<Byte>)
    ensures [CR] + ([LF] + w) == CRLF + w
  {}

  lemma AcceptsDone()
    ensures Accepts(Done, [])
  {}

  lemma AcceptsBlankLine()
    ensures Accepts(TrailerLineStart, CRLF) && Accepts(TrailerCr(true), [LF])
  {
    AcceptsDone();
    hide Accepts;
    var none: seq<Byte> := [];
    AcceptsCons(TrailerCr(true), LF, none);
    assert [LF] + none == [LF];
    AcceptsCons(TrailerLineStart, CR, [LF]);
    assert [CR] + [LF] == CRLF;
  }

  lemma AcceptsEmptyBody()
    ensures Accepts(START, EMPTY_BODY)
  {
    AcceptsBlankLine();
    hide Accepts;
    AcceptsCrlf(Size(0, true), SizeCrlf(0), CRLF);
    AcceptsCons(START, 48, CRLF + CRLF);
  }

  lemma AcceptsData(data: seq<Byte>, w: seq<Byte>)
    requires 0 < |data| < TWO_64 && Accepts(DataCrlf(false), w)
    ensures Accepts(Data(|data|), data + w)
  {
    hide Observed;
    DrivesData(data, w);
  }

  lemma AcceptsAfterSize(size: nat)
    requires size < TWO_64
    ensures Accepts(AfterSizeLine(size), AfterSizeCompletion(size))
  {
    AcceptsBlankLine();
    AcceptsEmptyBody();
    hide Accepts;
    if size > 0 {
      AcceptsCrlf(DataCrlf(false), DataCrlf(true), EMPTY_BODY);
      AcceptsData(seq(size, _ => 0 as Byte), CRLF + EMPTY_BODY);
    }
  }

  lemma CompletionAccepted(p: Phase)
    requires p.Valid() && !p.Broken?
    ensures Accepts(p, Completion(p))
  {
    AcceptsDone();
    AcceptsBlankLine();
    hide Accepts;
    match p {
      case Done =>
      case Data(remaining) =>
        AcceptsAfterSize(remaining);
      case Size(hex, hasDigit) =>
        AcceptsAfterSize(hex);
        AcceptsCrlf(Size(hex, true), SizeCrlf(hex), AfterSizeCompletion(hex));
        if !hasDigit {
          AcceptsCons(p, 48, CRLF + AfterSizeCompletion(hex));
        }
      case SizeExt(size) =>
        AcceptsAfterSize(size);
        AcceptsCrlf(p, SizeCrlf(size), AfterSizeCompletion(size));
      case SizeCrlf(size) =>
        AcceptsAfterSize(size);
        AcceptsCons(p, LF, AfterSizeCompletion(size));
      case DataCrlf(sawCr) =>
        AcceptsEmptyBody();
        AcceptsCons(DataCrlf(true), LF, EMPTY_BODY);
        AcceptsCrlf(DataCrlf(false), DataCrlf(true), EMPTY_BODY);
      case TrailerLineStart =>
      case TrailerLine(sawColon) =>
        AcceptsCrlf(TrailerLine(true), TrailerCr(false), CRLF);
        if !sawColon {
          AcceptsCons(p, COLON, CRLF + CRLF);
        }
      case TrailerCr(blank) =>
        AcceptsCons(TrailerCr(false), LF, CRLF);
    }
  }

  /** Bytes the machine took whole without breaking begin some body, and only those. */
  lemma ViableIffTaken(w: seq<Byte>)
    ensures Viable(w) <==> !Observed(START, w).phase.Broken? && Observed(START, w).consumed == |w|
  {
    var o := Observed(START, w);
    if !o.phase.Broken? && o.consumed == |w| {
      var z := Completion(o.phase);
      CompletionAccepted(o.phase);
      ObservedConcat(START, w, z);
      AcceptsIffStream(w + z);
    }
    if Viable(w) {
      var z :| IsStream(w + z);
      AcceptsIffStream(w + z);
      ObservedConcat(START, w, z);
      assert Observed(o.phase, z).consumed <= |z|;
    }
  }

  /**
   The observer breaks at byte `i` if and only if the bytes before it could still
   grow into a body, are not one already, and no body begins with them and it.
   */
  lemma BrokenExactlyAtFirstHopelessByte(w: seq<Byte>, i: nat)
    requires i < |w|
    ensures Observed(START, w).phase.Broken? && Observed(START, w).consumed == i
       <==> Viable(w[..i]) && !IsStream(w[..i]) && !Viable(w[..i + 1])
  {
    hide Observed, IsStream, Viable;
    var o, before := Observed(START, w), Observed(START, w[..i]);
    ViableIffTaken(w[..i]);
    ViableIffTaken(w[..i + 1]);
    AcceptsIffStream(w[..i]);
    DoneExactlyAtBodyEnd(w, i);
    assert w[..i + 1] + w[i + 1..] == w && w[..i] + w[i..] == w && w[..i] + [w[i]] == w[..i + 1];
    ObservedConcat(START, w[..i + 1], w[i + 1..]);
    ObservedConcat(START, w[..i], w[i..]);
    ObservedConcat(START, w[..i], [w[i]]);
    if o.phase.Broken? && o.consumed == i {
      OutcomeOfPrefix(START, w, i);
    } else if !before.phase.Terminal() {
      FirstByteDecides(before.phase, w[i..]);
      assert w[i..][..1] == [w[i]];
    }
  }

  lemma FirstByteDecides(p: Phase, w: seq<Byte>)
    requires p.Valid() && !p.Terminal() && w != []
    ensures Observed(p, w[..1]).phase.Broken? <==> Observed(p, w).phase.Broken? && Observed(p, w).consumed == 0
    ensures Observed(p, w[..1]).phase.Broken? || Observed(p, w[..1]).consumed == 1
  {
    hide Next;
    assert w[..1][1..] == [] && w[..1][0] == w[0];
  }

  /** Otherwise all of `w` was taken and it is the start of a body, not one yet. */
  lemma WaitingExactlyOnUnfinishedBody(w: seq<Byte>)
    ensures !Observed(START, w).phase.Terminal()
       <==> Viable(w) && forall n :: 0 <= n <= |w| ==> !IsStream(w[..n])
  {
    var o := Observed(START, w);
    ViableIffTaken(w);
    forall n | 0 <= n <= |w|
      ensures IsStream(w[..n]) <==> o.phase.Done? && o.consumed == n
    {
      DoneExactlyAtBodyEnd(w, n);
    }
    if o.phase.Done? {
      assert IsStream(w[..o.consumed]);
    }
  }

  // ----- an encoder -----

  function HexDigit(n: nat): (b: Byte)
    requires n < 16
    ensures IsHexByte(b) && Nibble(b) == n
  {
    if n < 10 then 48 + n else 97 + (n - 10)
  }

  /** Lower-case digits of `n`, no leading zero but for zero itself. */
  function HexDigits(n: nat): (s: seq<Byte>)
    ensures s != [] && AllHex(s) && HexValue(s) == n
  {
    if n < 16 then
      var d := [HexDigit(n)];
      assert d[..|d| - 1] == [];
      d
    else
      var s := HexDigits(n / 16) + [HexDigit(n % 16)];
      assert s[..|s| - 1] == HexDigits(n / 16);
      s
  }

  function EncodeChunk(payload: seq<Byte>, ext: Option<seq<Byte>>): Chunk {
    Chunk(SizeLine(HexDigits(|payload|), ext), payload)
  }

  function EncodeChunks(payloads: seq<(seq<Byte>, Option<seq<Byte>>)>): (chunks: seq<Chunk>)
    ensures |chunks| == |payloads|
    ensures forall i :: 0 <= i < |chunks| ==> chunks[i] == EncodeChunk(payloads[i].0, payloads[i].1)
  {
    seq(|payloads|, i requires 0 <= i < |payloads| => EncodeChunk(payloads[i].0, payloads[i].1))
  }

  function JoinPayloads(payloads: seq<(seq<Byte>, Option<seq<Byte>>)>): seq<Byte> {
    if payloads == [] then [] else payloads[0].0 + JoinPayloads(payloads[1..])
  }

  lemma {:induction false} JoinEncoded(payloads: seq<(seq<Byte>, Option<seq<Byte>>)>)
    ensures JoinData(EncodeChunks(payloads)) == JoinPayloads(payloads)
    decreases |payloads|
  {
    if payloads != [] {
      JoinEncoded(payloads[1..]);
      assert EncodeChunks(payloads)[1..] == EncodeChunks(payloads[1..]);
    }
  }

  /** Encode payloads with any extensions and trailers, decode: the payloads joined. */
  lemma PayloadRoundTrip(payloads: seq<(seq<Byte>, Option<seq<Byte>>)>, lastExt: Option<seq<Byte>>,
                         trailers: seq<seq<Byte>>, z: seq<Byte>)
    requires forall i :: 0 <= i < |payloads| ==>
               && 0 < |payloads[i].0| < TWO_64
               && (payloads[i].1.Some? ==> AllField(payloads[i].1.value))
    requires lastExt.Some? ==> AllField(lastExt.value)
    requires forall i :: 0 <= i < |trailers| ==> ValidTrailer(trailers[i])
    ensures var wire := Body(EncodeChunks(payloads), SizeLine(HexDigits(0), lastExt), trailers).Render();
            Observed(START, wire + z) == Outcome(Done, |wire|, JoinPayloads(payloads))
  {
    var body := Body(EncodeChunks(payloads), SizeLine(HexDigits(0), lastExt), trailers);
    JoinEncoded(payloads);
    DecodeRoundTrip(body, z);
  }
}
