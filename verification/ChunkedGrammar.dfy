/**
 The language of chunked bodies the observer is meant to accept, written down
 without any automaton: a strict reading of section 7.1 of RFC 9112, with field
 bytes as in section 5.5 of RFC 9110.

   body      = *chunk last-chunk *trailer CRLF
   chunk     = size-line CRLF data CRLF       ; size in 1 .. 2^64 - 1
   last-chunk = size-line CRLF                ; size 0
   size-line = 1*HEXDIG [ ";" *field-byte ]   ; no whitespace before ";"
   trailer   = field-byte *field-byte CRLF    ; holds a ":", opens with none of ":" SP HTAB
 */
module ChunkedGrammar {
  import opened Options
  import opened Words

  type Byte = b: int | 0 <= b < 256

  const CR: Byte := 13
  const LF: Byte := 10
  const HTAB: Byte := 9
  const SP: Byte := 32
  const COLON: Byte := 58
  const SEMICOLON: Byte := 59
  const CRLF: seq<Byte> := [CR, LF]

  /** Any byte but a control character other than HTAB; obs-text passes. */
  predicate IsFieldByte(b: Byte) {
    b == HTAB || (0x20 <= b && b != 0x7f)
  }

  predicate IsHexByte(b: Byte) {
    48 <= b <= 57 || 97 <= b <= 102 || 65 <= b <= 70
  }

  function Nibble(b: Byte): (n: nat)
    requires IsHexByte(b)
    ensures n < 16
  {
    if b <= 57 then b - 48 else if b <= 70 then b - 65 + 10 else b - 97 + 10
  }

  predicate AllHex(s: seq<Byte>) {
    forall i :: 0 <= i < |s| ==> IsHexByte(s[i])
  }

  predicate AllField(s: seq<Byte>) {
    forall i :: 0 <= i < |s| ==> IsFieldByte(s[i])
  }

  /** The number a digit string denotes, least significant digit last. */
  function HexValue(digits: seq<Byte>): nat
    requires AllHex(digits)
  {
    if digits == [] then 0
    else 16 * HexValue(digits[..|digits| - 1]) + Nibble(digits[|digits| - 1])
  }

  datatype SizeLine = SizeLine(digits: seq<Byte>, ext: Option<seq<Byte>>) {
    predicate Valid() {
      && digits != []
      && AllHex(digits)
      && HexValue(digits) < TWO_64
      && (ext.Some? ==> AllField(ext.value))
    }

    function Size(): nat
      requires Valid()
    {
      HexValue(digits)
    }

    function Render(): seq<Byte> {
      digits + (if ext.Some? then [SEMICOLON] + ext.value else []) + CRLF
    }
  }

  datatype Chunk = Chunk(line: SizeLine, data: seq<Byte>) {
    predicate Valid() {
      line.Valid() && line.Size() == |data| && data != []
    }

    function Render(): seq<Byte> {
      line.Render() + data + CRLF
    }
  }

  predicate ValidTrailer(line: seq<Byte>) {
    && line != []
    && AllField(line)
    && COLON in line
    && line[0] != COLON && line[0] != SP && line[0] != HTAB
  }

  function RenderTrailers(lines: seq<seq<Byte>>): seq<Byte> {
    if lines == [] then CRLF else lines[0] + CRLF + RenderTrailers(lines[1..])
  }

  function RenderChunks(chunks: seq<Chunk>): seq<Byte> {
    if chunks == [] then [] else chunks[0].Render() + RenderChunks(chunks[1..])
  }

  function JoinData(chunks: seq<Chunk>): seq<Byte> {
    if chunks == [] then [] else chunks[0].data + JoinData(chunks[1..])
  }

  datatype Body = Body(chunks: seq<Chunk>, last: SizeLine, trailers: seq<seq<Byte>>) {
    predicate Valid() {
      && (forall i :: 0 <= i < |chunks| ==> chunks[i].Valid())
      && last.Valid() && last.Size() == 0
      && (forall i :: 0 <= i < |trailers| ==> ValidTrailer(trailers[i]))
    }

    function Render(): seq<Byte> {
      RenderChunks(chunks) + last.Render() + RenderTrailers(trailers)
    }
  }

  /** `w` is one complete chunked body, no byte more. */
  ghost predicate IsStream(w: seq<Byte>) {
    exists b: Body :: b.Valid() && b.Render() == w
  }

  /** Some complete chunked body starts with `w`. */
  ghost predicate Viable(w: seq<Byte>) {
    exists z: seq<Byte> :: IsStream(w + z)
  }
}
