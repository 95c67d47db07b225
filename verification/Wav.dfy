/** The RIFF/WAVE validator `_validate_wav`, on bytes. */
module Wav {
  import opened Basics

  type Byte = x: int | 0 <= x < 256

  const RIFF: seq<Byte> := [0x52, 0x49, 0x46, 0x46]
  const WAVE: seq<Byte> := [0x57, 0x41, 0x56, 0x45]
  const FMT: seq<Byte> := [0x66, 0x6D, 0x74, 0x20]
  const DATA: seq<Byte> := [0x64, 0x61, 0x74, 0x61]

  /** Little-endian fields. */
  function U16(b: seq<Byte>, at: nat): nat
    requires at + 2 <= |b|
  {
    b[at] + 0x100 * (b[at + 1] as int)
  }

  function U32(b: seq<Byte>, at: nat): nat
    requires at + 4 <= |b|
  {
    b[at] + 0x100 * (b[at + 1] as int) + 0x1_0000 * (b[at + 2] as int) + 0x100_0000 * (b[at + 3] as int)
  }

  function Le16(n: nat): seq<Byte>
    requires n < 0x1_0000
  {
    [n % 0x100, n / 0x100]
  }

  function Le32(n: nat): seq<Byte>
    requires n < 0x1_0000_0000
  {
    [n % 0x100, n / 0x100 % 0x100, n / 0x1_0000 % 0x100, n / 0x100_0000]
  }

  lemma Le16Inverse(b: seq<Byte>, at: nat, n: nat)
    requires at + 2 <= |b| && n < 0x1_0000
    ensures b[at..at + 2] == Le16(n) <==> U16(b, at) == n
  {
    var s := b[at..at + 2];
    assert s == [b[at], b[at + 1]];
  }

  lemma Le32Inverse(b: seq<Byte>, at: nat, n: nat)
    requires at + 4 <= |b| && n < 0x1_0000_0000
    ensures b[at..at + 4] == Le32(n) <==> U32(b, at) == n
  {
    var s := b[at..at + 4];
    assert s == [b[at], b[at + 1], b[at + 2], b[at + 3]];
    if U32(b, at) == n {
      DigitsAreUnique(n, b[at], b[at + 1], b[at + 2], b[at + 3]);
    } else if s == Le32(n) {
      DigitsAddUp(n);
    }
  }

  lemma DigitsAreUnique(n: nat, b0: Byte, b1: Byte, b2: Byte, b3: Byte)
    requires n == b0 as int + 0x100 * (b1 as int) + 0x1_0000 * (b2 as int) + 0x100_0000 * (b3 as int)
    ensures n % 0x100 == b0 && n / 0x100 % 0x100 == b1 && n / 0x1_0000 % 0x100 == b2 && n / 0x100_0000 == b3
  {
    assert n / 0x100 == b1 as int + 0x100 * (b2 as int) + 0x1_0000 * (b3 as int);
    assert n / 0x1_0000 == b2 as int + 0x100 * (b3 as int);
  }

  lemma DigitsAddUp(n: nat)
    ensures n == n % 0x100 + 0x100 * (n / 0x100 % 0x100) + 0x1_0000 * (n / 0x1_0000 % 0x100)
            + 0x100_0000 * (n / 0x100_0000)
  {
    assert n / 0x1_0000 == n / 0x100 / 0x100 && n / 0x100_0000 == n / 0x1_0000 / 0x100;
  }

  // ---------------------------------------------------------------- the chunk walk

  /** A chunk's kind, the offset and length of its body, and where the next chunk begins. */
  datatype Chunk = Chunk(kind: seq<Byte>, offset: nat, length: nat) {
    function End(): nat { offset + length + length % 2 }
  }

  function ChunkAt(b: seq<Byte>, at: nat): Chunk
    requires at + 8 <= |b|
  {
    Chunk(b[at..at + 4], at + 8, U32(b, at + 4))
  }

  /** The chunks from `at` to the end of the file, if they fit. */
  function Walk(b: seq<Byte>, at: nat): Option<seq<Chunk>>
    decreases |b| - at
  {
    if at == |b| then Some([])
    else if at + 8 > |b| || ChunkAt(b, at).End() > |b| then None
    else
      var rest := Walk(b, ChunkAt(b, at).End());
      if rest == None then None else Some([ChunkAt(b, at)] + rest.value)
  }

  /** The chunks lie one after the other from `at` to the last byte: nothing between them, nothing left. */
  ghost predicate Tiles(b: seq<Byte>, at: nat, chunks: seq<Chunk>)
    decreases |chunks|
  {
    if chunks == [] then at == |b|
    else at + 8 <= |b| && chunks[0] == ChunkAt(b, at) && chunks[0].End() <= |b|
         && Tiles(b, chunks[0].End(), chunks[1..])
  }

  /** The walk finds the one tiling of the file, or there is none. */
  lemma {:induction false} WalkFindsTheTiling(b: seq<Byte>, at: nat, chunks: seq<Chunk>)
    ensures Tiles(b, at, chunks) <==> Walk(b, at) == Some(chunks)
    decreases |b| - at
  {
    if at != |b| && at + 8 <= |b| && ChunkAt(b, at).End() <= |b| {
      var c := ChunkAt(b, at);
      if chunks != [] {
        WalkFindsTheTiling(b, c.End(), chunks[1..]);
        assert chunks == [chunks[0]] + chunks[1..];
      }
      var rest := Walk(b, c.End());
      if rest.Some? { assert ([c] + rest.value)[1..] == rest.value; }
    }
  }

  lemma {:induction false} OffsetsRise(b: seq<Byte>, at: nat, chunks: seq<Chunk>, i: nat)
    requires Tiles(b, at, chunks) && i < |chunks|
    ensures chunks[i].offset >= at + 8 && chunks[i].End() <= |b|
    ensures i > 0 ==> chunks[i].offset >= chunks[0].End() + 8
    decreases |chunks|
  {
    if i > 0 { OffsetsRise(b, chunks[0].End(), chunks[1..], i - 1); }
  }

  // ---------------------------------------------------------------- what is accepted

  datatype Format = Format(code: nat, channels: nat, rate: nat, byteRate: nat, align: nat, bits: nat)

  function FormatAt(b: seq<Byte>, at: nat): Format
    requires at + 16 <= |b|
  {
    Format(U16(b, at), U16(b, at + 2), U32(b, at + 4), U32(b, at + 8), U16(b, at + 12), U16(b, at + 14))
  }

  function Width(f: Format): nat {
    if f.code == 1 && f.bits == 16 then 2 else if f.code == 3 && f.bits == 32 then 4 else 0
  }

  predicate HeaderOk(b: seq<Byte>) {
    |b| >= 12 && b[..4] == RIFF && b[8..12] == WAVE && U32(b, 4) + 8 == |b|
  }

  /** What the format and audio chunks must say about the declared clock. */
  predicate ClockOk(size: nat, f: Format, data: Chunk, rate: nat, frames: nat, output: bool) {
    && Width(f) != 0 && f.channels >= 1 && f.align == f.channels * Width(f) && f.byteRate == f.rate * f.align
    && f.rate == rate && data.length == frames * f.align
    && (output ==> f.code == 1 && f.channels == 1 && data.offset == 44 && size == 44 + data.length)
  }

  /** Neither infinite nor NaN: the exponent bits are not all set. */
  predicate FiniteAt(b: seq<Byte>, at: nat)
    requires at + 4 <= |b|
  {
    !((b[at + 3] as int) % 0x80 == 0x7F && b[at + 2] >= 0x80)
  }

  predicate Finite(b: seq<Byte>, from: nat, to: nat)
    requires to <= |b|
  {
    forall at | from <= at && at + 4 <= to && (at - from) % 4 == 0 :: FiniteAt(b, at)
  }

  /** Chunk number i is the only one of its kind. */
  ghost predicate Sole(chunks: seq<Chunk>, kind: seq<Byte>, i: nat) {
    i < |chunks| && chunks[i].kind == kind && forall j | 0 <= j < |chunks| && chunks[j].kind == kind :: j == i
  }

  ghost predicate FormatChunkOk(c: Chunk, output: bool) {
    c.length >= 16 && (output ==> c.offset == 20 && c.length == 16)
  }

  ghost predicate Judged(b: seq<Byte>, chunks: seq<Chunk>, f: nat, d: nat, rate: nat, frames: nat, output: bool) {
    && Sole(chunks, FMT, f) && Sole(chunks, DATA, d)
    && FormatChunkOk(chunks[f], output)
    && chunks[f].offset + 16 <= |b| && chunks[d].offset + chunks[d].length <= |b|
    && ClockOk(|b|, FormatAt(b, chunks[f].offset), chunks[d], rate, frames, output)
    && (FormatAt(b, chunks[f].offset).code == 3 ==>
          Finite(b, chunks[d].offset, chunks[d].offset + chunks[d].length))
  }

  /** A RIFF header that matches the size, chunks that tile the rest, one format and one audio chunk that agree with
      the declared clock. */
  ghost predicate Accepts(b: seq<Byte>, rate: nat, frames: nat, output: bool) {
    && HeaderOk(b) && Walk(b, 12).Some?
    && exists f, d :: Judged(b, Walk(b, 12).value, f, d, rate, frames, output)
  }

  // ---------------------------------------------------------------- the canonical output file

  predicate FieldsFit(rate: nat, frames: nat) {
    2 * rate < 0x1_0000_0000 && 36 + 2 * frames < 0x1_0000_0000
  }

  /** The one 44-byte header of a mono PCM16 file. */
  function Header(rate: nat, frames: nat): seq<Byte>
    requires FieldsFit(rate, frames)
  {
    RIFF + Le32(36 + 2 * frames) + WAVE
    + FMT + Le32(16) + Le16(1) + Le16(1) + Le32(rate) + Le32(2 * rate) + Le16(2) + Le16(16)
    + DATA + Le32(2 * frames)
  }

  /** The header read field by field. */
  predicate HeaderFields(b: seq<Byte>, rate: nat, frames: nat) {
    && |b| >= 44
    && b[..4] == RIFF && U32(b, 4) == 36 + 2 * frames && b[8..12] == WAVE
    && b[12..16] == FMT && U32(b, 16) == 16
    && FormatAt(b, 20) == Format(1, 1, rate, 2 * rate, 2, 16)
    && b[36..40] == DATA && U32(b, 40) == 2 * frames
  }

  lemma HeaderPieces(b: seq<Byte>, rate: nat, frames: nat)
    requires |b| >= 44 && FieldsFit(rate, frames)
    ensures b[..44] == Header(rate, frames) <==>
      && b[..4] == RIFF && b[4..8] == Le32(36 + 2 * frames) && b[8..12] == WAVE
      && b[12..16] == FMT && b[16..20] == Le32(16)
      && b[20..22] == Le16(1) && b[22..24] == Le16(1) && b[24..28] == Le32(rate) && b[28..32] == Le32(2 * rate)
      && b[32..34] == Le16(2) && b[34..36] == Le16(16)
      && b[36..40] == DATA && b[40..44] == Le32(2 * frames)
  {
    var h := Header(rate, frames);
    assert h[..4] == RIFF && h[4..8] == Le32(36 + 2 * frames) && h[8..12] == WAVE;
    assert h[12..16] == FMT && h[16..20] == Le32(16);
    assert h[20..22] == Le16(1) && h[22..24] == Le16(1) && h[24..28] == Le32(rate) && h[28..32] == Le32(2 * rate);
    assert h[32..34] == Le16(2) && h[34..36] == Le16(16);
    assert h[36..40] == DATA && h[40..44] == Le32(2 * frames);
    assert b[..44] == b[..4] + b[4..8] + b[8..12] + b[12..16] + b[16..20] + b[20..22] + b[22..24] + b[24..28]
                      + b[28..32] + b[32..34] + b[34..36] + b[36..40] + b[40..44];
  }

  lemma HeaderIsItsFields(b: seq<Byte>, rate: nat, frames: nat)
    requires |b| >= 44 && FieldsFit(rate, frames)
    ensures b[..44] == Header(rate, frames) <==> HeaderFields(b, rate, frames)
  {
    HeaderPieces(b, rate, frames);
    Le32Inverse(b, 4, 36 + 2 * frames);
    Le32Inverse(b, 16, 16);
    Le16Inverse(b, 20, 1);
    Le16Inverse(b, 22, 1);
    Le32Inverse(b, 24, rate);
    Le32Inverse(b, 28, 2 * rate);
    Le16Inverse(b, 32, 2);
    Le16Inverse(b, 34, 16);
    Le32Inverse(b, 40, 2 * frames);
  }

  /** The walk over a canonical file sees two chunks, format and audio. */
  lemma CanonicalWalk(b: seq<Byte>, frames: nat)
    requires |b| == 44 + 2 * frames && b[12..16] == FMT && U32(b, 16) == 16
    requires b[36..40] == DATA && U32(b, 40) == 2 * frames
    ensures Walk(b, 12) == Some([Chunk(FMT, 20, 16), Chunk(DATA, 44, 2 * frames)])
  {
    var format, audio := Chunk(FMT, 20, 16), Chunk(DATA, 44, 2 * frames);
    assert ChunkAt(b, 12) == format && ChunkAt(b, 36) == audio;
    assert Tiles(b, 44 + 2 * frames, []);
    assert [audio][1..] == [] && Tiles(b, 36, [audio]);
    assert [format, audio][1..] == [audio] && Tiles(b, 12, [format, audio]);
    WalkFindsTheTiling(b, 12, [format, audio]);
  }

  lemma CanonicalIsAccepted(b: seq<Byte>, rate: nat, frames: nat)
    requires HeaderFields(b, rate, frames) && |b| == 44 + 2 * frames
    ensures Accepts(b, rate, frames, true)
  {
    CanonicalWalk(b, frames);
    assert FMT[0] != DATA[0];
    assert Judged(b, Walk(b, 12).value, 0, 1, rate, frames, true);
  }

  /** Offsets pin the accepted chunks down: format first, audio right behind it. */
  lemma OutputChunks(b: seq<Byte>, chunks: seq<Chunk>, f: nat, d: nat)
    requires Tiles(b, 12, chunks) && f < |chunks| && d < |chunks| && f != d
    requires chunks[f].offset == 20 && chunks[f].length == 16 && chunks[d].offset == 44
    ensures f == 0 && d == 1 && chunks[0] == ChunkAt(b, 12) && |b| >= 44 && chunks[1] == ChunkAt(b, 36)
  {
    OffsetsRise(b, 12, chunks, f);
    OffsetsRise(b, 12, chunks, d);
    OffsetsRise(b, 36, chunks[1..], d - 1);
  }

  lemma AcceptedOutputHasTheFields(b: seq<Byte>, rate: nat, frames: nat)
    requires Accepts(b, rate, frames, true)
    ensures HeaderFields(b, rate, frames) && |b| == 44 + 2 * frames
  {
    var chunks := Walk(b, 12).value;
    var f, d :| Judged(b, chunks, f, d, rate, frames, true);
    WalkFindsTheTiling(b, 12, chunks);
    JudgedOutputIsTwoChunks(b, chunks, f, d, rate, frames);
    TwoChunksFixTheHeader(b, chunks[0], chunks[1], rate, frames);
  }

  lemma JudgedOutputIsTwoChunks(b: seq<Byte>, chunks: seq<Chunk>, f: nat, d: nat, rate: nat, frames: nat)
    requires Tiles(b, 12, chunks) && Judged(b, chunks, f, d, rate, frames, true)
    ensures |chunks| > 1 && |b| >= 44 && chunks[0] == ChunkAt(b, 12) && chunks[1] == ChunkAt(b, 36)
    ensures chunks[0].kind == FMT && chunks[0].length == 16 && chunks[1].kind == DATA
    ensures ClockOk(|b|, FormatAt(b, 20), chunks[1], rate, frames, true)
  {
    assert FMT[0] != DATA[0];
    OutputChunks(b, chunks, f, d);
  }

  lemma TwoChunksFixTheHeader(b: seq<Byte>, fmt: Chunk, data: Chunk, rate: nat, frames: nat)
    requires HeaderOk(b) && |b| >= 44 && fmt == ChunkAt(b, 12) && data == ChunkAt(b, 36)
    requires fmt.kind == FMT && fmt.length == 16 && data.kind == DATA
    requires ClockOk(|b|, FormatAt(b, 20), data, rate, frames, true)
    ensures HeaderFields(b, rate, frames) && |b| == 44 + 2 * frames
  {
  }

  lemma U32Bound(b: seq<Byte>, at: nat)
    requires at + 4 <= |b|
    ensures U32(b, at) < 0x1_0000_0000
  {
  }

  /** With `output` the validator accepts exactly one kind of file: the 44-byte header determined by rate and frame
      count, then two bytes for each frame; and only when the header's fields can hold their values. */
  lemma OutputIsAcceptedIffCanonical(b: seq<Byte>, rate: nat, frames: nat)
    ensures Accepts(b, rate, frames, true) <==>
      FieldsFit(rate, frames) && |b| == 44 + 2 * frames && b[..44] == Header(rate, frames)
  {
    if Accepts(b, rate, frames, true) {
      AcceptedOutputHasTheFields(b, rate, frames);
      U32Bound(b, 4);
      U32Bound(b, 28);
      HeaderIsItsFields(b, rate, frames);
    }
    if FieldsFit(rate, frames) && |b| == 44 + 2 * frames && b[..44] == Header(rate, frames) {
      HeaderIsItsFields(b, rate, frames);
      CanonicalIsAccepted(b, rate, frames);
    }
  }

  const AUDIO_CHUNK_BYTES := 512 * 1024

  /** `canonical_size`: the sizes a result's metadata must declare. */
  predicate CanonicalSize(totalBytes: nat, chunkCount: nat, frames: nat) {
    && totalBytes == 44 + 2 * frames
    && chunkCount == (totalBytes + AUDIO_CHUNK_BYTES - 1) / AUDIO_CHUNK_BYTES
  }

  /** The declared sizes are those of the one accepted file, and the declared chunks just cover it. */
  lemma AcceptedOutputHasItsDeclaredSize(b: seq<Byte>, rate: nat, frames: nat, totalBytes: nat, chunkCount: nat)
    requires CanonicalSize(totalBytes, chunkCount, frames) && Accepts(b, rate, frames, true)
    ensures |b| == totalBytes
    ensures (chunkCount - 1) * AUDIO_CHUNK_BYTES < |b| <= chunkCount * AUDIO_CHUNK_BYTES
  {
    AcceptedOutputHasTheFields(b, rate, frames);
  }

  // ---------------------------------------------------------------- the program

  /** The blocks of a float chunk, each at most `COPY_BYTES` long. */
  const COPY_BYTES := 1024 * 1024

  method BlockFinite(b: seq<Byte>, ghost from: nat, start: nat, end: nat) returns (ok: bool)
    requires from <= start <= end <= |b| && (start - from) % 4 == 0 && (end - start) % 4 == 0
    requires Finite(b, from, start)
    ensures ok <==> Finite(b, from, end)
  {
    var at := start;
    while at < end
      invariant start <= at <= end && (at - from) % 4 == 0 && (end - at) % 4 == 0
      invariant Finite(b, from, at)
    {
      if !FiniteAt(b, at) { return false; }
      at := at + 4;
    }
    return true;
  }

  method AllFinite(b: seq<Byte>, from: nat, length: nat) returns (ok: bool)
    requires from + length <= |b| && length % 4 == 0
    ensures ok <==> Finite(b, from, from + length)
  {
    var remaining := length;
    while remaining > 0
      invariant 0 <= remaining <= length && remaining % 4 == 0
      invariant Finite(b, from, from + length - remaining)
    {
      var block := if COPY_BYTES <= remaining then COPY_BYTES else remaining;
      var at := from + length - remaining;
      var finite := BlockFinite(b, from, at, at + block);
      if !finite { return false; }
      remaining := remaining - block;
    }
    return true;
  }

  // What the loop knows: the chunks passed so far begin the file's walk, and at most one of each kind was kept.

  ghost predicate Passed(b: seq<Byte>, chunks: seq<Chunk>, at: nat) {
    Walk(b, 12) == match Walk(b, at) case None => None case Some(rest) => Some(chunks + rest)
  }

  lemma PassNone(b: seq<Byte>)
    ensures Passed(b, [], 12)
  {
    match Walk(b, 12)
    case None =>
    case Some(rest) => assert [] + rest == rest;
  }

  lemma PassOne(b: seq<Byte>, chunks: seq<Chunk>, at: nat)
    requires Passed(b, chunks, at) && at + 8 <= |b| && ChunkAt(b, at).End() <= |b|
    ensures Passed(b, chunks + [ChunkAt(b, at)], ChunkAt(b, at).End())
  {
    var c := ChunkAt(b, at);
    match Walk(b, c.End())
    case None =>
    case Some(rest) => assert chunks + ([c] + rest) == (chunks + [c]) + rest;
  }

  ghost predicate Kept(chunks: seq<Chunk>, kind: seq<Byte>, at: Option<nat>) {
    match at
    case None => forall i | 0 <= i < |chunks| :: chunks[i].kind != kind
    case Some(i) => Sole(chunks, kind, i)
  }

  lemma KeepOne(chunks: seq<Chunk>, c: Chunk, kind: seq<Byte>, at: Option<nat>)
    requires Kept(chunks, kind, at) && (c.kind == kind ==> at == None)
    ensures Kept(chunks + [c], kind, if c.kind == kind then Some(|chunks|) else at)
  {
    assert forall i | 0 <= i < |chunks| :: (chunks + [c])[i] == chunks[i];
    assert (chunks + [c])[|chunks|] == c;
  }

  /** A second chunk of a kind spoils the file, whatever follows. */
  lemma DuplicateIsRefused(b: seq<Byte>, chunks: seq<Chunk>, i: nat, c: Chunk, at: nat,
                           rate: nat, frames: nat, output: bool)
    requires Passed(b, chunks + [c], at) && i < |chunks| && chunks[i].kind == c.kind
      && (c.kind == FMT || c.kind == DATA)
    ensures !Accepts(b, rate, frames, output)
  {
    if Walk(b, 12).Some? {
      var whole := Walk(b, 12).value;
      assert whole[i] == chunks[i] && whole[|chunks|] == c;
    }
  }

  /** So does a format chunk that is too short or, for output, out of place. */
  lemma BadFormatIsRefused(b: seq<Byte>, chunks: seq<Chunk>, c: Chunk, at: nat, rate: nat, frames: nat, output: bool)
    requires Passed(b, chunks + [c], at) && c.kind == FMT && !FormatChunkOk(c, output)
    ensures !Accepts(b, rate, frames, output)
  {
    if Walk(b, 12).Some? {
      var whole := Walk(b, 12).value;
      assert whole[|chunks|] == c;
    }
  }

  lemma SoleIsOne(chunks: seq<Chunk>, kind: seq<Byte>, i: nat, j: nat)
    requires Sole(chunks, kind, i) && Sole(chunks, kind, j)
    ensures i == j
  {
  }

  /** At the end of the file the two chunks kept decide. */
  lemma KeptChunksDecide(b: seq<Byte>, chunks: seq<Chunk>, f: nat, d: nat, rate: nat, frames: nat, output: bool)
    requires HeaderOk(b) && Walk(b, 12) == Some(chunks) && Sole(chunks, FMT, f) && Sole(chunks, DATA, d)
    ensures Accepts(b, rate, frames, output) <==> Judged(b, chunks, f, d, rate, frames, output)
  {
    if Accepts(b, rate, frames, output) {
      var f', d' :| Judged(b, chunks, f', d', rate, frames, output);
      SoleIsOne(chunks, FMT, f, f');
      SoleIsOne(chunks, DATA, d, d');
    }
  }

  lemma MissingChunkIsRefused(b: seq<Byte>, chunks: seq<Chunk>, kind: seq<Byte>, rate: nat, frames: nat, output: bool)
    requires Walk(b, 12) == Some(chunks) && Kept(chunks, kind, None) && (kind == FMT || kind == DATA)
    ensures !Accepts(b, rate, frames, output)
  {
  }

  /** The loop that walks the stream position and keeps the format and audio chunks. */
  method WalkChunks(b: seq<Byte>, output: bool, ghost rate: nat, ghost frames: nat)
    returns (ok: bool, fmt: Option<Chunk>, data: Option<Chunk>, ghost f: Option<nat>, ghost d: Option<nat>)
    requires HeaderOk(b)
    ensures !ok ==> !Accepts(b, rate, frames, output)
    ensures ok ==> Walk(b, 12).Some? && Kept(Walk(b, 12).value, FMT, f) && Kept(Walk(b, 12).value, DATA, d)
    ensures ok ==> fmt == At(Walk(b, 12).value, f) && data == At(Walk(b, 12).value, d)
    ensures ok && fmt.Some? ==> FormatChunkOk(fmt.value, output) && fmt.value.offset + 16 <= |b|
    ensures ok && data.Some? ==> data.value.End() <= |b|
  {
    fmt, data, f, d := None, None, None, None;
    var pos := 12;
    ghost var chunks: seq<Chunk> := [];
    PassNone(b);
    while pos < |b|
      invariant 12 <= pos <= |b| && Passed(b, chunks, pos)
      invariant Kept(chunks, FMT, f) && Kept(chunks, DATA, d)
      invariant fmt == At(chunks, f) && data == At(chunks, d)
      invariant fmt.Some? ==> FormatChunkOk(fmt.value, output) && fmt.value.offset + 16 <= |b|
      invariant data.Some? ==> data.value.End() <= |b|
    {
      if pos + 8 > |b| { return false, fmt, data, f, d; }
      var c := ChunkAt(b, pos);
      if c.End() > |b| { return false, fmt, data, f, d; }
      PassOne(b, chunks, pos);
      if c.kind == FMT {
        if fmt != None || c.length < 16 || (output && (c.offset != 20 || c.length != 16)) {
          if fmt != None {
            DuplicateIsRefused(b, chunks, f.value, c, c.End(), rate, frames, output);
          } else {
            BadFormatIsRefused(b, chunks, c, c.End(), rate, frames, output);
          }
          return false, fmt, data, f, d;
        }
        fmt := Some(c);
      } else if c.kind == DATA {
        if data != None {
          DuplicateIsRefused(b, chunks, d.value, c, c.End(), rate, frames, output);
          return false, fmt, data, f, d;
        }
        data := Some(c);
      }
      KeepOne(chunks, c, FMT, f);
      KeepOne(chunks, c, DATA, d);
      f := if c.kind == FMT then Some(|chunks|) else f;
      d := if c.kind == DATA then Some(|chunks|) else d;
      chunks := chunks + [c];
      pos := c.End();
    }
    assert chunks + [] == chunks;
    ok := true;
  }

  /** The chunk at an index that may be missing. */
  ghost function At(chunks: seq<Chunk>, at: Option<nat>): Option<Chunk> {
    match at
    case None => None
    case Some(i) => if i < |chunks| then Some(chunks[i]) else None
  }

  /** The checks after the walk. */
  method JudgeChunks(b: seq<Byte>, fmt: Chunk, data: Chunk, rate: nat, frames: nat, output: bool) returns (ok: bool)
    requires fmt.offset + 16 <= |b| && data.End() <= |b|
    ensures ok <==> ClockOk(|b|, FormatAt(b, fmt.offset), data, rate, frames, output)
                    && (FormatAt(b, fmt.offset).code == 3 ==> Finite(b, data.offset, data.offset + data.length))
  {
    var format := FormatAt(b, fmt.offset);
    if !ClockOk(|b|, format, data, rate, frames, output) { return false; }
    if format.code != 3 { return true; }
    FloatSizeIsWhole(frames, format.channels);
    ok := AllFinite(b, data.offset, data.length);
  }

  lemma FloatSizeIsWhole(frames: nat, channels: nat)
    ensures (frames * (channels * 4)) % 4 == 0
  {
    assert frames * (channels * 4) == 4 * (frames * channels);
  }

  /** `_validate_wav`: true where it returns, false where it raises. */
  method ValidateWav(b: seq<Byte>, rate: nat, frames: nat, output: bool) returns (ok: bool)
    ensures ok <==> Accepts(b, rate, frames, output)
  {
    if |b| < 12 || b[..4] != RIFF || b[8..12] != WAVE { return false; }
    if U32(b, 4) + 8 != |b| { return false; }
    var walked, fmt, data; ghost var f, d;
    walked, fmt, data, f, d := WalkChunks(b, output, rate, frames);
    if !walked { return false; }
    ghost var chunks := Walk(b, 12).value;
    if fmt == None || data == None {
      MissingChunkIsRefused(b, chunks, if fmt == None then FMT else DATA, rate, frames, output);
      return false;
    }
    KeptChunksDecide(b, chunks, f.value, d.value, rate, frames, output);
    ok := JudgeChunks(b, fmt.value, data.value, rate, frames, output);
  }
}
