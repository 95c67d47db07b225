/** Which source files the validator accepts, with samples read in the binary32 format of IEEE 754 (section 3.4): one
    bit of sign, eight of exponent, 23 of fraction. */
module FloatSamples {
  import opened Basics
  import opened Wav

  function Float32(sign: nat, exponent: nat, fraction: nat): (n: nat)
    requires sign < 2 && exponent < 256 && fraction < 0x80_0000
    ensures n < 0x1_0000_0000
  {
    sign * 0x8000_0000 + exponent * 0x80_0000 + fraction
  }

  function Sign(n: nat): nat { n / 0x8000_0000 }

  function Exponent(n: nat): nat { n / 0x80_0000 % 0x100 }

  function Fraction(n: nat): nat { n % 0x80_0000 }

  lemma FieldsComeBack(sign: nat, exponent: nat, fraction: nat)
    requires sign < 2 && exponent < 256 && fraction < 0x80_0000
    ensures var n := Float32(sign, exponent, fraction);
      Sign(n) == sign && Exponent(n) == exponent && Fraction(n) == fraction
  {
    var n := Float32(sign, exponent, fraction);
    assert n == (sign * 0x100 + exponent) * 0x80_0000 + fraction;
    assert n / 0x80_0000 == sign * 0x100 + exponent;
  }

  lemma EveryWordIsAFloat(n: nat)
    requires n < 0x1_0000_0000
    ensures Sign(n) < 2 && n == Float32(Sign(n), Exponent(n), Fraction(n))
  {
    assert n / 0x80_0000 / 0x100 == n / 0x8000_0000;
  }

  lemma ExponentBits(b: seq<Byte>, at: nat)
    requires at + 4 <= |b|
    ensures Exponent(U32(b, at)) == (b[at + 3] as int) % 0x80 * 2 + (b[at + 2] as int) / 0x80
  {
    var low := b[at] + 0x100 * (b[at + 1] as int) + 0x1_0000 * ((b[at + 2] as int) % 0x80);
    var high := (b[at + 3] as int) * 2 + (b[at + 2] as int) / 0x80;
    assert U32(b, at) == high * 0x80_0000 + low && 0 <= low < 0x80_0000;
    assert U32(b, at) / 0x80_0000 == high;
  }

  /** A sample is let through exactly when its exponent is not the one of infinities and NaNs. */
  lemma FiniteExactlyBelowTheLastExponent(b: seq<Byte>, at: nat)
    requires at + 4 <= |b|
    ensures FiniteAt(b, at) <==> Exponent(U32(b, at)) < 255
  {
    ExponentBits(b, at);
  }

  /** So the encoding of every finite number passes, and that of every infinity and NaN does not. */
  lemma EncodedSamplesAreJudgedByTheirExponent(b: seq<Byte>, at: nat, sign: nat, exponent: nat, fraction: nat)
    requires sign < 2 && exponent < 256 && fraction < 0x80_0000
    requires at + 4 <= |b| && b[at..at + 4] == Le32(Float32(sign, exponent, fraction))
    ensures FiniteAt(b, at) <==> exponent < 255
  {
    Le32Inverse(b, at, Float32(sign, exponent, fraction));
    FieldsComeBack(sign, exponent, fraction);
    FiniteExactlyBelowTheLastExponent(b, at);
  }

  /** One is finite; infinity and the usual NaN are not. */
  lemma SomeSamples()
    ensures FiniteAt([0x00, 0x00, 0x80, 0x3F], 0)
    ensures !FiniteAt([0x00, 0x00, 0x80, 0x7F], 0) && !FiniteAt([0x00, 0x00, 0xC0, 0x7F], 0)
    ensures Le32(Float32(0, 127, 0)) == [0x00, 0x00, 0x80, 0x3F]
  {
  }

  // ---------------------------------------------------------------- accepted sources

  /** The samples of a float chunk, one for each frame and channel. */
  ghost predicate SamplesFinite(b: seq<Byte>, from: nat, count: nat) {
    from + 4 * count <= |b| && forall i: nat | i < count :: Exponent(U32(b, from + 4 * i)) < 255
  }

  /** The format at that place has samples of that width and fits the declared clock and the audio chunk. */
  ghost predicate ClockFits(b: seq<Byte>, at: nat, audio: Chunk, rate: nat, frames: nat, width: nat)
    requires at + 16 <= |b|
  {
    var channels := U16(b, at + 2);
    && channels > 0 && U32(b, at + 4) == rate && U16(b, at + 12) == channels * width
    && U32(b, at + 8) == rate * channels * width && audio.length == frames * channels * width
  }

  /** PCM16 or float32 of the declared rate and frame count, in one format and one audio chunk, the samples finite. */
  ghost predicate SourceFile(b: seq<Byte>, chunks: seq<Chunk>, f: nat, d: nat, rate: nat, frames: nat) {
    && |b| >= 12 && b[..4] == [0x52, 0x49, 0x46, 0x46] && U32(b, 4) == |b| - 8 && b[8..12] == [0x57, 0x41, 0x56, 0x45]
    && Tiles(b, 12, chunks) && Sole(chunks, [0x66, 0x6D, 0x74, 0x20], f) && Sole(chunks, [0x64, 0x61, 0x74, 0x61], d)
    && chunks[f].length >= 16 && chunks[f].offset + 16 <= |b| && chunks[d].offset + chunks[d].length <= |b|
    && var at, audio := chunks[f].offset, chunks[d];
    || (U16(b, at) == 1 && U16(b, at + 14) == 16 && ClockFits(b, at, audio, rate, frames, 2))
    || (U16(b, at) == 3 && U16(b, at + 14) == 32 && ClockFits(b, at, audio, rate, frames, 4)
        && SamplesFinite(b, audio.offset, frames * U16(b, at + 2)))
  }

  lemma SamplesAreFinite(b: seq<Byte>, from: nat, count: nat)
    requires from + 4 * count <= |b|
    ensures Finite(b, from, from + 4 * count) <==> SamplesFinite(b, from, count)
  {
    if Finite(b, from, from + 4 * count) {
      forall i: nat | i < count ensures Exponent(U32(b, from + 4 * i)) < 255 {
        assert FiniteAt(b, from + 4 * i);
        FiniteExactlyBelowTheLastExponent(b, from + 4 * i);
      }
    }
    if SamplesFinite(b, from, count) {
      forall at | from <= at && at + 4 <= from + 4 * count && (at - from) % 4 == 0 ensures FiniteAt(b, at) {
        var i: nat := (at - from) / 4;
        assert Exponent(U32(b, from + 4 * i)) < 255;
        FiniteExactlyBelowTheLastExponent(b, at);
      }
    }
  }

  lemma Products(frames: nat, rate: nat, channels: nat, width: nat)
    ensures frames * (channels * width) == frames * channels * width
    ensures rate * (channels * width) == rate * channels * width
  {
  }

  lemma ClockIsItsFields(b: seq<Byte>, at: nat, audio: Chunk, rate: nat, frames: nat)
    requires at + 16 <= |b|
    ensures ClockOk(|b|, FormatAt(b, at), audio, rate, frames, false) <==>
      || (U16(b, at) == 1 && U16(b, at + 14) == 16 && ClockFits(b, at, audio, rate, frames, 2))
      || (U16(b, at) == 3 && U16(b, at + 14) == 32 && ClockFits(b, at, audio, rate, frames, 4))
  {
    Products(frames, rate, U16(b, at + 2), 2);
    Products(frames, rate, U16(b, at + 2), 4);
  }

  lemma JudgedIsASource(b: seq<Byte>, chunks: seq<Chunk>, f: nat, d: nat, rate: nat, frames: nat)
    requires HeaderOk(b) && Tiles(b, 12, chunks)
    ensures Judged(b, chunks, f, d, rate, frames, false) <==> SourceFile(b, chunks, f, d, rate, frames)
  {
    if f < |chunks| && d < |chunks| && chunks[f].offset + 16 <= |b| && chunks[d].offset + chunks[d].length <= |b| {
      ClockIsItsFields(b, chunks[f].offset, chunks[d], rate, frames);
      if chunks[d].length == frames * U16(b, chunks[f].offset + 2) * 4 {
        SamplesAreFinite(b, chunks[d].offset, frames * U16(b, chunks[f].offset + 2));
      }
    }
  }

  /** The validator accepts a source exactly when it is such a file. */
  lemma SourcesAreAcceptedExactly(b: seq<Byte>, rate: nat, frames: nat)
    ensures Accepts(b, rate, frames, false) <==> exists chunks, f, d :: SourceFile(b, chunks, f, d, rate, frames)
  {
    if Accepts(b, rate, frames, false) {
      var chunks := Walk(b, 12).value;
      var f, d :| Judged(b, chunks, f, d, rate, frames, false);
      WalkFindsTheTiling(b, 12, chunks);
      JudgedIsASource(b, chunks, f, d, rate, frames);
      assert SourceFile(b, chunks, f, d, rate, frames);
    }
    if exists chunks, f, d :: SourceFile(b, chunks, f, d, rate, frames) {
      var chunks, f, d :| SourceFile(b, chunks, f, d, rate, frames);
      WalkFindsTheTiling(b, 12, chunks);
      JudgedIsASource(b, chunks, f, d, rate, frames);
      assert Judged(b, Walk(b, 12).value, f, d, rate, frames, false);
    }
  }

  /** The plainest float source: a 16-byte format chunk, then the audio chunk up to the end of the file. */
  ghost predicate PlainFloatFile(b: seq<Byte>, rate: nat, frames: nat, samples: nat) {
    && |b| == 44 + 4 * samples && HeaderOk(b)
    && b[12..16] == FMT && U32(b, 16) == 16
    && U16(b, 20) == 3 && U16(b, 34) == 32
    && ClockFits(b, 20, Chunk(DATA, 44, 4 * samples), rate, frames, 4)
    && b[36..40] == DATA && U32(b, 40) == 4 * samples
  }

  /** It is accepted exactly when all its samples are finite. */
  lemma PlainFloatFilesAreAcceptedExactlyWhenFinite(b: seq<Byte>, rate: nat, frames: nat, samples: nat)
    requires PlainFloatFile(b, rate, frames, samples)
    ensures Accepts(b, rate, frames, false) <==> forall i: nat | i < samples :: Exponent(U32(b, 44 + 4 * i)) < 255
  {
    var chunks := [Chunk(FMT, 20, 16), Chunk(DATA, 44, 4 * samples)];
    CanonicalWalk(b, 2 * samples);
    assert FMT[0] != DATA[0];
    assert Sole(chunks, FMT, 0) && Sole(chunks, DATA, 1);
    KeptChunksDecide(b, chunks, 0, 1, rate, frames, false);
    ClockIsItsFields(b, 20, chunks[1], rate, frames);
    SamplesAreFinite(b, 44, samples);
    assert Judged(b, chunks, 0, 1, rate, frames, false) <==> Finite(b, 44, 44 + 4 * samples);
    assert SamplesFinite(b, 44, samples) <==> forall i: nat | i < samples :: Exponent(U32(b, 44 + 4 * i)) < 255;
  }
}
