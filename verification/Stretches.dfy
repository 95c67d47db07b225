/** What smoothing does, told on the raw activity alone, and what that means for the segments of a track. */
module Stretches {
  import opened Basics
  import opened Activity
  import S = Segments

  /** From one active frame to another, with no gap between them longer than `bridge`. */
  ghost predicate Stretch(raw: seq<bool>, bridge: int, r: Span) {
    && r.start < r.end <= |raw| && raw[r.start] && raw[r.end - 1]
    && forall g | IsRun(raw, false, g) && r.start <= g.start && g.end <= r.end :: g.Length() <= bridge
  }

  ghost predicate Within(r: Span, q: Span) {
    q.start <= r.start && r.end <= q.end
  }

  /** No longer stretch contains it. */
  ghost predicate MaximalStretch(raw: seq<bool>, bridge: int, r: Span) {
    Stretch(raw, bridge, r) && forall q | Stretch(raw, bridge, q) && Within(r, q) :: q == r
  }

  // ---------------------------------------------------------------- the first pass

  function Bridged(raw: seq<bool>, bridge: int): seq<bool> {
    Flip(raw, Bridge(bridge))
  }

  /** Bridging keeps what is active. */
  lemma ActiveStays(raw: seq<bool>, bridge: int, i: nat)
    requires i < |raw| && raw[i]
    ensures Bridged(raw, bridge)[i]
  {
    NotFlippedAt(raw, Bridge(bridge), i);
  }

  lemma GapIsBridged(raw: seq<bool>, bridge: int, g: Span, i: nat)
    requires IsRun(raw, false, g) && g.Contains(i)
    ensures Bridged(raw, bridge)[i] <==> g.start > 0 && g.end < |raw| && g.Length() <= bridge
  {
    FlippedAt(raw, Bridge(bridge), g, i);
  }

  /** Every frame of a stretch is active after bridging. */
  lemma StretchIsBridged(raw: seq<bool>, bridge: int, r: Span, i: nat)
    requires Stretch(raw, bridge, r) && r.Contains(i)
    ensures Bridged(raw, bridge)[i]
  {
    if raw[i] {
      ActiveStays(raw, bridge, i);
    } else {
      var g := RunAt(raw, i);
      assert !g.Contains(r.start) && !g.Contains(r.end - 1);
      GapIsBridged(raw, bridge, g, i);
    }
  }

  /** A run after bridging begins and ends where the raw activity does. */
  lemma BridgedRunEndsActive(raw: seq<bool>, bridge: int, r: Span)
    requires IsRun(Bridged(raw, bridge), true, r)
    ensures raw[r.start] && raw[r.end - 1]
  {
    if !raw[r.start] {
      var g := RunAt(raw, r.start);
      GapIsBridged(raw, bridge, g, r.start);
      if g.start < r.start {
        GapIsBridged(raw, bridge, g, r.start - 1);
      } else {
        ActiveStays(raw, bridge, r.start - 1);
      }
    }
    if !raw[r.end - 1] {
      var g := RunAt(raw, r.end - 1);
      GapIsBridged(raw, bridge, g, r.end - 1);
      if r.end < g.end {
        GapIsBridged(raw, bridge, g, r.end);
      } else {
        ActiveStays(raw, bridge, r.end);
      }
    }
  }

  lemma BridgedRunIsAStretch(raw: seq<bool>, bridge: int, r: Span)
    requires IsRun(Bridged(raw, bridge), true, r)
    ensures Stretch(raw, bridge, r)
  {
    BridgedRunEndsActive(raw, bridge, r);
    forall g | IsRun(raw, false, g) && r.start <= g.start && g.end <= r.end
      ensures g.Length() <= bridge
    {
      GapIsBridged(raw, bridge, g, g.start);
    }
  }

  /** The runs after bridging are exactly the maximal stretches. */
  lemma BridgedRunsAreMaximalStretches(raw: seq<bool>, bridge: int, r: Span)
    ensures IsRun(Bridged(raw, bridge), true, r) <==> MaximalStretch(raw, bridge, r)
  {
    var bridged := Bridged(raw, bridge);
    if IsRun(bridged, true, r) {
      BridgedRunIsAStretch(raw, bridge, r);
      forall q | Stretch(raw, bridge, q) && Within(r, q)
        ensures q == r
      {
        if q.start < r.start { StretchIsBridged(raw, bridge, q, r.start - 1); }
        if r.end < q.end { StretchIsBridged(raw, bridge, q, r.end); }
      }
    }
    if MaximalStretch(raw, bridge, r) {
      StretchIsBridged(raw, bridge, r, r.start);
      var whole := RunAt(bridged, r.start);
      BridgedRunIsAStretch(raw, bridge, whole);
      if whole.end < r.end { StretchIsBridged(raw, bridge, r, whole.end); }
      assert Within(r, whole);
    }
  }

  // ---------------------------------------------------------------- both passes

  /** A maximal stretch of at least the minimum length. */
  ghost predicate Speech(raw: seq<bool>, bridge: int, minimum: int, r: Span) {
    MaximalStretch(raw, bridge, r) && r.Length() >= minimum
  }

  /** The active runs after smoothing are exactly the maximal stretches that are long enough. */
  lemma SmoothRunsAreSpeech(raw: seq<bool>, bridge: int, minimum: int, r: Span)
    ensures IsRun(Smooth(raw, bridge, minimum), true, r) <==> Speech(raw, bridge, minimum, r)
  {
    BridgedRunsAreMaximalStretches(raw, bridge, r);
    RunsAfterAPass(Bridged(raw, bridge), Prune(minimum), r);
  }

  /** A frame is active after smoothing exactly when it lies in such a stretch of the raw activity. */
  lemma ActiveExactlyInSpeech(raw: seq<bool>, bridge: int, minimum: int, i: nat)
    requires i < |raw|
    ensures Smooth(raw, bridge, minimum)[i] <==> exists r :: Speech(raw, bridge, minimum, r) && r.Contains(i)
  {
    var smooth := Smooth(raw, bridge, minimum);
    if smooth[i] {
      var r := RunAt(smooth, i);
      SmoothRunsAreSpeech(raw, bridge, minimum, r);
      assert Speech(raw, bridge, minimum, r) && r.Contains(i);
    }
    forall r | Speech(raw, bridge, minimum, r) && r.Contains(i)
      ensures smooth[i]
    {
      SmoothRunsAreSpeech(raw, bridge, minimum, r);
    }
  }

  // ---------------------------------------------------------------- segments of the raw activity

  ghost predicate InOneSegment(segments: seq<S.Segment>, sample: nat) {
    exists k | 0 <= k < |segments| :: segments[k].Contains(sample)
      && forall j | 0 <= j < |segments| && j != k :: !segments[j].Contains(sample)
  }

  /** Every sample of a stretch that is long enough, its bridged gaps included, lies in exactly one segment. */
  lemma SpeechIsSegmented(raw: seq<bool>, bridge: int, minimum: int, silenceFrames: nat, frameSamples: nat,
                          frameCount: nat, padding: nat, r: Span, sample: nat)
    requires silenceFrames > 0 && S.Matches(|raw|, frameSamples, frameCount)
    requires Speech(raw, bridge, minimum, r) && sample < frameCount && r.Contains(sample / frameSamples)
    ensures InOneSegment(
      S.SegmentsOfTrack(raw, bridge, minimum, silenceFrames, frameSamples, frameCount, padding), sample)
  {
    var frame := sample / frameSamples;
    ActiveExactlyInSpeech(raw, bridge, minimum, frame);
    S.SpeechIsInExactlyOneSegment(Smooth(raw, bridge, minimum), silenceFrames, frameSamples, frameCount, padding,
                                  sample);
  }

  /** There is no segment exactly when no stretch of the raw activity is long enough. */
  lemma NothingIsSegmentedExactlyWithoutSpeech(raw: seq<bool>, bridge: int, minimum: int, silenceFrames: nat,
                                               frameSamples: nat, frameCount: nat, padding: nat)
    ensures S.SegmentsOfTrack(raw, bridge, minimum, silenceFrames, frameSamples, frameCount, padding) == [] <==>
      forall r :: !Speech(raw, bridge, minimum, r)
  {
    var smooth := Smooth(raw, bridge, minimum);
    S.NoPlanMeansSilence(smooth, silenceFrames);
    if r: Span :| Speech(raw, bridge, minimum, r) {
      ActiveExactlyInSpeech(raw, bridge, minimum, r.start);
    }
    if i :| 0 <= i < |smooth| && smooth[i] {
      ActiveExactlyInSpeech(raw, bridge, minimum, i);
      var r :| Speech(raw, bridge, minimum, r) && r.Contains(i);
    }
  }
}
