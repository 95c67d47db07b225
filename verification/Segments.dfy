/** Splitting a track at long silences: the part of `segment_track` after the threshold. */
module Segments {
  import opened Basics
  import opened Activity

  /** What the runs say: the first and last active frame and the interior silences long enough to split at. */
  datatype Plan = Plan(first: nat, last: nat, silences: seq<Span>)

  ghost predicate Splits(p: Plan, silenceFrames: nat, r: Span) {
    r.Length() >= silenceFrames && r.start > p.first && r.end < p.last
  }

  ghost predicate Fits(activity: seq<bool>, silenceFrames: nat, p: Plan) {
    && p.first < p.last <= |activity|
    && activity[p.first] && activity[p.last - 1]
    && (forall i | 0 <= i < |activity| && activity[i] :: p.first <= i < p.last)
    && (forall k | 0 <= k < |p.silences| ::
          IsRun(activity, false, p.silences[k]) && Splits(p, silenceFrames, p.silences[k]))
    && (forall k | 0 <= k < |p.silences| - 1 :: p.silences[k].end < p.silences[k + 1].start)
    && (forall r :: IsRun(activity, false, r) && Splits(p, silenceFrames, r) ==> r in p.silences)
  }

  function Long(runs: seq<Span>, silenceFrames: nat, first: nat, last: nat): seq<Span> {
    if runs == [] then []
    else
      var r := runs[|runs| - 1];
      Long(runs[..|runs| - 1], silenceFrames, first, last)
      + (if r.Length() >= silenceFrames && r.start > first && r.end < last then [r] else [])
  }

  function PlanOf(activity: seq<bool>, silenceFrames: nat): Option<Plan> {
    var active := RunsOf(activity, true, |activity|);
    if active == [] then None
    else
      var first, last := active[0].start, active[|active| - 1].end;
      Some(Plan(first, last, Long(RunsOf(activity, false, |activity|), silenceFrames, first, last)))
  }

  ghost predicate InOrder(runs: seq<Span>) {
    && (forall k | 0 <= k < |runs| :: runs[k].start < runs[k].end)
    && (forall k | 0 <= k < |runs| - 1 :: runs[k].end < runs[k + 1].start)
  }

  lemma {:induction false} LongEndsEarlier(runs: seq<Span>, silenceFrames: nat, first: nat, last: nat)
    requires InOrder(runs)
    ensures var long := Long(runs, silenceFrames, first, last);
      long != [] ==> runs != [] && long[|long| - 1].end <= runs[|runs| - 1].end
  {
    if runs != [] {
      LongEndsEarlier(runs[..|runs| - 1], silenceFrames, first, last);
      if |runs| > 1 { assert runs[|runs| - 2].end < runs[|runs| - 1].start; }
    }
  }

  lemma OneMoreInOrder(runs: seq<Span>, r: Span)
    requires InOrder(runs) && InOrder([r]) && (runs != [] ==> runs[|runs| - 1].end < r.start)
    ensures InOrder(runs + [r])
  {
  }

  lemma {:induction false} LongKeepsOrder(runs: seq<Span>, silenceFrames: nat, first: nat, last: nat)
    requires InOrder(runs)
    ensures InOrder(Long(runs, silenceFrames, first, last))
  {
    if runs != [] {
      var front, r := runs[..|runs| - 1], runs[|runs| - 1];
      LongKeepsOrder(front, silenceFrames, first, last);
      LongEndsEarlier(front, silenceFrames, first, last);
      if |runs| > 1 { assert runs[|runs| - 2].end < r.start; }
      if Long(runs, silenceFrames, first, last) != Long(front, silenceFrames, first, last) {
        OneMoreInOrder(Long(front, silenceFrames, first, last), r);
      }
    }
  }

  lemma {:induction false} LongSelects(runs: seq<Span>, silenceFrames: nat, first: nat, last: nat, r: Span)
    ensures r in Long(runs, silenceFrames, first, last) <==>
      r in runs && r.Length() >= silenceFrames && r.start > first && r.end < last
  {
    if runs != [] {
      assert runs == runs[..|runs| - 1] + [runs[|runs| - 1]];
      LongSelects(runs[..|runs| - 1], silenceFrames, first, last, r);
    }
  }

  lemma {:induction false} RunsAreOrdered(runs: seq<Span>, i: nat, j: nat)
    requires InOrder(runs) && i <= j < |runs|
    ensures runs[i].start <= runs[j].start && runs[i].end <= runs[j].end
    decreases j - i
  {
    if i < j { RunsAreOrdered(runs, i, j - 1); }
  }

  lemma EndsOfActivity(activity: seq<bool>, runs: seq<Span>)
    requires RunList(activity, true, |activity|, runs) && runs != []
    ensures var first, last := runs[0].start, runs[|runs| - 1].end;
      && first < last <= |activity| && activity[first] && activity[last - 1]
      && forall i | 0 <= i < |activity| && activity[i] :: first <= i < last
  {
    assert RunWithin(activity, true, |activity|, runs[0]) && RunWithin(activity, true, |activity|, runs[|runs| - 1]);
    RunsAreOrdered(runs, 0, |runs| - 1);
    forall i | 0 <= i < |activity| && activity[i] ensures runs[0].start <= i < runs[|runs| - 1].end {
      assert Covered(runs, i);
      var k :| 0 <= k < |runs| && runs[k].Contains(i);
      RunsAreOrdered(runs, 0, k);
      RunsAreOrdered(runs, k, |runs| - 1);
    }
  }

  lemma PlanFits(activity: seq<bool>, silenceFrames: nat)
    requires PlanOf(activity, silenceFrames).Some?
    ensures Fits(activity, silenceFrames, PlanOf(activity, silenceFrames).value)
  {
    var active, quiet := RunsOf(activity, true, |activity|), RunsOf(activity, false, |activity|);
    var p := PlanOf(activity, silenceFrames).value;
    RunsOfIsRunList(activity, true, |activity|);
    EndsOfActivity(activity, active);
    assert InOrder(quiet) by { RunsOfIsRunList(activity, false, |activity|); }
    LongKeepsOrder(quiet, silenceFrames, p.first, p.last);
    forall r ensures r in p.silences <==> IsRun(activity, false, r) && Splits(p, silenceFrames, r) {
      RunsOfListsEveryRun(activity, false, r);
      LongSelects(quiet, silenceFrames, p.first, p.last, r);
    }
    assert forall k | 0 <= k < |p.silences| :: p.silences[k] in p.silences;
  }

  lemma NoPlanMeansSilence(activity: seq<bool>, silenceFrames: nat)
    ensures PlanOf(activity, silenceFrames) == None <==> forall i | 0 <= i < |activity| :: !activity[i]
  {
    var active := RunsOf(activity, true, |activity|);
    RunsOfIsRunList(activity, true, |activity|);
    if active == [] {
      forall i | 0 <= i < |activity| ensures !activity[i] { assert activity[i] ==> Covered(active, i); }
    } else {
      assert RunWithin(activity, true, |activity|, active[0]) && activity[active[0].start];
    }
  }

  // ---------------------------------------------------------------- chunks, in frames

  /** Where chunk k begins; chunk k ends where chunk k + 1 begins. */
  function Cut(p: Plan, k: nat): nat
    requires k <= |p.silences| + 1
  {
    if k == 0 then p.first
    else if k == |p.silences| + 1 then p.last
    else (p.silences[k - 1].start + p.silences[k - 1].end) / 2
  }

  /** The active extent of chunk k. */
  function Onset(p: Plan, k: nat): nat
    requires k <= |p.silences|
  {
    if k == 0 then p.first else p.silences[k - 1].end
  }

  function Offset(p: Plan, k: nat): nat
    requires k <= |p.silences|
  {
    if k == |p.silences| then p.last else p.silences[k].start
  }

  lemma ChunkShape(activity: seq<bool>, silenceFrames: nat, p: Plan, k: nat)
    requires Fits(activity, silenceFrames, p) && silenceFrames > 0 && k <= |p.silences|
    ensures Cut(p, k) <= Onset(p, k) < Offset(p, k) <= Cut(p, k + 1) <= |activity|
    ensures activity[Onset(p, k)] && activity[Offset(p, k) - 1]
    ensures forall i | Cut(p, k) <= i < Onset(p, k) || Offset(p, k) <= i < Cut(p, k + 1) :: !activity[i]
    ensures k > 0 ==> Cut(p, k) < Onset(p, k)
  {
    if k > 0 { assert IsRun(activity, false, p.silences[k - 1]) && Splits(p, silenceFrames, p.silences[k - 1]); }
    if k < |p.silences| { assert IsRun(activity, false, p.silences[k]) && Splits(p, silenceFrames, p.silences[k]); }
    if 0 < k < |p.silences| { assert p.silences[k - 1].end < p.silences[k].start; }
  }

  lemma {:induction false} ChunkOf(activity: seq<bool>, silenceFrames: nat, p: Plan, f: nat, n: nat) returns (k: nat)
    requires Fits(activity, silenceFrames, p) && silenceFrames > 0 && n <= |p.silences|
    requires p.first <= f < Cut(p, n + 1)
    ensures k <= n && Cut(p, k) <= f < Cut(p, k + 1)
  {
    if f >= Cut(p, n) {
      k := n;
    } else {
      k := ChunkOf(activity, silenceFrames, p, f, n - 1);
    }
  }

  // ---------------------------------------------------------------- segments, in samples

  datatype Segment = Segment(start: int, end: int) {
    predicate Contains(sample: int) { start <= sample < end }
  }

  datatype Outcome = Ok(segments: seq<Segment>) | InvalidSegment

  /** The frames are those of the track: all full but perhaps the last. */
  predicate Matches(frames: nat, frameSamples: nat, frameCount: nat) {
    frameSamples > 0 && frames > 0 && (frames - 1) * frameSamples < frameCount <= frames * frameSamples
  }

  function Boundary(p: Plan, frameSamples: nat, frameCount: nat, k: nat): nat
    requires k <= |p.silences| + 1
  {
    if k == |p.silences| + 1 then Min(frameCount, p.last * frameSamples) else Cut(p, k) * frameSamples
  }

  function SegmentOf(p: Plan, frameSamples: nat, frameCount: nat, padding: nat, k: nat): Segment
    requires k <= |p.silences|
  {
    Segment(Max(Boundary(p, frameSamples, frameCount, k), Onset(p, k) * frameSamples - padding),
            Min(Boundary(p, frameSamples, frameCount, k + 1), Min(frameCount, Offset(p, k) * frameSamples + padding)))
  }

  lemma Times(a: nat, b: nat, c: nat)
    requires a <= b
    ensures a * c <= b * c
    ensures a < b ==> a * c + c <= b * c
  {
    var d := b - a;
    assert b * c == a * c + d * c;
    if d > 0 { assert d * c == (d - 1) * c + c && (d - 1) * c >= 0; }
  }

  lemma DivTimes(a: nat, b: nat, c: nat)
    requires c > 0 && a * c <= b < a * c + c
    ensures b / c == a
  {
    var q := b / c;
    assert q * c <= b < q * c + c;
    if q < a { Times(q, a, c); }
    if a < q { Times(a, q, c); }
  }

  /** The next boundary cuts nothing off the last active frame of chunk k, and lies inside the track. */
  lemma NextBoundary(activity: seq<bool>, silenceFrames: nat, p: Plan, fs: nat, frameCount: nat, k: nat)
    requires Fits(activity, silenceFrames, p) && silenceFrames > 0 && k <= |p.silences|
    requires Matches(|activity|, fs, frameCount)
    ensures Min(frameCount, Offset(p, k) * fs) <= Boundary(p, fs, frameCount, k + 1) <= frameCount
  {
    ChunkShape(activity, silenceFrames, p, k);
    Times(Offset(p, k), Cut(p, k + 1), fs);
    if k < |p.silences| {
      ChunkShape(activity, silenceFrames, p, k + 1);
      Times(Cut(p, k + 1), |activity| - 1, fs);
    }
  }

  lemma OnsetSamples(activity: seq<bool>, silenceFrames: nat, p: Plan, fs: nat, frameCount: nat, k: nat)
    requires Fits(activity, silenceFrames, p) && silenceFrames > 0 && k <= |p.silences|
    requires Matches(|activity|, fs, frameCount)
    ensures Boundary(p, fs, frameCount, k) <= Onset(p, k) * fs
    ensures Onset(p, k) * fs < Min(frameCount, Offset(p, k) * fs)
  {
    ChunkShape(activity, silenceFrames, p, k);
    Times(Cut(p, k), Onset(p, k), fs);
    Times(Onset(p, k), Offset(p, k), fs);
    Times(Onset(p, k), |activity| - 1, fs);
  }

  lemma SegmentShape(activity: seq<bool>, silenceFrames: nat, p: Plan, fs: nat, frameCount: nat, padding: nat, k: nat)
    requires Fits(activity, silenceFrames, p) && silenceFrames > 0 && k <= |p.silences|
    requires Matches(|activity|, fs, frameCount)
    ensures var s := SegmentOf(p, fs, frameCount, padding, k);
      && Boundary(p, fs, frameCount, k) <= s.start <= Onset(p, k) * fs < s.end <= Boundary(p, fs, frameCount, k + 1)
      && Boundary(p, fs, frameCount, k + 1) <= frameCount
      && s.end >= Min(frameCount, Offset(p, k) * fs)
      && (padding == 0 ==> s == Segment(Onset(p, k) * fs, Min(frameCount, Offset(p, k) * fs)))
  {
    NextBoundary(activity, silenceFrames, p, fs, frameCount, k);
    OnsetSamples(activity, silenceFrames, p, fs, frameCount, k);
  }

  function SegmentsOf(p: Plan, fs: nat, frameCount: nat, padding: nat): seq<Segment> {
    seq(|p.silences| + 1, k requires 0 <= k <= |p.silences| => SegmentOf(p, fs, frameCount, padding, k))
  }

  /** What `segment_track` returns. */
  function SegmentsOfTrack(raw: seq<bool>, bridgeFrames: int, minimumFrames: int, silenceFrames: nat, frameSamples: nat,
                           frameCount: nat, padding: nat): seq<Segment>
  {
    match PlanOf(Smooth(raw, bridgeFrames, minimumFrames), silenceFrames)
    case None => []
    case Some(plan) => SegmentsOf(plan, frameSamples, frameCount, padding)
  }

  /** The amount of padding: a segment reaches `padding` samples beyond its active extent, but only to the middle of
      the silence that parts it from its neighbour, and not at all beyond the first and last activity of the track. */
  lemma PaddingIsExact(activity: seq<bool>, silenceFrames: nat, p: Plan, fs: nat, frameCount: nat, padding: nat, k: nat)
    requires Fits(activity, silenceFrames, p) && silenceFrames > 0 && k <= |p.silences|
    requires Matches(|activity|, fs, frameCount)
    ensures var s, onset, offset := SegmentOf(p, fs, frameCount, padding, k), Onset(p, k) * fs, Offset(p, k) * fs;
      && s.start == (if k == 0 then onset
                     else Max((Offset(p, k - 1) + Onset(p, k)) / 2 * fs, onset - padding))
      && s.end == (if k == |p.silences| then Min(frameCount, offset)
                   else Min((Offset(p, k) + Onset(p, k + 1)) / 2 * fs, Min(frameCount, offset + padding)))
  {
    NextBoundary(activity, silenceFrames, p, fs, frameCount, k);
  }

  lemma {:induction false} BoundariesRise(
    activity: seq<bool>, silenceFrames: nat, p: Plan, fs: nat, frameCount: nat, i: nat, j: nat)
    requires Fits(activity, silenceFrames, p) && silenceFrames > 0 && Matches(|activity|, fs, frameCount)
    requires i <= j <= |p.silences| + 1
    ensures Boundary(p, fs, frameCount, i) <= Boundary(p, fs, frameCount, j)
    decreases j - i
  {
    if i < j {
      BoundariesRise(activity, silenceFrames, p, fs, frameCount, i, j - 1);
      SegmentShape(activity, silenceFrames, p, fs, frameCount, 0, j - 1);
    }
  }

  /** Nonempty, inside the track, strictly ordered and disjoint; one more than the long interior silences. */
  lemma SegmentsAreDisjointAndInRange(
    activity: seq<bool>, silenceFrames: nat, p: Plan, fs: nat, frameCount: nat, padding: nat, i: nat, j: nat)
    requires Fits(activity, silenceFrames, p) && silenceFrames > 0 && Matches(|activity|, fs, frameCount)
    requires i <= j <= |p.silences|
    ensures var segments := SegmentsOf(p, fs, frameCount, padding);
      && |segments| == |p.silences| + 1
      && 0 <= segments[i].start < segments[i].end <= frameCount
      && (i < j ==> segments[i].end <= segments[j].start < segments[j].end <= frameCount)
  {
    SegmentShape(activity, silenceFrames, p, fs, frameCount, padding, i);
    if i < j {
      SegmentShape(activity, silenceFrames, p, fs, frameCount, padding, j);
      BoundariesRise(activity, silenceFrames, p, fs, frameCount, i + 1, j);
    }
  }

  /** The sample belongs to an active frame. */
  predicate IsSpeech(activity: seq<bool>, frameSamples: nat, sample: nat)
    requires frameSamples > 0
  {
    var frame := sample / frameSamples;
    0 <= frame < |activity| && activity[frame]
  }

  /** Every sample of an active frame lies in some segment; by disjointness in exactly one. */
  lemma ActiveSamplesAreCovered(
    activity: seq<bool>, silenceFrames: nat, p: Plan, fs: nat, frameCount: nat, padding: nat, sample: nat)
    returns (k: nat)
    requires Fits(activity, silenceFrames, p) && silenceFrames > 0 && Matches(|activity|, fs, frameCount)
    requires sample < frameCount && IsSpeech(activity, fs, sample)
    ensures k <= |p.silences| && SegmentsOf(p, fs, frameCount, padding)[k].Contains(sample)
  {
    k := ActiveChunkOf(activity, silenceFrames, p, sample / fs);
    SegmentShape(activity, silenceFrames, p, fs, frameCount, padding, k);
    SampleInFrames(sample, fs, Onset(p, k), Offset(p, k));
  }

  lemma ActiveChunkOf(activity: seq<bool>, silenceFrames: nat, p: Plan, f: nat) returns (k: nat)
    requires Fits(activity, silenceFrames, p) && silenceFrames > 0 && f < |activity| && activity[f]
    ensures k <= |p.silences| && Onset(p, k) <= f < Offset(p, k)
  {
    k := ChunkOf(activity, silenceFrames, p, f, |p.silences|);
    ChunkShape(activity, silenceFrames, p, k);
  }

  lemma SampleInFrames(sample: nat, fs: nat, onset: nat, offset: nat)
    requires fs > 0 && onset <= sample / fs < offset
    ensures onset * fs <= sample < offset * fs
  {
    var f := sample / fs;
    assert f * fs <= sample < f * fs + fs;
    Times(onset, f, fs);
    Times(f, offset, fs);
  }

  /** The two together: a sample of speech is in one segment and no other. */
  lemma SpeechIsInExactlyOneSegment(
    activity: seq<bool>, silenceFrames: nat, frameSamples: nat, frameCount: nat, padding: nat, sample: nat)
    requires silenceFrames > 0 && Matches(|activity|, frameSamples, frameCount)
    requires sample < frameCount && IsSpeech(activity, frameSamples, sample)
    ensures PlanOf(activity, silenceFrames).Some?
    ensures var segments := SegmentsOf(PlanOf(activity, silenceFrames).value, frameSamples, frameCount, padding);
      exists k | 0 <= k < |segments| :: segments[k].Contains(sample)
        && forall j | 0 <= j < |segments| && j != k :: !segments[j].Contains(sample)
  {
    NoPlanMeansSilence(activity, silenceFrames);
    PlanFits(activity, silenceFrames);
    var p := PlanOf(activity, silenceFrames).value;
    var segments := SegmentsOf(p, frameSamples, frameCount, padding);
    var k := ActiveSamplesAreCovered(activity, silenceFrames, p, frameSamples, frameCount, padding, sample);
    forall j | 0 <= j < |segments| && j != k ensures !segments[j].Contains(sample) {
      SegmentsAreDisjointAndInRange(activity, silenceFrames, p, frameSamples, frameCount, padding,
                                    if j < k then j else k, if j < k then k else j);
    }
  }

  /** Without padding a segment begins and ends on active frames and no silence to split at lies inside it. */
  lemma UnpaddedSegmentsAreTight(
    activity: seq<bool>, silenceFrames: nat, p: Plan, fs: nat, frameCount: nat, k: nat, r: Span)
    requires Fits(activity, silenceFrames, p) && silenceFrames > 0 && Matches(|activity|, fs, frameCount)
    requires k <= |p.silences|
    ensures var s := SegmentsOf(p, fs, frameCount, 0)[k];
      && s.start == Onset(p, k) * fs && s.end == Min(frameCount, Offset(p, k) * fs)
      && activity[Onset(p, k)] && activity[Offset(p, k) - 1]
      && (IsRun(activity, false, r) && r.Length() >= silenceFrames ==> r.end <= Onset(p, k) || Offset(p, k) <= r.start)
  {
    SegmentShape(activity, silenceFrames, p, fs, frameCount, 0, k);
    ChunkShape(activity, silenceFrames, p, k);
    if IsRun(activity, false, r) && r.Length() >= silenceFrames && Onset(p, k) < r.end && r.start < Offset(p, k) {
      NoSplitInside(activity, silenceFrames, p, k, r);
    }
  }

  lemma NoSplitInside(activity: seq<bool>, silenceFrames: nat, p: Plan, k: nat, r: Span)
    requires Fits(activity, silenceFrames, p) && silenceFrames > 0 && k <= |p.silences|
    requires IsRun(activity, false, r) && r.Length() >= silenceFrames
    ensures r.end <= Onset(p, k) || Offset(p, k) <= r.start
  {
    ChunkShape(activity, silenceFrames, p, k);
    if Onset(p, k) < r.end && r.start < Offset(p, k) {
      assert !r.Contains(Onset(p, k)) && !r.Contains(Offset(p, k) - 1);
      assert Splits(p, silenceFrames, r);
      assert r in p.silences;
      var m :| 0 <= m < |p.silences| && p.silences[m] == r;
      assert InOrder(p.silences) by {
        assert forall i | 0 <= i < |p.silences| :: IsRun(activity, false, p.silences[i]);
      }
      if m < k { RunsAreOrdered(p.silences, m, k - 1); } else { RunsAreOrdered(p.silences, k, m); }
    }
  }

  // ---------------------------------------------------------------- the program

  method FirstActive(activity: seq<bool>, lo: nat, hi: nat) returns (found: Option<nat>)
    requires hi <= |activity|
    ensures found.Some? ==> lo <= found.value < hi && activity[found.value]
                            && forall i | lo <= i < found.value :: !activity[i]
    ensures found == None ==> forall i | lo <= i < hi :: !activity[i]
  {
    var i := lo;
    while i < hi
      invariant lo <= i && forall j | lo <= j < i && j < hi :: !activity[j]
    {
      if activity[i] { return Some(i); }
      i := i + 1;
    }
    return None;
  }

  method LastActive(activity: seq<bool>, lo: nat, hi: nat) returns (found: Option<nat>)
    requires hi <= |activity|
    ensures found.Some? ==> lo <= found.value < hi && activity[found.value]
                            && forall i | found.value < i < hi :: !activity[i]
    ensures found == None ==> forall i | lo <= i < hi :: !activity[i]
  {
    var i: int := hi - 1;
    while i > lo - 1
      invariant i < hi && forall j | i < j < hi && lo <= j :: !activity[j]
    {
      if activity[i] { return Some(i); }
      i := i - 1;
    }
    return None;
  }

  function CeilDiv(a: nat, b: nat): nat
    requires b > 0
  {
    (a + b - 1) / b
  }

  lemma CeilBetween(c: nat, b: nat, fs: nat)
    requires fs > 0 && c > 0 && (c - 1) * fs < b <= c * fs
    ensures CeilDiv(b, fs) == c
  {
    assert (c - 1) * fs + fs == c * fs;
    DivTimes(c, b + fs - 1, fs);
  }

  lemma FloorOfBoundary(activity: seq<bool>, silenceFrames: nat, p: Plan, fs: nat, frameCount: nat, k: nat)
    requires Fits(activity, silenceFrames, p) && silenceFrames > 0 && k <= |p.silences|
    requires Matches(|activity|, fs, frameCount)
    ensures Boundary(p, fs, frameCount, k) / fs == Cut(p, k)
  {
    DivTimes(Cut(p, k), Cut(p, k) * fs, fs);
  }

  lemma CeilOfBoundary(activity: seq<bool>, silenceFrames: nat, p: Plan, fs: nat, frameCount: nat, k: nat)
    requires Fits(activity, silenceFrames, p) && silenceFrames > 0 && k <= |p.silences|
    requires Matches(|activity|, fs, frameCount)
    ensures Boundary(p, fs, frameCount, k) / fs == Cut(p, k)
    ensures CeilDiv(Boundary(p, fs, frameCount, k + 1), fs) == Cut(p, k + 1)
  {
    FloorOfBoundary(activity, silenceFrames, p, fs, frameCount, k);
    ChunkShape(activity, silenceFrames, p, k);
    var c := Cut(p, k + 1);
    Times(c - 1, |activity| - 1, fs);
    Times(c - 1, c, fs);
    CeilBetween(c, Boundary(p, fs, frameCount, k + 1), fs);
  }

  function Mids(silences: seq<Span>): seq<nat> {
    seq(|silences|, k requires 0 <= k < |silences| => (silences[k].start + silences[k].end) / 2)
  }

  method SplitFrames(activity: seq<bool>, silenceFrames: nat, first: nat, last: nat) returns (mids: seq<nat>)
    ensures mids == Mids(Long(RunsOf(activity, false, |activity|), silenceFrames, first, last))
  {
    var quiet := Runs(activity, false);
    mids := [];
    for k := 0 to |quiet|
      invariant mids == Mids(Long(quiet[..k], silenceFrames, first, last))
    {
      assert quiet[..k + 1][..k] == quiet[..k];
      if quiet[k].Length() >= silenceFrames && quiet[k].start > first && quiet[k].end < last {
        mids := mids + [(quiet[k].start + quiet[k].end) / 2];
      }
    }
    assert quiet[..|quiet|] == quiet;
  }

  /** From one boundary to the next: the search for active frames always succeeds. */
  method OneSegment(activity: seq<bool>, left: nat, right: nat, frameSamples: nat, frameCount: nat, padding: nat,
                    ghost silenceFrames: nat, ghost p: Plan, ghost k: nat)
    returns (segment: Option<Segment>)
    requires Fits(activity, silenceFrames, p) && silenceFrames > 0 && k <= |p.silences|
    requires Matches(|activity|, frameSamples, frameCount)
    requires left == Boundary(p, frameSamples, frameCount, k) && right == Boundary(p, frameSamples, frameCount, k + 1)
    ensures segment == Some(SegmentOf(p, frameSamples, frameCount, padding, k))
  {
    CeilOfBoundary(activity, silenceFrames, p, frameSamples, frameCount, k);
    ChunkShape(activity, silenceFrames, p, k);
    var lo, hi := left / frameSamples, Min(|activity|, CeilDiv(right, frameSamples));
    var firstActive := FirstActive(activity, lo, hi);
    var lastActive := LastActive(activity, lo, hi);
    if firstActive == None || lastActive == None { return None; }
    assert firstActive.value == Onset(p, k) && lastActive.value + 1 == Offset(p, k);
    return Some(Segment(
      Max(left, firstActive.value * frameSamples - padding),
      Min(right, Min(frameCount, (lastActive.value + 1) * frameSamples + padding))));
  }

  function BoundaryList(first: nat, mids: seq<nat>, last: nat, frameSamples: nat, frameCount: nat): seq<nat> {
    [first * frameSamples]
    + seq(|mids|, k requires 0 <= k < |mids| => mids[k] * frameSamples)
    + [Min(frameCount, last * frameSamples)]
  }

  lemma BoundaryListIsThePlan(p: Plan, frameSamples: nat, frameCount: nat)
    ensures var boundaries := BoundaryList(p.first, Mids(p.silences), p.last, frameSamples, frameCount);
      && |boundaries| == |p.silences| + 2
      && forall k | 0 <= k < |boundaries| :: boundaries[k] == Boundary(p, frameSamples, frameCount, k)
  {
  }

  /** Every pair of neighbouring boundaries yields its segment; none is skipped. */
  method CoarseRanges(activity: seq<bool>, boundaries: seq<nat>, frameSamples: nat, frameCount: nat, padding: nat,
                      ghost silenceFrames: nat, ghost p: Plan) returns (ranges: seq<Segment>)
    requires Fits(activity, silenceFrames, p) && silenceFrames > 0 && Matches(|activity|, frameSamples, frameCount)
    requires |boundaries| == |p.silences| + 2
    requires forall k | 0 <= k < |boundaries| :: boundaries[k] == Boundary(p, frameSamples, frameCount, k)
    ensures ranges == SegmentsOf(p, frameSamples, frameCount, padding)
  {
    ranges := [];
    for k := 0 to |boundaries| - 1
      invariant ranges == SegmentsOf(p, frameSamples, frameCount, padding)[..k]
    {
      var range := OneSegment(activity, boundaries[k], boundaries[k + 1], frameSamples, frameCount, padding,
                              silenceFrames, p, k);
      if range.Some? { ranges := ranges + [range.value]; }
    }
  }

  /** `_make_segment` for each range. */
  method MakeSegments(ranges: seq<Segment>) returns (outcome: Outcome)
    ensures outcome == if forall k | 0 <= k < |ranges| :: 0 <= ranges[k].start < ranges[k].end then Ok(ranges)
                       else InvalidSegment
  {
    for k := 0 to |ranges|
      invariant forall i | 0 <= i < k :: 0 <= ranges[i].start < ranges[i].end
    {
      if ranges[k].start < 0 || ranges[k].end <= ranges[k].start { return InvalidSegment; }
    }
    return Ok(ranges);
  }

  /** The track as a whole. A stretch without active frames would be skipped and an empty segment would be an error:
      neither happens, and what comes out is one segment for each chunk of the plan. */
  method SegmentTrack(raw: seq<bool>, bridgeFrames: nat, minimumFrames: nat, silenceFrames: nat, frameSamples: nat,
                      frameCount: nat, padding: nat) returns (outcome: Outcome)
    requires silenceFrames > 0 && Matches(|raw|, frameSamples, frameCount)
    ensures outcome == Ok(SegmentsOfTrack(raw, bridgeFrames, minimumFrames, silenceFrames, frameSamples, frameCount,
                                          padding))
  {
    var activity := SmoothActivity(raw, bridgeFrames, minimumFrames);
    var activeRuns := Runs(activity, true);
    if activeRuns == [] { return Ok([]); }
    var first, last := activeRuns[0].start, activeRuns[|activeRuns| - 1].end;
    var mids := SplitFrames(activity, silenceFrames, first, last);
    ghost var p := PlanOf(activity, silenceFrames).value;
    PlanFits(activity, silenceFrames);
    BoundaryListIsThePlan(p, frameSamples, frameCount);
    var ranges := CoarseRanges(activity, BoundaryList(first, mids, last, frameSamples, frameCount),
                               frameSamples, frameCount, padding, silenceFrames, p);
    forall k | 0 <= k < |ranges| ensures 0 <= ranges[k].start < ranges[k].end {
      SegmentShape(activity, silenceFrames, p, frameSamples, frameCount, padding, k);
    }
    outcome := MakeSegments(ranges);
  }
}
