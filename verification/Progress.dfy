/** Progress reports of a volunteer: `EnhancementProgress.validate_update`. */
module EnhancementProgress {
  import opened Basics

  datatype Phase = LoadingModel | Enhancing | Encoding

  datatype Track = Track(trackId: string, frameCount: nat, sampleRate: nat)

  datatype Payload = Payload(model: string, clientId: Option<string>, tracks: seq<Track>) {
    /** What the request schema guarantees before any update is judged. */
    predicate Valid() {
      && |tracks| == 2
      && tracks[0].trackId != tracks[1].trackId
      && forall t | t in tracks :: t.frameCount > 0 && t.sampleRate > 0
    }
  }

  datatype Update = Update(phase: Phase, trackId: string, trackIndex: nat, completedChunks: nat, totalChunks: nat)

  datatype Rejection =
    | WrongTrackOrBounds
    | LoadingHasChunks
    | MissingTotal
    | EncodingTooEarly
    | MustStartAtFirstTrack
    | TrackWentBack
    | PrecedingTrackUnfinished
    | Regressed

  function Rank(phase: Phase): nat {
    match phase
    case LoadingModel => 0
    case Enhancing => 1
    case Encoding => 2
  }

  /** ceil(frameCount / sampleRate / 3) + 2, in exact arithmetic. */
  function MaxChunks(track: Track): nat
    requires track.sampleRate > 0
  {
    (track.frameCount + 3 * track.sampleRate - 1) / (3 * track.sampleRate) + 2
  }

  /** What a payload fixes about the reports: a track id and a largest chunk count for each index. */
  datatype Limit = Limit(trackId: string, most: nat)

  function Limits(payload: Payload): (limits: seq<Limit>)
    requires payload.Valid()
    ensures Bounded(limits)
  {
    [Limit(payload.tracks[0].trackId, MaxChunks(payload.tracks[0])),
     Limit(payload.tracks[1].trackId, MaxChunks(payload.tracks[1]))]
  }

  predicate Bounded(limits: seq<Limit>) {
    |limits| == 2 && limits[0].most > 0 && limits[1].most > 0
  }

  /** None accepts the update. */
  function Reject(limits: seq<Limit>, previous: Option<Update>, u: Update): Option<Rejection>
    requires |limits| == 2 && u.trackIndex < 2
  {
    var track := limits[u.trackIndex];
    if u.trackId != track.trackId || !(u.completedChunks <= u.totalChunks <= track.most) then
      Some(WrongTrackOrBounds)
    else if u.phase == LoadingModel && (u.completedChunks != 0 || u.totalChunks != 0) then
      Some(LoadingHasChunks)
    else if u.phase != LoadingModel && u.totalChunks == 0 then
      Some(MissingTotal)
    else if u.phase == Encoding && u.completedChunks != u.totalChunks then
      Some(EncodingTooEarly)
    else if previous == None then
      if u.trackIndex != 0 then Some(MustStartAtFirstTrack) else None
    else
      var p := previous.value;
      if u.trackIndex < p.trackIndex then Some(TrackWentBack)
      else if u.trackIndex > p.trackIndex then
        if p.phase != Encoding then Some(PrecedingTrackUnfinished) else None
      else if || u.completedChunks < p.completedChunks
              || (p.totalChunks != 0 && u.totalChunks != p.totalChunks)
              || Rank(u.phase) < Rank(p.phase) then Some(Regressed)
      else None
  }

  /** The schema bounds the index, the rules above judge the rest. */
  predicate Accepts(limits: seq<Limit>, previous: Option<Update>, u: Update)
    requires |limits| == 2
  {
    u.trackIndex < 2 && Reject(limits, previous, u) == None
  }

  /** The reports that are stored, in order, when every report of `attempts` is sent. */
  function Accepted(limits: seq<Limit>, previous: Option<Update>, attempts: seq<Update>): seq<Update>
    requires |limits| == 2
    decreases |attempts|
  {
    if attempts == [] then []
    else if Accepts(limits, previous, attempts[0]) then
      [attempts[0]] + Accepted(limits, Some(attempts[0]), attempts[1..])
    else Accepted(limits, previous, attempts[1..])
  }

  function Last(run: seq<Update>): Option<Update> {
    if run == [] then None else Some(run[|run| - 1])
  }

  /** Every report was accepted when the one before it was the one stored. */
  ghost predicate IsRun(limits: seq<Limit>, run: seq<Update>)
    requires |limits| == 2
  {
    run == [] || (&& IsRun(limits, run[..|run| - 1])
                  && Accepts(limits, Last(run[..|run| - 1]), run[|run| - 1]))
  }

  lemma {:induction false} AcceptedExtendsRun(limits: seq<Limit>, run: seq<Update>, attempts: seq<Update>)
    requires |limits| == 2 && IsRun(limits, run)
    ensures IsRun(limits, run + Accepted(limits, Last(run), attempts))
    decreases |attempts|
  {
    if attempts == [] {
      assert run + [] == run;
    } else if Accepts(limits, Last(run), attempts[0]) {
      var longer := run + [attempts[0]];
      assert longer[..|run|] == run;
      AcceptedExtendsRun(limits, longer, attempts[1..]);
      assert run + ([attempts[0]] + Accepted(limits, Some(attempts[0]), attempts[1..]))
          == longer + Accepted(limits, Last(longer), attempts[1..]);
    } else {
      AcceptedExtendsRun(limits, run, attempts[1..]);
    }
  }

  /** Whatever is sent, the stored reports form a run. */
  lemma AnyReportsStoreARun(limits: seq<Limit>, attempts: seq<Update>)
    requires |limits| == 2
    ensures IsRun(limits, Accepted(limits, None, attempts))
  {
    AcceptedExtendsRun(limits, [], attempts);
    assert [] + Accepted(limits, None, attempts) == Accepted(limits, None, attempts);
  }

  ghost predicate NotAfter(a: Update, b: Update) {
    || a.trackIndex < b.trackIndex
    || (&& a.trackIndex == b.trackIndex
        && Rank(a.phase) <= Rank(b.phase)
        && a.completedChunks <= b.completedChunks
        && (a.totalChunks != 0 ==> b.totalChunks == a.totalChunks))
  }

  /** Any two reports of a run, however far apart, are in order and agree on an established chunk total. */
  lemma {:induction false} RunsRise(limits: seq<Limit>, run: seq<Update>, i: nat, j: nat)
    requires |limits| == 2 && IsRun(limits, run)
    requires i <= j < |run|
    ensures NotAfter(run[i], run[j])
    decreases |run|
  {
    var earlier := run[..|run| - 1];
    if j < |run| - 1 {
      RunsRise(limits, earlier, i, j);
    } else if i < j {
      RunsRise(limits, earlier, i, j - 1);
    }
  }

  /** Track 1 is only ever reported after a stored, finished encoding of track 0. */
  lemma {:induction false} SecondTrackNeedsFinishedFirst(limits: seq<Limit>, run: seq<Update>)
    requires |limits| == 2 && IsRun(limits, run)
    requires run != [] && run[|run| - 1].trackIndex == 1
    ensures exists i | 0 <= i < |run| - 1 :: run[i].trackIndex == 0 && run[i].phase == Encoding
                                           && run[i].completedChunks == run[i].totalChunks > 0
  {
    var earlier := run[..|run| - 1];
    if earlier[|earlier| - 1].trackIndex == 1 {
      SecondTrackNeedsFinishedFirst(limits, earlier);
      var i :| 0 <= i < |earlier| - 1 && earlier[i].trackIndex == 0 && earlier[i].phase == Encoding
               && earlier[i].completedChunks == earlier[i].totalChunks > 0;
      assert run[i] == earlier[i];
    } else {
      assert run[|run| - 2] == earlier[|earlier| - 1];
    }
  }

  /** How many reports of a run differ from the report before them. */
  function Changes(run: seq<Update>): nat {
    if run == [] then 0
    else Changes(run[..|run| - 1]) + (if Last(run[..|run| - 1]) == Last(run) then 0 else 1)
  }

  function ChangeBound(limits: seq<Limit>): nat
    requires |limits| == 2
  {
    (limits[0].most + 3) + (limits[1].most + 3)
  }

  function Height(limits: seq<Limit>, u: Update): nat
    requires |limits| == 2
  {
    (if u.trackIndex == 0 then 0 else limits[0].most + 3) + Rank(u.phase) + u.completedChunks + 1
  }

  lemma {:induction false} ChangesClimb(limits: seq<Limit>, run: seq<Update>)
    requires |limits| == 2 && IsRun(limits, run) && run != []
    ensures Changes(run) <= Height(limits, run[|run| - 1])
  {
    var earlier := run[..|run| - 1];
    if earlier != [] {
      ChangesClimb(limits, earlier);
    }
  }

  /** The number of reports that say something new is fixed by the two frame counts alone. */
  lemma {:induction false} NewReportsAreBounded(limits: seq<Limit>, attempts: seq<Update>)
    requires |limits| == 2
    ensures Changes(Accepted(limits, None, attempts)) <= ChangeBound(limits)
  {
    var run := Accepted(limits, None, attempts);
    AnyReportsStoreARun(limits, attempts);
    if run != [] {
      ChangesClimb(limits, run);
    }
  }

  /** Report number `at` when both tracks are told as finely as the rules allow: loading, every chunk, encoding. */
  function FinestReport(limits: seq<Limit>, at: nat): Update
    requires |limits| == 2 && at < ChangeBound(limits)
  {
    var k := if at < limits[0].most + 3 then 0 else 1;
    var i := if k == 0 then at else at - (limits[0].most + 3);
    var id, most := limits[k].trackId, limits[k].most;
    if i == 0 then Update(LoadingModel, id, k, 0, 0)
    else if i <= most + 1 then Update(Enhancing, id, k, i - 1, most)
    else Update(Encoding, id, k, most, most)
  }

  function FinestRun(limits: seq<Limit>, n: nat): seq<Update>
    requires |limits| == 2 && n <= ChangeBound(limits)
  {
    if n == 0 then [] else FinestRun(limits, n - 1) + [FinestReport(limits, n - 1)]
  }

  lemma FinestReportFollows(limits: seq<Limit>, at: nat)
    requires Bounded(limits) && at < ChangeBound(limits)
    ensures at == 0 ==> Accepts(limits, None, FinestReport(limits, at))
    ensures at > 0 ==> Accepts(limits, Some(FinestReport(limits, at - 1)), FinestReport(limits, at))
    ensures at > 0 ==> FinestReport(limits, at - 1) != FinestReport(limits, at)
  {
  }

  /** The bound is exact: for every pair of limits some run reaches it. */
  lemma {:induction false} BoundIsReached(limits: seq<Limit>, n: nat)
    requires Bounded(limits) && n <= ChangeBound(limits)
    ensures IsRun(limits, FinestRun(limits, n)) && Changes(FinestRun(limits, n)) == n
    ensures Last(FinestRun(limits, n)) == if n == 0 then None else Some(FinestReport(limits, n - 1))
  {
    if n > 0 {
      BoundIsReached(limits, n - 1);
      FinestReportFollows(limits, n - 1);
      OneNewReport(limits, FinestRun(limits, n - 1), FinestReport(limits, n - 1));
    }
  }

  lemma OneNewReport(limits: seq<Limit>, run: seq<Update>, u: Update)
    requires |limits| == 2 && IsRun(limits, run) && Accepts(limits, Last(run), u) && Last(run) != Some(u)
    ensures IsRun(limits, run + [u]) && Changes(run + [u]) == Changes(run) + 1 && Last(run + [u]) == Some(u)
  {
    assert (run + [u])[..|run|] == run;
  }

  // ---------------------------------------------------------------- the rules, stated at once

  /** The largest chunk count is the least m + 2 such that m chunks of three seconds hold the track. */
  lemma MaxChunksIsTheCeiling(track: Track)
    requires track.sampleRate > 0
    ensures var m := MaxChunks(track) - 2;
      track.frameCount <= 3 * track.sampleRate * m && 3 * track.sampleRate * (m - 1) < track.frameCount
  {
    var d, n := 3 * track.sampleRate, track.frameCount + 3 * track.sampleRate - 1;
    var m := n / d;
    assert n == d * m + n % d;
    assert d * (m - 1) == d * m - d;
  }

  predicate PhaseRises(a: Phase, b: Phase) {
    a == b || a == LoadingModel || b == Encoding
  }

  /** One report by itself: the right track, counts within bounds, and those that its phase can have. */
  predicate WellFormed(limits: seq<Limit>, u: Update)
    requires |limits| == 2
  {
    && u.trackIndex < 2 && u.trackId == limits[u.trackIndex].trackId
    && u.completedChunks <= u.totalChunks <= limits[u.trackIndex].most
    && (u.totalChunks == 0 <==> u.phase == LoadingModel)
    && (u.phase == Encoding ==> u.completedChunks == u.totalChunks)
  }

  /** A report after another: it goes on in the same track without losing anything, or to the next track once this one
      is encoded. */
  predicate Continues(p: Update, u: Update) {
    if u.trackIndex == p.trackIndex then
      && p.completedChunks <= u.completedChunks && PhaseRises(p.phase, u.phase)
      && (p.totalChunks != 0 ==> u.totalChunks == p.totalChunks)
    else u.trackIndex > p.trackIndex && p.phase == Encoding
  }

  /** A report is accepted exactly when it is well-formed and begins with the first track or continues the last. */
  lemma AcceptedExactlyWhenItContinues(limits: seq<Limit>, previous: Option<Update>, u: Update)
    requires |limits| == 2
    ensures Accepts(limits, previous, u) <==>
      && WellFormed(limits, u)
      && match previous case None => u.trackIndex == 0 case Some(p) => Continues(p, u)
  {
    if u.trackIndex < 2 {
      match previous
      case None =>
      case Some(p) => assert Rank(u.phase) < Rank(p.phase) <==> !PhaseRises(p.phase, u.phase);
    }
  }
}
