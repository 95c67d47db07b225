/** Runs of equal activity and their smoothing: `_runs` and `_smooth_activity`. */
module Activity {
  import opened Basics

  datatype Span = Span(start: nat, end: nat) {
    predicate Contains(i: int) { start <= i < end }

    function Length(): int { end - start }
  }

  /** A longest stretch of `target` among the first n values. */
  ghost predicate RunWithin(values: seq<bool>, target: bool, n: nat, r: Span)
    requires n <= |values|
  {
    && r.start < r.end <= n
    && (forall i | r.start <= i < r.end :: values[i] == target)
    && (r.start > 0 ==> values[r.start - 1] != target)
    && (r.end < n ==> values[r.end] != target)
  }

  ghost predicate IsRun(values: seq<bool>, target: bool, r: Span) {
    RunWithin(values, target, |values|, r)
  }

  function Grow(runs: seq<Span>, at: nat): seq<Span> {
    if runs != [] && runs[|runs| - 1].end == at then runs[..|runs| - 1] + [Span(runs[|runs| - 1].start, at + 1)]
    else runs + [Span(at, at + 1)]
  }

  /** The runs of the first n values. */
  function RunsOf(values: seq<bool>, target: bool, n: nat): seq<Span>
    requires n <= |values|
  {
    if n == 0 then []
    else if values[n - 1] != target then RunsOf(values, target, n - 1)
    else Grow(RunsOf(values, target, n - 1), n - 1)
  }

  ghost predicate Covered(runs: seq<Span>, i: int) {
    exists k | 0 <= k < |runs| :: runs[k].Contains(i)
  }

  /** Ordered, apart, all of them runs of the first n values, and none missing. */
  ghost predicate RunList(values: seq<bool>, target: bool, n: nat, runs: seq<Span>)
    requires n <= |values|
  {
    && (forall k | 0 <= k < |runs| :: RunWithin(values, target, n, runs[k]))
    && (forall k | 0 <= k < |runs| - 1 :: runs[k].end < runs[k + 1].start)
    && (forall i | 0 <= i < n && values[i] == target :: Covered(runs, i))
  }

  lemma OnlyTheLastReachesTheEnd(values: seq<bool>, target: bool, n: nat, runs: seq<Span>, k: nat)
    requires n <= |values| && RunList(values, target, n, runs) && k < |runs|
    ensures k == |runs| - 1 || runs[k].end < n
  {
    if k < |runs| - 1 { assert runs[k].end < runs[k + 1].start && RunWithin(values, target, n, runs[k + 1]); }
  }

  lemma LastRunIsOpen(values: seq<bool>, target: bool, n: nat, runs: seq<Span>)
    requires n <= |values| && RunList(values, target, n, runs)
    ensures (n > 0 && values[n - 1] == target) <==> (runs != [] && runs[|runs| - 1].end == n)
  {
    if n > 0 && values[n - 1] == target {
      assert Covered(runs, n - 1);
      var k :| 0 <= k < |runs| && runs[k].Contains(n - 1);
      OnlyTheLastReachesTheEnd(values, target, n, runs, k);
      assert runs[k].end == n;
    }
  }

  lemma GrowCovers(runs: seq<Span>, n: nat, i: int)
    requires Covered(runs, i) || i == n
    requires runs != [] ==> runs[|runs| - 1].start <= n
    ensures Covered(Grow(runs, n), i)
  {
    var grown := Grow(runs, n);
    if i == n {
      assert grown[|grown| - 1].Contains(i);
    } else {
      var k :| 0 <= k < |runs| && runs[k].Contains(i);
      assert grown[k].Contains(i);
    }
  }

  lemma GrowKeepsRuns(values: seq<bool>, target: bool, n: nat, runs: seq<Span>)
    requires n < |values| && values[n] == target
    requires RunList(values, target, n, runs)
    ensures RunList(values, target, n + 1, Grow(runs, n))
  {
    var grown := Grow(runs, n);
    LastRunIsOpen(values, target, n, runs);
    forall i | 0 <= i < n + 1 && values[i] == target ensures Covered(grown, i) {
      GrowCovers(runs, n, i);
    }
    forall k | 0 <= k < |grown| ensures RunWithin(values, target, n + 1, grown[k]) {
      if k < |grown| - 1 {
        assert grown[k] == runs[k] && RunWithin(values, target, n, runs[k]);
        if k < |runs| - 1 { assert runs[k].end < runs[k + 1].start && RunWithin(values, target, n, runs[k + 1]); }
      }
    }
  }

  lemma {:induction false} RunsOfIsRunList(values: seq<bool>, target: bool, n: nat)
    requires n <= |values|
    ensures RunList(values, target, n, RunsOf(values, target, n))
  {
    if n > 0 {
      RunsOfIsRunList(values, target, n - 1);
      if values[n - 1] == target { GrowKeepsRuns(values, target, n - 1, RunsOf(values, target, n - 1)); }
    }
  }

  /** The listing is exactly the set of runs, in order. */
  lemma RunsOfListsEveryRun(values: seq<bool>, target: bool, r: Span)
    ensures IsRun(values, target, r) <==> r in RunsOf(values, target, |values|)
  {
    var runs := RunsOf(values, target, |values|);
    RunsOfIsRunList(values, target, |values|);
    if IsRun(values, target, r) {
      assert Covered(runs, r.start);
      var k :| 0 <= k < |runs| && runs[k].Contains(r.start);
      assert runs[k] == r;
    }
  }

  lemma RunAt(values: seq<bool>, i: nat) returns (r: Span)
    requires i < |values|
    ensures IsRun(values, values[i], r) && r.Contains(i)
  {
    RunsOfIsRunList(values, values[i], |values|);
    assert Covered(RunsOf(values, values[i], |values|), i);
    var k :| 0 <= k < |RunsOf(values, values[i], |values|)| && RunsOf(values, values[i], |values|)[k].Contains(i);
    r := RunsOf(values, values[i], |values|)[k];
  }

  method Runs(values: seq<bool>, target: bool) returns (runs: seq<Span>)
    ensures runs == RunsOf(values, target, |values|)
  {
    runs := [];
    var start: Option<nat> := None;
    for index := 0 to |values|
      invariant start.Some? ==> start.value < index
      invariant start.Some? ==> RunsOf(values, target, index) == runs + [Span(start.value, index)]
      invariant start == None ==> RunsOf(values, target, index) == runs
      invariant start == None <==> index == 0 || values[index - 1] != target
    {
      RunsOfIsRunList(values, target, index);
      LastRunIsOpen(values, target, index, RunsOf(values, target, index));
      if values[index] == target && start == None {
        start := Some(index);
      } else if values[index] != target && start.Some? {
        runs := runs + [Span(start.value, index)];
        start := None;
      }
    }
    if start.Some? {
      runs := runs + [Span(start.value, |values|)];
    }
  }

  // ---------------------------------------------------------------- smoothing

  /** Which runs a pass removes: short interior gaps, or short bursts. */
  datatype Pass = Bridge(bridgeFrames: int) | Prune(minimumFrames: int) {
    function Target(): bool { Prune? }

    predicate Removes(n: nat, r: Span) {
      match this
      case Bridge(bridge) => r.start > 0 && r.end < n && r.Length() <= bridge
      case Prune(minimum) => r.Length() < minimum
    }
  }

  predicate Flips(values: seq<bool>, pass: Pass, runs: seq<Span>, i: nat) {
    exists k | 0 <= k < |runs| :: runs[k].Contains(i) && pass.Removes(|values|, runs[k])
  }

  /** Every removed run turns to the other value, all else stays. */
  function Flip(values: seq<bool>, pass: Pass): seq<bool> {
    seq(|values|, i requires 0 <= i < |values| =>
      if Flips(values, pass, RunsOf(values, pass.Target(), |values|), i) then !pass.Target() else values[i])
  }

  function Smooth(activity: seq<bool>, bridgeFrames: int, minimumFrames: int): seq<bool> {
    Flip(Flip(activity, Bridge(bridgeFrames)), Prune(minimumFrames))
  }

  /** `result[start:end] = [value] * (end - start)`. */
  function Overwrite(values: seq<bool>, r: Span, value: bool): (result: seq<bool>)
    requires r.start <= r.end <= |values|
    ensures |result| == |values|
    ensures forall i | 0 <= i < |values| :: result[i] == if r.Contains(i) then value else values[i]
  {
    values[..r.start] + seq(r.Length(), _ => value) + values[r.end..]
  }

  lemma FlipsOneMore(values: seq<bool>, pass: Pass, runs: seq<Span>, r: Span, i: nat)
    ensures Flips(values, pass, runs + [r], i) <==>
      Flips(values, pass, runs, i) || (r.Contains(i) && pass.Removes(|values|, r))
  {
    var longer := runs + [r];
    if Flips(values, pass, runs, i) {
      var k :| 0 <= k < |runs| && runs[k].Contains(i) && pass.Removes(|values|, runs[k]);
      assert longer[k] == runs[k];
    }
    if r.Contains(i) && pass.Removes(|values|, r) { assert longer[|runs|] == r; }
  }

  ghost predicate FlippedSoFar(values: seq<bool>, pass: Pass, runs: seq<Span>, result: seq<bool>) {
    && |result| == |values|
    && forall i | 0 <= i < |values| ::
         result[i] == if Flips(values, pass, runs, i) then !pass.Target() else values[i]
  }

  lemma FlippedOneMore(values: seq<bool>, pass: Pass, runs: seq<Span>, r: Span, result: seq<bool>)
    requires FlippedSoFar(values, pass, runs, result) && r.start <= r.end <= |values|
    ensures FlippedSoFar(values, pass, runs + [r],
      if pass.Removes(|values|, r) then Overwrite(result, r, !pass.Target()) else result)
  {
    forall i: nat | i < |values| ensures Flips(values, pass, runs + [r], i) <==>
      Flips(values, pass, runs, i) || (r.Contains(i) && pass.Removes(|values|, r))
    {
      FlipsOneMore(values, pass, runs, r, i);
    }
  }

  lemma FlippedThroughout(values: seq<bool>, pass: Pass, result: seq<bool>)
    ensures FlippedSoFar(values, pass, RunsOf(values, pass.Target(), |values|), result) <==>
      result == Flip(values, pass)
  {
  }

  lemma RunsAreInRange(values: seq<bool>, target: bool)
    ensures forall k | 0 <= k < |RunsOf(values, target, |values|)| ::
      RunsOf(values, target, |values|)[k].start <= RunsOf(values, target, |values|)[k].end <= |values|
  {
    RunsOfIsRunList(values, target, |values|);
  }

  method RunPass(values: seq<bool>, pass: Pass) returns (result: seq<bool>)
    ensures result == Flip(values, pass)
  {
    var runs := Runs(values, pass.Target());
    RunsAreInRange(values, pass.Target());
    result := values;
    for k := 0 to |runs|
      invariant FlippedSoFar(values, pass, runs[..k], result)
    {
      FlippedOneMore(values, pass, runs[..k], runs[k], result);
      assert runs[..k + 1] == runs[..k] + [runs[k]];
      if pass.Removes(|values|, runs[k]) { result := Overwrite(result, runs[k], !pass.Target()); }
    }
    assert runs[..|runs|] == runs;
    FlippedThroughout(values, pass, result);
  }

  method SmoothActivity(activity: seq<bool>, bridgeFrames: int, minimumFrames: int) returns (result: seq<bool>)
    ensures result == Smooth(activity, bridgeFrames, minimumFrames)
  {
    result := RunPass(activity, Bridge(bridgeFrames));
    result := RunPass(result, Prune(minimumFrames));
  }

  lemma FlippedAt(values: seq<bool>, pass: Pass, r: Span, i: nat)
    requires IsRun(values, pass.Target(), r) && r.Contains(i)
    ensures Flip(values, pass)[i] == if pass.Removes(|values|, r) then !pass.Target() else values[i]
  {
    var runs := RunsOf(values, pass.Target(), |values|);
    RunsOfListsEveryRun(values, pass.Target(), r);
    forall k | 0 <= k < |runs| && runs[k].Contains(i) ensures runs[k] == r {
      RunsOfListsEveryRun(values, pass.Target(), runs[k]);
    }
  }

  lemma NotFlippedAt(values: seq<bool>, pass: Pass, i: nat)
    requires i < |values| && values[i] != pass.Target()
    ensures Flip(values, pass)[i] == values[i]
  {
  }

  /** After a pass, the runs of its target are exactly the runs it did not remove. */
  lemma {:induction false} RunsAfterAPass(values: seq<bool>, pass: Pass, r: Span)
    ensures IsRun(Flip(values, pass), pass.Target(), r) <==>
      IsRun(values, pass.Target(), r) && !pass.Removes(|values|, r)
  {
    var flipped, t := Flip(values, pass), pass.Target();
    if IsRun(values, t, r) && !pass.Removes(|values|, r) {
      forall i: nat | r.Contains(i) ensures flipped[i] == t { FlippedAt(values, pass, r, i); }
    }
    if IsRun(flipped, t, r) {
      var whole := RunAt(values, r.start);
      forall i: nat | r.Contains(i) ensures values[i] == t { if values[i] != t { NotFlippedAt(values, pass, i); } }
      FlippedAt(values, pass, whole, r.start);
      forall i: nat | whole.Contains(i) ensures flipped[i] == t { FlippedAt(values, pass, whole, i); }
      assert whole == r;
    }
  }

  // ---------------------------------------------------------------- normal form

  predicate Interior(values: seq<bool>, r: Span) {
    r.start > 0 && r.end < |values|
  }

  /** No active run is too short and no interior gap is short enough to bridge. */
  ghost predicate Normal(values: seq<bool>, bridgeFrames: int, minimumFrames: int) {
    && (forall r :: IsRun(values, true, r) ==> r.Length() >= minimumFrames)
    && (forall r :: IsRun(values, false, r) && Interior(values, r) ==> r.Length() > bridgeFrames)
  }

  /** Dropping bursts only merges gaps: an interior gap afterwards starts with an interior gap from before. */
  lemma GapsGrow(values: seq<bool>, minimum: int, r: Span) returns (inner: Span)
    requires IsRun(Flip(values, Prune(minimum)), false, r) && Interior(values, r)
    ensures IsRun(values, false, inner) && Interior(values, inner)
    ensures inner.start == r.start && inner.end <= r.end
  {
    var pass := Prune(minimum);
    var pruned := Flip(values, pass);
    if !values[r.start - 1] { NotFlippedAt(values, pass, r.start - 1); }
    if !values[r.end] { NotFlippedAt(values, pass, r.end); }
    if values[r.start] {
      var burst := RunAt(values, r.start);
      FlippedAt(values, pass, burst, r.start);
      FlippedAt(values, pass, burst, r.start - 1);
    }
    inner := RunAt(values, r.start);
    assert !inner.Contains(r.end);
  }

  /** Both demands hold of the result at once: the second pass does not spoil what the first achieved. */
  lemma {:induction false} SmoothIsNormal(activity: seq<bool>, bridgeFrames: int, minimumFrames: int)
    ensures Normal(Smooth(activity, bridgeFrames, minimumFrames), bridgeFrames, minimumFrames)
  {
    var bridged := Flip(activity, Bridge(bridgeFrames));
    var smooth := Flip(bridged, Prune(minimumFrames));
    forall r | IsRun(smooth, true, r) ensures r.Length() >= minimumFrames {
      RunsAfterAPass(bridged, Prune(minimumFrames), r);
    }
    forall r | IsRun(smooth, false, r) && Interior(smooth, r) ensures r.Length() > bridgeFrames {
      var inner := GapsGrow(bridged, minimumFrames, r);
      RunsAfterAPass(activity, Bridge(bridgeFrames), inner);
    }
  }

  lemma {:induction false} NothingToFlip(values: seq<bool>, pass: Pass)
    requires forall r :: IsRun(values, pass.Target(), r) ==> !pass.Removes(|values|, r)
    ensures Flip(values, pass) == values
  {
    forall i | 0 <= i < |values| ensures Flip(values, pass)[i] == values[i] {
      if values[i] == pass.Target() {
        var r := RunAt(values, i);
        FlippedAt(values, pass, r, i);
      }
    }
  }

  /** Smoothing changes exactly the sequences that are not in normal form. */
  lemma SmoothFixesExactlyNormal(activity: seq<bool>, bridgeFrames: int, minimumFrames: int)
    ensures Smooth(activity, bridgeFrames, minimumFrames) == activity <==> Normal(activity, bridgeFrames, minimumFrames)
  {
    if Normal(activity, bridgeFrames, minimumFrames) {
      NothingToFlip(activity, Bridge(bridgeFrames));
      NothingToFlip(activity, Prune(minimumFrames));
    }
    SmoothIsNormal(activity, bridgeFrames, minimumFrames);
  }

  lemma SmoothIsIdempotent(activity: seq<bool>, bridgeFrames: int, minimumFrames: int)
    ensures var once := Smooth(activity, bridgeFrames, minimumFrames);
      |once| == |activity| && Smooth(once, bridgeFrames, minimumFrames) == once
  {
    SmoothIsNormal(activity, bridgeFrames, minimumFrames);
    SmoothFixesExactlyNormal(Smooth(activity, bridgeFrames, minimumFrames), bridgeFrames, minimumFrames);
  }
}
