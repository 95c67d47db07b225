/** Cutting long audio at quiet places for the recognizer: `silence_boundaries` with its default parameters. */
module Windowing {
  import opened Basics

  type Wave = seq<real>

  /** round(0.12 * rate), which is never a tie, but at least one sample. */
  function EnergyWindow(rate: nat): (w: nat)
    requires rate >= 1
    ensures 1 <= w <= rate
  {
    var rounded := (6 * rate + 25) / 50;
    if rounded < 1 then 1 else rounded
  }

  /** The distance between the places tried. */
  function Stride(rate: nat): (s: nat)
    requires rate >= 1
    ensures s >= 1
  {
    var half := EnergyWindow(rate) / 2;
    if half < 1 then 1 else half
  }

  function SquareSum(w: Wave): real {
    if w == [] then 0.0 else SquareSum(w[..|w| - 1]) + w[|w| - 1] * w[|w| - 1]
  }

  /** The mean square of the samples from `at`, for slices within the recording. */
  function Energy(w: Wave, width: nat): int -> real
    requires width >= 1
  {
    (at: int) => if 0 <= at && at + width <= |w| then SquareSum(w[at..at + width]) / width as real else 0.0
  }

  /** The width is the sample count nearest to 0.12 seconds; no two are equally near. */
  lemma WidthIsNearest(rate: nat)
    requires rate >= 5
    ensures -25 < 50 * EnergyWindow(rate) - 6 * rate < 25
  {
    var q := (6 * rate + 25) / 50;
    assert 50 * q <= 6 * rate + 25 < 50 * q + 50;
    assert 50 * q - 6 * rate == 2 * (25 * q - 3 * rate);
  }

  /** Places are tried at half that distance. */
  lemma StrideIsHalfTheWidth(rate: nat)
    requires rate >= 1
    ensures var w := EnergyWindow(rate); if w == 1 then Stride(rate) == 1 else w - 1 <= 2 * Stride(rate) <= w
  {
  }

  /** The sum of squares is that of the parts. */
  lemma {:induction false} SquaresAdd(a: Wave, b: Wave)
    ensures SquareSum(a + b) == SquareSum(a) + SquareSum(b)
    ensures SquareSum([]) == 0.0 && forall x: real :: SquareSum([x]) == x * x
    decreases |b|
  {
    assert forall x: real :: [x][..0] == [];
    if b == [] {
      assert a + b == a;
    } else {
      SquaresAdd(a, b[..|b| - 1]);
      assert (a + b)[..|a + b| - 1] == a + b[..|b| - 1];
    }
  }

  /** The energy of a slice lies between the least and the greatest square in it; of a constant it is the square. */
  lemma EnergyIsAMeanSquare(w: Wave, width: nat, at: nat, lo: real, hi: real)
    requires width >= 1 && at + width <= |w|
    requires forall i | at <= i < at + width :: lo <= w[i] * w[i] <= hi
    ensures lo <= Energy(w, width)(at) <= hi
  {
    var slice := w[at..at + width];
    assert forall i | 0 <= i < width :: slice[i] == w[at + i];
    SquareSumBounds(slice, lo, hi);
    var sum, n := SquareSum(slice), width as real;
    var mean := sum / n;
    assert mean * n == sum;
    if mean < lo { assert (lo - mean) * n > 0.0; }
    if mean > hi { assert (mean - hi) * n > 0.0; }
  }

  lemma {:induction false} SquareSumBounds(w: Wave, lo: real, hi: real)
    requires forall i | 0 <= i < |w| :: lo <= w[i] * w[i] <= hi
    ensures lo * (|w| as real) <= SquareSum(w) <= hi * (|w| as real)
  {
    if w != [] {
      SquareSumBounds(w[..|w| - 1], lo, hi);
      assert |w| as real == (|w| - 1) as real + 1.0;
    }
  }

  const TARGET_SECONDS := 22
  const MAXIMUM_SECONDS := 24
  const SEARCH_SECONDS := 2
  const MINIMUM_SECONDS := 12

  function LeftOf(cursor: nat, rate: nat): int {
    Max(cursor + MINIMUM_SECONDS * rate, cursor + TARGET_SECONDS * rate - SEARCH_SECONDS * rate)
  }

  function RightOf(n: nat, cursor: nat, rate: nat): int
    requires rate >= 1
  {
    Min(n - EnergyWindow(rate), cursor + TARGET_SECONDS * rate + SEARCH_SECONDS * rate)
  }

  /** While more than the maximum remains there is room to search: 20 to 24 seconds on, every slice in range. */
  lemma SearchRangeIsRoomy(n: nat, cursor: nat, rate: nat)
    requires rate >= 1 && n - cursor > MAXIMUM_SECONDS * rate
    ensures LeftOf(cursor, rate) == cursor + 20 * rate < RightOf(n, cursor, rate)
    ensures RightOf(n, cursor, rate) <= cursor + 24 * rate && RightOf(n, cursor, rate) + EnergyWindow(rate) <= n
  {
  }

  /** The places `range(left, ..., step)` tries, in order. */
  function Place(left: nat, step: nat, k: nat): (at: nat)
    ensures at >= left
  {
    if k == 0 then left else Place(left, step, k - 1) + step
  }

  lemma {:induction false} PlacesRise(left: nat, step: nat, j: nat, k: nat)
    requires j <= k
    ensures Place(left, step, j) <= Place(left, step, k)
  {
    if j < k { PlacesRise(left, step, j, k - 1); }
  }

  /** Python's `min(range(at, right + 1, step), key=key)`, continued from `best`: the first of the least. */
  function MinOf(key: int -> real, best: int, at: int, right: int, step: nat): int
    requires step >= 1
    decreases right - at
  {
    if at > right then best else MinOf(key, if key(at) < key(best) then at else best, at + step, right, step)
  }

  lemma {:induction false} PlacesShift(at: nat, step: nat, k: nat)
    ensures Place(at + step, step, k) == Place(at, step, k + 1)
  {
    if k > 0 { PlacesShift(at, step, k - 1); }
  }

  lemma {:induction false} MinIsBestOrLess(key: int -> real, best: int, at: nat, right: int, step: nat)
    requires step >= 1
    ensures var cut := MinOf(key, best, at, right, step);
      cut == best || (at <= cut <= right && key(cut) < key(best))
    decreases right - at
  {
    if at <= right {
      MinIsBestOrLess(key, if key(at) < key(best) then at else best, at + step, right, step);
    }
  }

  /** What is chosen is at most any place, and less than any before it. */
  lemma {:induction false} MinIsLeast(key: int -> real, best: int, at: nat, right: int, step: nat, k: nat)
    requires step >= 1 && Place(at, step, k) <= right && best < at
    ensures var cut := MinOf(key, best, at, right, step);
      && key(cut) <= key(Place(at, step, k))
      && (Place(at, step, k) < cut ==> key(cut) < key(Place(at, step, k)))
    decreases right - at
  {
    PlacesRise(at, step, 0, k);
    var better := if key(at) < key(best) then at else best;
    MinIsBestOrLess(key, better, at + step, right, step);
    if k > 0 {
      PlacesShift(at, step, k - 1);
      MinIsLeast(key, better, at + step, right, step, k - 1);
    }
  }

  lemma MinOverTheRange(key: int -> real, left: nat, right: int, step: nat, k: nat)
    requires step >= 1 && Place(left, step, k) <= right
    ensures var cut := MinOf(key, left, left + step, right, step);
      && key(cut) <= key(Place(left, step, k))
      && (Place(left, step, k) < cut ==> key(cut) < key(Place(left, step, k)))
  {
    MinIsBestOrLess(key, left, left + step, right, step);
    if k > 0 {
      PlacesShift(left, step, k - 1);
      MinIsLeast(key, left, left + step, right, step, k - 1);
    }
  }

  method QuietestCut(w: Wave, left: nat, right: nat, step: nat, width: nat) returns (cut: int)
    requires step >= 1 && width >= 1 && left <= right
    ensures cut == MinOf(Energy(w, width), left, left + step, right, step)
  {
    cut := left;
    var at, energy := left + step, Energy(w, width);
    while at <= right
      invariant MinOf(energy, cut, at, right, step) == MinOf(energy, left, left + step, right, step)
      decreases right + step - at
    {
      if energy(at) < energy(cut) { cut := at; }
      at := at + step;
    }
  }

  // ---------------------------------------------------------------- what a windowing is

  /** From `a` the audio is cut at `b`: more than 24 seconds remained, and `b` is the place chosen. */
  ghost predicate CutsTo(w: Wave, rate: nat, a: int, b: int)
    requires rate >= 1
  {
    var step, width := Stride(rate), EnergyWindow(rate);
    && 0 <= a && |w| - a > MAXIMUM_SECONDS * rate
    && b == MinOf(Energy(w, width), LeftOf(a, rate), LeftOf(a, rate) + step, RightOf(|w|, a, rate), step)
  }

  /** The boundaries begin with 0, each but the last two is cut to the next, and at most 24 seconds are left over. */
  ghost predicate IsWindowing(w: Wave, rate: nat, b: seq<int>)
    requires rate >= 1
  {
    && |b| >= 2 && b[0] == 0 && b[|b| - 1] == |w| && |w| - b[|b| - 2] <= MAXIMUM_SECONDS * rate
    && forall i | 0 <= i < |b| - 2 :: CutsTo(w, rate, b[i], b[i + 1])
  }

  /** `silence_boundaries`. The fallback cut and the failure to advance are never reached. */
  method SilenceBoundaries(w: Wave, rate: nat) returns (boundaries: seq<int>)
    requires rate >= 1
    ensures IsWindowing(w, rate, boundaries)
  {
    boundaries := [0];
    var cursor := 0;
    while |w| - cursor > MAXIMUM_SECONDS * rate
      invariant 0 <= cursor <= |w| && |boundaries| >= 1 && boundaries[0] == 0
      invariant boundaries[|boundaries| - 1] == cursor
      invariant forall i | 0 <= i < |boundaries| - 1 :: CutsTo(w, rate, boundaries[i], boundaries[i + 1])
      decreases |w| - cursor
    {
      SearchRangeIsRoomy(|w|, cursor, rate);
      var left, right := LeftOf(cursor, rate), RightOf(|w|, cursor, rate);
      var cut: int;
      if right <= left {
        cut := Min(|w|, cursor + MAXIMUM_SECONDS * rate);
      } else {
        cut := QuietestCut(w, left, right, Stride(rate), EnergyWindow(rate));
      }
      assert CutsTo(w, rate, cursor, cut);
      CutsAreBounded(w, rate, cursor, cut);
      if cut <= cursor {
        assert false;  // "audio windowing failed to advance"
      }
      boundaries := boundaries + [cut];
      cursor := cut;
    }
    boundaries := boundaries + [|w|];
  }

  // ---------------------------------------------------------------- what follows for every windowing

  predicate WindowAt(b: seq<int>, i: nat, n: nat) {
    i + 1 < |b| && 0 <= b[i] <= b[i + 1] <= n
  }

  lemma CutsAreBounded(w: Wave, rate: nat, a: int, b: int)
    requires rate >= 1 && CutsTo(w, rate, a, b)
    ensures a + 20 * rate <= b <= a + 24 * rate && b < |w|
  {
    SearchRangeIsRoomy(|w|, a, rate);
    var left, step := LeftOf(a, rate), Stride(rate);
    MinIsBestOrLess(Energy(w, EnergyWindow(rate)), left, left + step, RightOf(|w|, a, rate), step);
  }

  /** A cut is at most as loud as any place the search tries from 20 seconds on, and quieter than any before it. */
  lemma CutsAreQuiet(w: Wave, rate: nat, a: int, b: int, k: nat)
    requires rate >= 1 && CutsTo(w, rate, a, b) && Place(a + 20 * rate, Stride(rate), k) <= RightOf(|w|, a, rate)
    ensures var energy, place := Energy(w, EnergyWindow(rate)), Place(a + 20 * rate, Stride(rate), k);
      energy(b) <= energy(place) && (place < b ==> energy(b) < energy(place))
    ensures 0 <= Place(a + 20 * rate, Stride(rate), k)
      && Place(a + 20 * rate, Stride(rate), k) + EnergyWindow(rate) <= |w|
  {
    SearchRangeIsRoomy(|w|, a, rate);
    MinOverTheRange(Energy(w, EnergyWindow(rate)), a + 20 * rate, RightOf(|w|, a, rate), Stride(rate), k);
  }

  /** Windows follow each other without gap, none is longer than 24 seconds, all but the last are at least 20. */
  lemma WindowsAreBounded(w: Wave, rate: nat, b: seq<int>, i: nat)
    requires rate >= 1 && IsWindowing(w, rate, b) && i < |b| - 1
    ensures WindowAt(b, i, |w|) && b[i + 1] - b[i] <= 24 * rate
    ensures i < |b| - 2 ==> b[i + 1] - b[i] >= 20 * rate
    ensures w != [] ==> b[i] < b[i + 1]
    ensures w == [] ==> b == [0, 0]
  {
    if i < |b| - 2 { CutsAreBounded(w, rate, b[i], b[i + 1]); }
    if i > 0 { CutsAreBounded(w, rate, b[i - 1], b[i]); }
    if |b| > 2 { CutsAreBounded(w, rate, b[0], b[1]); }
  }

  /** There is no second windowing. */
  lemma WindowingIsUnique(w: Wave, rate: nat, b: seq<int>, c: seq<int>)
    requires rate >= 1 && IsWindowing(w, rate, b) && IsWindowing(w, rate, c)
    ensures b == c
  {
    NoneStopsEarlier(w, rate, b, c);
    NoneStopsEarlier(w, rate, c, b);
    SamePrefix(w, rate, b, c, |b| - 2);
    assert b == b[..|b| - 1] + [|w|] && c == c[..|b| - 1] + [|w|];
  }

  lemma NoneStopsEarlier(w: Wave, rate: nat, b: seq<int>, c: seq<int>)
    requires rate >= 1 && IsWindowing(w, rate, b) && IsWindowing(w, rate, c)
    ensures |b| >= |c|
  {
    if |b| < |c| {
      assert CutsTo(w, rate, c[|b| - 2], c[|b| - 1]);
      SamePrefix(w, rate, b, c, |b| - 2);
    }
  }

  lemma {:induction false} SamePrefix(w: Wave, rate: nat, b: seq<int>, c: seq<int>, n: nat)
    requires rate >= 1 && IsWindowing(w, rate, b) && IsWindowing(w, rate, c) && n <= |b| - 2 && n <= |c| - 2
    ensures b[..n + 1] == c[..n + 1]
  {
    if n > 0 {
      SamePrefix(w, rate, b, c, n - 1);
      var a := b[n - 1];
      assert a == b[..n][n - 1] == c[n - 1];
      assert CutsTo(w, rate, b[n - 1], b[n]) && CutsTo(w, rate, c[n - 1], c[n]);
      assert b[n] == c[n];
      assert b[..n + 1] == b[..n] + [b[n]] && c[..n + 1] == c[..n] + [c[n]];
    }
  }

  /** The samples of the first n windows, one after the other. */
  function Spliced(w: Wave, b: seq<int>, n: nat): Wave
    requires forall i | 0 <= i < n :: WindowAt(b, i, |w|)
  {
    if n == 0 then []
    else
      assert WindowAt(b, n - 1, |w|);
      Spliced(w, b, n - 1) + w[b[n - 1]..b[n]]
  }

  lemma {:induction false} SplicedIsThePrefix(w: Wave, b: seq<int>, n: nat)
    requires n < |b| && b[0] == 0 && (forall i | 0 <= i < n :: WindowAt(b, i, |w|)) && 0 <= b[n] <= |w|
    ensures Spliced(w, b, n) == w[..b[n]]
  {
    if n > 0 {
      assert WindowAt(b, n - 1, |w|);
      SplicedIsThePrefix(w, b, n - 1);
      assert w[..b[n - 1]] + w[b[n - 1]..b[n]] == w[..b[n]];
    }
  }

  /** The windows put back together are the recording: no sample is lost, doubled or moved. */
  lemma WindowsSpellTheRecording(w: Wave, rate: nat, b: seq<int>)
    requires rate >= 1 && IsWindowing(w, rate, b)
    ensures forall i | 0 <= i < |b| - 1 :: WindowAt(b, i, |w|)
    ensures Spliced(w, b, |b| - 1) == w
  {
    forall i | 0 <= i < |b| - 1
      ensures WindowAt(b, i, |w|)
    {
      WindowsAreBounded(w, rate, b, i);
    }
    SplicedIsThePrefix(w, b, |b| - 1);
    assert w[..|w|] == w;
  }
}
