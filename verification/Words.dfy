/** Placing recognised words into rows by midpoint: `_transcribe_lane`, `_group_rows` and the row order of `draft`. */
module Words {
  /** Seconds are exact. */
  datatype Word = Word(start: real, end: real, surface: string) {
    function Mid(): real { (start + end) / 2.0 }
  }

  datatype Window = Window(start: real, end: real) {
    predicate Holds(x: real) { start <= x < end }

    /** The filter on what the recogniser returned for this segment. */
    predicate Keeps(w: Word) { w.start >= start && w.end > w.start && w.end <= end && w.surface != "" }
  }

  function KeptOf(window: Window, heard: seq<Word>): seq<Word> {
    if heard == [] then []
    else
      var w := heard[|heard| - 1];
      var placed := Word(window.start + w.start, window.start + w.end, w.surface);
      KeptOf(window, heard[..|heard| - 1]) + (if window.Keeps(placed) then [placed] else [])
  }

  /** All words kept in a lane; `heard[k]` is what was recognised in segment k, timed from its start. */
  function Kept(windows: seq<Window>, heard: seq<seq<Word>>): seq<Word>
    requires |windows| == |heard|
  {
    if windows == [] then []
    else Kept(windows[..|windows| - 1], heard[..|heard| - 1]) + KeptOf(windows[|windows| - 1], heard[|heard| - 1])
  }

  // What is kept, said without the functions that keep it.

  /** Word i heard in segment k. */
  datatype Origin = Origin(segment: nat, index: nat)

  ghost predicate Before(a: Origin, b: Origin) {
    a.segment < b.segment || (a.segment == b.segment && a.index < b.index)
  }

  /** Moved by the segment's start, the word lies in the segment and is not empty. */
  ghost predicate HeardInside(windows: seq<Window>, heard: seq<seq<Word>>, o: Origin)
    requires |windows| == |heard|
  {
    && o.segment < |windows| && o.index < |heard[o.segment]|
    && var window, w := windows[o.segment], heard[o.segment][o.index];
       window.start <= window.start + w.start < window.start + w.end <= window.end && w.surface != ""
  }

  ghost predicate ComesFrom(windows: seq<Window>, heard: seq<seq<Word>>, word: Word, o: Origin)
    requires |windows| == |heard|
  {
    && HeardInside(windows, heard, o)
    && word.surface == heard[o.segment][o.index].surface
    && word.start == windows[o.segment].start + heard[o.segment][o.index].start
    && word.end == windows[o.segment].start + heard[o.segment][o.index].end
  }

  /** The words are those heard inside their segments, each once, in the order of segments and of hearing. */
  ghost predicate Origins(windows: seq<Window>, heard: seq<seq<Word>>, words: seq<Word>, origins: seq<Origin>)
    requires |windows| == |heard|
  {
    && |origins| == |words|
    && (forall n | 0 <= n < |words| :: ComesFrom(windows, heard, words[n], origins[n]))
    && (forall m, n | 0 <= m < n < |origins| :: Before(origins[m], origins[n]))
    && (forall o | HeardInside(windows, heard, o) :: o in origins)
  }

  /** The origins of the first n words heard in the last segment. */
  function OriginsIn(window: Window, heard: seq<Word>, k: nat): (origins: seq<Origin>)
    ensures forall o | o in origins :: o.segment == k && o.index < |heard|
  {
    if heard == [] then []
    else
      var i := |heard| - 1;
      OriginsIn(window, heard[..i], k)
      + (if window.Keeps(Word(window.start + heard[i].start, window.start + heard[i].end, heard[i].surface))
         then [Origin(k, i)] else [])
  }

  lemma {:induction false} OneSegmentsOrigins(windows: seq<Window>, heard: seq<seq<Word>>, k: nat, n: nat)
    requires |windows| == |heard| && k < |windows| && n <= |heard[k]|
    ensures var origins, words := OriginsIn(windows[k], heard[k][..n], k), KeptOf(windows[k], heard[k][..n]);
      && |origins| == |words|
      && (forall m | 0 <= m < |words| :: ComesFrom(windows, heard, words[m], origins[m]))
      && (forall l, m | 0 <= l < m < |origins| :: Before(origins[l], origins[m]))
      && (forall i | 0 <= i < n && HeardInside(windows, heard, Origin(k, i)) :: Origin(k, i) in origins)
  {
    if n > 0 {
      OneSegmentsOrigins(windows, heard, k, n - 1);
      assert heard[k][..n][..n - 1] == heard[k][..n - 1];
    }
  }

  function AllOrigins(windows: seq<Window>, heard: seq<seq<Word>>): (origins: seq<Origin>)
    requires |windows| == |heard|
    ensures forall o | o in origins :: o.segment < |windows|
  {
    if windows == [] then []
    else
      var n := |windows| - 1;
      AllOrigins(windows[..n], heard[..n]) + OriginsIn(windows[n], heard[n], n)
  }

  lemma PrefixOrigins(windows: seq<Window>, heard: seq<seq<Word>>, n: nat, o: Origin)
    requires |windows| == |heard| && n <= |windows| && o.segment < n
    ensures HeardInside(windows[..n], heard[..n], o) <==> HeardInside(windows, heard, o)
    ensures forall word :: ComesFrom(windows[..n], heard[..n], word, o) <==> ComesFrom(windows, heard, word, o)
  {
  }

  /** Exactly the words that fit are kept, moved by their segment's start, each once and in order. */
  lemma {:induction false} KeptIsWhatFits(windows: seq<Window>, heard: seq<seq<Word>>)
    requires |windows| == |heard|
    ensures Origins(windows, heard, Kept(windows, heard), AllOrigins(windows, heard))
  {
    if windows != [] {
      var n := |windows| - 1;
      KeptIsWhatFits(windows[..n], heard[..n]);
      OneSegmentsOrigins(windows, heard, n, |heard[n]|);
      assert heard[n][..|heard[n]|] == heard[n];
      OneMoreSegment(windows, heard, n, Kept(windows[..n], heard[..n]), AllOrigins(windows[..n], heard[..n]),
                     KeptOf(windows[n], heard[n]), OriginsIn(windows[n], heard[n], n));
    }
  }

  lemma OneMoreSegment(windows: seq<Window>, heard: seq<seq<Word>>, n: nat, before: seq<Word>, origins: seq<Origin>,
                       last: seq<Word>, lastOrigins: seq<Origin>)
    requires |windows| == |heard| == n + 1 && Origins(windows[..n], heard[..n], before, origins)
    requires |lastOrigins| == |last| && forall o | o in lastOrigins :: o.segment == n
    requires forall m | 0 <= m < |last| :: ComesFrom(windows, heard, last[m], lastOrigins[m])
    requires forall l, m | 0 <= l < m < |lastOrigins| :: Before(lastOrigins[l], lastOrigins[m])
    requires forall i | 0 <= i < |heard[n]| && HeardInside(windows, heard, Origin(n, i)) :: Origin(n, i) in lastOrigins
    ensures Origins(windows, heard, before + last, origins + lastOrigins)
  {
    forall m | 0 <= m < |origins|
      ensures origins[m].segment < n && ComesFrom(windows, heard, before[m], origins[m])
    {
      assert ComesFrom(windows[..n], heard[..n], before[m], origins[m]);
      PrefixOrigins(windows, heard, n, origins[m]);
    }
    forall o | HeardInside(windows, heard, o)
      ensures o in origins + lastOrigins
    {
      if o.segment < n {
        PrefixOrigins(windows, heard, n, o);
      } else {
        assert o == Origin(n, o.index);
      }
    }
  }

  method TranscribeLane(windows: seq<Window>, heard: seq<seq<Word>>) returns (words: seq<Word>)
    requires |windows| == |heard|
    ensures words == Kept(windows, heard)
    ensures exists origins :: Origins(windows, heard, words, origins)
  {
    KeptIsWhatFits(windows, heard);
    words := [];
    for k := 0 to |windows|
      invariant words == Kept(windows[..k], heard[..k])
    {
      assert windows[..k + 1][..k] == windows[..k] && heard[..k + 1][..k] == heard[..k];
      ghost var before := words;
      for i := 0 to |heard[k]|
        invariant words == before + KeptOf(windows[k], heard[k][..i])
      {
        assert heard[k][..i + 1][..i] == heard[k][..i];
        var w := heard[k][i];
        var placed := Word(windows[k].start + w.start, windows[k].start + w.end, w.surface);
        if windows[k].Keeps(placed) { words := words + [placed]; }
      }
      assert heard[k][..|heard[k]|] == heard[k];
    }
    assert windows[..|windows|] == windows && heard[..|heard|] == heard;
    assert Origins(windows, heard, words, AllOrigins(windows, heard));
  }

  ghost predicate InOrder(windows: seq<Window>) {
    && (forall k | 0 <= k < |windows| :: windows[k].start < windows[k].end)
    && (forall i, j | 0 <= i < j < |windows| :: windows[i].end <= windows[j].start)
  }

  /** A lane as it reaches drafting: every token was kept by one of the segments, and tokens are sorted by start. */
  ghost predicate Placed(windows: seq<Window>, tokens: seq<Word>) {
    && (forall i | 0 <= i < |tokens| :: exists k | 0 <= k < |windows| :: windows[k].Keeps(tokens[i]))
    && (forall i, j | 0 <= i < j < |tokens| :: tokens[i].start <= tokens[j].start)
  }

  lemma {:induction false} KeptOfAreKept(window: Window, heard: seq<Word>)
    ensures forall w | w in KeptOf(window, heard) :: window.Keeps(w)
  {
    if heard != [] { KeptOfAreKept(window, heard[..|heard| - 1]); }
  }

  lemma {:induction false} KeptAreKept(windows: seq<Window>, heard: seq<seq<Word>>, w: Word)
    requires |windows| == |heard| && w in Kept(windows, heard)
    ensures exists k | 0 <= k < |windows| :: windows[k].Keeps(w)
  {
    var n := |windows| - 1;
    KeptOfAreKept(windows[n], heard[n]);
    if w in KeptOf(windows[n], heard[n]) {
      assert windows[n].Keeps(w);
    } else {
      KeptAreKept(windows[..n], heard[..n], w);
      var k :| 0 <= k < n && windows[..n][k].Keeps(w);
      assert windows[k].Keeps(w);
    }
  }

  /** Whatever sort by (start, end, surface) is applied to the kept words, the result is a placed lane. */
  lemma SortedKeptWordsArePlaced(windows: seq<Window>, heard: seq<seq<Word>>, tokens: seq<Word>)
    requires |windows| == |heard| && multiset(tokens) == multiset(Kept(windows, heard))
    requires forall i, j | 0 <= i < j < |tokens| :: tokens[i].start <= tokens[j].start
    ensures Placed(windows, tokens)
  {
    forall i | 0 <= i < |tokens| ensures exists k | 0 <= k < |windows| :: windows[k].Keeps(tokens[i]) {
      assert tokens[i] in multiset(tokens);
      KeptAreKept(windows, heard, tokens[i]);
    }
  }

  // ---------------------------------------------------------------- bisection

  /** `bisect_left` as the library does it, sorted list or not. */
  function Bisect(tokens: seq<Word>, x: real, lo: nat, hi: nat): nat
    requires lo <= hi <= |tokens|
    decreases hi - lo
  {
    if lo == hi then lo
    else
      var mid := (lo + hi) / 2;
      if tokens[mid].Mid() < x then Bisect(tokens, x, mid + 1, hi) else Bisect(tokens, x, lo, mid)
  }

  function BisectLeft(tokens: seq<Word>, x: real): (p: nat)
    ensures p <= |tokens|
  {
    BisectInRange(tokens, x, 0, |tokens|);
    Bisect(tokens, x, 0, |tokens|)
  }

  lemma {:induction false} BisectInRange(tokens: seq<Word>, x: real, lo: nat, hi: nat)
    requires lo <= hi <= |tokens|
    ensures lo <= Bisect(tokens, x, lo, hi) <= hi
    decreases hi - lo
  {
    if lo < hi {
      var mid := (lo + hi) / 2;
      if tokens[mid].Mid() < x { BisectInRange(tokens, x, mid + 1, hi); } else { BisectInRange(tokens, x, lo, mid); }
    }
  }

  /** Place p parts the midpoints before x from those at or after it. */
  ghost predicate Parts(tokens: seq<Word>, x: real, p: nat) {
    && p <= |tokens|
    && (forall i | 0 <= i < p :: tokens[i].Mid() < x)
    && (forall i | p <= i < |tokens| :: tokens[i].Mid() >= x)
  }

  lemma {:induction false} BisectFindsTheParting(tokens: seq<Word>, x: real, lo: nat, hi: nat, p: nat)
    requires lo <= p <= hi <= |tokens| && Parts(tokens, x, p)
    ensures Bisect(tokens, x, lo, hi) == p
    decreases hi - lo
  {
    if lo < hi {
      var mid := (lo + hi) / 2;
      if tokens[mid].Mid() < x { BisectFindsTheParting(tokens, x, mid + 1, hi, p); }
      else { BisectFindsTheParting(tokens, x, lo, mid, p); }
    }
  }

  /** Midpoints before x come first, though they need not be sorted among themselves. */
  ghost predicate Divides(tokens: seq<Word>, x: real) {
    forall i, j | 0 <= i < j < |tokens| && tokens[j].Mid() < x :: tokens[i].Mid() < x
  }

  lemma {:induction false} DividedMeansParted(tokens: seq<Word>, x: real, n: nat)
    requires Divides(tokens, x) && n <= |tokens|
    requires forall i | n <= i < |tokens| :: tokens[i].Mid() >= x
    ensures Parts(tokens, x, BisectLeft(tokens, x))
    decreases n
  {
    if n > 0 && tokens[n - 1].Mid() >= x {
      DividedMeansParted(tokens, x, n - 1);
    } else {
      assert Parts(tokens, x, n);
      BisectFindsTheParting(tokens, x, 0, |tokens|, n);
    }
  }

  // ---------------------------------------------------------------- rows from the lane's own segments

  lemma SegmentBoundariesDivide(windows: seq<Window>, tokens: seq<Word>, k: nat)
    requires InOrder(windows) && Placed(windows, tokens) && k < |windows|
    ensures Divides(tokens, windows[k].start) && Divides(tokens, windows[k].end)
  {
    forall i, j | 0 <= i < j < |tokens|
      ensures tokens[j].Mid() < windows[k].start ==> tokens[i].Mid() < windows[k].start
      ensures tokens[j].Mid() < windows[k].end ==> tokens[i].Mid() < windows[k].end
    {
      var a :| 0 <= a < |windows| && windows[a].Keeps(tokens[i]);
      var b :| 0 <= b < |windows| && windows[b].Keeps(tokens[j]);
      assert tokens[i].start <= tokens[j].start;
      assert a <= b;
      if b < k { assert windows[b].end <= windows[k].start; }
      if k < b { assert windows[k].end <= windows[b].start; }
      if a < b { assert windows[a].end <= windows[b].start; }
    }
  }

  function Slice(tokens: seq<Word>, left: nat, right: nat): seq<Word>
    requires left <= |tokens| && right <= |tokens|
  {
    if left <= right then tokens[left..right] else []
  }

  /** The words of one row. */
  function RowOf(window: Window, tokens: seq<Word>): seq<Word> {
    Slice(tokens, BisectLeft(tokens, window.start), BisectLeft(tokens, window.end))
  }

  function Within(window: Window, tokens: seq<Word>): seq<Word> {
    if tokens == [] then []
    else Within(window, tokens[..|tokens| - 1])
         + (if window.Holds(tokens[|tokens| - 1].Mid()) then [tokens[|tokens| - 1]] else [])
  }

  lemma FrontParts(tokens: seq<Word>, x: real, p: nat, n: nat)
    requires Parts(tokens, x, p) && |tokens| == n + 1
    ensures Parts(tokens[..n], x, if p <= n then p else n)
    ensures tokens[n].Mid() < x <==> p == n + 1
  {
    assert forall i | 0 <= i < n :: tokens[..n][i] == tokens[i];
  }

  lemma {:induction false} PartedWindow(window: Window, tokens: seq<Word>, p: nat, q: nat)
    requires window.start <= window.end
    requires Parts(tokens, window.start, p) && Parts(tokens, window.end, q)
    ensures p <= q && Within(window, tokens) == tokens[p..q]
    decreases |tokens|
  {
    if tokens != [] {
      var n := |tokens| - 1;
      var p', q' := if p <= n then p else n, if q <= n then q else n;
      FrontParts(tokens, window.start, p, n);
      FrontParts(tokens, window.end, q, n);
      PartedWindow(window, tokens[..n], p', q');
      if p == n + 1 {
        assert q == n + 1 && tokens[p..q] == [];
      } else if q == n + 1 {
        assert tokens[p..q] == tokens[..n][p..n] + [tokens[n]];
      } else {
        assert tokens[p..q] == tokens[..n][p..q];
      }
    }
  }

  /** The row of a segment is exactly its words by midpoint, in order: midpoints need not be sorted for that. */
  lemma SegmentRowIsItsFilter(windows: seq<Window>, tokens: seq<Word>, k: nat)
    requires InOrder(windows) && Placed(windows, tokens) && k < |windows|
    ensures RowOf(windows[k], tokens) == Within(windows[k], tokens)
  {
    SegmentBoundariesDivide(windows, tokens, k);
    DividedMeansParted(tokens, windows[k].start, |tokens|);
    DividedMeansParted(tokens, windows[k].end, |tokens|);
    PartedWindow(windows[k], tokens, BisectLeft(tokens, windows[k].start), BisectLeft(tokens, windows[k].end));
  }

  /** All rows of a lane one after the other. */
  function Rows(windows: seq<Window>, tokens: seq<Word>): seq<Word> {
    if windows == [] then []
    else Rows(windows[..|windows| - 1], tokens) + RowOf(windows[|windows| - 1], tokens)
  }

  /** Each midpoint lies inside some segment, so between the first start and the last end and in no gap. */
  lemma MidpointsAvoidGaps(windows: seq<Window>, w: Word, k: nat)
    requires InOrder(windows) && k < |windows| && exists a | 0 <= a < |windows| :: windows[a].Keeps(w)
    ensures windows[0].start <= w.Mid() < windows[|windows| - 1].end
    ensures k > 0 ==> (w.Mid() < windows[k].start <==> w.Mid() < windows[k - 1].end)
  {
    var a :| 0 <= a < |windows| && windows[a].Keeps(w);
    if a > 0 { assert windows[0].end <= windows[a].start; }
    if a < |windows| - 1 { assert windows[a].end <= windows[|windows| - 1].start; }
    if a < k - 1 { assert windows[a].end <= windows[k - 1].start; }
    if k > 0 { assert windows[k - 1].end <= windows[k].start; }
    if k < a { assert windows[k].end <= windows[a].start; }
  }

  lemma BisectAt(tokens: seq<Word>, x: real, p: nat)
    requires p <= |tokens| && Parts(tokens, x, p)
    ensures BisectLeft(tokens, x) == p
  {
    BisectFindsTheParting(tokens, x, 0, |tokens|, p);
  }

  lemma FirstStartIsZero(windows: seq<Window>, tokens: seq<Word>)
    requires InOrder(windows) && Placed(windows, tokens) && windows != []
    ensures BisectLeft(tokens, windows[0].start) == 0
  {
    forall i | 0 <= i < |tokens|
      ensures windows[0].start <= tokens[i].Mid()
    {
      MidpointsAvoidGaps(windows, tokens[i], 0);
    }
    BisectAt(tokens, windows[0].start, 0);
  }

  lemma LastEndIsTheEnd(windows: seq<Window>, tokens: seq<Word>)
    requires InOrder(windows) && Placed(windows, tokens) && windows != []
    ensures BisectLeft(tokens, windows[|windows| - 1].end) == |tokens|
  {
    forall i | 0 <= i < |tokens|
      ensures tokens[i].Mid() < windows[|windows| - 1].end
    {
      MidpointsAvoidGaps(windows, tokens[i], 0);
    }
    BisectAt(tokens, windows[|windows| - 1].end, |tokens|);
  }

  lemma StartMeetsPreviousEnd(windows: seq<Window>, tokens: seq<Word>, k: nat)
    requires InOrder(windows) && Placed(windows, tokens) && 0 < k < |windows|
    ensures BisectLeft(tokens, windows[k].start) == BisectLeft(tokens, windows[k - 1].end)
  {
    SegmentBoundariesDivide(windows, tokens, k - 1);
    DividedMeansParted(tokens, windows[k - 1].end, |tokens|);
    var p := BisectLeft(tokens, windows[k - 1].end);
    forall i | 0 <= i < |tokens|
      ensures tokens[i].Mid() < windows[k].start <==> tokens[i].Mid() < windows[k - 1].end
    {
      MidpointsAvoidGaps(windows, tokens[i], k);
    }
    BisectAt(tokens, windows[k].start, p);
  }

  lemma EndMeetsNextStart(windows: seq<Window>, tokens: seq<Word>, k: nat)
    requires InOrder(windows) && Placed(windows, tokens) && k < |windows|
    ensures k == 0 ==> BisectLeft(tokens, windows[0].start) == 0
    ensures k > 0 ==> BisectLeft(tokens, windows[k].start) == BisectLeft(tokens, windows[k - 1].end)
    ensures k == |windows| - 1 ==> BisectLeft(tokens, windows[k].end) == |tokens|
  {
    FirstStartIsZero(windows, tokens);
    LastEndIsTheEnd(windows, tokens);
    if k > 0 { StartMeetsPreviousEnd(windows, tokens, k); }
  }

  lemma RowIsASlice(windows: seq<Window>, tokens: seq<Word>, k: nat)
    requires InOrder(windows) && Placed(windows, tokens) && k < |windows|
    ensures var p, q := BisectLeft(tokens, windows[k].start), BisectLeft(tokens, windows[k].end);
      p <= q && RowOf(windows[k], tokens) == tokens[p..q]
  {
    SegmentBoundariesDivide(windows, tokens, k);
    DividedMeansParted(tokens, windows[k].start, |tokens|);
    DividedMeansParted(tokens, windows[k].end, |tokens|);
    PartedWindow(windows[k], tokens, BisectLeft(tokens, windows[k].start), BisectLeft(tokens, windows[k].end));
  }

  /** Row k takes up where row k - 1 stopped. */
  lemma RowExtendsPrefix(windows: seq<Window>, tokens: seq<Word>, k: nat)
    requires InOrder(windows) && Placed(windows, tokens) && k < |windows|
    ensures var stopped := if k == 0 then 0 else BisectLeft(tokens, windows[k - 1].end);
      tokens[..stopped] + RowOf(windows[k], tokens) == tokens[..BisectLeft(tokens, windows[k].end)]
  {
    EndMeetsNextStart(windows, tokens, k);
    RowIsASlice(windows, tokens, k);
  }

  lemma RowsSnoc(windows: seq<Window>, tokens: seq<Word>, k: nat)
    requires k < |windows|
    ensures Rows(windows[..k + 1], tokens) == Rows(windows[..k], tokens) + RowOf(windows[k], tokens)
  {
    assert windows[..k + 1][..k] == windows[..k];
  }

  lemma {:induction false} RowsReachTheEnd(windows: seq<Window>, tokens: seq<Word>, k: nat)
    requires InOrder(windows) && Placed(windows, tokens) && k < |windows|
    ensures Rows(windows[..k + 1], tokens) == tokens[..BisectLeft(tokens, windows[k].end)]
  {
    RowsSnoc(windows, tokens, k);
    if k > 0 { RowsReachTheEnd(windows, tokens, k - 1); }
    RowExtendsPrefix(windows, tokens, k);
  }

  lemma LastRowReachesTheEnd(windows: seq<Window>, tokens: seq<Word>)
    requires InOrder(windows) && Placed(windows, tokens) && windows != []
    ensures Rows(windows, tokens) == tokens
  {
    var k := |windows| - 1;
    EndMeetsNextStart(windows, tokens, k);
    RowsReachTheEnd(windows, tokens, k);
    assert windows[..k + 1] == windows;
    assert tokens[..|tokens|] == tokens;
  }

  /** Conservation: the rows of a lane, one after the other, are exactly its tokens. No word is lost, duplicated or
      moved, whatever the recogniser heard inside the segments. */
  lemma RowsSpellTheLane(windows: seq<Window>, tokens: seq<Word>)
    requires InOrder(windows) && Placed(windows, tokens)
    ensures Rows(windows, tokens) == tokens
  {
    if tokens != [] {
      var k :| 0 <= k < |windows| && windows[k].Keeps(tokens[0]);
    }
    if windows != [] {
      LastRowReachesTheEnd(windows, tokens);
    }
  }

  // ---------------------------------------------------------------- the grouping loop

  datatype Candidate = Candidate(lane: nat, window: Window, words: seq<Word>)

  datatype Grouping = Grouped(candidates: seq<Candidate>) | NoWordsInSegments(lane: nat)

  function WordsOf(candidates: seq<Candidate>): seq<Word> {
    if candidates == [] then [] else WordsOf(candidates[..|candidates| - 1]) + candidates[|candidates| - 1].words
  }

  lemma WordsSnoc(candidates: seq<Candidate>, c: Candidate)
    ensures WordsOf(candidates + [c]) == WordsOf(candidates) + c.words
  {
    assert (candidates + [c])[..|candidates|] == candidates;
  }

  ghost predicate StrictlyByStart(candidates: seq<Candidate>) {
    forall i, j | 0 <= i < j < |candidates| :: candidates[i].window.start < candidates[j].window.start
  }

  ghost predicate ByStart(candidates: seq<Candidate>) {
    forall i, j | 0 <= i < j < |candidates| :: candidates[i].window.start <= candidates[j].window.start
  }

  /** Rows of one lane, each the filter of its segment, taken from the first k segments. */
  ghost predicate RowsOfLane(lane: nat, windows: seq<Window>, tokens: seq<Word>, k: nat, candidates: seq<Candidate>) {
    forall i | 0 <= i < |candidates| ::
      && candidates[i].lane == lane && candidates[i].words == Within(candidates[i].window, tokens)
      && exists m | 0 <= m < k && m < |windows| :: candidates[i].window == windows[m]
  }

  lemma NextRowKeepsOrder(lane: nat, windows: seq<Window>, tokens: seq<Word>, k: nat, candidates: seq<Candidate>,
                          row: Candidate)
    requires InOrder(windows) && k < |windows| && row.window == windows[k]
    requires row.lane == lane && row.words == Within(row.window, tokens)
    requires StrictlyByStart(candidates) && RowsOfLane(lane, windows, tokens, k, candidates)
    ensures StrictlyByStart(candidates + [row]) && RowsOfLane(lane, windows, tokens, k + 1, candidates + [row])
  {
    forall i | 0 <= i < |candidates| ensures candidates[i].window.start < windows[k].start {
      var m :| 0 <= m < k && candidates[i].window == windows[m];
      assert windows[m].end <= windows[k].start;
    }
  }

  /** The rows of a lane that hold words, in the order of the segments. */
  function SpokenRows(lane: nat, windows: seq<Window>, tokens: seq<Word>): seq<Candidate> {
    if windows == [] then []
    else
      var n := |windows| - 1;
      var row := RowOf(windows[n], tokens);
      SpokenRows(lane, windows[..n], tokens) + (if row == [] then [] else [Candidate(lane, windows[n], row)])
  }

  /** One lane of the grouping: empty rows are dropped, and words of which no segment holds any are an error. */
  method GroupLane(lane: nat, windows: seq<Window>, tokens: seq<Word>) returns (grouping: Grouping)
    ensures grouping == if tokens != [] && SpokenRows(lane, windows, tokens) == [] then NoWordsInSegments(lane)
                        else Grouped(if tokens == [] then [] else SpokenRows(lane, windows, tokens))
  {
    if tokens == [] { return Grouped([]); }
    var candidates: seq<Candidate> := [];
    for k := 0 to |windows|
      invariant candidates == SpokenRows(lane, windows[..k], tokens)
    {
      assert windows[..k + 1][..k] == windows[..k];
      var left := BisectLeft(tokens, windows[k].start);
      var right := BisectLeft(tokens, windows[k].end);
      var row := Slice(tokens, left, right);
      if row != [] { candidates := candidates + [Candidate(lane, windows[k], row)]; }
    }
    assert windows[..|windows|] == windows;
    if candidates == [] { return NoWordsInSegments(lane); }
    return Grouped(candidates);
  }

  lemma SpokenRowsSnoc(lane: nat, windows: seq<Window>, tokens: seq<Word>, k: nat)
    requires k < |windows|
    ensures SpokenRows(lane, windows[..k + 1], tokens) == SpokenRows(lane, windows[..k], tokens)
      + (if RowOf(windows[k], tokens) == [] then [] else [Candidate(lane, windows[k], RowOf(windows[k], tokens))])
  {
    assert windows[..k + 1][..k] == windows[..k];
  }

  lemma RowsOfLaneWiden(lane: nat, windows: seq<Window>, tokens: seq<Word>, k: nat, rows: seq<Candidate>)
    requires RowsOfLane(lane, windows, tokens, k, rows)
    ensures RowsOfLane(lane, windows, tokens, k + 1, rows)
  {
    forall i | 0 <= i < |rows|
      ensures exists m | 0 <= m < k + 1 && m < |windows| :: rows[i].window == windows[m]
    {
      var m :| 0 <= m < k && m < |windows| && rows[i].window == windows[m];
      assert 0 <= m < k + 1;
    }
  }

  lemma {:induction false} SpokenRowsInOrder(lane: nat, windows: seq<Window>, tokens: seq<Word>, k: nat)
    requires InOrder(windows) && Placed(windows, tokens) && k <= |windows|
    ensures var rows := SpokenRows(lane, windows[..k], tokens);
      RowsOfLane(lane, windows, tokens, k, rows) && StrictlyByStart(rows)
  {
    if k > 0 {
      SpokenRowsInOrder(lane, windows, tokens, k - 1);
      SpokenRowsSnoc(lane, windows, tokens, k - 1);
      OneMoreInOrder(lane, windows, tokens, k - 1, SpokenRows(lane, windows[..k - 1], tokens));
    }
  }

  lemma OneMoreInOrder(lane: nat, windows: seq<Window>, tokens: seq<Word>, k: nat, rows: seq<Candidate>)
    requires InOrder(windows) && Placed(windows, tokens) && k < |windows|
    requires RowsOfLane(lane, windows, tokens, k, rows) && StrictlyByStart(rows)
    ensures var row := RowOf(windows[k], tokens);
      var more := rows + (if row == [] then [] else [Candidate(lane, windows[k], row)]);
      RowsOfLane(lane, windows, tokens, k + 1, more) && StrictlyByStart(more)
  {
    var row := RowOf(windows[k], tokens);
    if row == [] {
      RowsOfLaneWiden(lane, windows, tokens, k, rows);
      assert rows + [] == rows;
    } else {
      SegmentRowIsItsFilter(windows, tokens, k);
      NextRowKeepsOrder(lane, windows, tokens, k, rows, Candidate(lane, windows[k], row));
    }
  }

  lemma {:induction false} SpokenRowsAreTheRows(lane: nat, windows: seq<Window>, tokens: seq<Word>)
    ensures WordsOf(SpokenRows(lane, windows, tokens)) == Rows(windows, tokens)
  {
    if windows != [] {
      var n := |windows| - 1;
      SpokenRowsAreTheRows(lane, windows[..n], tokens);
      var rows, row := SpokenRows(lane, windows[..n], tokens), RowOf(windows[n], tokens);
      if row == [] {
        assert SpokenRows(lane, windows, tokens) == rows;
      } else {
        WordsSnoc(rows, Candidate(lane, windows[n], row));
      }
    }
  }

  /** For words that the segments kept the grouping never fails: its rows, in strictly rising order, are their
      segments' words by midpoint and together spell the lane. */
  lemma SpokenRowsSpellTheLane(lane: nat, windows: seq<Window>, tokens: seq<Word>)
    requires InOrder(windows) && Placed(windows, tokens)
    ensures var rows := SpokenRows(lane, windows, tokens);
      && WordsOf(rows) == tokens && (tokens != [] ==> rows != [])
      && RowsOfLane(lane, windows, tokens, |windows|, rows) && StrictlyByStart(rows)
  {
    assert windows[..|windows|] == windows;
    SpokenRowsInOrder(lane, windows, tokens, |windows|);
    SpokenRowsAreTheRows(lane, windows, tokens);
    RowsSpellTheLane(windows, tokens);
  }

  // ---------------------------------------------------------------- the order of the draft

  function OfLane(candidates: seq<Candidate>, lane: nat): seq<Candidate> {
    if candidates == [] then []
    else OfLane(candidates[..|candidates| - 1], lane)
         + (if candidates[|candidates| - 1].lane == lane then [candidates[|candidates| - 1]] else [])
  }

  lemma {:induction false} OfLaneSplits(a: seq<Candidate>, b: seq<Candidate>, lane: nat)
    ensures OfLane(a + b, lane) == OfLane(a, lane) + OfLane(b, lane)
  {
    if b == [] {
      assert a + b == a;
    } else {
      var n := |b| - 1;
      assert (a + b)[..|a + b| - 1] == a + b[..n];
      OfLaneSplits(a, b[..n], lane);
    }
  }

  lemma {:induction false} SpokenRowsAreOfTheirLane(lane: nat, windows: seq<Window>, tokens: seq<Word>, other: nat)
    ensures OfLane(SpokenRows(lane, windows, tokens), other) ==
      if other == lane then SpokenRows(lane, windows, tokens) else []
  {
    if windows != [] {
      var n := |windows| - 1;
      var row := RowOf(windows[n], tokens);
      SpokenRowsAreOfTheirLane(lane, windows[..n], tokens, other);
      OfLaneSplits(SpokenRows(lane, windows[..n], tokens),
                   if row == [] then [] else [Candidate(lane, windows[n], row)], other);
    }
  }

  lemma {:induction false} OfLaneCounts(candidates: seq<Candidate>, lane: nat, c: Candidate)
    ensures multiset(OfLane(candidates, lane))[c] == if c.lane == lane then multiset(candidates)[c] else 0
  {
    if candidates != [] {
      assert candidates == candidates[..|candidates| - 1] + [candidates[|candidates| - 1]];
      OfLaneCounts(candidates[..|candidates| - 1], lane, c);
    }
  }

  lemma {:induction false} OfLaneKeepsOrder(candidates: seq<Candidate>, lane: nat, late: real)
    requires ByStart(candidates) && forall i | 0 <= i < |candidates| :: candidates[i].window.start <= late
    ensures ByStart(OfLane(candidates, lane))
    ensures forall i | 0 <= i < |OfLane(candidates, lane)| :: OfLane(candidates, lane)[i].window.start <= late
  {
    if candidates != [] {
      var front, c := candidates[..|candidates| - 1], candidates[|candidates| - 1];
      assert forall i | 0 <= i < |front| :: front[i] == candidates[i];
      OfLaneKeepsOrder(front, lane, c.window.start);
    }
  }

  lemma FrontMultiset(a: seq<Candidate>)
    requires a != []
    ensures multiset(a[..|a| - 1]) == multiset(a) - multiset{a[|a| - 1]}
  {
    assert a == a[..|a| - 1] + [a[|a| - 1]];
  }

  lemma BelowTheLast(a: seq<Candidate>, j: nat)
    requires StrictlyByStart(a) && j < |a|
    ensures j == |a| - 1 || a[j].window.start < a[|a| - 1].window.start
  {
  }

  lemma LastIsLast(a: seq<Candidate>, b: seq<Candidate>)
    requires multiset(a) == multiset(b) && a != [] && b != [] && StrictlyByStart(a) && ByStart(b)
    ensures a[|a| - 1] == b[|b| - 1]
  {
    var x, y := a[|a| - 1], b[|b| - 1];
    assert x in multiset(b) && y in multiset(a);
    var i :| 0 <= i < |b| && b[i] == x;
    var j :| 0 <= j < |a| && a[j] == y;
    BelowTheLast(a, j);
    assert x.window.start <= y.window.start;
  }

  /** Sorting by start cannot reorder rows whose starts differ. */
  lemma {:induction false} SortedTheSameWay(a: seq<Candidate>, b: seq<Candidate>)
    requires multiset(a) == multiset(b) && StrictlyByStart(a) && ByStart(b)
    ensures a == b
  {
    assert |a| == |multiset(a)| == |multiset(b)| == |b|;
    if a != [] {
      LastIsLast(a, b);
      var n := |a| - 1;
      FrontMultiset(a);
      FrontMultiset(b);
      SortedTheSameWay(a[..n], b[..n]);
      assert a == a[..n] + [a[n]] && b == b[..n] + [b[n]];
    }
  }

  /** Sorting the draft by time leaves each lane's rows in order, so they still spell what they spelt, whatever the
      other lanes hold. */
  lemma DraftSpellsEveryLane(all: seq<Candidate>, sorted: seq<Candidate>, lane: nat, tokens: seq<Word>)
    requires multiset(sorted) == multiset(all) && ByStart(sorted)
    requires StrictlyByStart(OfLane(all, lane)) && WordsOf(OfLane(all, lane)) == tokens
    ensures OfLane(sorted, lane) == OfLane(all, lane) && WordsOf(OfLane(sorted, lane)) == tokens
  {
    forall c ensures multiset(OfLane(sorted, lane))[c] == multiset(OfLane(all, lane))[c] {
      OfLaneCounts(sorted, lane, c);
      OfLaneCounts(all, lane, c);
    }
    assert multiset(OfLane(sorted, lane)) == multiset(OfLane(all, lane));
    if sorted != [] { OfLaneKeepsOrder(sorted, lane, sorted[|sorted| - 1].window.start); }
    SortedTheSameWay(OfLane(all, lane), OfLane(sorted, lane));
  }

  // ---------------------------------------------------------------- rows the client preserved

  ghost predicate MidSorted(tokens: seq<Word>) {
    forall i, j | 0 <= i < j < |tokens| :: tokens[i].Mid() <= tokens[j].Mid()
  }

  lemma {:induction false} WithinSplits(window: Window, a: seq<Word>, b: seq<Word>)
    ensures Within(window, a + b) == Within(window, a) + Within(window, b)
  {
    if b == [] {
      assert a + b == a;
    } else {
      assert (a + b)[..|a + b| - 1] == a + b[..|b| - 1];
      WithinSplits(window, a, b[..|b| - 1]);
    }
  }

  lemma {:induction false} WithinKeepsHeld(window: Window, tokens: seq<Word>)
    ensures forall w | w in Within(window, tokens) :: window.Holds(w.Mid())
    ensures forall w | w in tokens && window.Holds(w.Mid()) :: w in Within(window, tokens)
    ensures |Within(window, tokens)| <= |tokens|
  {
    if tokens != [] {
      assert tokens == tokens[..|tokens| - 1] + [tokens[|tokens| - 1]];
      WithinKeepsHeld(window, tokens[..|tokens| - 1]);
    }
  }

  lemma {:induction false} Below(tokens: seq<Word>) returns (x: real)
    ensures forall i | 0 <= i < |tokens| :: x < tokens[i].Mid()
  {
    if tokens == [] {
      x := 0.0;
    } else {
      var y := Below(tokens[..|tokens| - 1]);
      var m := tokens[|tokens| - 1].Mid();
      x := if y < m then y else m - 1.0;
    }
  }

  lemma {:induction false} AllHeld(window: Window, tokens: seq<Word>)
    requires forall w | w in tokens :: window.Holds(w.Mid())
    ensures Within(window, tokens) == tokens
  {
    if tokens != [] {
      AllHeld(window, tokens[..|tokens| - 1]);
      assert tokens == tokens[..|tokens| - 1] + [tokens[|tokens| - 1]];
    }
  }

  lemma RestIsNotHeld(window: Window, front: seq<Word>, back: seq<Word>)
    requires Within(window, front + back) == front
    ensures (forall w | w in front :: window.Holds(w.Mid())) && forall w | w in back :: !window.Holds(w.Mid())
  {
    WithinKeepsHeld(window, front + back);
    WithinSplits(window, front, back);
    AllHeld(window, front);
    assert Within(window, back) == [];
    WithinKeepsHeld(window, back);
  }

  /** A sequence that is its own filter up to q holds everything the filter selects. */
  lemma FilterStopsAt(window: Window, tokens: seq<Word>, q: nat)
    requires q <= |tokens| && Within(window, tokens) == tokens[..q]
    ensures forall i | 0 <= i < |tokens| :: window.Holds(tokens[i].Mid()) <==> i < q
  {
    var front, back := tokens[..q], tokens[q..];
    assert tokens == front + back;
    RestIsNotHeld(window, front, back);
    forall i | 0 <= i < |tokens| ensures window.Holds(tokens[i].Mid()) <==> i < q {
      if i < q { assert front[i] in front; } else { assert back[i - q] in back; }
    }
  }

  /** A row that starts before every midpoint is a prefix of the lane; if it is its filter, nothing later belongs. */
  lemma PrefixFilter(window: Window, tokens: seq<Word>)
    requires forall i | 0 <= i < |tokens| :: window.start < tokens[i].Mid()
    requires RowOf(window, tokens) == Within(window, tokens)
    ensures Divides(tokens, window.end)
  {
    assert Parts(tokens, window.start, 0);
    BisectFindsTheParting(tokens, window.start, 0, |tokens|, 0);
    FilterStopsAt(window, tokens, BisectLeft(tokens, window.end));
  }

  /** For rows with arbitrary bounds the bisected slice is the filter for every row exactly when
      midpoints are sorted. */
  lemma {:induction false} PreservedRowsAreExactIffMidpointsAreSorted(tokens: seq<Word>)
    ensures MidSorted(tokens) <==>
      forall window: Window | window.start <= window.end :: RowOf(window, tokens) == Within(window, tokens)
  {
    if MidSorted(tokens) {
      forall window: Window | window.start <= window.end ensures RowOf(window, tokens) == Within(window, tokens) {
        assert Divides(tokens, window.start) && Divides(tokens, window.end);
        DividedMeansParted(tokens, window.start, |tokens|);
        DividedMeansParted(tokens, window.end, |tokens|);
        PartedWindow(window, tokens, BisectLeft(tokens, window.start), BisectLeft(tokens, window.end));
      }
    }
    if forall window: Window | window.start <= window.end :: RowOf(window, tokens) == Within(window, tokens) {
      var low := Below(tokens);
      forall i, j | 0 <= i < j < |tokens| ensures tokens[i].Mid() <= tokens[j].Mid() {
        var window := Window(low, tokens[i].Mid());
        assert RowOf(window, tokens) == Within(window, tokens);
        PrefixFilter(window, tokens);
      }
    }
  }

  /** Midpoints are sorted when words sorted by start also end in that order. */
  lemma EndsRisingSortMidpoints(tokens: seq<Word>)
    requires forall i, j | 0 <= i < j < |tokens| :: tokens[i].start <= tokens[j].start && tokens[i].end <= tokens[j].end
    ensures MidSorted(tokens)
  {
  }

  /** A long word around a short one breaks it: the row up to second 3 takes the long word, whose midpoint is 5. */
  lemma ALongWordIsMisplaced()
    ensures var tokens := [Word(0.0, 10.0, "long"), Word(1.0, 2.0, "short")];
      var row := Window(0.0, 3.0);
      && Placed([Window(0.0, 10.0)], tokens)
      && RowOf(row, tokens) == tokens && Within(row, tokens) == [tokens[1]]
  {
    var tokens := [Word(0.0, 10.0, "long"), Word(1.0, 2.0, "short")];
    var row := Window(0.0, 3.0);
    assert tokens[0].Mid() == 5.0 && tokens[1].Mid() == 1.5;
    assert [Window(0.0, 10.0)][0].Keeps(tokens[0]) && [Window(0.0, 10.0)][0].Keeps(tokens[1]);
    assert Placed([Window(0.0, 10.0)], tokens);
    assert Bisect(tokens, 3.0, 0, 2) == 2;
    assert Bisect(tokens, 0.0, 0, 1) == 0;
    assert Bisect(tokens, 0.0, 0, 2) == 0;
    assert tokens[..1] == [tokens[0]] && tokens[..1][..0] == [];
    assert Within(row, tokens[..1]) == [];
  }
}
