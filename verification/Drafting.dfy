/** From the activity of a track to the text of its rows: segmentation, placement and rendering together. */
module Drafting {
  import opened Basics
  import Activity
  import Segments
  import Words
  import Rendering

  /** A track as segmentation sees it, and the settings it is given. */
  datatype Track = Track(raw: seq<bool>, bridgeFrames: nat, minimumFrames: nat, silenceFrames: nat,
                         frameSamples: nat, frameCount: nat, padding: nat, rate: nat) {
    predicate Usable() {
      silenceFrames > 0 && rate > 0 && Segments.Matches(|raw|, frameSamples, frameCount)
    }

    /** What `segment_track` returns. */
    function Pieces(): seq<Segments.Segment> {
      Segments.SegmentsOfTrack(raw, bridgeFrames, minimumFrames, silenceFrames, frameSamples, frameCount, padding)
    }

    /** `start_seconds` and `end_seconds` of each. */
    function Windows(): seq<Words.Window>
      requires rate > 0
    {
      seq(|Pieces()|, k requires 0 <= k < |Pieces()| =>
        Words.Window(Pieces()[k].start as real / rate as real, Pieces()[k].end as real / rate as real))
    }
  }

  lemma SecondsKeepOrder(a: int, b: int, rate: nat)
    requires rate > 0 && a <= b
    ensures a as real / rate as real <= b as real / rate as real
    ensures a < b ==> a as real / rate as real < b as real / rate as real
  {
    var x, y, r := a as real, b as real, rate as real;
    assert x / r - y / r == (x - y) / r;
  }

  /** The segments of a track, in seconds, are nonempty, in order and disjoint. */
  lemma SegmentsStandInOrder(track: Track)
    requires track.Usable()
    ensures Words.InOrder(track.Windows())
  {
    var activity := Activity.Smooth(track.raw, track.bridgeFrames, track.minimumFrames);
    var windows, pieces := track.Windows(), track.Pieces();
    if plan: Segments.Plan :| Segments.PlanOf(activity, track.silenceFrames) == Some(plan) {
      Segments.PlanFits(activity, track.silenceFrames);
      forall k | 0 <= k < |windows|
        ensures windows[k].start < windows[k].end
      {
        Segments.SegmentShape(activity, track.silenceFrames, plan, track.frameSamples, track.frameCount,
                               track.padding, k);
        SecondsKeepOrder(pieces[k].start, pieces[k].end, track.rate);
      }
      forall i, j | 0 <= i < j < |windows|
        ensures windows[i].end <= windows[j].start
      {
        Segments.SegmentsAreDisjointAndInRange(activity, track.silenceFrames, plan, track.frameSamples,
                                               track.frameCount, track.padding, i, j);
        SecondsKeepOrder(pieces[i].end, pieces[j].start, track.rate);
      }
    }
  }

  function Surfaces(words: seq<Words.Word>): seq<string> {
    seq(|words|, i requires 0 <= i < |words| => words[i].surface)
  }

  /** The words of each spoken row. */
  function Texts(candidates: seq<Words.Candidate>): seq<seq<string>> {
    seq(|candidates|, k requires 0 <= k < |candidates| => Surfaces(candidates[k].words))
  }

  lemma {:induction false} TextsSpell(candidates: seq<Words.Candidate>)
    ensures Rendering.Flat(Texts(candidates)) == Surfaces(Words.WordsOf(candidates))
  {
    if candidates != [] {
      var n := |candidates| - 1;
      TextsSpell(candidates[..n]);
      assert Texts(candidates)[..n] == Texts(candidates[..n]);
      assert Surfaces(Words.WordsOf(candidates[..n]) + candidates[n].words)
          == Surfaces(Words.WordsOf(candidates[..n])) + Surfaces(candidates[n].words);
    }
  }

  /** The words the recogniser's segments kept reach the text of the draft: whatever was heard in the segments of the
      track, whatever labels are predicted, if the rows are accepted then reading their texts one after the other
      gives every kept word once, in order of start, up to capitalization. */
  lemma EveryKeptWordIsInTheDraft(
    track: Track, heard: seq<seq<Words.Word>>, tokens: seq<Words.Word>, lane: nat, labels: seq<seq<string>>,
    t: Rendering.Tables)
    requires track.Usable() && |heard| == |track.Windows()|
    requires multiset(tokens) == multiset(Words.Kept(track.Windows(), heard))
    requires forall i, j | 0 <= i < j < |tokens| :: tokens[i].start <= tokens[j].start
    requires Rendering.SaneTables(t) && forall i | 0 <= i < |tokens| :: Rendering.Clean(tokens[i].surface, t)
    requires |labels| == |Words.SpokenRows(lane, track.Windows(), tokens)|
    requires Rendering.Formatted(Texts(Words.SpokenRows(lane, track.Windows(), tokens)), labels, t).Ok?
    ensures var rows := Texts(Words.SpokenRows(lane, track.Windows(), tokens));
      Rendering.SameWords(Rendering.AllTokens(Rendering.Formatted(rows, labels, t).value.0, t), Surfaces(tokens), t)
  {
    SegmentsStandInOrder(track);
    Words.SortedKeptWordsArePlaced(track.Windows(), heard, tokens);
    Words.SpokenRowsSpellTheLane(lane, track.Windows(), tokens);
    var candidates := Words.SpokenRows(lane, track.Windows(), tokens);
    TextsSpell(candidates);
    Rendering.LanesAreLossless(Texts(candidates), labels, t);
  }

  // ---------------------------------------------------------------- both lanes, sorted by time

  /** What is known of one lane: its track, what was heard in its segments, its tokens and the predicted labels. */
  datatype LaneWork = LaneWork(track: Track, heard: seq<seq<Words.Word>>, tokens: seq<Words.Word>,
                               labels: seq<seq<string>>)
  {
    ghost predicate Kept()
    {
      && track.Usable() && |heard| == |track.Windows()|
      && multiset(tokens) == multiset(Words.Kept(track.Windows(), heard))
      && forall i, j | 0 <= i < j < |tokens| :: tokens[i].start <= tokens[j].start
    }

    function Rows(lane: nat): seq<Words.Candidate>
      requires track.Usable()
    {
      Words.SpokenRows(lane, track.Windows(), tokens)
    }

    /** The label model gave labels that are accepted. */
    ghost predicate Labelled(lane: nat, t: Rendering.Tables)
      requires track.Usable()
    {
      |labels| == |Rows(lane)| && Rendering.Formatted(Texts(Rows(lane)), labels, t).Ok?
    }

    /** The text of each row. */
    ghost function Rendered(lane: nat, t: Rendering.Tables): (texts: seq<string>)
      requires track.Usable() && Labelled(lane, t)
      ensures |texts| == |Rows(lane)|
    {
      Rendering.AcceptedRows(Texts(Rows(lane)), labels, t);
      Rendering.Formatted(Texts(Rows(lane)), labels, t).value.0
    }
  }

  /** A row's id is a digest of its lane and bounds. */
  datatype RowId = RowId(lane: nat, window: Words.Window)

  function Id(c: Words.Candidate): RowId {
    RowId(c.lane, c.window)
  }

  /** The dictionary `formatted`, filled row by row. */
  function Dictionary(rows: seq<Words.Candidate>, texts: seq<string>): map<RowId, string>
    requires |rows| == |texts|
  {
    if rows == [] then map[]
    else
      var n := |rows| - 1;
      Dictionary(rows[..n], texts[..n])[Id(rows[n]) := texts[n]]
  }

  predicate DistinctRows(rows: seq<Words.Candidate>) {
    forall i, j | 0 <= i < j < |rows| :: Id(rows[i]) != Id(rows[j])
  }

  lemma {:induction false} DictionaryHoldsEveryText(rows: seq<Words.Candidate>, texts: seq<string>, k: nat)
    requires |rows| == |texts| && DistinctRows(rows) && k < |rows|
    ensures Id(rows[k]) in Dictionary(rows, texts) && Dictionary(rows, texts)[Id(rows[k])] == texts[k]
  {
    var n := |rows| - 1;
    if k < n { DictionaryHoldsEveryText(rows[..n], texts[..n], k); }
  }

  /** The texts of some rows of the draft, in their order. */
  function TextsIn(formatted: map<RowId, string>, rows: seq<Words.Candidate>): seq<string>
    requires forall i | 0 <= i < |rows| :: Id(rows[i]) in formatted
  {
    seq(|rows|, i requires 0 <= i < |rows| => formatted[Id(rows[i])])
  }

  lemma TwoLanesAreDistinct(first: seq<Words.Candidate>, second: seq<Words.Candidate>)
    requires Words.StrictlyByStart(first) && Words.StrictlyByStart(second)
    requires (forall i | 0 <= i < |first| :: first[i].lane == 0) && forall i | 0 <= i < |second| :: second[i].lane == 1
    ensures DistinctRows(first + second)
  {
  }

  predicate HasTexts(formatted: map<RowId, string>, rows: seq<Words.Candidate>, texts: seq<string>) {
    (forall i | 0 <= i < |rows| :: Id(rows[i]) in formatted) && TextsIn(formatted, rows) == texts
  }

  lemma FirstText(first: seq<Words.Candidate>, second: seq<Words.Candidate>, a: seq<string>, b: seq<string>, i: nat)
    requires |a| == |first| && |b| == |second| && DistinctRows(first + second) && i < |first|
    ensures var formatted := Dictionary(first + second, a + b);
      Id(first[i]) in formatted && formatted[Id(first[i])] == a[i]
  {
    DictionaryHoldsEveryText(first + second, a + b, i);
  }

  lemma SecondText(first: seq<Words.Candidate>, second: seq<Words.Candidate>, a: seq<string>, b: seq<string>, i: nat)
    requires |a| == |first| && |b| == |second| && DistinctRows(first + second) && i < |second|
    ensures var formatted := Dictionary(first + second, a + b);
      Id(second[i]) in formatted && formatted[Id(second[i])] == b[i]
  {
    assert (first + second)[|first| + i] == second[i] && (a + b)[|first| + i] == b[i];
    DictionaryHoldsEveryText(first + second, a + b, |first| + i);
  }

  /** The dictionary gives the rows of each lane their own texts. */
  lemma LanesHaveTheirTexts(first: seq<Words.Candidate>, second: seq<Words.Candidate>, a: seq<string>, b: seq<string>)
    requires |a| == |first| && |b| == |second| && DistinctRows(first + second)
    ensures HasTexts(Dictionary(first + second, a + b), first, a)
    ensures HasTexts(Dictionary(first + second, a + b), second, b)
  {
    var formatted := Dictionary(first + second, a + b);
    forall i | 0 <= i < |first|
      ensures Id(first[i]) in formatted && formatted[Id(first[i])] == a[i]
    {
      FirstText(first, second, a, b, i);
    }
    forall i | 0 <= i < |second|
      ensures Id(second[i]) in formatted && formatted[Id(second[i])] == b[i]
    {
      SecondText(first, second, a, b, i);
    }
  }

  lemma LaneRowsFacts(work: LaneWork, lane: nat)
    requires work.Kept()
    ensures Words.StrictlyByStart(work.Rows(lane))
    ensures forall i | 0 <= i < |work.Rows(lane)| :: work.Rows(lane)[i].lane == lane
  {
    SegmentsStandInOrder(work.track);
    Words.SortedKeptWordsArePlaced(work.track.Windows(), work.heard, work.tokens);
    Words.SpokenRowsSpellTheLane(lane, work.track.Windows(), work.tokens);
  }

  lemma LanesOfBoth(first: seq<Words.Candidate>, second: seq<Words.Candidate>)
    requires Words.OfLane(first, 0) == first && Words.OfLane(first, 1) == []
    requires Words.OfLane(second, 1) == second && Words.OfLane(second, 0) == []
    ensures Words.OfLane(first + second, 0) == first && Words.OfLane(first + second, 1) == second
  {
    Words.OfLaneSplits(first, second, 0);
    Words.OfLaneSplits(first, second, 1);
    assert first + [] == first && [] + second == second;
  }

  lemma SortedLane(all: seq<Words.Candidate>, sorted: seq<Words.Candidate>, lane: nat, rows: seq<Words.Candidate>)
    requires Words.OfLane(all, lane) == rows && Words.StrictlyByStart(rows)
    requires multiset(sorted) == multiset(all) && Words.ByStart(sorted)
    ensures Words.OfLane(sorted, lane) == rows
  {
    Words.DraftSpellsEveryLane(all, sorted, lane, Words.WordsOf(rows));
  }

  /** Reading the rows of a lane in the order of the draft gives every word kept in that lane exactly once, in order of
      start, up to capitalization. */
  ghost predicate ReadsBack(work: LaneWork, lane: nat, sorted: seq<Words.Candidate>, formatted: map<RowId, string>,
                            t: Rendering.Tables)
  {
    var mine := Words.OfLane(sorted, lane);
    && (forall i | 0 <= i < |mine| :: Id(mine[i]) in formatted)
    && Rendering.SameWords(Rendering.AllTokens(TextsIn(formatted, mine), t), Surfaces(work.tokens), t)
  }

  ghost predicate AllClean(tokens: seq<Words.Word>, t: Rendering.Tables) {
    forall i | 0 <= i < |tokens| :: Rendering.Clean(tokens[i].surface, t)
  }

  lemma LaneReadsBack(work: LaneWork, lane: nat, sorted: seq<Words.Candidate>, formatted: map<RowId, string>,
                      t: Rendering.Tables)
    requires work.Kept() && work.Labelled(lane, t) && Rendering.SaneTables(t) && AllClean(work.tokens, t)
    requires Words.OfLane(sorted, lane) == work.Rows(lane)
    requires HasTexts(formatted, work.Rows(lane), work.Rendered(lane, t))
    ensures ReadsBack(work, lane, sorted, formatted, t)
  {
    EveryKeptWordIsInTheDraft(work.track, work.heard, work.tokens, lane, work.labels, t);
  }

  /** The whole draft of two lanes: rows sorted by time, texts looked up by row id. Either lane reads back. */
  lemma TheDraftReadsBack(first: LaneWork, second: LaneWork, sorted: seq<Words.Candidate>, t: Rendering.Tables)
    requires first.Kept() && first.Labelled(0, t) && AllClean(first.tokens, t)
    requires second.Kept() && second.Labelled(1, t) && AllClean(second.tokens, t) && Rendering.SaneTables(t)
    requires multiset(sorted) == multiset(first.Rows(0) + second.Rows(1)) && Words.ByStart(sorted)
    ensures var formatted := Dictionary(first.Rows(0) + second.Rows(1), first.Rendered(0, t) + second.Rendered(1, t));
      ReadsBack(first, 0, sorted, formatted, t) && ReadsBack(second, 1, sorted, formatted, t)
  {
    LaneRowsFacts(first, 0);
    LaneRowsFacts(second, 1);
    TwoLanesAreDistinct(first.Rows(0), second.Rows(1));
    LanesHaveTheirTexts(first.Rows(0), second.Rows(1), first.Rendered(0, t), second.Rendered(1, t));
    RowsAreOfTheirLanes(first, second);
    LanesOfBoth(first.Rows(0), second.Rows(1));
    SortedLane(first.Rows(0) + second.Rows(1), sorted, 0, first.Rows(0));
    SortedLane(first.Rows(0) + second.Rows(1), sorted, 1, second.Rows(1));
    var formatted := Dictionary(first.Rows(0) + second.Rows(1), first.Rendered(0, t) + second.Rendered(1, t));
    LaneReadsBack(first, 0, sorted, formatted, t);
    LaneReadsBack(second, 1, sorted, formatted, t);
  }

  lemma RowsAreOfTheirLanes(first: LaneWork, second: LaneWork)
    requires first.track.Usable() && second.track.Usable()
    ensures Words.OfLane(first.Rows(0), 0) == first.Rows(0) && Words.OfLane(first.Rows(0), 1) == []
    ensures Words.OfLane(second.Rows(1), 1) == second.Rows(1) && Words.OfLane(second.Rows(1), 0) == []
  {
    Words.SpokenRowsAreOfTheirLane(0, first.track.Windows(), first.tokens, 0);
    Words.SpokenRowsAreOfTheirLane(0, first.track.Windows(), first.tokens, 1);
    Words.SpokenRowsAreOfTheirLane(1, second.track.Windows(), second.tokens, 1);
    Words.SpokenRowsAreOfTheirLane(1, second.track.Windows(), second.tokens, 0);
  }
}
