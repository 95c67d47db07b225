/** What a rendered row says, mark by mark. */
module RowText {
  import opened Basics
  import opened Rendering

  /** A full stop, a question mark or an exclamation mark. */
  predicate EndsSentence(mark: string) {
    mark == "." || mark == "?" || mark == "!"
  }

  lemma TerminalLabelsEndSentences(tag: string)
    ensures Terminal(tag) <==> EndsSentence(MarkOf(tag))
  {
  }

  /** Whether word i of a row begins a sentence: the row begins one and it is the first, or the mark before it ends
      one. */
  predicate Begins(labels: seq<string>, start: bool, i: nat)
    requires i <= |labels|
  {
    if i == 0 then start else EndsSentence(MarkOf(labels[i - 1]))
  }

  lemma NextStartIsBegins(labels: seq<string>, start: bool, i: nat)
    requires i <= |labels|
    ensures NextStart(labels[..i], start) == Begins(labels, start, i)
  {
    if i > 0 { TerminalLabelsEndSentences(labels[i - 1]); }
  }

  lemma PieceOfWord(words: seq<string>, labels: seq<string>, capitalize: bool, start: bool, t: Tables, i: nat)
    requires |words| == |labels| && i < |words|
    ensures Pieces(words, labels, capitalize, start, t)[i].shown
      == (if capitalize && Begins(labels, start, i) then Capitalized(words[i], t) else words[i])
  {
    NextStartIsBegins(labels, start, i);
  }

  /** The marks of the twelve labels. */
  lemma MarksOfTheLabels()
    ensures PunctuationOf("O") == Some("") && PunctuationOf("COMMA") == Some(",")
    ensures PunctuationOf("PERIOD") == Some(".") && PunctuationOf("QUESTION") == Some("?")
    ensures PunctuationOf("EXCLAMATION") == Some("!") && PunctuationOf("COLON") == Some(":")
    ensures PunctuationOf("SEMICOLON") == Some(";") && PunctuationOf("HYPHEN_JOIN") == Some("-")
    ensures PunctuationOf("DASH_SINGLE") == Some("-") && PunctuationOf("DASH_DOUBLE") == Some("--")
    ensures PunctuationOf("ELLIPSIS") == Some("...") && PunctuationOf("DASH") == Some("-")
  {
  }

  // ---------------------------------------------------------------- acceptance

  /** Some character of the word is no blank. */
  predicate Visible(word: string, t: Tables) {
    exists c | c in word :: !t.blank(c)
  }

  /** Word i is visible, its label is one of the twelve, and showing it keeps its fold. */
  predicate WordAccepted(words: seq<string>, labels: seq<string>, capitalize: bool, start: bool, t: Tables, i: nat)
    requires |words| == |labels| && i < |words|
  {
    && Visible(words[i], t)
    && labels[i] in ["O", "COMMA", "PERIOD", "QUESTION", "EXCLAMATION", "COLON", "SEMICOLON", "HYPHEN_JOIN",
                     "DASH_SINGLE", "DASH_DOUBLE", "ELLIPSIS", "DASH"]
    && (capitalize && Begins(labels, start, i) ==> t.fold(Capitalized(words[i], t)) == t.fold(words[i]))
  }

  lemma SupportedLabels(tag: string)
    ensures PunctuationOf(tag).Some? <==>
      tag in ["O", "COMMA", "PERIOD", "QUESTION", "EXCLAMATION", "COLON", "SEMICOLON", "HYPHEN_JOIN",
              "DASH_SINGLE", "DASH_DOUBLE", "ELLIPSIS", "DASH"]
  {
  }

  /** The fault of a row is that of its first faulty word. */
  lemma {:induction false} FaultIsTheFirst(words: seq<string>, labels: seq<string>, t: Tables)
    requires |words| == |labels|
    ensures Fault(words, labels, t) == None <==>
      forall i | 0 <= i < |words| :: FaultOf(words[i], labels[i], t) == None
    ensures Fault(words, labels, t).Some? ==>
      exists i | 0 <= i < |words| ::
        && FaultOf(words[i], labels[i], t) == Fault(words, labels, t)
        && forall j | 0 <= j < i :: FaultOf(words[j], labels[j], t) == None
    decreases |words|
  {
    if words != [] {
      var n := |words| - 1;
      FaultIsTheFirst(words[..n], labels[..n], t);
      assert forall i | 0 <= i < n :: words[..n][i] == words[i] && labels[..n][i] == labels[i];
      if Fault(words[..n], labels[..n], t) == None {
        assert FaultOf(words[n], labels[n], t) == Fault(words, labels, t);
      } else {
        var i :| 0 <= i < n && FaultOf(words[..n][i], labels[..n][i], t) == Fault(words[..n], labels[..n], t)
          && forall j | 0 <= j < i :: FaultOf(words[..n][j], labels[..n][j], t) == None;
        assert FaultOf(words[i], labels[i], t) == Fault(words, labels, t);
        forall j | 0 <= j < i ensures FaultOf(words[j], labels[j], t) == None {
          assert FaultOf(words[..n][j], labels[..n][j], t) == None;
        }
      }
    }
  }

  /** A row is accepted exactly when there is a label for each word and every word is accepted. */
  lemma RowsAreAcceptedWordByWord(words: seq<string>, labels: seq<string>, capitalize: bool, start: bool, t: Tables)
    ensures Applied(words, labels, capitalize, start, t).Ok? <==>
      |words| == |labels| && forall i: nat | i < |words| :: WordAccepted(words, labels, capitalize, start, t, i)
  {
    if |words| == |labels| {
      FaultIsTheFirst(words, labels, t);
      var shown := Shown(Pieces(words, labels, capitalize, start, t));
      forall i: nat | i < |words|
        ensures FaultOf(words[i], labels[i], t) == None && t.fold(shown[i]) == t.fold(words[i]) <==>
          WordAccepted(words, labels, capitalize, start, t, i)
        ensures Signature(shown, t)[i] == t.fold(shown[i]) && Signature(words, t)[i] == t.fold(words[i])
      {
        PieceOfWord(words, labels, capitalize, start, t, i);
        SupportedLabels(labels[i]);
      }
      if forall i: nat | i < |words| :: WordAccepted(words, labels, capitalize, start, t, i) {
        assert Signature(shown, t) == Signature(words, t);
      }
    }
  }

  /** The first word that is blank or has an unknown label decides the error of a row. */
  lemma TheFirstFaultIsRaised(words: seq<string>, labels: seq<string>, capitalize: bool, start: bool, t: Tables, i: nat)
    requires |words| == |labels| && i < |words|
    requires forall j | 0 <= j < i :: FaultOf(words[j], labels[j], t) == None
    ensures !Visible(words[i], t) ==>
      Applied(words, labels, capitalize, start, t) == Err(BlankWord)
    ensures Visible(words[i], t) && PunctuationOf(labels[i]) == None ==>
      Applied(words, labels, capitalize, start, t) == Err(UnsupportedLabel(labels[i]))
  {
    FaultIsTheFirst(words, labels, t);
    if FaultOf(words[i], labels[i], t).Some? {
      var k :| 0 <= k < |words| && FaultOf(words[k], labels[k], t) == Fault(words, labels, t)
        && forall j | 0 <= j < k :: FaultOf(words[j], labels[j], t) == None;
      assert k == i;
    }
  }

  // ---------------------------------------------------------------- the text

  /** Python's `upper` of a character is never empty. */
  ghost predicate UpperShows(t: Tables) {
    forall c: char :: t.upper(c) != ""
  }

  lemma {:induction false} ShownIsSomething(word: string, t: Tables)
    requires UpperShows(t) && word != ""
    ensures Capitalized(word, t) != ""
  {
  }

  lemma FrontWordAccepted(words: seq<string>, labels: seq<string>, word: string, tag: string, start: bool, t: Tables,
                          i: nat)
    requires |words| == |labels| && i < |words|
    requires WordAccepted(words + [word], labels + [tag], true, start, t, i)
    ensures WordAccepted(words, labels, true, start, t, i)
  {
    assert (words + [word])[i] == words[i] && (labels + [tag])[i] == labels[i];
    assert Begins(labels + [tag], start, i) == Begins(labels, start, i);
  }

  lemma AcceptedFront(words: seq<string>, labels: seq<string>, word: string, tag: string, start: bool, t: Tables)
    requires |words| == |labels| && Applied(words + [word], labels + [tag], true, start, t).Ok?
    ensures Applied(words, labels, true, start, t).Ok?
  {
    RowsAreAcceptedWordByWord(words + [word], labels + [tag], true, start, t);
    RowsAreAcceptedWordByWord(words, labels, true, start, t);
    forall i: nat | i < |words| ensures WordAccepted(words, labels, true, start, t, i) {
      FrontWordAccepted(words, labels, word, tag, start, t, i);
    }
  }

  lemma GlueIsSomething(before: seq<Piece>, p: Piece)
    requires p.shown != ""
    ensures Glue(before + [p]) != ""
  {
    GlueOfOneMore(before, p);
    var text, gap := Glue(before), Gap(before);
    assert |text + gap + p.shown + p.mark| == |text| + |gap| + |p.shown| + |p.mark|;
  }

  lemma LastPieceShows(words: seq<string>, labels: seq<string>, start: bool, t: Tables)
    requires UpperShows(t) && words != [] && |words| == |labels|
    requires WordAccepted(words, labels, true, start, t, |words| - 1)
    ensures Pieces(words, labels, true, start, t)[|words| - 1].shown != ""
  {
    var n := |words| - 1;
    assert words[n] != "";
    PieceOfWord(words, labels, true, start, t, n);
    ShownIsSomething(words[n], t);
  }

  lemma AcceptedShowsSomething(words: seq<string>, labels: seq<string>, start: bool, t: Tables)
    requires UpperShows(t) && words != [] && Applied(words, labels, true, start, t).Ok?
    ensures Applied(words, labels, true, start, t).value.0 != ""
  {
    RowsAreAcceptedWordByWord(words, labels, true, start, t);
    LastPieceShows(words, labels, start, t);
    var pieces, n := Pieces(words, labels, true, start, t), |words| - 1;
    assert pieces == pieces[..n] + [pieces[n]];
    GlueIsSomething(pieces[..n], pieces[n]);
  }

  /** A row without words has no text and changes nothing. */
  lemma EmptyRowsReadEmpty(capitalize: bool, start: bool, t: Tables)
    ensures Applied([], [], capitalize, start, t) == Ok(("", start))
  {
    assert Pieces([], [], capitalize, start, t) == [];
  }

  /** One more word adds to a row's text: a space, unless it is the first or joined by a hyphen; the word, capitalized
      if it begins a sentence; its mark. */
  lemma OneMoreWordReads(words: seq<string>, labels: seq<string>, word: string, tag: string, start: bool, t: Tables)
    requires |words| == |labels| && UpperShows(t) && Applied(words + [word], labels + [tag], true, start, t).Ok?
    ensures Applied(words, labels, true, start, t).Ok?
    ensures var (text, next) := Applied(words + [word], labels + [tag], true, start, t).value;
      var gap := if words == [] || labels[|labels| - 1] == "HYPHEN_JOIN" then "" else " ";
      && text == Applied(words, labels, true, start, t).value.0 + gap
                 + (if Begins(labels, start, |labels|) then Capitalized(word, t) else word) + MarkOf(tag)
      && next == EndsSentence(MarkOf(tag))
  {
    AcceptedFront(words, labels, word, tag, start, t);
    var n, w, l := |words|, words + [word], labels + [tag];
    assert w[..n] == words && l[..n] == labels && w[..n + 1] == w && l[..n + 1] == l;
    RowOfOneMore(w, l, true, start, t, n);
    NextStartIsBegins(l, start, n);
    TerminalLabelsEndSentences(tag);
    if words != [] { AcceptedShowsSomething(words, labels, start, t); }
  }

  /** Across the rows of an accepted lane a word is capitalized exactly when it is the lane's first or the mark before
      it ends a sentence. */
  lemma LanesCapitalizeSentences(rows: seq<seq<string>>, labels: seq<seq<string>>, t: Tables, p: nat)
    requires CountsMatch(rows, labels) && p < |Flat(rows)|
    ensures |Flat(labels)| == |Flat(rows)|
    ensures var all := Flat(seq(|rows|, k requires 0 <= k < |rows| => RowPieces(rows, labels, t, k)));
      && |all| == |Flat(rows)|
      && all[p].shown == if p == 0 || EndsSentence(MarkOf(Flat(labels)[p - 1])) then Capitalized(Flat(rows)[p], t)
                         else Flat(rows)[p]
  {
    RowPiecesAreTheLanes(rows, labels, t);
    PieceOfWord(Flat(rows), Flat(labels), true, true, t, p);
  }
}
