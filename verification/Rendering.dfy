/** Punctuation rendering: `production_text.py`. Python's case tables, folding and `isspace` are parameters. */
module Rendering {
  import opened Basics

  datatype Tables = Tables(upper: char -> string, lower: char -> string, fold: string -> string, blank: char -> bool)

  datatype Error = GroupMismatch | CountMismatch | BlankWord | UnsupportedLabel(tag: string) | SignatureChanged
  datatype Result<+T> = Ok(value: T) | Err(error: Error)

  function PunctuationOf(tag: string): Option<string> {
    match tag
    case "O" => Some("")
    case "COMMA" => Some(",")
    case "PERIOD" => Some(".")
    case "QUESTION" => Some("?")
    case "EXCLAMATION" => Some("!")
    case "COLON" => Some(":")
    case "SEMICOLON" => Some(";")
    case "HYPHEN_JOIN" => Some("-")
    case "DASH_SINGLE" => Some("-")
    case "DASH_DOUBLE" => Some("--")
    case "ELLIPSIS" => Some("...")
    case "DASH" => Some("-")
    case _ => None
  }

  predicate Terminal(tag: string) {
    tag == "PERIOD" || tag == "QUESTION" || tag == "EXCLAMATION"
  }

  /** `not word or word.isspace()`. */
  predicate Blank(word: string, t: Tables) {
    forall c | c in word :: t.blank(c)
  }

  // ---------------------------------------------------------------- capitalization

  predicate Caseless(c: char, t: Tables) {
    t.upper(c) == [c] && t.lower(c) == [c]
  }

  function Capitalized(word: string, t: Tables): string {
    if word == "" then ""
    else if Caseless(word[0], t) then [word[0]] + Capitalized(word[1..], t)
    else t.upper(word[0]) + word[1..]
  }

  /** Only the first character that has case is touched. */
  lemma {:induction false} CapitalizedTouchesTheFirstCased(word: string, t: Tables, i: nat)
    requires i < |word| && !Caseless(word[i], t) && forall j | 0 <= j < i :: Caseless(word[j], t)
    ensures Capitalized(word, t) == word[..i] + t.upper(word[i]) + word[i + 1..]
  {
    if i == 0 {
      assert word[..0] + t.upper(word[0]) == t.upper(word[0]);
    } else {
      var rest := word[1..];
      CapitalizedTouchesTheFirstCased(rest, t, i - 1);
      assert word[..i] == [word[0]] + rest[..i - 1] && word[i + 1..] == rest[i..];
      assert [word[0]] + (rest[..i - 1] + t.upper(word[i]) + rest[i..])
          == [word[0]] + rest[..i - 1] + t.upper(word[i]) + rest[i..];
    }
  }

  lemma {:induction false} CapitalizedLeavesTheCaseless(word: string, t: Tables)
    requires forall j | 0 <= j < |word| :: Caseless(word[j], t)
    ensures Capitalized(word, t) == word
  {
    if word != "" { CapitalizedLeavesTheCaseless(word[1..], t); }
  }

  /** `capitalize_token`. */
  method CapitalizeToken(word: string, t: Tables) returns (shown: string)
    ensures shown == Capitalized(word, t)
  {
    for index := 0 to |word|
      invariant forall j | 0 <= j < index :: Caseless(word[j], t)
    {
      var upper := t.upper(word[index]);
      if upper != [word[index]] {
        CapitalizedTouchesTheFirstCased(word, t, index);
        return word[..index] + upper + word[index + 1..];
      }
      if t.lower(word[index]) != [word[index]] {
        CapitalizedTouchesTheFirstCased(word, t, index);
        assert word == word[..index] + upper + word[index + 1..];
        return word;
      }
    }
    CapitalizedLeavesTheCaseless(word, t);
    return word;
  }

  // ---------------------------------------------------------------- rows as pieces

  /** A word as shown, the mark behind it, and whether the next word follows without a space. */
  datatype Piece = Piece(shown: string, mark: string, joins: bool)

  /** Whether a sentence starts after these labels. */
  function NextStart(labels: seq<string>, start: bool): bool {
    if labels == [] then start else Terminal(labels[|labels| - 1])
  }

  function MarkOf(tag: string): string {
    match PunctuationOf(tag) case Some(mark) => mark case None => ""
  }

  function ShownAs(word: string, start: bool, t: Tables): string {
    if start then Capitalized(word, t) else word
  }

  function Pieces(words: seq<string>, labels: seq<string>, capitalize: bool, start: bool, t: Tables): seq<Piece>
    requires |words| == |labels|
  {
    seq(|words|, i requires 0 <= i < |words| =>
      Piece(ShownAs(words[i], capitalize && NextStart(labels[..i], start), t), MarkOf(labels[i]),
            labels[i] == "HYPHEN_JOIN"))
  }

  /** The text of a row of pieces. */
  function Glue(pieces: seq<Piece>): string
    decreases |pieces|, 0
  {
    if pieces == [] then ""
    else
      var before, last := Glue(pieces[..|pieces| - 1]), pieces[|pieces| - 1];
      before + Gap(pieces[..|pieces| - 1]) + last.shown + last.mark
  }

  /** What separates the next piece from these. */
  function Gap(pieces: seq<Piece>): string
    decreases |pieces|, 1
  {
    if Glue(pieces) == "" || (pieces != [] && pieces[|pieces| - 1].joins) then "" else " "
  }

  /** The first word or label refused, in the order of the loop. */
  function Fault(words: seq<string>, labels: seq<string>, t: Tables): Option<Error>
    requires |words| == |labels|
  {
    if words == [] then None
    else if Fault(words[..|words| - 1], labels[..|words| - 1], t) != None
    then Fault(words[..|words| - 1], labels[..|words| - 1], t)
    else FaultOf(words[|words| - 1], labels[|words| - 1], t)
  }

  function FaultOf(word: string, tag: string, t: Tables): Option<Error> {
    if Blank(word, t) then Some(BlankWord)
    else if PunctuationOf(tag) == None then Some(UnsupportedLabel(tag))
    else None
  }

  /** `lexical_signature`, on words and on words as shown. */
  function Signature(words: seq<string>, t: Tables): seq<string> {
    seq(|words|, i requires 0 <= i < |words| => t.fold(words[i]))
  }

  function Shown(pieces: seq<Piece>): seq<string> {
    seq(|pieces|, i requires 0 <= i < |pieces| => pieces[i].shown)
  }

  /** What `apply_boundary_labels` returns or raises. */
  function Applied(words: seq<string>, labels: seq<string>, capitalize: bool, start: bool,
                   t: Tables): Result<(string, bool)> {
    if |words| != |labels| then Err(CountMismatch)
    else
      match Fault(words, labels, t)
      case Some(error) => Err(error)
      case None =>
        var pieces := Pieces(words, labels, capitalize, start, t);
        if Signature(Shown(pieces), t) != Signature(words, t) then Err(SignatureChanged)
        else Ok((Glue(pieces), NextStart(labels, start)))
  }

  // ---------------------------------------------------------------- the loop

  /** One more word extends the pieces by its own; those before stay. */
  lemma PiecesOfOneMore(words: seq<string>, labels: seq<string>, capitalize: bool, start: bool, t: Tables, n: nat)
    requires |words| == |labels| && n < |words|
    ensures Pieces(words[..n + 1], labels[..n + 1], capitalize, start, t)
         == Pieces(words[..n], labels[..n], capitalize, start, t)
            + [Piece(ShownAs(words[n], capitalize && NextStart(labels[..n], start), t), MarkOf(labels[n]),
                     labels[n] == "HYPHEN_JOIN")]
  {
    assert forall i | 0 <= i <= n :: labels[..n + 1][..i] == labels[..i];
    assert forall i | 0 <= i < n :: labels[..n][..i] == labels[..i];
  }

  lemma GlueOfOneMore(pieces: seq<Piece>, p: Piece)
    ensures Glue(pieces + [p]) == Glue(pieces) + Gap(pieces) + p.shown + p.mark
  {
    assert (pieces + [p])[..|pieces|] == pieces;
  }

  lemma FaultOfOneMore(words: seq<string>, labels: seq<string>, t: Tables, n: nat)
    requires |words| == |labels| && n < |words|
    ensures Fault(words[..n + 1], labels[..n + 1], t)
         == if Fault(words[..n], labels[..n], t) != None then Fault(words[..n], labels[..n], t)
            else FaultOf(words[n], labels[n], t)
  {
    assert words[..n + 1][..n] == words[..n] && labels[..n + 1][..n] == labels[..n];
  }

  lemma {:induction false} EarlyFaultIsTheFault(words: seq<string>, labels: seq<string>, t: Tables, n: nat)
    requires |words| == |labels| && n <= |words| && Fault(words[..n], labels[..n], t) != None
    ensures Fault(words, labels, t) == Fault(words[..n], labels[..n], t)
    decreases |words| - n
  {
    if n < |words| {
      FaultOfOneMore(words, labels, t, n);
      EarlyFaultIsTheFault(words, labels, t, n + 1);
    } else {
      assert words[..n] == words && labels[..n] == labels;
    }
  }

  lemma ShownOfOneMore(pieces: seq<Piece>, p: Piece)
    ensures Shown(pieces + [p]) == Shown(pieces) + [p.shown]
  {
  }

  /** What the loop adds for word n. */
  lemma RowOfOneMore(words: seq<string>, labels: seq<string>, capitalize: bool, start: bool, t: Tables, n: nat)
    requires |words| == |labels| && n < |words|
    ensures var row := Pieces(words[..n], labels[..n], capitalize, start, t);
      var longer := Pieces(words[..n + 1], labels[..n + 1], capitalize, start, t);
      var shown := ShownAs(words[n], capitalize && NextStart(labels[..n], start), t);
      && Glue(longer) == Glue(row) + Gap(row) + shown + MarkOf(labels[n])
      && Shown(longer) == Shown(row) + [shown]
      && Gap(row) == if Glue(row) == "" || (n > 0 && labels[n - 1] == "HYPHEN_JOIN") then "" else " "
  {
    PiecesOfOneMore(words, labels, capitalize, start, t, n);
    var row := Pieces(words[..n], labels[..n], capitalize, start, t);
    var piece := Piece(ShownAs(words[n], capitalize && NextStart(labels[..n], start), t), MarkOf(labels[n]),
                       labels[n] == "HYPHEN_JOIN");
    GlueOfOneMore(row, piece);
    ShownOfOneMore(row, piece);
  }

  /** `apply_boundary_labels`. */
  method ApplyBoundaryLabels(words: seq<string>, labels: seq<string>, capitalize: bool, sentenceStart: bool, t: Tables)
    returns (result: Result<(string, bool)>)
    ensures result == Applied(words, labels, capitalize, sentenceStart, t)
  {
    if |words| != |labels| { return Err(CountMismatch); }
    if words == [] {
      assert Pieces(words, labels, capitalize, sentenceStart, t) == [];
      return Ok(("", sentenceStart));
    }
    var before := Signature(words, t);
    var nextSentenceStart := sentenceStart;
    var displayedWords: seq<string> := [];
    var output, previousLabel := "", "";
    for n := 0 to |words|
      invariant Fault(words[..n], labels[..n], t) == None
      invariant output == Glue(Pieces(words[..n], labels[..n], capitalize, sentenceStart, t))
      invariant displayedWords == Shown(Pieces(words[..n], labels[..n], capitalize, sentenceStart, t))
      invariant nextSentenceStart == NextStart(labels[..n], sentenceStart)
      invariant n > 0 ==> previousLabel == labels[n - 1]
    {
      var word, tag := words[n], labels[n];
      FaultOfOneMore(words, labels, t, n);
      if Blank(word, t) {
        EarlyFaultIsTheFault(words, labels, t, n + 1);
        return Err(BlankWord);
      }
      var punctuation := PunctuationOf(tag);
      if punctuation == None {
        EarlyFaultIsTheFault(words, labels, t, n + 1);
        return Err(UnsupportedLabel(tag));
      }
      var displayed := word;
      if capitalize && nextSentenceStart { displayed := CapitalizeToken(word, t); }
      RowOfOneMore(words, labels, capitalize, sentenceStart, t, n);
      displayedWords := displayedWords + [displayed];
      var separator := "";
      if output != "" { separator := if previousLabel == "HYPHEN_JOIN" then "" else " "; }
      output := output + separator + displayed + punctuation.value;
      previousLabel := tag;
      nextSentenceStart := Terminal(tag);
    }
    assert words[..|words|] == words && labels[..|words|] == labels;
    if Signature(displayedWords, t) != before { return Err(SignatureChanged); }
    return Ok((output, nextSentenceStart));
  }

  // ---------------------------------------------------------------- rows of a lane

  function Flat<T>(rows: seq<seq<T>>): seq<T> {
    if rows == [] then [] else Flat(rows[..|rows| - 1]) + rows[|rows| - 1]
  }

  /** The rows one after the other, each starting a sentence or not as the one before left it. */
  function Formatted(rows: seq<seq<string>>, labels: seq<seq<string>>, t: Tables): Result<(seq<string>, bool)>
    requires |rows| == |labels|
  {
    if rows == [] then Ok(([], true))
    else
      var n := |rows| - 1;
      match Formatted(rows[..n], labels[..n], t)
      case Err(error) => Err(error)
      case Ok((texts, start)) =>
        match Applied(rows[n], labels[n], true, start, t)
        case Err(error) => Err(error)
        case Ok((text, next)) => Ok((texts + [text], next))
  }

  lemma FormattedOfOneMore(rows: seq<seq<string>>, labels: seq<seq<string>>, t: Tables, n: nat)
    requires |rows| == |labels| && n < |rows| && Formatted(rows[..n], labels[..n], t).Ok?
    ensures var so := Formatted(rows[..n], labels[..n], t).value;
      Formatted(rows[..n + 1], labels[..n + 1], t) ==
        match Applied(rows[n], labels[n], true, so.1, t)
        case Err(error) => Err(error)
        case Ok((text, next)) => Ok((so.0 + [text], next))
  {
    assert rows[..n + 1][..n] == rows[..n] && labels[..n + 1][..n] == labels[..n];
  }

  lemma {:induction false} EarlyErrorIsTheError(rows: seq<seq<string>>, labels: seq<seq<string>>, t: Tables, n: nat)
    requires |rows| == |labels| && n <= |rows| && Formatted(rows[..n], labels[..n], t).Err?
    ensures Formatted(rows, labels, t).Err?
      && Formatted(rows, labels, t).error == Formatted(rows[..n], labels[..n], t).error
    decreases |rows| - n
  {
    if n < |rows| {
      assert rows[..n + 1][..n] == rows[..n] && labels[..n + 1][..n] == labels[..n];
      EarlyErrorIsTheError(rows, labels, t, n + 1);
    } else {
      assert rows[..n] == rows && labels[..n] == labels;
    }
  }

  /** `format_lanes`. */
  method FormatLanes(rows: seq<seq<string>>, labels: seq<seq<string>>, t: Tables) returns (result: Result<seq<string>>)
    ensures |rows| != |labels| ==> result == Err(GroupMismatch)
    ensures |rows| == |labels| ==>
      match Formatted(rows, labels, t)
      case Err(error) => result == Err(error)
      case Ok((texts, _)) => result == Ok(texts)
  {
    if |rows| != |labels| { return Err(GroupMismatch); }
    var texts: seq<string> := [];
    var sentenceStart := true;
    for n := 0 to |rows|
      invariant Formatted(rows[..n], labels[..n], t) == Ok((texts, sentenceStart))
    {
      FormattedOfOneMore(rows, labels, t, n);
      var applied := ApplyBoundaryLabels(rows[n], labels[n], true, sentenceStart, t);
      match applied {
        case Err(error) =>
          EarlyErrorIsTheError(rows, labels, t, n + 1);
          return Err(error);
        case Ok((text, next)) =>
          texts := texts + [text];
          sentenceStart := next;
      }
    }
    assert rows[..|rows|] == rows && labels[..|rows|] == labels;
    return Ok(texts);
  }

  // ---------------------------------------------------------------- splitting a lane into rows changes nothing

  lemma NextStartSplits(before: seq<string>, after: seq<string>, start: bool)
    ensures NextStart(before + after, start) == NextStart(after, NextStart(before, start))
  {
    if after == [] { assert before + after == before; }
  }

  lemma PiecesSplit(a: seq<string>, b: seq<string>, la: seq<string>, lb: seq<string>, capitalize: bool,
                    start: bool, t: Tables)
    requires |a| == |la| && |b| == |lb|
    ensures Pieces(a + b, la + lb, capitalize, start, t)
         == Pieces(a, la, capitalize, start, t) + Pieces(b, lb, capitalize, NextStart(la, start), t)
  {
    var whole := Pieces(a + b, la + lb, capitalize, start, t);
    var parts := Pieces(a, la, capitalize, start, t) + Pieces(b, lb, capitalize, NextStart(la, start), t);
    forall i | 0 <= i < |whole|
      ensures whole[i] == parts[i]
    {
      if i < |a| {
        assert (la + lb)[..i] == la[..i];
      } else {
        assert (la + lb)[..i] == la + lb[..i - |a|];
        NextStartSplits(la, lb[..i - |a|], start);
      }
    }
  }

  lemma {:induction false} FaultSplits(a: seq<string>, b: seq<string>, la: seq<string>, lb: seq<string>, t: Tables)
    requires |a| == |la| && |b| == |lb|
    ensures Fault(a + b, la + lb, t) == if Fault(a, la, t) != None then Fault(a, la, t) else Fault(b, lb, t)
  {
    if b == [] {
      assert a + b == a && la + lb == la;
    } else {
      var n := |b| - 1;
      assert (a + b)[..|a + b| - 1] == a + b[..n] && (la + lb)[..|a + b| - 1] == la + lb[..n];
      FaultSplits(a, b[..n], la, lb[..n], t);
    }
  }

  lemma SignatureSplits(a: seq<string>, b: seq<string>, p: seq<Piece>, q: seq<Piece>, t: Tables)
    requires |a| == |p| && |b| == |q|
    ensures Signature(Shown(p + q), t) == Signature(a + b, t) <==>
      Signature(Shown(p), t) == Signature(a, t) && Signature(Shown(q), t) == Signature(b, t)
  {
    assert Signature(Shown(p + q), t) == Signature(Shown(p), t) + Signature(Shown(q), t);
    assert Signature(a + b, t) == Signature(a, t) + Signature(b, t);
    var x, y, u, v := Signature(Shown(p), t), Signature(Shown(q), t), Signature(a, t), Signature(b, t);
    assert (x + y)[..|x|] == x && (x + y)[|x|..] == y && (u + v)[..|u|] == u && (u + v)[|u|..] == v;
  }

  lemma AppliedSplits(a: seq<string>, b: seq<string>, la: seq<string>, lb: seq<string>, start: bool, t: Tables)
    requires |a| == |la| && |b| == |lb|
    ensures Applied(a + b, la + lb, true, start, t).Ok? <==>
      Applied(a, la, true, start, t).Ok? && Applied(b, lb, true, NextStart(la, start), t).Ok?
  {
    FaultSplits(a, b, la, lb, t);
    PiecesSplit(a, b, la, lb, true, start, t);
    SignatureSplits(a, b, Pieces(a, la, true, start, t), Pieces(b, lb, true, NextStart(la, start), t), t);
  }

  predicate CountsMatch(rows: seq<seq<string>>, labels: seq<seq<string>>) {
    |rows| == |labels| && forall k | 0 <= k < |rows| :: |rows[k]| == |labels[k]|
  }

  lemma {:induction false} FlatCounts(rows: seq<seq<string>>, labels: seq<seq<string>>)
    requires CountsMatch(rows, labels)
    ensures |Flat(rows)| == |Flat(labels)|
  {
    if rows != [] { FlatCounts(rows[..|rows| - 1], labels[..|rows| - 1]); }
  }

  /** The pieces of row k when the lane is rendered as one row. */
  function RowPieces(rows: seq<seq<string>>, labels: seq<seq<string>>, t: Tables, k: nat): seq<Piece>
    requires CountsMatch(rows, labels) && k < |rows|
  {
    Pieces(rows[k], labels[k], true, NextStart(Flat(labels[..k]), true), t)
  }

  /** The last row is rendered on from where the others end. */
  lemma LastRow(rows: seq<seq<string>>, labels: seq<seq<string>>, t: Tables, n: nat)
    requires |rows| == |labels| == n + 1
    ensures Formatted(rows, labels, t).Ok? <==>
      && Formatted(rows[..n], labels[..n], t).Ok?
      && Applied(rows[n], labels[n], true, Formatted(rows[..n], labels[..n], t).value.1, t).Ok?
  {
  }

  /** What it adds when it is accepted. */
  lemma LastRowAdds(rows: seq<seq<string>>, labels: seq<seq<string>>, t: Tables, n: nat)
    requires |rows| == |labels| == n + 1 && Formatted(rows, labels, t).Ok?
    ensures Formatted(rows[..n], labels[..n], t).Ok? && |rows[n]| == |labels[n]|
    ensures var (texts, start) := Formatted(rows[..n], labels[..n], t).value;
      Formatted(rows, labels, t).value
      == (texts + [Glue(Pieces(rows[n], labels[n], true, start, t))], NextStart(labels[n], start))
  {
  }

  lemma CountsOfOneMore(rows: seq<seq<string>>, labels: seq<seq<string>>, n: nat)
    requires |rows| == |labels| == n + 1 && CountsMatch(rows[..n], labels[..n]) && |rows[n]| == |labels[n]|
    ensures CountsMatch(rows, labels)
  {
  }

  /** What an accepted lane returns. */
  lemma {:induction false} AcceptedRows(rows: seq<seq<string>>, labels: seq<seq<string>>, t: Tables)
    requires |rows| == |labels| && Formatted(rows, labels, t).Ok?
    ensures CountsMatch(rows, labels) && |Formatted(rows, labels, t).value.0| == |rows|
    ensures Formatted(rows, labels, t).value.1 == NextStart(Flat(labels), true)
  {
    if rows != [] {
      var n := |rows| - 1;
      LastRowAdds(rows, labels, t, n);
      AcceptedRows(rows[..n], labels[..n], t);
      CountsOfOneMore(rows, labels, n);
      NextStartSplits(Flat(labels[..n]), labels[n], true);
    }
  }

  /** A lane is accepted row by row exactly when it is accepted as one row. */
  lemma {:induction false} RowsAreAcceptedAsOne(rows: seq<seq<string>>, labels: seq<seq<string>>, t: Tables)
    requires CountsMatch(rows, labels)
    ensures Formatted(rows, labels, t).Ok? <==> Applied(Flat(rows), Flat(labels), true, true, t).Ok?
  {
    if rows == [] {
      assert Pieces([], [], true, true, t) == [];
      assert Applied(Flat(rows), Flat(labels), true, true, t).Ok?;
    } else {
      var n := |rows| - 1;
      RowsAreAcceptedAsOne(rows[..n], labels[..n], t);
      LastRow(rows, labels, t, n);
      if Formatted(rows[..n], labels[..n], t).Ok? { AcceptedRows(rows[..n], labels[..n], t); }
      FlatCounts(rows[..n], labels[..n]);
      AppliedSplits(Flat(rows[..n]), rows[n], Flat(labels[..n]), labels[n], true, t);
    }
  }

  /** The pieces of the rows, put together, are the pieces of the lane as one row: every word has the same
      capitalization and mark however the lane is split, empty rows included. */
  lemma {:induction false} RowPiecesAreTheLanes(rows: seq<seq<string>>, labels: seq<seq<string>>, t: Tables)
    requires CountsMatch(rows, labels)
    ensures |Flat(rows)| == |Flat(labels)|
    ensures Flat(seq(|rows|, k requires 0 <= k < |rows| => RowPieces(rows, labels, t, k)))
         == Pieces(Flat(rows), Flat(labels), true, true, t)
  {
    FlatCounts(rows, labels);
    var all := seq(|rows|, k requires 0 <= k < |rows| => RowPieces(rows, labels, t, k));
    if rows != [] {
      var n := |rows| - 1;
      RowPiecesAreTheLanes(rows[..n], labels[..n], t);
      assert forall k | 0 <= k < n :: labels[..n][..k] == labels[..k];
      assert all[..n] == seq(n, k requires 0 <= k < n => RowPieces(rows[..n], labels[..n], t, k));
      PiecesSplit(Flat(rows[..n]), rows[n], Flat(labels[..n]), labels[n], true, true, t);
    }
  }

  lemma RowPiecesOfThePrefix(rows: seq<seq<string>>, labels: seq<seq<string>>, t: Tables, n: nat, k: nat)
    requires CountsMatch(rows, labels) && k < n <= |rows|
    ensures CountsMatch(rows[..n], labels[..n])
      && RowPieces(rows[..n], labels[..n], t, k) == RowPieces(rows, labels, t, k)
  {
    assert labels[..n][..k] == labels[..k];
  }

  lemma {:induction false} TextsOfThePrefix(rows: seq<seq<string>>, labels: seq<seq<string>>, t: Tables, n: nat)
    requires |rows| == |labels| && Formatted(rows, labels, t).Ok? && n <= |rows|
    ensures Formatted(rows[..n], labels[..n], t).Ok?
    ensures Formatted(rows[..n], labels[..n], t).value.0 <= Formatted(rows, labels, t).value.0
    decreases |rows|
  {
    var m := |rows|;
    if n == m {
      assert rows[..n] == rows && labels[..n] == labels;
    } else {
      LastRowAdds(rows, labels, t, m - 1);
      TextsOfThePrefix(rows[..m - 1], labels[..m - 1], t, n);
      assert rows[..m - 1][..n] == rows[..n] && labels[..m - 1][..n] == labels[..n];
    }
  }

  /** And each row's text is the text of its pieces. */
  lemma RowTextsAreTheirPieces(rows: seq<seq<string>>, labels: seq<seq<string>>, t: Tables, k: nat)
    requires |rows| == |labels| && Formatted(rows, labels, t).Ok? && k < |rows|
    ensures CountsMatch(rows, labels) && |Formatted(rows, labels, t).value.0| == |rows|
    ensures Formatted(rows, labels, t).value.0[k] == Glue(RowPieces(rows, labels, t, k))
  {
    AcceptedRows(rows, labels, t);
    TextsOfThePrefix(rows, labels, t, k + 1);
    LastRowText(rows[..k + 1], labels[..k + 1], t, k);
    RowPiecesOfThePrefix(rows, labels, t, k + 1, k);
  }

  lemma LastRowText(rows: seq<seq<string>>, labels: seq<seq<string>>, t: Tables, n: nat)
    requires |rows| == |labels| == n + 1 && Formatted(rows, labels, t).Ok?
    ensures CountsMatch(rows, labels) && |Formatted(rows, labels, t).value.0| == n + 1
    ensures Formatted(rows, labels, t).value.0[n] == Glue(RowPieces(rows, labels, t, n))
  {
    AcceptedRows(rows, labels, t);
    LastRowAdds(rows, labels, t, n);
    AcceptedRows(rows[..n], labels[..n], t);
  }

  // ---------------------------------------------------------------- reading the text back

  /** Blanks and the characters of the marks. */
  predicate IsSeparator(c: char, t: Tables) {
    t.blank(c) || c in " ,.?!:;-"
  }

  datatype Scan = Scan(done: seq<string>, open: string) {
    function Closed(): Scan { if open == "" then this else Scan(done + [open], "") }
  }

  function Scanned(text: string, t: Tables): Scan {
    if text == "" then Scan([], "")
    else
      var before, c := Scanned(text[..|text| - 1], t), text[|text| - 1];
      if IsSeparator(c, t) then before.Closed() else before.(open := before.open + [c])
  }

  /** The maximal stretches of a text without separators. */
  function Tokens(text: string, t: Tables): seq<string> {
    Scanned(text, t).Closed().done
  }

  /** A word with no blank and no mark in it. */
  predicate Clean(word: string, t: Tables) {
    word != "" && forall c | c in word :: !IsSeparator(c, t)
  }

  /** Upper-casing a character that separates nothing gives characters that separate nothing. */
  ghost predicate SaneTables(t: Tables) {
    forall c: char | !IsSeparator(c, t) :: Clean(t.upper(c), t)
  }

  lemma {:induction false} ScanThroughWord(text: string, word: string, t: Tables)
    requires forall c | c in word :: !IsSeparator(c, t)
    ensures Scanned(text + word, t) == Scanned(text, t).(open := Scanned(text, t).open + word)
  {
    if word == "" {
      assert text + word == text;
    } else {
      var n := |word| - 1;
      ScanThroughWord(text, word[..n], t);
      assert (text + word)[..|text + word| - 1] == text + word[..n];
      assert Scanned(text, t).open + word[..n] + [word[n]] == Scanned(text, t).open + word;
    }
  }

  lemma {:induction false} ScanThroughMark(text: string, mark: string, t: Tables)
    requires forall c | c in mark :: IsSeparator(c, t)
    ensures Scanned(text + mark, t) == if mark == "" then Scanned(text, t) else Scanned(text, t).Closed()
  {
    if mark == "" {
      assert text + mark == text;
    } else {
      var n := |mark| - 1;
      ScanThroughMark(text, mark[..n], t);
      assert (text + mark)[..|text + mark| - 1] == text + mark[..n];
    }
  }

  /** A clean word, then separators; a mark stands before a word that follows without a space. */
  predicate ProperPiece(p: Piece, t: Tables) {
    Clean(p.shown, t) && (forall c | c in p.mark :: IsSeparator(c, t)) && (p.joins ==> p.mark != "")
  }

  predicate AllProper(pieces: seq<Piece>, t: Tables) {
    forall p | p in pieces :: ProperPiece(p, t)
  }

  lemma ScanThroughPiece(text: string, p: Piece, done: seq<string>, t: Tables)
    requires ProperPiece(p, t) && Scanned(text, t) == Scan(done, "")
    ensures var s := Scanned(text + p.shown + p.mark, t);
      s.Closed() == Scan(done + [p.shown], "") && (p.mark != "" ==> s.open == "")
  {
    ScanThroughWord(text, p.shown, t);
    assert "" + p.shown == p.shown;
    ScanThroughMark(text + p.shown, p.mark, t);
  }

  /** Scanning a row: all its words are done but perhaps the last, which is open when no mark follows it. */
  lemma {:induction false} ScanThroughRow(pieces: seq<Piece>, t: Tables)
    requires AllProper(pieces, t)
    ensures Scanned(Glue(pieces), t).Closed() == Scan(Shown(pieces), "")
    ensures pieces != [] && pieces[|pieces| - 1].mark != "" ==> Scanned(Glue(pieces), t).open == ""
    ensures pieces != [] ==> Glue(pieces) != ""
  {
    if pieces != [] {
      var n := |pieces| - 1;
      var before, last := pieces[..n], pieces[n];
      ScanThroughRow(before, t);
      ScanThroughGap(before, t);
      ScanThroughPiece(Glue(before) + Gap(before), last, Shown(before), t);
      assert pieces == before + [last];
      ShownOfOneMore(before, last);
    }
  }

  lemma ScanThroughGap(before: seq<Piece>, t: Tables)
    requires Scanned(Glue(before), t).Closed() == Scan(Shown(before), "")
    requires before != [] ==> Glue(before) != "" && ProperPiece(before[|before| - 1], t)
    requires before != [] && before[|before| - 1].mark != "" ==> Scanned(Glue(before), t).open == ""
    ensures Scanned(Glue(before) + Gap(before), t) == Scan(Shown(before), "")
  {
    ScanThroughMark(Glue(before), Gap(before), t);
  }

  lemma MarksSeparate(tag: string, t: Tables)
    ensures forall c | c in MarkOf(tag) :: IsSeparator(c, t)
    ensures tag == "HYPHEN_JOIN" ==> MarkOf(tag) != ""
  {
  }

  lemma {:induction false} CapitalizedIsClean(word: string, t: Tables)
    requires SaneTables(t) && Clean(word, t)
    ensures Clean(Capitalized(word, t), t)
  {
    assert word == [word[0]] + word[1..];
    if Caseless(word[0], t) {
      if word[1..] != "" { CapitalizedIsClean(word[1..], t); }
    }
  }

  lemma PiecesAreProper(words: seq<string>, labels: seq<string>, capitalize: bool, start: bool, t: Tables)
    requires SaneTables(t) && |words| == |labels| && forall i | 0 <= i < |words| :: Clean(words[i], t)
    ensures AllProper(Pieces(words, labels, capitalize, start, t), t)
  {
    forall i | 0 <= i < |words|
      ensures ProperPiece(Pieces(words, labels, capitalize, start, t)[i], t)
    {
      MarksSeparate(labels[i], t);
      CapitalizedIsClean(words[i], t);
    }
  }

  /** The shown words are the given ones up to capitalization, with the same signature. */
  ghost predicate SameWords(shown: seq<string>, words: seq<string>, t: Tables) {
    && |shown| == |words|
    && forall i | 0 <= i < |words| ::
      (shown[i] == words[i] || shown[i] == Capitalized(words[i], t)) && t.fold(shown[i]) == t.fold(words[i])
  }

  lemma SignatureKeepsWords(words: seq<string>, labels: seq<string>, capitalize: bool, start: bool, t: Tables)
    requires Applied(words, labels, capitalize, start, t).Ok?
    ensures |words| == |labels| && SameWords(Shown(Pieces(words, labels, capitalize, start, t)), words, t)
  {
    var shown := Shown(Pieces(words, labels, capitalize, start, t));
    forall i | 0 <= i < |words|
      ensures t.fold(shown[i]) == t.fold(words[i])
    {
      assert Signature(shown, t)[i] == Signature(words, t)[i];
    }
  }

  /** Rendering loses nothing: reading the text back gives the words in order, up to capitalization. */
  lemma RenderingIsLossless(words: seq<string>, labels: seq<string>, capitalize: bool, start: bool, t: Tables)
    requires SaneTables(t) && forall i | 0 <= i < |words| :: Clean(words[i], t)
    requires Applied(words, labels, capitalize, start, t).Ok?
    ensures SameWords(Tokens(Applied(words, labels, capitalize, start, t).value.0, t), words, t)
  {
    SignatureKeepsWords(words, labels, capitalize, start, t);
    PiecesAreProper(words, labels, capitalize, start, t);
    ScanThroughRow(Pieces(words, labels, capitalize, start, t), t);
  }

  function AllTokens(texts: seq<string>, t: Tables): seq<string> {
    Flat(seq(|texts|, k requires 0 <= k < |texts| => Tokens(texts[k], t)))
  }

  /** And so does a whole lane, however it is split into rows. */
  lemma LanesAreLossless(rows: seq<seq<string>>, labels: seq<seq<string>>, t: Tables)
    requires SaneTables(t) && |rows| == |labels| && Formatted(rows, labels, t).Ok?
    requires forall i | 0 <= i < |Flat(rows)| :: Clean(Flat(rows)[i], t)
    ensures SameWords(AllTokens(Formatted(rows, labels, t).value.0, t), Flat(rows), t)
  {
    AcceptedRows(rows, labels, t);
    RowsAreAcceptedAsOne(rows, labels, t);
    SignatureKeepsWords(Flat(rows), Flat(labels), true, true, t);
    RowPiecesAreTheLanes(rows, labels, t);
    PiecesAreProper(Flat(rows), Flat(labels), true, true, t);
    var pieces := seq(|rows|, k requires 0 <= k < |rows| => RowPieces(rows, labels, t, k));
    var tokens := seq(|rows|, k requires 0 <= k < |rows| => Tokens(Formatted(rows, labels, t).value.0[k], t));
    forall k | 0 <= k < |rows|
      ensures tokens[k] == Shown(pieces[k])
    {
      RowTextsAreTheirPieces(rows, labels, t, k);
      FlatContains(pieces, k);
      ScanThroughRow(pieces[k], t);
    }
    FlatOfShown(pieces, tokens);
  }

  lemma {:induction false} FlatContains(pieces: seq<seq<Piece>>, k: nat)
    requires k < |pieces|
    ensures forall p | p in pieces[k] :: p in Flat(pieces)
  {
    if k < |pieces| - 1 { FlatContains(pieces[..|pieces| - 1], k); }
  }

  lemma {:induction false} FlatOfShown(pieces: seq<seq<Piece>>, tokens: seq<seq<string>>)
    requires |tokens| == |pieces| && forall k | 0 <= k < |pieces| :: tokens[k] == Shown(pieces[k])
    ensures Flat(tokens) == Shown(Flat(pieces))
  {
    if pieces != [] {
      var n := |pieces| - 1;
      FlatOfShown(pieces[..n], tokens[..n]);
      assert Shown(Flat(pieces[..n]) + pieces[n]) == Shown(Flat(pieces[..n])) + Shown(pieces[n]);
    }
  }
}
