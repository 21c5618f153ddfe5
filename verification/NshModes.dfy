/**
  A line read character by character: each one stands plain, within quotes or in a comment.
  Commands end at plain semicolons, and the search that skips from separator to separator and
  from quote to quote finds exactly those.
*/
module NshModes {
  import opened NshOption
  import opened NshText
  import opened NshReading
  import opened NshScan
  import opened NshFileRun
  import opened NshMachine
  import Esc = NshEscape

  // `escaped` says that a back-slash within the quotes comes right before.
  datatype Mode = Plain | Within(quote: char, escaped: bool) | Comment

  // What the character at `i` makes of the mode it is read in.  Outside quotes a back-slash
  // keeps a quote from opening; within them it keeps any character from closing.
  function NextMode(mode: Mode, line: string, i: nat): Mode
    requires i < |line|
  {
    var c := line[i];
    match mode
    case Comment => Comment
    case Within(quote, escaped) =>
      if escaped then Within(quote, false)
      else if c == '\\' then Within(quote, true)
      else if c == quote then Plain
      else mode
    case Plain =>
      if c == '#' || c == '\n' then Comment
      else if (c == '"' || c == '\'') && (i == 0 || line[i - 1] != '\\') then Within(c, false)
      else Plain
  }

  // The mode in which the character at `i` is read, or the end of the line.
  function ModeAt(line: string, i: nat): Mode
    requires i <= |line|
  {
    if i == 0 then Plain else NextMode(ModeAt(line, i - 1), line, i - 1)
  }

  lemma ModeNext(line: string, i: nat)
    requires i < |line|
    ensures ModeAt(line, i + 1) == NextMode(ModeAt(line, i), line, i)
  {
  }

  // A semicolon that ends a command.
  predicate Ends(line: string, i: nat)
    requires i < |line|
  {
    line[i] == ';' && ModeAt(line, i) == Plain
  }

  ghost predicate NoneEnds(line: string, from: nat, end: nat)
    requires from <= end <= |line|
  {
    forall j :: from <= j < end ==> !Ends(line, j)
  }

  lemma {:induction false} PlainRun(line: string, from: nat, end: nat)
    requires from <= end <= |line| && ModeAt(line, from) == Plain
    requires forall j :: from <= j < end ==> !LineSep(line[j])
    ensures forall j :: from <= j <= end ==> ModeAt(line, j) == Plain
    ensures NoneEnds(line, from, end)
    decreases end
  {
    if from == end {
    } else {
      PlainRun(line, from, end - 1);
      assert ModeAt(line, end) == NextMode(ModeAt(line, end - 1), line, end - 1);
    }
  }

  lemma {:induction false} CommentRun(line: string, from: nat, end: nat)
    requires from <= end <= |line| && ModeAt(line, from) == Comment
    ensures ModeAt(line, end) == Comment && NoneEnds(line, from, end)
    decreases end
  {
    if from == end {
    } else {
      CommentRun(line, from, end - 1);
      assert ModeAt(line, end) == NextMode(ModeAt(line, end - 1), line, end - 1);
    }
  }

  // From within quotes to where they close, if they do.
  lemma {:induction false} QuotedRun(line: string, from: nat, i: nat, escaped: bool, quote: char)
    requires from + i <= |line| && ModeAt(line, from + i) == Within(quote, escaped) && quote != '\\'
    ensures match Esc.StrChrFrom(line[from..], i, escaped, quote)
            case None => ModeAt(line, |line|).Within? && NoneEnds(line, from + i, |line|)
            case Some(j) =>
              && i <= j && from + j < |line|
              && ModeAt(line, from + j + 1) == Plain && NoneEnds(line, from + i, from + j + 1)
    decreases |line| - (from + i)
  {
    if from + i == |line| {
    } else {
      var next := NextMode(Within(quote, escaped), line, from + i);
      assert ModeAt(line, from + i + 1) == next && line[from..][i] == line[from + i];
      hide ModeAt;
      if next == Plain {
        assert Esc.StrChrFrom(line[from..], i, escaped, quote) == Some(i);
      } else {
        QuotedRun(line, from, i + 1, next.escaped, quote);
      }
    }
  }

  // What the search has found, in terms of the modes from `working` on.
  ghost predicate Tells(line: string, working: nat, scan: Scan)
    requires working <= |line|
  {
    match scan
    case Semicolon(end, _) =>
      working <= end < |line| && Ends(line, end) && NoneEnds(line, working, end)
    case WithLine(_) => NoneEnds(line, working, |line|) && !ModeAt(line, |line|).Within?
    case Unclosed => NoneEnds(line, working, |line|) && ModeAt(line, |line|).Within?
  }

  ghost predicate Says(line: string, working: nat, search: Search)
    requires working <= |line|
  {
    match search
    case Found(scan) => Tells(line, working, scan)
    case On(w) => working <= w <= |line| && ModeAt(line, w) == Plain && NoneEnds(line, working, w)
  }

  // Where commands start.
  predicate Starts(line: string, start: nat) {
    start == 0 || (start <= |line| && line[start - 1] != '\\')
  }

  lemma SearchTells(line: string, start: nat, working: nat)
    requires start <= working <= |line| && Starts(line, start) && ModeAt(line, working) == Plain
    ensures Says(line, working, SearchFrom(line, start, working))
  {
    hide ModeAt, SepFrom, Esc.StrChrFrom;
    var e := SepFrom(line, working);
    PlainRun(line, working, e);
    if e < |line| {
      ModeNext(line, e);
      if line[e] == '\n' || line[e] == '#' {
        CommentRun(line, e + 1, |line|);
      } else if line[e] != ';' && !(e > start && line[e - 1] == '\\') {
        QuotedRun(line, e + 1, 0, false, line[e]);
      }
    }
  }

  /**
    From a command that starts plain: it ends at the first plain semicolon; if there is none, with
    the line, and is then rejected if and only if the line ends within quotes.
  */
  lemma {:induction false} ScanTells(line: string, start: nat, working: nat)
    requires start <= working <= |line| && Starts(line, start) && ModeAt(line, working) == Plain
    ensures Tells(line, working, ScanFrom(line, start, working))
    decreases |line| - working
  {
    hide ModeAt, SearchFrom, Ends;
    SearchTells(line, start, working);
    match SearchFrom(line, start, working)
    case Found(_) =>
    case On(working') => ScanTells(line, start, working');
  }

  // ----- The commands of a line -----

  // The texts of its commands, as the search finds them from `start` on.
  function Texts(line: string, start: nat): seq<string>
    requires start <= |line|
    decreases |line| - start
  {
    match ScanFrom(line, start, start)
    case Semicolon(end, _) => [line[start..end]] + Texts(line, end + 1)
    case _ => [line[start..]]
  }

  // The line from `from` on, split at every semicolon that ends a command from `i` on.
  function Split(line: string, from: nat, i: nat): seq<string>
    requires from <= i <= |line|
    decreases |line| - i
  {
    if i == |line| then [line[from..]]
    else if Ends(line, i) then [line[from..i]] + Split(line, i + 1, i + 1)
    else Split(line, from, i + 1)
  }

  lemma {:induction false} SplitSkips(line: string, from: nat, i: nat, end: nat)
    requires from <= i <= end <= |line| && NoneEnds(line, i, end)
    ensures Split(line, from, i) == Split(line, from, end)
    decreases end - i
  {
    hide Ends;
    if i == end {
    } else {
      SplitSkips(line, from, i + 1, end);
    }
  }

  /** The commands of a line are its pieces between plain semicolons. */
  lemma {:induction false} TextsAreSplit(line: string, start: nat)
    requires start <= |line| && Starts(line, start) && ModeAt(line, start) == Plain
    ensures Texts(line, start) == Split(line, start, start)
    decreases |line| - start
  {
    hide ModeAt, ScanFrom;
    ScanTells(line, start, start);
    match ScanFrom(line, start, start)
    case Semicolon(end, _) =>
      SplitSkips(line, start, start, end);
      ModeNext(line, end);
      TextsAreSplit(line, end + 1);
    case _ =>
      SplitSkips(line, start, start, |line|);
  }

  /** Nothing after a plain `#` ends a command: the rest of the line belongs to the last one. */
  lemma CommentIsLast(line: string, i: nat)
    requires i < |line| && line[i] == '#' && ModeAt(line, i) == Plain
    ensures NoneEnds(line, i, |line|)
    ensures forall from :: 0 <= from <= i && NoneEnds(line, from, i) ==> Split(line, from, from) == [line[from..]]
  {
    hide ModeAt;
    ModeNext(line, i);
    CommentRun(line, i + 1, |line|);
    forall from | 0 <= from <= i && NoneEnds(line, from, i) ensures Split(line, from, from) == [line[from..]] {
      SplitSkips(line, from, from, |line|);
    }
  }

  // ----- The commands of a file -----

  function ClausesOf(x: Setting, texts: seq<string>): seq<Command> {
    if texts == [] then [] else Clauses(x.tok(texts[0])) + ClausesOf(x, texts[1..])
  }

  lemma ClausesCons(x: Setting, text: string, rest: seq<string>)
    ensures ClausesOf(x, [text] + rest) == Clauses(x.tok(text)) + ClausesOf(x, rest)
  {
    assert ([text] + rest)[1..] == rest;
  }

  lemma ClausesOne(x: Setting, text: string)
    ensures ClausesOf(x, [text]) == Clauses(x.tok(text))
  {
    assert [text][1..] == [];
    assert ClausesOf(x, []) == [];
  }

  lemma {:induction false} DeckOfLine(x: Setting, f: nat, start: nat)
    requires f < |x.file| && f + start <= LineEnd(x.file, f) && OneLine(x.file, f, f + start) && x.tok("") == []
    ensures var line := x.file[f..LineEnd(x.file, f)];
            Deck(x, f + start) == ClausesOf(x, Texts(line, start)) + Deck(x, LineEnd(x.file, f))
    decreases LineEnd(x.file, f) - start
  {
    hide LineEnd, OneLine, ScanFrom, TextAt, NextAt, Clauses, ClausesOf;
    var line := x.file[f..LineEnd(x.file, f)];
    SameCommand(x.file, f, start);
    var scan := ScanFrom(line, start, start);
    if scan.Semicolon? {
      ClausesCons(x, line[start..scan.end], Texts(line, scan.end + 1));
      DeckOfLine(x, f, scan.end + 1);
    } else {
      ClausesOne(x, line[start..]);
      if f + start == |x.file| {
        EmptyClauses(x);
      }
    }
  }

  lemma EmptyClauses(x: Setting)
    requires x.tok("") == []
    ensures Clauses(x.tok("")) == []
  {
  }

  /** The commands of a file are, line by line, the pieces between plain semicolons. */
  lemma DeckIsSplit(x: Setting, f: nat)
    requires f < |x.file| && x.tok("") == []
    ensures var line := x.file[f..LineEnd(x.file, f)];
            Deck(x, f) == ClausesOf(x, Split(line, 0, 0)) + Deck(x, LineEnd(x.file, f))
  {
    hide LineEnd, ScanFrom, Split, ClausesOf, Deck, Texts;
    DeckOfLine(x, f, 0);
    TextsAreSplit(x.file[f..LineEnd(x.file, f)], 0);
  }
}
