/**
  Loops whose test is quoted: the place noted for the loop is after the quote, and `done` goes
  back into the middle of the command.
*/
module NshQuoted {
  import opened NshOption
  import opened NshMachine
  import opened NshStructured
  import opened NshRun
  import opened NshSteps
  import opened NshMeaning
  import opened NshText
  import opened NshReading
  import opened NshScan
  import opened NshFileRun
  import Esc = NshEscape

  // ----- Every loop that is opened -----

  lemma AfterLoopKeepsTops(np: Np, words: Command, trace: seq<Command>, oracle: Oracle)
    requires Safe(np) && np.AwaitsDo()
    ensures var q := AfterLoop(np, words, trace, oracle).np;
            q.lpndx == np.lpndx && |q.lp| == |np.lp| && q.lp[np.lpndx].topoffs == np.lp[np.lpndx].topoffs
  {
    hide CmdEnabled;
    ItefPhaseFrame(np, words);
    ItefPhaseKeepsSafe(np, words);
    hide ItefPhase;
  }

  /**
    The command at `start` of a line opens a loop: `done` will go back to the start of the
    command if and only if no quote comes before any other separator in it.
  */
  lemma TopIsStartIff(x: Setting, line: string, start: nat, np: Np, words: Command, trace: seq<Command>)
    requires Safe(np) && start <= |line| && !ScanFrom(line, start, start).Unclosed? && LoopHead(words)
    requires var q := np.(loffs := ScanFrom(line, start, start).handed);
             Safe(q) && LoopPhase(q, words).ok
    ensures var q := np.(loffs := ScanFrom(line, start, start).handed);
            var r := ParseCommand(q, words, trace, x.oracle).np;
            && r.InBounds() && r.lpndx == np.lpndx + 1
            && (r.LpTop().topoffs == np.foffs + start <==> !QuoteFirst(line, start))
  {
    hide CmdEnabled, ScanFrom, QuoteFirst, AfterLoop;
    HandedIff(line, start);
    var q := np.(loffs := ScanFrom(line, start, start).handed);
    LoopPhaseKeepsSafe(q, words);
    CommandKeepsSafe(q, words, trace, x.oracle);
    var p := LoopPhase(q, words);
    AfterLoopKeepsTops(p.np, p.rest, trace, x.oracle);
  }

  // ----- A run -----

  const HEAD := "while \"a\";do\n"
  const FILE := HEAD + "b\n" + "done\n"

  lemma Searches()
    ensures SearchFrom(HEAD, 0, 0) == On(9) && SearchFrom(HEAD, 0, 9) == Found(Semicolon(9, 9))
    ensures SearchFrom(HEAD, 10, 10) == Found(WithLine(10))
    ensures SearchFrom("b\n", 0, 0) == Found(WithLine(0)) && SearchFrom("done\n", 0, 0) == Found(WithLine(0))
    ensures SearchFrom(";do\n", 0, 0) == Found(Semicolon(0, 0)) && SearchFrom(";do\n", 1, 1) == Found(WithLine(1))
  {
    SepIs(HEAD, 0, 6);
    SepIs(HEAD, 9, 9);
    SepIs(HEAD, 10, 12);
    SepIs("b\n", 0, 1);
    SepIs("done\n", 0, 4);
    SepIs(";do\n", 0, 0);
    SepIs(";do\n", 1, 3);
    assert HEAD[7..] == "a\";do\n";
    assert Esc.StrChr("a\";do\n", '"') == Some(1);
  }

  lemma Scans()
    ensures ScanFrom(HEAD, 0, 0) == Semicolon(9, 9) && ScanFrom(HEAD, 10, 10) == WithLine(10)
    ensures ScanFrom("b\n", 0, 0) == WithLine(0) && ScanFrom("done\n", 0, 0) == WithLine(0)
    ensures ScanFrom(";do\n", 0, 0) == Semicolon(0, 0) && ScanFrom(";do\n", 1, 1) == WithLine(1)
  {
    hide SearchFrom;
    Searches();
    assert ScanFrom(HEAD, 0, 9) == Semicolon(9, 9);
  }

  // The tokenizer sees a loop with test `cond` and body `body`.
  ghost predicate SeesLoop(x: Setting, cond: Command, body: Command) {
    && x.file == FILE && x.tok("") == [] && Condition(cond) && PlainCommand(body) && !x.ignore
    && x.tok("while \"a\"") == [KwWhile] + cond && x.tok("do\n") == [KwDo]
    && x.tok("b\n") == body && x.tok("done\n") == [KwDone]
  }

  ghost predicate Outermost(np: Np) {
    Ready(np, 0, 1) && CmdEnabled(np) && np.lpndx == 0 && np.LpTop().state == LpNormal
  }

  lemma Lines()
    ensures LineEnd(FILE, 0) == 13 && FILE[0..13] == HEAD
    ensures LineEnd(FILE, 13) == 15 && FILE[13..15] == "b\n"
    ensures LineEnd(FILE, 15) == 20 && FILE[15..20] == "done\n"
    ensures LineEnd(FILE, 9) == 13 && FILE[9..13] == ";do\n"
    ensures HEAD[0..9] == "while \"a\"" && HEAD[10..] == "do\n" && ";do\n"[0..0] == "" && ";do\n"[1..] == "do\n"
    ensures "b\n"[0..] == "b\n" && "done\n"[0..] == "done\n" && |FILE| == 20 && |HEAD| == 13
  {
    LineEndIs(FILE, 0, 12);
    LineEndIs(FILE, 9, 12);
    LineEndIs(FILE, 13, 14);
    LineEndIs(FILE, 15, 19);
  }

  // The test succeeds: the loop is entered, with its place noted as 9.
  function Entered(np: Np): Np
    requires np.InBounds() && |np.lp| >= 2
  {
    np.(foffs := 0, loffs := 10, seek := 13, jump := false, fail := false, lpndx := 1,
        lp := np.lp[1 := Loop(true, LpDo, np.iendx, 9)])
  }

  lemma ReadHead(x: Setting, np: Np, cond: Command, body: Command)
    requires SeesLoop(x, cond, body) && Outermost(np) && np.seek == 0 && !x.oracle([], np.fail, cond)
    ensures Safe(Entered(np)) && ReadLine(x, Reading(np, [])) == Reading(Entered(np), [cond])
  {
    hide ScanFrom, ParseCommand, ParseLineFrom, Safe;
    Scans();
    Lines();
    var q := np.(foffs := 0, loffs := 9, seek := 13, jump := false);
    SafeAnywhere(np, 0, 0, 13, false);
    SafeAnywhere(np, 0, 9, 13, false);
    ParseLineScan(x, HEAD, 0, 0, np.(foffs := 0, loffs := 0, seek := 13, jump := false), []);
    ParseWhile(q, false, cond, [], x.oracle);
    CommandKeepsSafe(q, [KwWhile] + cond, [], x.oracle);
    var p := ParseCommand(q, [KwWhile] + cond, [], x.oracle);
    SafeAnywhere(p.np, 0, 10, 13, false);
    ParseLineScan(x, HEAD, 10, 10, p.np, [cond]);
    CommandKeepsSafe(p.np.(loffs := 10), [KwDo], [cond], x.oracle);
    ParseDo(p.np.(loffs := 10), [cond], x.oracle);
    assert p.np.SetLp(p.np.LpTop().(state := LpDo)).lp == Entered(np).lp;
    assert Ran([], p) == [cond];
  }

  // One pass through the body, and back to the place noted.
  function Back(np: Np): Np
    requires np.InBounds() && |np.lp| >= 2
  {
    np.(foffs := 15, loffs := 0, seek := 9, jump := true, fail := false, lpndx := 0,
        lp := np.lp[1 := Loop(true, LpNormal, np.iendx, 9)])
  }

  lemma ReadBody(x: Setting, np: Np, cond: Command, body: Command)
    requires SeesLoop(x, cond, body) && Outermost(np) && Safe(Entered(np)) && !x.oracle([cond], false, body)
    ensures var c := ReadLine(x, Reading(Entered(np), [cond]));
            c == Reading(Entered(np).(foffs := 13, loffs := 0, seek := 15), [cond, body])
  {
    hide ScanFrom, ParseCommand, ParseLineFrom, Safe, LoopPhase, ItefPhase;
    Scans();
    Lines();
    var q := Entered(np).(foffs := 13, loffs := 0, seek := 15, jump := false);
    SafeAnywhere(Entered(np), 13, 0, 15, false);
    ParseLineScan(x, "b\n", 0, 0, q, [cond]);
    ParsePlain(q, body, [cond], x.oracle);
    assert [cond] + [body] == [cond, body];
  }

  lemma ReadDone(x: Setting, np: Np, cond: Command, body: Command)
    requires SeesLoop(x, cond, body) && Outermost(np)
    requires Safe(Entered(np).(foffs := 13, loffs := 0, seek := 15))
    ensures var c := ReadLine(x, Reading(Entered(np).(foffs := 13, loffs := 0, seek := 15), [cond, body]));
            Safe(Back(np)) && c == Reading(Back(np), [cond, body])
  {
    hide ScanFrom, ParseCommand, ParseLineFrom, Safe;
    Scans();
    Lines();
    var q := Entered(np).(foffs := 15, loffs := 0, seek := 20, jump := false);
    SafeAnywhere(Entered(np).(foffs := 13, loffs := 0, seek := 15), 15, 0, 20, false);
    ParseLineScan(x, "done\n", 0, 0, q, [cond, body]);
    ParseDone(q, [cond, body], x.oracle);
    CommandKeepsSafe(q, [KwDone], [cond, body], x.oracle);
    assert Popped(q).lp == Back(np).lp;
  }

  // In the middle of the command stands nothing, and then a `do` that belongs to no loop.
  lemma ReadMiddle(x: Setting, np: Np, cond: Command, body: Command)
    requires SeesLoop(x, cond, body) && Outermost(np) && Safe(Back(np))
    ensures var c := ReadLine(x, Reading(Back(np), [cond, body]));
            c.Over? && c.trace == [cond, body] && c.np.fail && !c.atEnd
  {
    hide ScanFrom, ParseCommand, ParseLineFrom, Safe;
    Scans();
    Lines();
    var q := Back(np).(foffs := 9, loffs := 0, seek := 13, jump := false);
    SafeAnywhere(Back(np), 9, 0, 13, false);
    ParseLineScan(x, ";do\n", 0, 0, q, [cond, body]);
    ParseNothing(q, [cond, body], x.oracle);
    SafeAnywhere(q, 9, 1, 13, false);
    ParseLineScan(x, ";do\n", 1, 1, q, [cond, body]);
    StrayDo(q.(loffs := 1), [cond, body], x.oracle);
  }

  lemma StrayDo(np: Np, trace: seq<Command>, oracle: Oracle)
    requires Safe(np) && np.LpTop().state == LpNormal && np.IeTop().state != IeIf
    ensures var p := ParseCommand(np, [KwDo], trace, oracle);
            !p.ok && p.np.fail && p.ran == None
  {
    assert LoopPhase(np, [KwDo]) == LoopError(np);
    hide LoopPhase;
  }

  function LoopOf(cond: Command, body: Command): Block {
    Cons(Repeat(false, cond, Cons(Cmd(body), Nil)), Nil)
  }

  // The third command fails.
  const THIRD_FAILS: Oracle := (trace, fail, argv) => |trace| == 2

  lemma LoopEnds(h: History, cond: Command, body: Command)
    requires h.trace == []
    ensures MeansWith(LoopOf(cond, body), h, 2, THIRD_FAILS, false, Ending([cond, body, cond], false, true))
  {
    var inner := Cons(Cmd(body), Nil);
    var h1, h2 := History([cond], false), History([cond, body], false);
    assert [cond] + [body] == [cond, body] && [cond, body] + [cond] == [cond, body, cond];
    assert EvalBlock(Nil, true, h2, 2, THIRD_FAILS, false) == Result(h2, 2, Normal);
    assert EvalBlock(inner, true, h1, 2, THIRD_FAILS, false) == Result(h2, 2, Normal);
    var loop, h3 := Repeat(false, cond, inner), History([cond, body, cond], false);
    assert EvalStmt(loop, false, h2, 1, THIRD_FAILS, false) == Result(h3, 1, Normal);
    assert h.trace + [cond] == [cond];
    assert EvalStmt(loop, false, h, 2, THIRD_FAILS, false) == Result(h3, 1, Normal);
  }

  lemma LoopDeck(x: Setting, cond: Command, body: Command)
    requires SeesLoop(x, cond, body)
    ensures Deck(x, 0) == FlatBlock(LoopOf(cond, body))
  {
    hide ScanFrom, Deck;
    Scans();
    Lines();
    LineEndIs(FILE, 10, 12);
    ScanShift(HEAD, 10, 10);
    assert FILE[10..13] == HEAD[10..];
    var head, none := [KwWhile] + cond, Deck(x, 20);
    DeckAt(x, 0, 10, head);
    DeckAt(x, 10, 13, [KwDo]);
    DeckAt(x, 13, 15, body);
    DeckAt(x, 15, 20, [KwDone]);
    assert none == [] by { DeckEnd(x); }
    var inner := Cons(Cmd(body), Nil);
    assert FlatBlock(inner) == [body];
    assert FlatStmt(Repeat(false, cond, inner)) == [head, [KwDo], body, [KwDone]];
  }

  lemma DeckEnd(x: Setting)
    ensures Deck(x, |x.file|) == []
  {
  }

  lemma DeckAt(x: Setting, o: nat, next: nat, words: Command)
    requires o < next <= |x.file| && NextAt(x.file, o) == next && x.tok(TextAt(x.file, o)) == words
    requires words != [] && !Shares(words)
    ensures Deck(x, o) == [words] + Deck(x, next)
  {
    hide TextAt, NextAt;
  }

  /**
    A loop that should end after one pass: its test is quoted, so that the run goes back into
    the middle of the command and ends there, at a `do` without a loop.
  */
  lemma QuotedHeadMisruns(x: Setting, np: Np, cond: Command, body: Command)
    requires SeesLoop(x, cond, body) && Outermost(np) && np.seek == 0 && x.oracle == THIRD_FAILS
    ensures var c := ReadLines(x, Reading(np, []), 4);
            c.Over? && c.trace == [cond, body] && c.np.fail && !c.atEnd
    ensures Deck(x, 0) == FlatBlock(LoopOf(cond, body))
    ensures Means(LoopOf(cond, body), History([], np.fail), x.oracle, x.ignore, Ending([cond, body, cond], false, true))
  {
    hide ReadLine, Safe, Deck;
    LoopDeck(x, cond, body);
    LoopEnds(History([], np.fail), cond, body);
    ReadHead(x, np, cond, body);
    ReadBody(x, np, cond, body);
    ReadDone(x, np, cond, body);
    ReadMiddle(x, np, cond, body);
  }
}
