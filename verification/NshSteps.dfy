/**
  What each kind of command does to the parser when it comes where it belongs.
*/
module NshSteps {
  import opened NshOption
  import opened NshMachine
  import opened NshStructured
  import opened NshRun

  // A command without keywords passes both keyword phases unchanged.
  lemma ParsePlain(np: Np, argv: Command, trace: seq<Command>, oracle: Oracle)
    requires Safe(np) && !np.AwaitsDo() && np.IeTop().state != IeIf
    requires argv != [] && (argv[0].Text? || argv[0].KwBang? || argv[0].KwBreak?)
    ensures ParseCommand(np, argv, trace, oracle) == RunWords(np, argv, trace, oracle)
  {
    hide RunWords;
    assert LoopPhase(np, argv) == Phase(np, argv, true);
    assert ItefPhase(np, argv) == Phase(np, argv, true);
  }

  // ----- Loops -----

  function LoopKeyword(until: bool): Word {
    if until then KwUntil else KwWhile
  }

  lemma LoopPhaseWhile(np: Np, until: bool, cond: Command)
    requires Safe(np) && !np.AwaitsDo() && np.IeTop().state != IeIf
    requires np.fd >= 0 && np.foffs >= 0 && np.lpndx + 1 < |np.lp|
    requires Condition(cond)
    ensures LoopPhase(np, [LoopKeyword(until)] + cond) == Phase(Pushed(np, until), cond, true)
    ensures Safe(Pushed(np, until))
  {
    var words := [LoopKeyword(until)] + cond;
    assert words[1..] == cond;
    LoopPhaseKeepsSafe(np, words);
  }

  // The condition is run whenever the if-stack allows it, even in a skipped loop body.
  lemma ParseWhile(np: Np, until: bool, cond: Command, trace: seq<Command>, oracle: Oracle)
    requires Safe(np) && !np.AwaitsDo() && np.IeTop().state != IeIf
    requires np.fd >= 0 && np.foffs >= 0 && np.lpndx + 1 < |np.lp|
    requires Condition(cond)
    ensures var p := ParseCommand(np, [LoopKeyword(until)] + cond, trace, oracle);
            if ItefEnabled(np) then
              p == Parsed(Pushed(np, until).(fail := false)
                            .SetLp(Pushed(np, until).LpTop().(enable := oracle(trace, np.fail, cond) == until)),
                          true, Some(cond), false)
            else p == Parsed(Pushed(np, until), true, None, false)
  {
    var q := Pushed(np, until);
    LoopPhaseWhile(np, until, cond);
    hide LoopPhase;
    assert ItefPhase(q, cond) == Phase(q, cond, true);
    hide ItefPhase;
  }

  lemma ParseDo(np: Np, trace: seq<Command>, oracle: Oracle)
    requires Safe(np) && np.AwaitsDo()
    ensures ParseCommand(np, [KwDo], trace, oracle)
         == Parsed(np.SetLp(np.LpTop().(state := LpDo)), true, None, false)
  {
    assert [KwDo][1..] == [];
  }

  lemma ParseDone(np: Np, trace: seq<Command>, oracle: Oracle)
    requires Safe(np) && np.LpTop().state == LpDo
    ensures np.lpndx >= 1
    ensures ParseCommand(np, [KwDone], trace, oracle) == Parsed(Popped(np), true, None, false)
  {
    assert [KwDone][1..] == [];
  }

  // ----- Conditionals -----

  function IfWords(inverted: bool, cond: Command): Command {
    [KwIf] + (if inverted then [KwBang] else []) + cond
  }

  lemma ItefPhaseIf(np: Np, inverted: bool, cond: Command)
    requires Safe(np) && np.IeTop().state != IeIf && np.iendx + 1 < |np.ie|
    requires Condition(cond)
    ensures ItefPhase(np, IfWords(inverted, cond)) == Phase(Opened(np, inverted), cond, true)
    ensures Safe(Opened(np, inverted))
  {
    var words := IfWords(inverted, cond);
    assert words[0] == KwIf;
    if inverted {
      assert words[1..] == [KwBang] + cond;
      assert words[2..] == cond;
    } else {
      assert words[1..] == cond;
    }
    ItefPhaseKeepsSafe(np, words);
  }

  lemma ParseIf(np: Np, inverted: bool, cond: Command, trace: seq<Command>, oracle: Oracle)
    requires Safe(np) && !np.AwaitsDo() && np.IeTop().state != IeIf && np.iendx + 1 < |np.ie|
    requires Condition(cond)
    ensures var p := ParseCommand(np, IfWords(inverted, cond), trace, oracle);
            var q := Opened(np, inverted);
            if CmdEnabled(np) then
              p == Parsed(q.(fail := false)
                            .SetIe(q.IeTop().(ifcond := inverted != oracle(trace, np.fail, cond))),
                          true, Some(cond), false)
            else p == Parsed(q, true, None, false)
  {
    var words := IfWords(inverted, cond);
    assert words[0] == KwIf;
    assert LoopPhase(np, words) == Phase(np, words, true);
    ItefPhaseIf(np, inverted, cond);
    hide LoopPhase, ItefPhase;
  }

  lemma ParseThen(np: Np, trace: seq<Command>, oracle: Oracle)
    requires Safe(np) && !np.AwaitsDo() && np.IeTop().state == IeIf
    ensures ParseCommand(np, [KwThen], trace, oracle)
         == Parsed(np.SetIe(np.IeTop().(state := IeThen)), true, None, false)
  {
    assert [KwThen][1..] == [];
  }

  lemma ParseElse(np: Np, trace: seq<Command>, oracle: Oracle)
    requires Safe(np) && !np.AwaitsDo() && np.IeTop().state == IeThen
    ensures ParseCommand(np, [KwElse], trace, oracle)
         == Parsed(np.SetIe(np.IeTop().(state := IeElse)), true, None, false)
  {
    assert [KwElse][1..] == [];
  }

  lemma ParseFi(np: Np, trace: seq<Command>, oracle: Oracle)
    requires Safe(np) && !np.AwaitsDo() && np.IeTop().state in {IeThen, IeElse}
    ensures np.iendx >= 1
    ensures ParseCommand(np, [KwFi], trace, oracle) == Parsed(np.(iendx := np.iendx - 1), true, None, false)
  {
    assert [KwFi][1..] == [];
  }

  // ----- One step of a run -----

  lemma One(sh: Shell, np: Np, pos: int, trace: seq<Command>, words: Command) returns (p: Parsed)
    requires Safe(np) && At(sh.script, pos, [words])
    ensures p == ParseCommand(Positioned(np, pos), words, trace, sh.oracle)
    ensures Safe(p.np)
    ensures p.ok || sh.ignore ==>
              Iter(sh, Running(np, pos, trace), 1)
              == Running(p.np, if p.np.jump then p.np.seek else sh.Next(pos, p.rejected), Ran(trace, p))
    ensures !p.ok && !sh.ignore ==>
              Iter(sh, Running(np, pos, trace), 1) == Halted(p.np, Ran(trace, p), false)
  {
    hide ParseCommand;
    assert sh.script[pos] == words;
    CommandKeepsSafe(Positioned(np, pos), words, trace, sh.oracle);
    p := ParseCommand(Positioned(np, pos), words, trace, sh.oracle);
    assert Iter(sh, Running(np, pos, trace), 1) == Iter(sh, Step(sh, Running(np, pos, trace)), 0);
  }

  // ----- Where the parts of a statement stand in the script -----

  lemma AtIf(script: seq<Command>, p: int, s: Stmt)
    requires s.If? && At(script, p, FlatStmt(s))
    ensures At(script, p, [IfWords(s.inverted, s.cond), [KwThen]])
    ensures At(script, p, [IfWords(s.inverted, s.cond)]) && At(script, p + 1, [[KwThen]])
    ensures At(script, p + 2, FlatBlock(s.thn))
    ensures var mid := p + 2 + |FlatBlock(s.thn)|;
            if s.hasElse then
              && At(script, mid, [[KwElse]])
              && At(script, mid + 1, FlatBlock(s.els))
              && At(script, mid + 1 + |FlatBlock(s.els)|, [[KwFi]])
              && |FlatStmt(s)| == |FlatBlock(s.thn)| + |FlatBlock(s.els)| + 4
            else
              At(script, mid, [[KwFi]]) && |FlatStmt(s)| == |FlatBlock(s.thn)| + 3
  {
    hide At;
    var head := [IfWords(s.inverted, s.cond), [KwThen]];
    var thn := FlatBlock(s.thn);
    var els := if s.hasElse then [[KwElse]] + FlatBlock(s.els) else [];
    assert FlatStmt(s) == head + thn + els + [[KwFi]];
    AtSplit(script, p, head + thn + els, [[KwFi]]);
    AtSplit(script, p, head + thn, els);
    AtSplit(script, p, head, thn);
    assert head == [IfWords(s.inverted, s.cond)] + [[KwThen]];
    AtSplit(script, p, [IfWords(s.inverted, s.cond)], [[KwThen]]);
    AtSplit(script, p + 2 + |thn|, [[KwElse]], FlatBlock(s.els));
  }

  lemma AtRepeat(script: seq<Command>, p: int, s: Stmt)
    requires s.Repeat? && At(script, p, FlatStmt(s))
    ensures At(script, p, [[LoopKeyword(s.until)] + s.cond]) && At(script, p + 1, [[KwDo]])
    ensures At(script, p + 2, FlatBlock(s.body))
    ensures At(script, p + 2 + |FlatBlock(s.body)|, [[KwDone]])
    ensures |FlatStmt(s)| == |FlatBlock(s.body)| + 3
  {
    hide At;
    var first := [[LoopKeyword(s.until)] + s.cond];
    var head := [[LoopKeyword(s.until)] + s.cond, [KwDo]];
    var body := FlatBlock(s.body);
    assert FlatStmt(s) == head + body + [[KwDone]];
    AtSplit(script, p, head + body, [[KwDone]]);
    AtSplit(script, p, head, body);
    assert head == first + [[KwDo]];
    AtSplit(script, p, first, [[KwDo]]);
  }
}
