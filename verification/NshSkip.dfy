/**
  Reading past code that is not to be run: inside a branch that was not taken, and
  in the rest of a loop body after its condition failed or a `break`.
*/
module NshSkip {
  import opened NshMachine
  import opened NshStructured
  import opened NshRun
  import opened NshSteps

  /**
    Inside a branch that is not taken, well-nested text of any shape is read without
    running a command or a condition, without a jump, without changing `$?` or an
    entry at or below the current level.
  */
  lemma {:induction false} SkipBlock(sh: Shell, b: Block, p: int, np: Np, trace: seq<Command>)
      returns (n: nat, np': Np)
    requires ProperBlock(b) && At(sh.script, p, FlatBlock(b))
    requires Ready(np, IfDepth(b), LoopDepth(b)) && !ItefEnabled(np)
    ensures Iter(sh, Running(np, p, trace), n) == Running(np', p + |FlatBlock(b)|, trace)
    ensures Safe(np') && Keeps(np, np') && np'.fail == np.fail
    decreases b, 0
  {
    hide Step, At, FlatStmt, ProperStmt, IfDepthStmt, LoopDepthStmt, SafeSaved;
    match b
    case Nil =>
      n, np' := 0, np;
    case Cons(s, rest) =>
      AtSplit(sh.script, p, FlatStmt(s), FlatBlock(rest));
      hide Iter;
      var m, q := SkipStmt(sh, s, p, np, trace);
      n, np' := SkipBlock(sh, rest, p + |FlatStmt(s)|, q, trace);
      IterAdd(sh, Running(np, p, trace), m, n);
      n := m + n;
  }

  lemma {:induction false} SkipStmt(sh: Shell, s: Stmt, p: int, np: Np, trace: seq<Command>)
      returns (n: nat, np': Np)
    requires ProperStmt(s) && At(sh.script, p, FlatStmt(s))
    requires Ready(np, IfDepthStmt(s), LoopDepthStmt(s)) && !ItefEnabled(np)
    ensures Iter(sh, Running(np, p, trace), n) == Running(np', p + |FlatStmt(s)|, trace)
    ensures Safe(np') && Keeps(np, np') && np'.fail == np.fail
    decreases s, 1
  {
    hide Step;
    match s
    case Cmd(argv) =>
      n, np' := SkipPlain(sh, argv, p, np, trace);
    case Break =>
      n, np' := SkipPlain(sh, [KwBreak], p, np, trace);
    case If(inverted, cond, thn, hasElse, els) =>
      n, np' := SkipIf(sh, s, p, np, trace);
    case Repeat(until, cond, body) =>
      n, np' := SkipRepeat(sh, s, p, np, trace);
  }

  lemma SkipPlain(sh: Shell, argv: Command, p: int, np: Np, trace: seq<Command>)
      returns (n: nat, np': Np)
    requires argv != [] && (argv[0].Text? || argv[0].KwBang? || argv[0].KwBreak?)
    requires At(sh.script, p, [argv])
    requires Ready(np, 0, 0) && !CmdEnabled(np)
    ensures Iter(sh, Running(np, p, trace), n) == Running(np', p + 1, trace)
    ensures Safe(np') && Keeps(np, np') && np'.fail == np.fail && np'.ie == np.ie
  {
    hide Step, ParseCommand;
    var r := One(sh, np, p, trace, argv);
    ParsePlain(Positioned(np, p), argv, trace, sh.oracle);
    n, np' := 1, r.np;
  }

  // From `if` to just after `then`, with everything disabled.
  lemma SkipIntoThen(sh: Shell, inverted: bool, cond: Command, p: int, np: Np, trace: seq<Command>)
      returns (q: Np)
    requires Condition(cond) && At(sh.script, p, [IfWords(inverted, cond), [KwThen]])
    requires Ready(np, 1, 0) && !CmdEnabled(np)
    ensures Iter(sh, Running(np, p, trace), 2) == Running(q, p + 2, trace)
    ensures Safe(q) && q.fail == np.fail && q.iendx == np.iendx + 1 && Keeps(np, q.(iendx := np.iendx))
    ensures q.IeTop().state == IeThen && q.IeTop().disabled
  {
    hide Step, ParseCommand;
    var code := [IfWords(inverted, cond), [KwThen]];
    assert code == [IfWords(inverted, cond)] + [[KwThen]];
    AtSplit(sh.script, p, [IfWords(inverted, cond)], [[KwThen]]);
    var r := One(sh, np, p, trace, IfWords(inverted, cond));
    ParseIf(Positioned(np, p), inverted, cond, trace, sh.oracle);
    var t := One(sh, r.np, p + 1, trace, [KwThen]);
    ParseThen(Positioned(r.np, p + 1), trace, sh.oracle);
    IterAdd(sh, Running(np, p, trace), 1, 1);
    q := t.np;
  }

  lemma StepElse(sh: Shell, p: int, np: Np, trace: seq<Command>) returns (np': Np)
    requires Ready(np, 0, 0) && At(sh.script, p, [[KwElse]]) && np.IeTop().state == IeThen
    ensures Iter(sh, Running(np, p, trace), 1) == Running(np', p + 1, trace)
    ensures Safe(np') && np'.fail == np.fail
    ensures Keeps(np.SetIe(np.IeTop().(state := IeElse)), np')
  {
    hide Step, Iter, ParseCommand;
    var r := One(sh, np, p, trace, [KwElse]);
    ParseElse(Positioned(np, p), trace, sh.oracle);
    np' := r.np;
  }

  lemma StepFi(sh: Shell, p: int, np: Np, trace: seq<Command>) returns (np': Np)
    requires Ready(np, 0, 0) && At(sh.script, p, [[KwFi]]) && np.IeTop().state in {IeThen, IeElse}
    ensures Iter(sh, Running(np, p, trace), 1) == Running(np', p + 1, trace)
    ensures Safe(np') && np'.fail == np.fail
    ensures np.iendx >= 1 && Keeps(np.(iendx := np.iendx - 1), np') && np'.ie == np.ie
  {
    hide Step, Iter, ParseCommand;
    var r := One(sh, np, p, trace, [KwFi]);
    ParseFi(Positioned(np, p), trace, sh.oracle);
    np' := r.np;
  }

  // From after the `then` branch to after `fi`, without running anything.
  lemma {:induction false} SkipToFi(sh: Shell, hasElse: bool, els: Block, p: int, np: Np, trace: seq<Command>)
      returns (n: nat, np': Np)
    requires hasElse ==> ProperBlock(els)
    requires if hasElse then At(sh.script, p, [[KwElse]]) && At(sh.script, p + 1, FlatBlock(els))
                             && At(sh.script, p + 1 + |FlatBlock(els)|, [[KwFi]])
             else At(sh.script, p, [[KwFi]])
    requires Ready(np, if hasElse then IfDepth(els) else 0, if hasElse then LoopDepth(els) else 0)
    requires np.IeTop().state == IeThen && (np.IeTop().disabled || !np.IeTop().ifcond)
    ensures var len := if hasElse then 2 + |FlatBlock(els)| else 1;
            Iter(sh, Running(np, p, trace), n) == Running(np', p + len, trace)
    ensures Safe(np') && np'.fail == np.fail
    ensures np.iendx >= 1 && Keeps(np.(iendx := np.iendx - 1), np')
    decreases els, 1
  {
    hide Step, Iter, At, FlatBlock, ProperBlock, IfDepth, LoopDepth, SafeSaved, SafeLp;
    if hasElse {
      var r := StepElse(sh, p, np, trace);
      var k, q := SkipBlock(sh, els, p + 1, r, trace);
      IterAdd(sh, Running(np, p, trace), 1, k);
      np' := StepFi(sh, p + 1 + |FlatBlock(els)|, q, trace);
      IterAdd(sh, Running(np, p, trace), 1 + k, 1);
      n := k + 2;
    } else {
      np' := StepFi(sh, p, np, trace);
      n := 1;
    }
  }

  // An `if` under a branch not taken, or in the skipped rest of a loop body.
  lemma {:induction false} SkipIf(sh: Shell, s: Stmt, p: int, np: Np, trace: seq<Command>)
      returns (n: nat, np': Np)
    requires s.If? && ProperStmt(s) && At(sh.script, p, FlatStmt(s))
    requires Ready(np, IfDepthStmt(s), LoopDepthStmt(s)) && !CmdEnabled(np)
    ensures Iter(sh, Running(np, p, trace), n) == Running(np', p + |FlatStmt(s)|, trace)
    ensures Safe(np') && Keeps(np, np') && np'.fail == np.fail
    decreases s, 0
  {
    hide Step, Iter, ParseCommand, At, FlatBlock, ProperBlock, IfDepth, LoopDepth, SafeSaved, SafeLp;
    var If(inverted, cond, thn, hasElse, els) := s;
    AtIf(sh.script, p, s);
    var q := SkipIntoThen(sh, inverted, cond, p, np, trace);
    var m, q' := SkipBlock(sh, thn, p + 2, q, trace);
    IterAdd(sh, Running(np, p, trace), 2, m);
    var k;
    k, np' := SkipToFi(sh, hasElse, els, p + 2 + |FlatBlock(thn)|, q', trace);
    IterAdd(sh, Running(np, p, trace), 2 + m, k);
    n := 2 + m + k;
  }

  // From `while` or `until` to just after `do`, under a branch not taken.
  lemma SkipIntoDo(sh: Shell, until: bool, cond: Command, p: int, np: Np, trace: seq<Command>)
      returns (q: Np)
    requires Condition(cond)
    requires At(sh.script, p, [[LoopKeyword(until)] + cond]) && At(sh.script, p + 1, [[KwDo]])
    requires Ready(np, 0, 1) && !ItefEnabled(np)
    ensures Iter(sh, Running(np, p, trace), 2) == Running(q, p + 2, trace)
    ensures Safe(q) && q.fail == np.fail && q.lpndx == np.lpndx + 1 && Keeps(np, q.(lpndx := np.lpndx))
    ensures q.LpTop().state == LpDo && !q.LpTop().enable
  {
    hide Step, Iter, ParseCommand;
    var w := One(sh, np, p, trace, [LoopKeyword(until)] + cond);
    ParseWhile(Positioned(np, p), until, cond, trace, sh.oracle);
    var d := One(sh, w.np, p + 1, trace, [KwDo]);
    ParseDo(Positioned(w.np, p + 1), trace, sh.oracle);
    IterAdd(sh, Running(np, p, trace), 1, 1);
    q := d.np;
  }

  // `done` at the end of a skipped loop body leaves the loop.
  lemma LeaveLoop(sh: Shell, p: int, np: Np, trace: seq<Command>) returns (np': Np)
    requires Ready(np, 0, 0) && At(sh.script, p, [[KwDone]])
    requires np.LpTop().state == LpDo && !np.LpTop().enable
    ensures Iter(sh, Running(np, p, trace), 1) == Running(np', p + 1, trace)
    ensures Safe(np') && np'.fail == np.fail
    ensures np.lpndx >= 1 && np'.lpndx == np.lpndx - 1 && Keeps(np.(lpndx := np.lpndx - 1), np') && np'.ie == np.ie
  {
    hide Step, Iter, ParseCommand;
    var r := One(sh, np, p, trace, [KwDone]);
    ParseDone(Positioned(np, p), trace, sh.oracle);
    np' := r.np;
  }

  // A loop under a branch not taken.
  lemma {:induction false} SkipRepeat(sh: Shell, s: Stmt, p: int, np: Np, trace: seq<Command>)
      returns (n: nat, np': Np)
    requires s.Repeat? && ProperStmt(s) && At(sh.script, p, FlatStmt(s))
    requires Ready(np, IfDepthStmt(s), LoopDepthStmt(s)) && !ItefEnabled(np)
    ensures Iter(sh, Running(np, p, trace), n) == Running(np', p + |FlatStmt(s)|, trace)
    ensures Safe(np') && Keeps(np, np') && np'.fail == np.fail
    decreases s, 0
  {
    hide Step, Iter, ParseCommand, At, FlatBlock, ProperBlock, IfDepth, LoopDepth, SafeSaved, SafeLp;
    var Repeat(until, cond, body) := s;
    AtRepeat(sh.script, p, s);
    var d := SkipIntoDo(sh, until, cond, p, np, trace);
    var m, q := SkipBlock(sh, body, p + 2, d, trace);
    IterAdd(sh, Running(np, p, trace), 2, m);
    np' := LeaveLoop(sh, p + 2 + |FlatBlock(body)|, q, trace);
    IterAdd(sh, Running(np, p, trace), 2 + m, 1);
    n := 3 + m;
  }

  // The condition of the first loop that stands directly in the block.
  function FirstLoopCondition(b: Block): Command
    requires !NoDirectLoop(b)
  {
    if b.head.Repeat? then b.head.cond else FirstLoopCondition(b.tail)
  }

  /**
    Reading past a loop body that is switched off.  It runs nothing if and only if no
    loop stands directly in it: the condition of such a loop would be run.
  */
  lemma {:induction false} SkipLoopBody(sh: Shell, b: Block, p: int, np: Np, trace: seq<Command>)
      returns (n: nat, np': Np)
    requires ProperBlock(b) && At(sh.script, p, FlatBlock(b))
    requires Ready(np, IfDepth(b), LoopDepth(b))
    requires np.LpTop().state == LpDo && !np.LpTop().enable && ItefEnabled(np)
    ensures NoDirectLoop(b) ==>
              && Iter(sh, Running(np, p, trace), n) == Running(np', p + |FlatBlock(b)|, trace)
              && Safe(np') && Keeps(np, np') && np'.fail == np.fail
    ensures !NoDirectLoop(b) ==> Iter(sh, Running(np, p, trace), n).trace == trace + [FirstLoopCondition(b)]
    decreases b
  {
    hide Step, At, FlatStmt, ProperStmt, IfDepthStmt, LoopDepthStmt, SafeSaved;
    match b
    case Nil =>
      n, np' := 0, np;
    case Cons(s, rest) =>
      AtSplit(sh.script, p, FlatStmt(s), FlatBlock(rest));
      hide Iter;
      if s.Repeat? {
        DeepLoop(s);
        RunsDirectCondition(sh, s, p, np, trace);
        n, np' := 1, np;
      } else {
        var m, q := SkipDisabled(sh, s, p, np, trace);
        n, np' := SkipLoopBody(sh, rest, p + |FlatStmt(s)|, q, trace);
        IterAdd(sh, Running(np, p, trace), m, n);
        n := m + n;
      }
  }

  lemma DeepLoop(s: Stmt)
    requires s.Repeat?
    ensures LoopDepthStmt(s) >= 1
  {
  }

  // Any statement but a loop is skipped where commands are disabled, for whatever reason.
  lemma SkipDisabled(sh: Shell, s: Stmt, p: int, np: Np, trace: seq<Command>)
      returns (n: nat, np': Np)
    requires !s.Repeat? && ProperStmt(s) && At(sh.script, p, FlatStmt(s))
    requires Ready(np, IfDepthStmt(s), LoopDepthStmt(s)) && !CmdEnabled(np)
    ensures Iter(sh, Running(np, p, trace), n) == Running(np', p + |FlatStmt(s)|, trace)
    ensures Safe(np') && Keeps(np, np') && np'.fail == np.fail
  {
    hide Step, Iter, At;
    match s
    case Cmd(argv) => n, np' := SkipPlain(sh, argv, p, np, trace);
    case Break => n, np' := SkipPlain(sh, [KwBreak], p, np, trace);
    case If(_, _, _, _, _) => n, np' := SkipIf(sh, s, p, np, trace);
  }

  lemma RunsDirectCondition(sh: Shell, s: Stmt, p: int, np: Np, trace: seq<Command>)
    requires s.Repeat? && ProperStmt(s) && At(sh.script, p, FlatStmt(s))
    requires Ready(np, 0, 1) && ItefEnabled(np)
    ensures Iter(sh, Running(np, p, trace), 1).trace == trace + [s.cond]
  {
    hide Step, Iter, ParseCommand;
    AtRepeat(sh.script, p, s);
    var w := One(sh, np, p, trace, [LoopKeyword(s.until)] + s.cond);
    ParseWhile(Positioned(np, p), s.until, s.cond, trace, sh.oracle);
  }
}
