/**
  With errors ignored, shapes that are not supported may end as they should even if no outer
  `break` restores the if-stack: a stray `fi` is an error that is passed over.
*/
module NshIgnored {
  import opened NshMachine
  import opened NshStructured
  import opened NshRun
  import opened NshSteps
  import opened NshSkip
  import opened NshNesting
  import opened NshSimulation
  import opened NshMeaning
  import opened NshRescue
  import opened NshExact
  import opened NshRescued

  // while k; do  if a; then  while j; do if x; then break; fi; break; done;  fi; break;  done
  function IgnoredScript(k: Command, a: Command, j: Command, x: Command): Block {
    Cons(OuterLoop(k, a, j, x), Nil)
  }

  // But for the bottom entry of the if-stack, which may have been reset, `np'` is as `np`.
  ghost predicate Resets(np: Np, np': Np)
    requires np.InBounds()
  {
    && Safe(np') && np.iendx == np'.iendx == 0
    && np'.ie[0] in {np.ie[0], ITEF_RESET} && Keeps(np, np'.(ie := np'.ie[0 := np.ie[0]]))
  }

  // A `fi` without its `if`, at the bottom of the if-stack.
  lemma StrayFi(sh: Shell, p: int, np: Np, trace: seq<Command>) returns (np': Np)
    requires sh.ignore && sh.joined == [] && At(sh.script, p, [[KwFi]])
    requires Ready(np, 0, 0) && np.iendx == 0 && np.LpTop().state == LpDo
    ensures Iter(sh, Running(np, p, trace), 1) == Running(np', p + 1, trace) && Resets(np, np')
  {
    hide Step, Iter;
    var r := One(sh, np, p, trace, [KwFi]);
    var q := Positioned(np, p);
    assert LoopPhase(q, [KwFi]) == Phase(q, [KwFi], true) && ItefPhase(q, [KwFi]) == ItefError(q);
    hide LoopPhase, ItefPhase;
    np' := r.np;
  }

  // At the beginning of the outer loop's body, under no `if`.
  ghost predicate UnderNone(np: Np) {
    Ready(np, 2, 1) && CmdEnabled(np) && np.iendx == 0 && np.LpTop().state == LpDo
  }

  lemma BareIfRuns(sh: Shell, a: Command, j: Command, x: Command, p: int, np: Np, trace: seq<Command>)
      returns (n: nat, np': Np)
    requires Condition(a) && Condition(j) && Condition(x) && At(sh.script, p, FlatStmt(OuterIf(a, j, x)))
    requires UnderNone(np) && sh.ignore && sh.joined == []
    ensures Iter(sh, Running(np, p, trace), n)
         == Running(np', p + 11, if sh.oracle(trace, np.fail, a) then trace + [a]
                                 else InnerTrace(sh.oracle, trace + [a], false, j, x))
    ensures Resets(np, np')
  {
    hide Step, Iter, At, SafeSaved, FlatStmt, FlatBlock, InnerLoop, InnerTrace, IfDepth, LoopDepth, ProperBlock,
         ProperStmt;
    var s, c, trace1 := OuterIf(a, j, x), Running(np, p, trace), trace + [a];
    OuterIfCode(a, j, x);
    AtIf(sh.script, p, s);
    var q := EnterIf(sh, false, a, p, np, trace);
    var m, q1, dropped;
    if sh.oracle(trace, np.fail, a) {
      m, q1 := SkipBlock(sh, s.thn, p + 2, q, trace1);
      dropped := 0;
    } else {
      m, q1, dropped := InnerRuns(sh, j, x, p + 2, q, trace1);
    }
    IterAdd(sh, c, 2, m);
    var t := if sh.oracle(trace, np.fail, a) then trace1 else InnerTrace(sh.oracle, trace1, false, j, x);
    if dropped == 0 {
      np' := StepFi(sh, p + 10, q1, t);
    } else {
      np' := StrayFi(sh, p + 10, q1, t);
    }
    IterAdd(sh, c, 2 + m, 1);
    n := 3 + m;
  }

  lemma BareBody(sh: Shell, a: Command, j: Command, x: Command, p: int, np: Np, trace: seq<Command>)
      returns (n: nat, np': Np)
    requires Condition(a) && Condition(j) && Condition(x) && At(sh.script, p, FlatStmt(OuterIf(a, j, x)) + [[KwBreak]])
    requires |FlatStmt(OuterIf(a, j, x))| == 11 && sh.ignore && sh.joined == []
    requires UnderNone(np) && np.LpTop().iendx == 0 && !np.fail
    ensures var t := if sh.oracle(trace, false, a) then trace + [a]
                     else InnerTrace(sh.oracle, trace + [a], false, j, x);
            Iter(sh, Running(np, p, trace), n) == Running(np', p + 12, t + [[KwBreak]])
    ensures !np'.fail && Resets(np.SetLp(np.LpTop().(enable := false)), np')
  {
    hide Step, Iter, At, SafeSaved, FlatStmt, OuterIf, InnerTrace;
    AtSplit(sh.script, p, FlatStmt(OuterIf(a, j, x)), [[KwBreak]]);
    var m, q := BareIfRuns(sh, a, j, x, p, np, trace);
    var t := if sh.oracle(trace, false, a) then trace + [a] else InnerTrace(sh.oracle, trace + [a], false, j, x);
    np' := BreakStep(sh, p + 11, q, t);
    IterAdd(sh, Running(np, p, trace), m, 1);
    n := m + 1;
  }

  // The loop is over, up to its `done`.
  ghost predicate Finished(np: Np) {
    Ready(np, 0, 0) && np.LpTop().state == LpDo && !np.LpTop().enable && !np.fail
  }

  lemma KeptFinished(np: Np, np': Np)
    requires Ready(np, 0, 0) && np.LpTop().state == LpDo && !np.LpTop().enable
    requires Safe(np') && !np'.fail && Keeps(np, np')
    ensures Finished(np')
  {
    hide Safe;
  }

  lemma ResetFinished(np: Np, np': Np)
    requires Ready(np, 0, 0) && np.LpTop().state == LpDo && !np'.fail
    requires Resets(np.SetLp(np.LpTop().(enable := false)), np')
    ensures Finished(np')
  {
    hide SafeSaved;
  }

  lemma BareRuns(sh: Shell, k: Command, a: Command, j: Command, x: Command, np: Np, trace: seq<Command>)
      returns (n: nat, np': Np)
    requires Condition(k) && Condition(a) && Condition(j) && Condition(x)
    requires sh.script == FlatStmt(OuterLoop(k, a, j, x)) && sh.ignore && sh.joined == []
    requires Ready(np, 2, 2) && CmdEnabled(np) && np.iendx == 0
    ensures Iter(sh, Running(np, 0, trace), n)
         == Halted(np', OuterTrace(sh.oracle, trace, np.fail, k, a, j, x), true)
    ensures !np'.fail
  {
    hide Step, Iter, SafeSaved, FlatStmt, FlatBlock, OuterLoop, OuterIf, InnerTrace, IfDepth, LoopDepth,
         ProperBlock, NoDirectLoop, Finished, Resets;
    var s, c, trace1 := OuterLoop(k, a, j, x), Running(np, 0, trace), trace + [k];
    OuterCode(k, a, j, x);
    OuterIfCode(a, j, x);
    assert sh.script[0..0 + |sh.script|] == sh.script;
    AtRepeat(sh.script, 0, s);
    var q := EnterLoop(sh, false, k, 0, np, trace);
    var m, q1;
    if sh.oracle(trace, np.fail, k) {
      m, q1 := SkipLoopBody(sh, s.body, 2, q, trace1);
      KeptFinished(q, q1);
    } else {
      m, q1 := BareBody(sh, a, j, x, 2, q, trace1);
      ResetFinished(q, q1);
    }
    IterAdd(sh, c, 2, m);
    var t := OuterTrace(sh.oracle, trace, np.fail, k, a, j, x);
    np' := LeaveFinished(sh, 14, q1, t);
    IterAdd(sh, c, 2 + m, 1);
    EndsAfter(sh, c, 3 + m, np', t);
    n := 4 + m;
  }

  lemma LeaveFinished(sh: Shell, p: int, np: Np, trace: seq<Command>) returns (np': Np)
    requires Finished(np) && At(sh.script, p, [[KwDone]])
    ensures Iter(sh, Running(np, p, trace), 1) == Running(np', p + 1, trace) && Safe(np') && !np'.fail
  {
    hide Step, Iter, At;
    np' := LeaveLoop(sh, p, np, trace);
  }

  lemma BareMeans(oracle: Oracle, h: History, fuel: nat, k: Command, a: Command, j: Command, x: Command)
    ensures EvalBlock(IgnoredScript(k, a, j, x), false, h, fuel, oracle, true)
         == Result(History(OuterTrace(oracle, h.trace, h.fail, k, a, j, x), false), fuel, Normal)
  {
    hide OuterLoop, OuterTrace;
    OuterMeans(oracle, true, h, fuel, k, a, j, x);
    var r := EvalStmt(OuterLoop(k, a, j, x), false, h, fuel, oracle, true);
    assert EvalBlock(Nil, false, r.h, r.fuel, oracle, true) == r;
  }

  lemma BareEnding(sh: Shell, k: Command, a: Command, j: Command, x: Command, np: Np, trace: seq<Command>, e: Ending)
    requires Condition(k) && Condition(a) && Condition(j) && Condition(x)
    requires sh.script == FlatStmt(OuterLoop(k, a, j, x)) && sh.ignore && sh.joined == []
    requires Ready(np, 2, 2) && CmdEnabled(np) && np.iendx == 0
    ensures Halts(sh, Running(np, 0, trace), e)
            <==> Means(IgnoredScript(k, a, j, x), History(trace, np.fail), sh.oracle, true, e)
  {
    hide EvalBlock, IgnoredScript, OuterTrace, Iter, Step, FlatStmt;
    var b, c, h := IgnoredScript(k, a, j, x), Running(np, 0, trace), History(trace, np.fail);
    var n, np' := BareRuns(sh, k, a, j, x, np, trace);
    var t := OuterTrace(sh.oracle, trace, np.fail, k, a, j, x);
    assert HaltsIn(sh, c, n, Ending(t, false, true));
    BareMeans(sh.oracle, h, 0, k, a, j, x);
    assert MeansWith(b, h, 0, sh.oracle, true, Ending(t, false, true));
    if Halts(sh, c, e) {
      var m: nat :| HaltsIn(sh, c, m, e);
      Unique(sh, c, m, n);
    }
    if Means(b, h, sh.oracle, true, e) {
      var fuel: nat :| MeansWith(b, h, fuel, sh.oracle, true, e);
      BareMeans(sh.oracle, h, fuel, k, a, j, x);
    }
  }

  /**
    With errors ignored it ends as it should for all command results, although its shape is
    not supported; with errors not ignored it does not.
  */
  lemma IgnoredAgrees(k: Command, a: Command, j: Command, x: Command, np: Np)
    requires Startable(IgnoredScript(k, a, j, x), np)
    requires Condition(k) && Condition(a) && Condition(j) && Condition(x)
    ensures !SupportedBlock(IgnoredScript(k, a, j, x), Outside)
    ensures AlwaysAgrees(IgnoredScript(k, a, j, x), [], np, true)
    ensures !AlwaysAgrees(IgnoredScript(k, a, j, x), [], np, false)
  {
    hide OuterTrace, Iter, Step, FlatBlock, FlatStmt, ProperBlock, SupportedBlock, NoRescue, OuterLoop, Halts, Means;
    var b := IgnoredScript(k, a, j, x);
    BareShape(k, a, j, x);
    forall oracle: Oracle, trace: seq<Command>, e: Ending
      ensures Halts(Shell(FlatBlock(b), [], oracle, true), Running(np, 0, trace), e)
              <==> Means(b, History(trace, np.fail), oracle, true, e)
    {
      BareEnding(Shell(FlatBlock(b), [], oracle, true), k, a, j, x, np, trace, e);
    }
    EndingsExact(b, [], np);
  }

  lemma BareShape(k: Command, a: Command, j: Command, x: Command)
    ensures var b := IgnoredScript(k, a, j, x);
            && FlatBlock(b) == FlatStmt(b.head) && IfDepth(b) == 2 && LoopDepth(b) == 2
            && NoRescue(b, 0) && !SupportedBlock(b, Outside)
  {
    hide OuterLoop;
    OuterCode(k, a, j, x);
    var s := OuterLoop(k, a, j, x);
    assert FlatBlock(Cons(s, Nil)) == FlatStmt(s) + FlatBlock(Nil) == FlatStmt(s);
    assert IfDepth(Cons(s, Nil)) == 2 && LoopDepth(Cons(s, Nil)) == 2
        by { assert IfDepth(Nil) == 0 && LoopDepth(Nil) == 0; }
    BareUnrescued(k, a, j, x);
    assert NoRescue(Cons(s, Nil), 0) by { assert NoRescue(Nil, 0); }
  }

  lemma BareUnrescued(k: Command, a: Command, j: Command, x: Command)
    ensures NoRescueStmt(OuterLoop(k, a, j, x), 0) && !SupportedStmt(OuterLoop(k, a, j, x), Outside)
  {
    var inner, outer := InnerLoop(j, x), OuterLoop(k, a, j, x);
    OuterUnsupported(k, a, j, x);
    assert !LeftWithin(outer.body, 0) by { NoneWithin(outer.body); }
    assert NoRescue(Nil, 1) && NoRescue(Nil, 0) && NoRescue(Nil, 2) && NoRescue(Cons(Break, Nil), 0);
    assert NoRescue(Cons(Break, Nil), 2) && NoRescue(Cons(Break, Nil), 1);
    assert !LeftWithin(Nil, 1) && !LeftWithin(Cons(Break, Nil), 1);
    assert !LeftWithinStmt(inner.body.head, 1) && !LeftWithin(inner.body, 1);
    assert NoRescueStmt(inner, 1) && NoRescue(Cons(inner, Nil), 1);
    assert NoRescueStmt(OuterIf(a, j, x), 0) && NoRescue(outer.body, 0);
  }

  // No loop is left under at least one and at most no `if`.
  lemma {:induction false} NoBreakWithin(b: Block, under: nat)
    ensures !BreaksWithin(b, under, 0)
    decreases b
  {
    match b
    case Nil =>
    case Cons(s, rest) =>
      NoBreakWithin(rest, under);
      match s
      case If(_, _, thn, _, els) =>
        NoBreakWithin(thn, under + 1);
        NoBreakWithin(els, under + 1);
      case _ =>
  }

  lemma {:induction false} NoneWithin(b: Block)
    ensures !LeftWithin(b, 0)
    decreases b
  {
    match b
    case Nil =>
    case Cons(s, rest) =>
      NoneWithin(rest);
      match s
      case If(_, _, thn, _, els) =>
        NoneWithin(thn);
        NoneWithin(els);
      case Repeat(_, _, body) =>
        NoBreakWithin(body, 0);
        NoneWithin(body);
      case _ =>
  }
}
