/**
  A script of an unsupported shape that ends as it should for all command results.  The
  inner loop is left under an `if`, which takes an entry too many off the if-stack; the
  `break` of the outer loop puts it back.
*/
module NshRescued {
  import opened NshMachine
  import opened NshStructured
  import opened NshRun
  import opened NshSteps
  import opened NshSkip
  import opened NshNesting
  import opened NshSimulation
  import opened NshMeaning
  import opened NshRescue
  import opened NshExact

  // while j; do  if x; then break; fi; break;  done
  function InnerLoop(j: Command, x: Command): Stmt {
    Repeat(false, j, Cons(If(false, x, Cons(Break, Nil), false, Nil), Cons(Break, Nil)))
  }

  // if a; then <inner>; fi
  function OuterIf(a: Command, j: Command, x: Command): Stmt {
    If(false, a, Cons(InnerLoop(j, x), Nil), false, Nil)
  }

  // while k; do  <if>; break;  done
  function OuterLoop(k: Command, a: Command, j: Command, x: Command): Stmt {
    Repeat(false, k, Cons(OuterIf(a, j, x), Cons(Break, Nil)))
  }

  // if o; then <outer>; fi
  function RescuedScript(o: Command, k: Command, a: Command, j: Command, x: Command): Block {
    Cons(If(false, o, Cons(OuterLoop(k, a, j, x), Nil), false, Nil), Nil)
  }

  // ----- What it runs -----

  function InnerTrace(oracle: Oracle, t: seq<Command>, f: bool, j: Command, x: Command): seq<Command> {
    if oracle(t, f, j) then t + [j] else t + [j] + [x] + [[KwBreak]]
  }

  function OuterTrace(oracle: Oracle, t: seq<Command>, f: bool, k: Command, a: Command, j: Command,
                      x: Command): seq<Command> {
    var t1 := t + [k];
    if oracle(t, f, k) then t1
    else if oracle(t1, false, a) then t1 + [a] + [[KwBreak]]
    else InnerTrace(oracle, t1 + [a], false, j, x) + [[KwBreak]]
  }

  lemma InnerMeans(oracle: Oracle, ignore: bool, h: History, fuel: nat, j: Command, x: Command)
    ensures EvalStmt(InnerLoop(j, x), true, h, fuel, oracle, ignore)
         == Result(History(InnerTrace(oracle, h.trace, h.fail, j, x), false), fuel, Normal)
  {
    var h1, h2 := History(h.trace + [j], false), History(h.trace + [j] + [x], false);
    var body := InnerLoop(j, x).body;
    assert EvalBlock(Cons(Break, Nil), true, h2, fuel, oracle, ignore)
        == Result(History(h2.trace + [[KwBreak]], false), fuel, Broke);
    assert EvalStmt(body.head, true, h1, fuel, oracle, ignore)
        == if oracle(h1.trace, false, x) then Result(h2, fuel, Normal)
           else Result(History(h2.trace + [[KwBreak]], false), fuel, Broke);
    assert EvalBlock(body, true, h1, fuel, oracle, ignore)
        == Result(History(h2.trace + [[KwBreak]], false), fuel, Broke);
  }

  lemma OuterMeans(oracle: Oracle, ignore: bool, h: History, fuel: nat, k: Command, a: Command, j: Command, x: Command)
    ensures EvalStmt(OuterLoop(k, a, j, x), false, h, fuel, oracle, ignore)
         == Result(History(OuterTrace(oracle, h.trace, h.fail, k, a, j, x), false), fuel, Normal)
  {
    hide InnerLoop, InnerTrace;
    var h1, h2 := History(h.trace + [k], false), History(h.trace + [k] + [a], false);
    var body := OuterLoop(k, a, j, x).body;
    InnerMeans(oracle, ignore, h2, fuel, j, x);
    var r := EvalStmt(InnerLoop(j, x), true, h2, fuel, oracle, ignore);
    assert EvalBlock(Cons(InnerLoop(j, x), Nil), true, h2, fuel, oracle, ignore) == r;
    var m := if oracle(h1.trace, false, a) then Result(h2, fuel, Normal) else r;
    assert EvalStmt(body.head, true, h1, fuel, oracle, ignore) == m;
    assert EvalBlock(body.tail, true, m.h, fuel, oracle, ignore)
        == Result(History(m.h.trace + [[KwBreak]], false), fuel, Broke);
    assert EvalBlock(body, true, h1, fuel, oracle, ignore)
        == Result(History(m.h.trace + [[KwBreak]], false), fuel, Broke);
  }

  // `np'` is `np` but for the last `dropped` entries of the if-stack, which are there still.
  ghost predicate Drops(np: Np, np': Np, dropped: nat)
    requires np.InBounds()
  {
    Safe(np') && np'.iendx + dropped == np.iendx && Keeps(np, np'.(iendx := np.iendx))
  }

  // A `break` that is run in a loop body.
  lemma BreakStep(sh: Shell, p: int, np: Np, trace: seq<Command>) returns (np': Np)
    requires At(sh.script, p, [[KwBreak]]) && Ready(np, 0, 0) && CmdEnabled(np) && np.LpTop().state == LpDo
    requires np.LpTop().iendx < |np.ie| && np.ie[np.LpTop().iendx].state != IeIf
    ensures Iter(sh, Running(np, p, trace), 1) == Running(np', p + 1, trace + [[KwBreak]])
    ensures Safe(np') && np' == np.(fail := false, foffs := p, loffs := 0, jump := false, iendx := np.LpTop().iendx,
                                    lp := np.lp[np.lpndx := np.LpTop().(enable := false)])
  {
    hide Step, Iter, ParseCommand;
    var b := One(sh, np, p, trace, [KwBreak]);
    ParsePlain(Positioned(np, p), [KwBreak], trace, sh.oracle);
    np' := b.np;
  }

  // ----- The inner loop -----

  // From after the test of the inner loop, which lets it in, to its `done`.
  lemma InnerBody(sh: Shell, x: Command, p: int, np: Np, trace: seq<Command>) returns (n: nat, np': Np, dropped: nat)
    requires Condition(x) && At(sh.script, p, [IfWords(false, x), [KwThen], [KwBreak], [KwFi], [KwBreak]])
    requires Ready(np, 1, 0) && CmdEnabled(np) && np.LpTop().state == LpDo && np.LpTop().iendx == np.iendx
    requires np.IeTop().state == IeThen && np.iendx >= 1 && np.ie[np.iendx - 1].state != IeIf
    ensures Iter(sh, Running(np, p, trace), n) == Running(np', p + 5, trace + [x] + [[KwBreak]])
    ensures !np'.fail && dropped <= 1 && Drops(np.SetLp(np.LpTop().(enable := false)), np', dropped)
  {
    hide Step, Iter, At, ParseCommand, SafeSaved;
    FiveClauses(sh.script, p, x);
    var q := EnterIf(sh, false, x, p, np, trace);
    if sh.oracle(trace, np.fail, x) == false {
      n, np' := InnerThen(sh, p, np, q, trace, trace + [x]);
      dropped := 1;
    } else {
      n, np' := InnerElse(sh, p, np, q, trace, trace + [x]);
      dropped := 0;
    }
  }

  lemma FiveClauses(script: seq<Command>, p: int, x: Command)
    requires At(script, p, [IfWords(false, x), [KwThen], [KwBreak], [KwFi], [KwBreak]])
    ensures At(script, p, [IfWords(false, x)]) && At(script, p + 1, [[KwThen]]) && At(script, p + 2, [[KwBreak]])
    ensures At(script, p + 3, [[KwFi]]) && At(script, p + 4, [[KwBreak]])
  {
    var code := script[p..p + 5];
    assert code[0] == script[p] && code[1] == script[p + 1] && code[2] == script[p + 2];
    assert code[3] == script[p + 3] && code[4] == script[p + 4];
  }

  lemma InnerThen(sh: Shell, p: int, np: Np, q: Np, trace: seq<Command>, trace1: seq<Command>) returns (n: nat, np': Np)
    requires At(sh.script, p + 2, [[KwBreak]]) && At(sh.script, p + 3, [[KwFi]]) && At(sh.script, p + 4, [[KwBreak]])
    requires Ready(np, 1, 0) && np.LpTop().state == LpDo && np.LpTop().enable && np.LpTop().iendx == np.iendx
    requires np.IeTop().state == IeThen && np.iendx >= 1 && np.ie[np.iendx - 1].state != IeIf
    requires Iter(sh, Running(np, p, trace), 2) == Running(q, p + 2, trace1)
    requires Safe(q) && !q.fail && q.iendx == np.iendx + 1 && Keeps(np, q.(iendx := np.iendx))
    requires q.IeTop() == Itef(false, false, false, IeThen)
    ensures Iter(sh, Running(np, p, trace), n) == Running(np', p + 5, trace1 + [[KwBreak]])
    ensures !np'.fail && Drops(np.SetLp(np.LpTop().(enable := false)), np', 1)
  {
    hide Step, Iter, At, ParseCommand, SafeSaved;
    var c, t := Running(np, p, trace), trace1 + [[KwBreak]];
    var b := BreakStep(sh, p + 2, q, trace1);
    IterAdd(sh, c, 2, 1);
    var f := StepFi(sh, p + 3, b, t);
    IterAdd(sh, c, 3, 1);
    var k;
    k, np' := SkipPlain(sh, [KwBreak], p + 4, f, t);
    IterAdd(sh, c, 4, k);
    n := 4 + k;
  }

  lemma InnerElse(sh: Shell, p: int, np: Np, q: Np, trace: seq<Command>, trace1: seq<Command>) returns (n: nat, np': Np)
    requires At(sh.script, p + 2, [[KwBreak]]) && At(sh.script, p + 3, [[KwFi]]) && At(sh.script, p + 4, [[KwBreak]])
    requires Ready(np, 1, 0) && CmdEnabled(np) && np.LpTop().state == LpDo && np.LpTop().iendx == np.iendx
    requires Iter(sh, Running(np, p, trace), 2) == Running(q, p + 2, trace1)
    requires Safe(q) && !q.fail && q.iendx == np.iendx + 1 && Keeps(np, q.(iendx := np.iendx))
    requires q.IeTop() == Itef(true, false, false, IeThen)
    ensures Iter(sh, Running(np, p, trace), n) == Running(np', p + 5, trace1 + [[KwBreak]])
    ensures !np'.fail && Drops(np.SetLp(np.LpTop().(enable := false)), np', 0)
  {
    hide Step, Iter, At, ParseCommand, SafeSaved;
    var c := Running(np, p, trace);
    var k, s := SkipPlain(sh, [KwBreak], p + 2, q, trace1);
    IterAdd(sh, c, 2, k);
    var f := StepFi(sh, p + 3, s, trace1);
    IterAdd(sh, c, 2 + k, 1);
    np' := BreakStep(sh, p + 4, f, trace1);
    IterAdd(sh, c, 3 + k, 1);
    n := 4 + k;
  }

  lemma InnerRuns(sh: Shell, j: Command, x: Command, p: int, np: Np, trace: seq<Command>)
      returns (n: nat, np': Np, dropped: nat)
    requires Condition(j) && Condition(x) && At(sh.script, p, FlatStmt(InnerLoop(j, x)))
    requires Ready(np, 1, 1) && CmdEnabled(np) && np.IeTop().state == IeThen
    requires np.iendx >= 1 && np.ie[np.iendx - 1].state != IeIf
    ensures Iter(sh, Running(np, p, trace), n)
         == Running(np', p + |FlatStmt(InnerLoop(j, x))|, InnerTrace(sh.oracle, trace, np.fail, j, x))
    ensures !np'.fail && dropped <= 1 && Drops(np, np', dropped)
  {
    hide Step, Iter, At, SafeSaved, FlatStmt, FlatBlock, InnerLoop, IfDepth, LoopDepth, ProperBlock, NoDirectLoop,
         Drops;
    var s, c, trace1 := InnerLoop(j, x), Running(np, p, trace), trace + [j];
    InnerCode(j, x);
    AtRepeat(sh.script, p, s);
    var q := EnterLoop(sh, false, j, p, np, trace);
    var m, q1;
    if sh.oracle(trace, np.fail, j) {
      m, q1 := SkipLoopBody(sh, s.body, p + 2, q, trace1);
      dropped := 0;
      KeptDrops(q, q1);
    } else {
      m, q1, dropped := InnerBody(sh, x, p + 2, q, trace1);
    }
    IterAdd(sh, c, 2, m);
    np' := InnerLeft(sh, p + 7, np, q, q1, dropped, InnerTrace(sh.oracle, trace, np.fail, j, x));
    IterAdd(sh, c, 2 + m, 1);
    n := 3 + m;
  }

  lemma KeptDrops(q: Np, q1: Np)
    requires Safe(q) && q.LpTop().state == LpDo && !q.LpTop().enable && Safe(q1) && Keeps(q, q1)
    ensures Drops(q.SetLp(q.LpTop().(enable := false)), q1, 0)
  {
    hide SafeSaved;
  }

  // The `done` of the inner loop.
  lemma InnerLeft(sh: Shell, p: int, np: Np, q: Np, q1: Np, dropped: nat, trace: seq<Command>) returns (np': Np)
    requires At(sh.script, p, [[KwDone]]) && Ready(np, 1, 1) && dropped <= 1 && np.iendx >= 1
    requires np.IeTop().state == IeThen && np.ie[np.iendx - 1].state != IeIf
    requires Safe(q) && q.lpndx == np.lpndx + 1 && Keeps(np, q.(lpndx := np.lpndx)) && q.LpTop().state == LpDo
    requires !q1.fail && Drops(q.SetLp(q.LpTop().(enable := false)), q1, dropped)
    ensures Iter(sh, Running(q1, p, trace), 1) == Running(np', p + 1, trace)
    ensures !np'.fail && Drops(np, np', dropped)
  {
    hide Step, Iter, At, SafeSaved;
    assert q1.ie[np.iendx] == np.ie[np.iendx] && q1.ie[np.iendx - 1] == np.ie[np.iendx - 1];
    np' := LeaveLoop(sh, p, q1, trace);
  }

  lemma InnerCode(j: Command, x: Command)
    ensures var s := InnerLoop(j, x);
            && s.Repeat? && !s.until && s.cond == j && |FlatStmt(s)| == 8
            && FlatBlock(s.body) == [IfWords(false, x), [KwThen], [KwBreak], [KwFi], [KwBreak]]
            && (Condition(x) ==> ProperBlock(s.body)) && IfDepth(s.body) == 1 && LoopDepth(s.body) == 0
               && NoDirectLoop(s.body)
  {
    var body := InnerLoop(j, x).body;
    assert FlatBlock(Nil) == [] && FlatBlock(Cons(Break, Nil)) == [[KwBreak]] && FlatBlock(body.tail) == [[KwBreak]];
    assert FlatStmt(body.head) == [IfWords(false, x), [KwThen], [KwBreak], [KwFi]];
    assert IfDepth(Cons(Break, Nil)) == 0 && LoopDepth(Cons(Break, Nil)) == 0;
    assert IfDepthStmt(body.head) == 1 && LoopDepthStmt(body.head) == 0;
    assert ProperBlock(Cons(Break, Nil)) && NoDirectLoop(body.tail);
  }

  // ----- The outer loop -----

  // Under one `if`, at the beginning of the outer loop's body.
  ghost predicate UnderOne(np: Np) {
    && Ready(np, 2, 1) && CmdEnabled(np) && np.iendx == 1 && np.IeTop().state == IeThen
    && !np.ie[0].disabled
  }

  lemma OuterIfCode(a: Command, j: Command, x: Command)
    ensures var s := OuterIf(a, j, x);
            && FlatBlock(s.thn) == FlatStmt(InnerLoop(j, x)) && |FlatStmt(s)| == 11
            && (Condition(a) && Condition(j) && Condition(x) ==> ProperStmt(s) && ProperBlock(s.thn))
            && IfDepth(s.thn) == 1 && LoopDepth(s.thn) == 1 && IfDepthStmt(s) == 2 && LoopDepthStmt(s) == 1
  {
    hide InnerLoop;
    InnerCode(j, x);
    var s := InnerLoop(j, x);
    assert FlatBlock(Cons(s, Nil)) == FlatStmt(s) + FlatBlock(Nil) == FlatStmt(s);
    assert ProperBlock(Cons(s, Nil)) <==> ProperStmt(s) by { assert ProperBlock(Nil); }
    assert IfDepth(Cons(s, Nil)) == 1 && LoopDepth(Cons(s, Nil)) == 1
        by { assert IfDepth(Nil) == 0 && LoopDepth(Nil) == 0; }
  }

  lemma OuterIfRuns(sh: Shell, a: Command, j: Command, x: Command, p: int, np: Np, trace: seq<Command>)
      returns (n: nat, np': Np, dropped: nat)
    requires Condition(a) && Condition(j) && Condition(x) && At(sh.script, p, FlatStmt(OuterIf(a, j, x)))
             && UnderOne(np)
    ensures Iter(sh, Running(np, p, trace), n)
         == Running(np', p + 11, if sh.oracle(trace, np.fail, a) then trace + [a]
                                 else InnerTrace(sh.oracle, trace + [a], false, j, x))
    ensures !np'.fail && dropped <= 1 && Drops(np, np', dropped)
  {
    hide Step, Iter, At, SafeSaved, FlatStmt, FlatBlock, InnerLoop, InnerTrace, IfDepth, LoopDepth, ProperBlock,
         ProperStmt;
    var s, c, trace1 := OuterIf(a, j, x), Running(np, p, trace), trace + [a];
    OuterIfCode(a, j, x);
    AtIf(sh.script, p, s);
    var q := EnterIf(sh, false, a, p, np, trace);
    var m, q1;
    if sh.oracle(trace, np.fail, a) {
      m, q1 := SkipBlock(sh, s.thn, p + 2, q, trace1);
      dropped := 0;
    } else {
      m, q1, dropped := InnerRuns(sh, j, x, p + 2, q, trace1);
    }
    IterAdd(sh, c, 2, m);
    var t := if sh.oracle(trace, np.fail, a) then trace1 else InnerTrace(sh.oracle, trace1, false, j, x);
    np' := StepFi(sh, p + 10, q1, t);
    IterAdd(sh, c, 2 + m, 1);
    n := 3 + m;
  }

  lemma OuterCode(k: Command, a: Command, j: Command, x: Command)
    ensures var s := OuterLoop(k, a, j, x);
            && s.Repeat? && !s.until && s.cond == k && |FlatStmt(s)| == 15
            && FlatBlock(s.body) == FlatStmt(OuterIf(a, j, x)) + [[KwBreak]]
            && (Condition(a) && Condition(j) && Condition(x) ==> ProperBlock(s.body))
            && IfDepth(s.body) == 2 && LoopDepth(s.body) == 1 && NoDirectLoop(s.body)
  {
    hide OuterIf;
    OuterIfCode(a, j, x);
    IsIf(a, j, x);
    var s, rest := OuterIf(a, j, x), Cons(Break, Nil);
    assert FlatBlock(Nil) == [] && FlatBlock(rest) == [[KwBreak]];
    assert ProperBlock(rest) && NoDirectLoop(rest) && IfDepth(rest) == 0 && LoopDepth(rest) == 0;
    assert FlatBlock(Cons(s, rest)) == FlatStmt(s) + [[KwBreak]];
    assert IfDepth(Cons(s, rest)) == 2 && LoopDepth(Cons(s, rest)) == 1;
  }

  lemma IsIf(a: Command, j: Command, x: Command)
    ensures OuterIf(a, j, x).If?
  {
  }

  // Whether or not an entry was dropped, the `break` puts the if-stack right.
  lemma OuterBody(sh: Shell, a: Command, j: Command, x: Command, p: int, np: Np, trace: seq<Command>)
      returns (n: nat, np': Np)
    requires Condition(a) && Condition(j) && Condition(x) && At(sh.script, p, FlatStmt(OuterIf(a, j, x)) + [[KwBreak]])
    requires |FlatStmt(OuterIf(a, j, x))| == 11
    requires UnderOne(np) && np.LpTop().state == LpDo && np.LpTop().iendx == 1 && !np.fail
    ensures var t := if sh.oracle(trace, false, a) then trace + [a]
            else InnerTrace(sh.oracle, trace + [a], false, j, x);
            Iter(sh, Running(np, p, trace), n) == Running(np', p + 12, t + [[KwBreak]])
    ensures Safe(np') && !np'.fail && Keeps(np.SetLp(np.LpTop().(enable := false)), np')
  {
    hide Step, Iter, At, SafeSaved, FlatStmt, OuterIf, InnerTrace;
    AtSplit(sh.script, p, FlatStmt(OuterIf(a, j, x)), [[KwBreak]]);
    var m, q, dropped := OuterIfRuns(sh, a, j, x, p, np, trace);
    var t := if sh.oracle(trace, false, a) then trace + [a] else InnerTrace(sh.oracle, trace + [a], false, j, x);
    np' := BreakStep(sh, p + 11, q, t);
    IterAdd(sh, Running(np, p, trace), m, 1);
    n := m + 1;
  }

  lemma OuterRuns(sh: Shell, k: Command, a: Command, j: Command, x: Command, p: int, np: Np, trace: seq<Command>)
      returns (n: nat, np': Np)
    requires Condition(k) && Condition(a) && Condition(j) && Condition(x)
             && At(sh.script, p, FlatStmt(OuterLoop(k, a, j, x)))
    requires Ready(np, 2, 2) && CmdEnabled(np) && np.iendx == 1 && np.IeTop().state == IeThen && !np.ie[0].disabled
    ensures Iter(sh, Running(np, p, trace), n)
            == Running(np', p + 15, OuterTrace(sh.oracle, trace, np.fail, k, a, j, x))
    ensures Safe(np') && !np'.fail && Keeps(np, np')
  {
    hide Step, Iter, At, SafeSaved, FlatStmt, FlatBlock, OuterLoop, OuterIf, InnerTrace, IfDepth, LoopDepth,
         ProperBlock, NoDirectLoop;
    var s, c, trace1 := OuterLoop(k, a, j, x), Running(np, p, trace), trace + [k];
    OuterCode(k, a, j, x);
    OuterIfCode(a, j, x);
    AtRepeat(sh.script, p, s);
    var q := EnterLoop(sh, false, k, p, np, trace);
    var m, q1;
    if sh.oracle(trace, np.fail, k) {
      m, q1 := SkipLoopBody(sh, s.body, p + 2, q, trace1);
    } else {
      m, q1 := OuterBody(sh, a, j, x, p + 2, q, trace1);
    }
    IterAdd(sh, c, 2, m);
    np' := LeaveLoop(sh, p + 14, q1, OuterTrace(sh.oracle, trace, np.fail, k, a, j, x));
    IterAdd(sh, c, 2 + m, 1);
    n := 3 + m;
  }

  // ----- The script -----

  lemma ScriptCode(o: Command, k: Command, a: Command, j: Command, x: Command)
    ensures var b := RescuedScript(o, k, a, j, x);
            && b.head.If? && b.tail == Nil && FlatBlock(b) == FlatStmt(b.head)
            && FlatBlock(b.head.thn) == FlatStmt(OuterLoop(k, a, j, x)) && |FlatStmt(b.head)| == 18
            && IfDepth(b) == 3 && LoopDepth(b) == 2 && IfDepth(b.head.thn) == 2 && LoopDepth(b.head.thn) == 2
            && (Condition(o) && Condition(k) && Condition(a) && Condition(j) && Condition(x)
               ==> ProperBlock(b.head.thn))
  {
    hide OuterLoop;
    OuterCode(k, a, j, x);
    var s := OuterLoop(k, a, j, x);
    assert FlatBlock(Cons(s, Nil)) == FlatStmt(s) + FlatBlock(Nil) == FlatStmt(s);
    assert ProperBlock(Cons(s, Nil)) <==> ProperStmt(s) by { assert ProperBlock(Nil); }
    assert IfDepth(Cons(s, Nil)) == 2 && LoopDepth(Cons(s, Nil)) == 2
        by { assert IfDepth(Nil) == 0 && LoopDepth(Nil) == 0; }
    var b := RescuedScript(o, k, a, j, x);
    assert FlatBlock(b) == FlatStmt(b.head) + FlatBlock(Nil) == FlatStmt(b.head);
    assert IfDepthStmt(b.head) == 3 && LoopDepthStmt(b.head) == 2;
  }

  lemma EndsAfter(sh: Shell, c: Config, m: nat, np: Np, trace: seq<Command>)
    requires Safe(c.np) && Safe(np) && Iter(sh, c, m) == Running(np, |sh.script|, trace)
    ensures Iter(sh, c, m + 1) == Halted(np, trace, true)
  {
    hide Iter, Step;
    var d := Running(np, |sh.script|, trace);
    AtTheEnd(sh, d);
    OneStep(sh, d);
    IterAdd(sh, c, m, 1);
  }

  lemma ScriptRuns(sh: Shell, o: Command, k: Command, a: Command, j: Command, x: Command, np: Np, trace: seq<Command>)
      returns (n: nat, np': Np)
    requires Condition(o) && Condition(k) && Condition(a) && Condition(j) && Condition(x)
    requires sh.script == FlatBlock(RescuedScript(o, k, a, j, x))
    requires Ready(np, 3, 2) && CmdEnabled(np) && np.iendx == 0
    ensures var t := if sh.oracle(trace, np.fail, o) then trace + [o]
            else OuterTrace(sh.oracle, trace + [o], false, k, a, j, x);
            Iter(sh, Running(np, 0, trace), n) == Halted(np', t, true)
    ensures !np'.fail
  {
    hide Step, Iter, SafeSaved, FlatStmt, FlatBlock, OuterLoop, OuterTrace, IfDepth, LoopDepth, ProperBlock;
    var b, c, trace1 := RescuedScript(o, k, a, j, x), Running(np, 0, trace), trace + [o];
    ScriptCode(o, k, a, j, x);
    assert sh.script[0..0 + |sh.script|] == sh.script;
    AtIf(sh.script, 0, b.head);
    var q := EnterIf(sh, false, o, 0, np, trace);
    var m, q1;
    var t := if sh.oracle(trace, np.fail, o) then trace1 else OuterTrace(sh.oracle, trace1, false, k, a, j, x);
    if sh.oracle(trace, np.fail, o) {
      m, q1 := SkipBlock(sh, b.head.thn, 2, q, trace1);
    } else {
      m, q1 := OuterRuns(sh, k, a, j, x, 2, q, trace1);
    }
    IterAdd(sh, c, 2, m);
    np' := StepFi(sh, 17, q1, t);
    IterAdd(sh, c, 2 + m, 1);
    EndsAfter(sh, c, 3 + m, np', t);
    n := 4 + m;
  }

  lemma ScriptMeans(oracle: Oracle, ignore: bool, h: History, fuel: nat, o: Command, k: Command, a: Command,
                    j: Command, x: Command)
    ensures var t := if oracle(h.trace, h.fail, o) then h.trace + [o]
            else OuterTrace(oracle, h.trace + [o], false, k, a, j, x);
            EvalBlock(RescuedScript(o, k, a, j, x), false, h, fuel, oracle, ignore)
                == Result(History(t, false), fuel, Normal)
  {
    hide OuterLoop, OuterTrace;
    var b, h1 := RescuedScript(o, k, a, j, x), History(h.trace + [o], false);
    OuterMeans(oracle, ignore, h1, fuel, k, a, j, x);
    var r := EvalStmt(OuterLoop(k, a, j, x), false, h1, fuel, oracle, ignore);
    assert EvalBlock(b.head.thn, false, h1, fuel, oracle, ignore) == r;
    var m := if oracle(h.trace, h.fail, o) then Result(h1, fuel, Normal) else r;
    assert EvalStmt(b.head, false, h, fuel, oracle, ignore) == m;
    assert EvalBlock(Nil, false, m.h, fuel, oracle, ignore) == m;
  }

  /**
    It ends as it should for all command results, although its shape is not supported: the
    endings alone do not tell.
  */
  lemma RescuedAgrees(o: Command, k: Command, a: Command, j: Command, x: Command, joined: seq<bool>, np: Np,
                      ignore: bool)
    requires Startable(RescuedScript(o, k, a, j, x), np)
    requires Condition(o) && Condition(k) && Condition(a) && Condition(j) && Condition(x)
    ensures AlwaysAgrees(RescuedScript(o, k, a, j, x), joined, np, ignore)
    ensures !SupportedBlock(RescuedScript(o, k, a, j, x), Outside) && !NoRescue(RescuedScript(o, k, a, j, x), 0)
  {
    hide EvalBlock, OuterTrace, Iter, Step, FlatBlock, ProperBlock, IfDepth, LoopDepth, SupportedBlock, NoRescue;
    var b := RescuedScript(o, k, a, j, x);
    RescuedShape(o, k, a, j, x);
    ScriptCode(o, k, a, j, x);
    forall oracle: Oracle, trace: seq<Command>, e: Ending
      ensures Halts(Shell(FlatBlock(b), joined, oracle, ignore), Running(np, 0, trace), e)
              <==> Means(b, History(trace, np.fail), oracle, ignore, e)
    {
      OneEnding(Shell(FlatBlock(b), joined, oracle, ignore), o, k, a, j, x, np, trace, e);
    }
  }

  lemma OneEnding(sh: Shell, o: Command, k: Command, a: Command, j: Command, x: Command, np: Np, trace: seq<Command>,
                  e: Ending)
    requires Condition(o) && Condition(k) && Condition(a) && Condition(j) && Condition(x)
    requires sh.script == FlatBlock(RescuedScript(o, k, a, j, x)) && Ready(np, 3, 2) && CmdEnabled(np) && np.iendx == 0
    ensures Halts(sh, Running(np, 0, trace), e)
            <==> Means(RescuedScript(o, k, a, j, x), History(trace, np.fail), sh.oracle, sh.ignore, e)
  {
    hide EvalBlock, RescuedScript, OuterTrace, Iter, Step, FlatBlock;
    var b, c, h := RescuedScript(o, k, a, j, x), Running(np, 0, trace), History(trace, np.fail);
    var n, np' := ScriptRuns(sh, o, k, a, j, x, np, trace);
    var t := if sh.oracle(trace, np.fail, o) then trace + [o]
        else OuterTrace(sh.oracle, trace + [o], false, k, a, j, x);
    assert HaltsIn(sh, c, n, Ending(t, false, true));
    ScriptMeans(sh.oracle, sh.ignore, h, 0, o, k, a, j, x);
    assert MeansWith(b, h, 0, sh.oracle, sh.ignore, Ending(t, false, true));
    if Halts(sh, c, e) {
      var m: nat :| HaltsIn(sh, c, m, e);
      Unique(sh, c, m, n);
    }
    if Means(b, h, sh.oracle, sh.ignore, e) {
      var fuel: nat :| MeansWith(b, h, fuel, sh.oracle, sh.ignore, e);
      ScriptMeans(sh.oracle, sh.ignore, h, fuel, o, k, a, j, x);
    }
  }

  lemma OuterUnsupported(k: Command, a: Command, j: Command, x: Command)
    ensures !SupportedStmt(OuterLoop(k, a, j, x), Outside)
    ensures !SupportedStmt(OuterLoop(k, a, j, x), UnderIf)
  {
    var inner, outer := InnerLoop(j, x), OuterLoop(k, a, j, x);
    assert !SupportedBlock(Cons(Break, Nil), UnderIf);
    assert !SupportedStmt(inner.body.head, Directly);
    assert !SupportedStmt(inner, UnderIf);
    assert !SupportedBlock(Cons(inner, Nil), UnderIf);
    assert !SupportedStmt(OuterIf(a, j, x), Directly);
  }

  lemma RescuedShape(o: Command, k: Command, a: Command, j: Command, x: Command)
    ensures !SupportedBlock(RescuedScript(o, k, a, j, x), Outside) && !NoRescue(RescuedScript(o, k, a, j, x), 0)
  {
    var inner, outer, whole := InnerLoop(j, x), OuterLoop(k, a, j, x), RescuedScript(o, k, a, j, x).head;
    OuterUnsupported(k, a, j, x);
    assert !SupportedBlock(Cons(outer, Nil), Outside) && !SupportedStmt(whole, Outside);
    assert BreaksWithin(Cons(Break, Nil), 1, 1);
    assert BreakWithin(inner.body.head, 0, 1);
    assert LeftWithinStmt(inner, 1) && LeftWithin(Cons(inner, Nil), 1);
    assert LeftWithinStmt(OuterIf(a, j, x), 1);
    assert LeftWithin(outer.body, 1) && DirectBreak(outer.body.tail) && DirectBreak(outer.body);
    RescueStmt(outer, 1);
    assert !NoRescue(Cons(outer, Nil), 1) && !NoRescueStmt(whole, 0);
  }

  lemma RescueStmt(s: Stmt, depth: nat)
    requires s.Repeat? && DirectBreak(s.body) && LeftWithin(s.body, depth)
    ensures !NoRescueStmt(s, depth)
  {
  }
}
