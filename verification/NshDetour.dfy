/**
  Command results that lead a script of an unsupported shape to the first place where
  the machine goes wrong, and from there to its end on the cheapest way: the machine runs
  at least one command more than the structured script does, or never gets there.
*/
module NshDetour {
  import opened NshMachine
  import opened NshStructured
  import opened NshRun
  import opened NshSteps
  import opened NshSkip
  import opened NshSimulation
  import opened NshNesting
  import opened NshPlaced
  import opened NshCost

  // Results of the commands run, in order, and how the block ends.
  datatype Path = Path(answers: seq<bool>, out: Outcome)

  function Then(a: Path, b: Path): Path {
    if a.out.Normal? then Path(a.answers + b.answers, b.out) else a
  }

  function First(answer: bool, p: Path): Path {
    Path([answer] + p.answers, p.out)
  }

  // What the path costs, with `e` to come after its end and `x` after the loop it leaves.
  function Value(p: Path, e: nat, x: nat): nat {
    |p.answers| + if p.out.Normal? then e else x
  }

  // ----- The cheapest way -----

  function Cheapest(b: Block, inLoop: bool, e: nat, x: nat): Path {
    match b
    case Nil => Path([], Normal)
    case Cons(s, rest) =>
      Then(CheapestStmt(s, inLoop, Cost(rest, inLoop, e, x), x), Cheapest(rest, inLoop, e, x))
  }

  function CheapestStmt(s: Stmt, inLoop: bool, e: nat, x: nat): Path {
    match s
    case Cmd(_) => Path([false], Normal)
    case Break => Path([false], if inLoop then Broke else Normal)
    case If(inverted, _, thn, hasElse, els) =>
      if Cost(thn, inLoop, e, x) < (if hasElse then Cost(els, inLoop, e, x) else e)
      then First(inverted, Cheapest(thn, inLoop, e, x))
      else First(!inverted, if hasElse then Cheapest(els, inLoop, e, x) else Path([], Normal))
    case Repeat(until, _, _) => Path([!until], Normal)
  }

  predicate Ends(p: Path) {
    p.out.Normal? || p.out.Broke?
  }

  lemma {:induction false} CheapestValue(b: Block, inLoop: bool, e: nat, x: nat)
    ensures Ends(Cheapest(b, inLoop, e, x)) && Value(Cheapest(b, inLoop, e, x), e, x) == Cost(b, inLoop, e, x)
    decreases b
  {
    match b
    case Nil =>
    case Cons(s, rest) =>
      CheapestStmtValue(s, inLoop, Cost(rest, inLoop, e, x), x);
      CheapestValue(rest, inLoop, e, x);
  }

  lemma {:induction false} CheapestStmtValue(s: Stmt, inLoop: bool, e: nat, x: nat)
    ensures Ends(CheapestStmt(s, inLoop, e, x))
            && Value(CheapestStmt(s, inLoop, e, x), e, x) == CostStmt(s, inLoop, e, x)
    decreases s
  {
    match s
    case If(_, _, thn, hasElse, els) =>
      CheapestValue(thn, inLoop, e, x);
      if hasElse { CheapestValue(els, inLoop, e, x); }
    case _ =>
  }

  // ----- Command results that follow a path -----

  ghost predicate Obeys(oracle: Oracle, k: nat, answers: seq<bool>) {
    forall t: seq<Command>, f: bool, a: Command :: k <= |t| < k + |answers| ==> oracle(t, f, a) == answers[|t| - k]
  }

  lemma ObeysParts(oracle: Oracle, k: nat, a: seq<bool>, b: seq<bool>)
    requires Obeys(oracle, k, a + b)
    ensures Obeys(oracle, k, a) && Obeys(oracle, k + |a|, b)
  {
  }

  // The structured script takes the path.
  predicate Takes(r: Result, path: Path, h: History, fuel: nat) {
    r.out == path.out && |r.h.trace| == |h.trace| + |path.answers| && r.fuel + |path.answers| >= fuel
  }

  lemma {:induction false} CheapestTaken(b: Block, inLoop: bool, e: nat, x: nat, h: History, fuel: nat, oracle: Oracle)
    requires Obeys(oracle, |h.trace|, Cheapest(b, inLoop, e, x).answers)
    ensures Takes(EvalBlock(b, inLoop, h, fuel, oracle, false), Cheapest(b, inLoop, e, x), h, fuel)
    decreases b
  {
    hide Obeys, EvalStmt, CheapestStmt, CostStmt;
    match b
    case Nil =>
    case Cons(s, rest) =>
      var l, r := CheapestStmt(s, inLoop, Cost(rest, inLoop, e, x), x), Cheapest(rest, inLoop, e, x);
      if l.out.Normal? { ObeysParts(oracle, |h.trace|, l.answers, r.answers); }
      CheapestStmtTaken(s, inLoop, Cost(rest, inLoop, e, x), x, h, fuel, oracle);
      var m := EvalStmt(s, inLoop, h, fuel, oracle, false);
      if m.out.Normal? {
        CheapestTaken(rest, inLoop, e, x, m.h, m.fuel, oracle);
      }
  }

  lemma {:induction false} CheapestStmtTaken(s: Stmt, inLoop: bool, e: nat, x: nat, h: History, fuel: nat,
                                             oracle: Oracle)
    requires Obeys(oracle, |h.trace|, CheapestStmt(s, inLoop, e, x).answers)
    ensures Takes(EvalStmt(s, inLoop, h, fuel, oracle, false), CheapestStmt(s, inLoop, e, x), h, fuel)
    decreases s
  {
    hide Cost;
    match s
    case If(_, cond, thn, hasElse, els) =>
      var h1, w := History(h.trace + [cond], false), CheapestStmt(s, inLoop, e, x).answers;
      assert w == [w[0]] + w[1..];
      ObeysParts(oracle, |h.trace|, [w[0]], w[1..]);
      if oracle(h.trace, h.fail, cond) == s.inverted {
        CheapestTaken(thn, inLoop, e, x, h1, fuel, oracle);
      } else if hasElse {
        CheapestTaken(els, inLoop, e, x, h1, fuel, oracle);
      }
    case _ =>
  }

  // ----- The way to what goes wrong -----

  function Detour(b: Block, c: Context, e: nat, x: nat): Path
    requires !SupportedBlock(b, c)
    decreases b, 1
  {
    var Cons(s, rest) := b;
    var r := Cost(rest, c != Outside, e, x);
    if !SupportedStmt(s, c) then Then(DetourStmt(s, c, r, x), Cheapest(rest, c != Outside, e, x))
    else Then(CheapestStmt(s, c != Outside, r, x), Detour(rest, c, e, x))
  }

  function DetourStmt(s: Stmt, c: Context, e: nat, x: nat): Path
    requires !SupportedStmt(s, c)
    decreases s, 0
  {
    match s
    case Break => Path([false], Broke)
    case If(inverted, _, thn, _, els) =>
      if !SupportedBlock(thn, Inner(c)) then First(inverted, Detour(thn, Inner(c), e, x))
      else First(!inverted, Detour(els, Inner(c), e, x))
    case Repeat(until, _, body) =>
      if !NoDirectLoop(body) then Path([!until], Normal)
      else
        var d := Detour(body, Directly, 1 + e, e);
        Path([until] + d.answers + (if d.out.Normal? then [!until] else []), Normal)
  }

  lemma {:induction false} DetourEnds(b: Block, c: Context, e: nat, x: nat)
    requires !SupportedBlock(b, c)
    ensures Ends(Detour(b, c, e, x))
    decreases b, 1
  {
    hide SupportedStmt, DetourStmt, CheapestStmt, Cost;
    var Cons(s, rest) := b;
    CheapestValue(rest, c != Outside, e, x);
    CheapestStmtValue(s, c != Outside, Cost(rest, c != Outside, e, x), x);
    if !SupportedStmt(s, c) {
      DetourStmtEnds(s, c, Cost(rest, c != Outside, e, x), x);
    } else {
      DetourEnds(rest, c, e, x);
    }
  }

  lemma {:induction false} DetourStmtEnds(s: Stmt, c: Context, e: nat, x: nat)
    requires !SupportedStmt(s, c)
    ensures Ends(DetourStmt(s, c, e, x))
    decreases s, 0
  {
    if s.If? {
      if !SupportedBlock(s.thn, Inner(c)) {
        DetourEnds(s.thn, Inner(c), e, x);
      } else {
        DetourEnds(s.els, Inner(c), e, x);
      }
    }
  }

  lemma {:induction false} DetourTaken(b: Block, c: Context, e: nat, x: nat, h: History, fuel: nat, oracle: Oracle)
    requires !SupportedBlock(b, c) && Obeys(oracle, |h.trace|, Detour(b, c, e, x).answers)
    requires fuel >= |Detour(b, c, e, x).answers|
    ensures Takes(EvalBlock(b, c != Outside, h, fuel, oracle, false), Detour(b, c, e, x), h, fuel)
    decreases b, 1
  {
    hide Obeys, EvalStmt, CheapestStmt, CostStmt, Cost, SupportedStmt, DetourStmt;
    var Cons(s, rest) := b;
    var inLoop, cost := c != Outside, Cost(rest, c != Outside, e, x);
    var m := EvalStmt(s, inLoop, h, fuel, oracle, false);
    if !SupportedStmt(s, c) {
      var l, r := DetourStmt(s, c, cost, x), Cheapest(rest, inLoop, e, x);
      if l.out.Normal? { ObeysParts(oracle, |h.trace|, l.answers, r.answers); }
      DetourStmtTaken(s, c, cost, x, h, fuel, oracle);
      if m.out.Normal? { CheapestTaken(rest, inLoop, e, x, m.h, m.fuel, oracle); }
    } else {
      var l, r := CheapestStmt(s, inLoop, cost, x), Detour(rest, c, e, x);
      if l.out.Normal? { ObeysParts(oracle, |h.trace|, l.answers, r.answers); }
      CheapestStmtTaken(s, inLoop, cost, x, h, fuel, oracle);
      if m.out.Normal? { DetourTaken(rest, c, e, x, m.h, m.fuel, oracle); }
    }
  }

  lemma {:induction false} DetourStmtTaken(s: Stmt, c: Context, e: nat, x: nat, h: History, fuel: nat, oracle: Oracle)
    requires !SupportedStmt(s, c) && Obeys(oracle, |h.trace|, DetourStmt(s, c, e, x).answers)
    requires fuel >= |DetourStmt(s, c, e, x).answers|
    ensures Takes(EvalStmt(s, c != Outside, h, fuel, oracle, false), DetourStmt(s, c, e, x), h, fuel)
    decreases s, 0
  {
    match s
    case Break =>
    case If(_, cond, thn, _, els) =>
      IfTaken(s, c, e, x, h, fuel, oracle);
    case Repeat(until, cond, body) =>
      LoopTaken(s, c, e, x, h, fuel, oracle);
  }

  lemma {:induction false} IfTaken(s: Stmt, c: Context, e: nat, x: nat, h: History, fuel: nat, oracle: Oracle)
    requires s.If? && !SupportedStmt(s, c) && Obeys(oracle, |h.trace|, DetourStmt(s, c, e, x).answers)
    requires fuel >= |DetourStmt(s, c, e, x).answers|
    ensures Takes(EvalStmt(s, c != Outside, h, fuel, oracle, false), DetourStmt(s, c, e, x), h, fuel)
    decreases s, 0, 0
  {
    var If(inverted, cond, thn, hasElse, els) := s;
    var h1, w := History(h.trace + [cond], false), DetourStmt(s, c, e, x).answers;
    assert w == [w[0]] + w[1..];
    ObeysParts(oracle, |h.trace|, [w[0]], w[1..]);
    hide EvalBlock, Detour, SupportedBlock;
    if !SupportedBlock(thn, Inner(c)) {
      DetourTaken(thn, Inner(c), e, x, h1, fuel, oracle);
    } else {
      DetourTaken(els, Inner(c), e, x, h1, fuel, oracle);
    }
  }

  lemma {:induction false} LoopTaken(s: Stmt, c: Context, e: nat, x: nat, h: History, fuel: nat, oracle: Oracle)
    requires s.Repeat? && !SupportedStmt(s, c) && Obeys(oracle, |h.trace|, DetourStmt(s, c, e, x).answers)
    requires fuel >= |DetourStmt(s, c, e, x).answers|
    ensures Takes(EvalStmt(s, c != Outside, h, fuel, oracle, false), DetourStmt(s, c, e, x), h, fuel)
    decreases s, 0, 0
  {
    var Repeat(until, cond, body) := s;
    var h1, w := History(h.trace + [cond], false), DetourStmt(s, c, e, x).answers;
    if NoDirectLoop(body) {
      var d := Detour(body, Directly, 1 + e, e);
      var back := if d.out.Normal? then [!until] else [];
      assert w == [until] + (d.answers + back);
      ObeysParts(oracle, |h.trace|, [until], d.answers + back);
      ObeysParts(oracle, |h1.trace|, d.answers, back);
      DetourEnds(body, Directly, 1 + e, e);
      hide EvalBlock, Detour, SupportedBlock;
      DetourTaken(body, Directly, 1 + e, e, h1, fuel, oracle);
      var r := EvalBlock(body, true, h1, fuel, oracle, false);
      assert r.out.Normal? ==> oracle(r.h.trace, r.h.fail, cond) == back[0];
    }
  }

  // ----- The machine on that way -----

  /** The machine runs at least one command more than the path has, or does not reach the end. */
  lemma {:induction false} DetourCosts(sh: Shell, b: Block, c: Context, p: int, np: Np, trace: seq<Command>, e: nat,
                                       x: nat, n: nat)
    requires ProperBlock(b) && !SupportedBlock(b, c) && At(sh.script, p, FlatBlock(b))
             && (c == Directly ==> NoDirectLoop(b))
    requires Ready(np, IfDepth(b), LoopDepth(b)) && CmdEnabled(np) && InContext(np, c)
    requires Entered(sh, Running(np, p, trace)) && Ahead(sh, np, p + |FlatBlock(b)|, e, n)
    requires c == Directly ==> AheadBroken(sh, np, p + |FlatBlock(b)|, x, n)
    requires Obeys(sh.oracle, |trace|, Detour(b, c, e, x).answers)
    ensures Needs(sh, Running(np, p, trace), Value(Detour(b, c, e, x), e, x) + 1, n)
    decreases b, 2
  {
    hide Step, Iter, At, FlatStmt, ProperStmt, IfDepthStmt, LoopDepthStmt, Ahead, Needs, SafeSaved, SafeLp, SafeIe,
         Keeps, Nested, Steady, PlacedConfig, CostStmt, Cost, SupportedStmt, DetourStmt, CheapestStmt, Cheapest,
         Obeys;
    var Cons(s, rest) := b;
    var inLoop, cost := c != Outside, Cost(rest, c != Outside, e, x);
    AtSplit(sh.script, p, FlatStmt(s), FlatBlock(rest));
    if !SupportedStmt(s, c) {
      var l, r := DetourStmt(s, c, cost, x), Cheapest(rest, inLoop, e, x);
      if l.out.Normal? { ObeysParts(sh.oracle, |trace|, l.answers, r.answers); }
      CheapestValue(rest, inLoop, e, x);
      BlockRest(sh, rest, c, p + |FlatStmt(s)|, np, e, x, n);
      DetourStmtCosts(sh, s, c, p, np, trace, cost, x, n);
    } else {
      DetourRest(sh, b, c, p, np, trace, e, x, n);
    }
  }

  // A supported statement first.
  lemma {:induction false} DetourRest(sh: Shell, b: Block, c: Context, p: int, np: Np, trace: seq<Command>, e: nat,
                                      x: nat, n: nat)
    requires b.Cons? && ProperBlock(b) && !SupportedBlock(b, c) && SupportedStmt(b.head, c)
             && (c == Directly ==> NoDirectLoop(b))
    requires At(sh.script, p, FlatStmt(b.head)) && At(sh.script, p + |FlatStmt(b.head)|, FlatBlock(b.tail))
    requires Ready(np, IfDepth(b), LoopDepth(b)) && CmdEnabled(np) && InContext(np, c)
    requires Entered(sh, Running(np, p, trace)) && Ahead(sh, np, p + |FlatBlock(b)|, e, n)
    requires c == Directly ==> AheadBroken(sh, np, p + |FlatBlock(b)|, x, n)
    requires Obeys(sh.oracle, |trace|, Detour(b, c, e, x).answers)
    ensures Needs(sh, Running(np, p, trace), Value(Detour(b, c, e, x), e, x) + 1, n)
    decreases b, 1
  {
    hide Step, Iter, At, FlatStmt, ProperStmt, IfDepthStmt, LoopDepthStmt, Ahead, Needs, SafeSaved, Nested, Steady,
         PlacedConfig, Cost, SupportedStmt, CheapestStmt, Obeys, EvalStmt;
    var Cons(s, rest) := b;
    var l, r := CheapestStmt(s, c != Outside, Cost(rest, c != Outside, e, x), x), Detour(rest, c, e, x);
    if l.out.Normal? { ObeysParts(sh.oracle, |trace|, l.answers, r.answers); }
    CheapestStmtTaken(s, c != Outside, Cost(rest, c != Outside, e, x), x, History(trace, np.fail), 0, sh.oracle);
    CheapestStmtValue(s, c != Outside, Cost(rest, c != Outside, e, x), x);
    SupportedGoesOn(s, c, History(trace, np.fail), 0, sh.oracle);
    var k := SimStmt(sh, s, c, p, np, trace, 0);
    var d := Iter(sh, Running(np, p, trace), k);
    if n >= k {
      EnteredLater(sh, Running(np, p, trace), k);
      AheadAlike(sh, np, d.np, p + |FlatBlock(b)|, e, n, n - k);
      if c == Directly { BrokenAlike(sh, np, d.np, p + |FlatBlock(b)|, x, n, n - k); }
      DetourCosts(sh, rest, c, d.pos, d.np, d.trace, e, x, n - k);
    }
    NeedsAfter(sh, Running(np, p, trace), k, Value(r, e, x) + 1, n, Value(Detour(b, c, e, x), e, x) + 1);
  }

  // A supported statement other than a `break` of the loop does not leave the loop.
  lemma SupportedGoesOn(s: Stmt, c: Context, h: History, fuel: nat, oracle: Oracle)
    requires SupportedStmt(s, c) && !(s.Break? && c == Directly)
    ensures !EvalStmt(s, c != Outside, h, fuel, oracle, false).out.Broke?
  {
    if c != Directly {
      BrokeOnlyDirectlyStmt(s, c, h, fuel, oracle, false);
    } else if s.If? || s.Repeat? {
      BrokeOnlyDirectlyStmt(s, UnderIf, h, fuel, oracle, false);
    }
  }

  lemma {:induction false} DetourStmtCosts(sh: Shell, s: Stmt, c: Context, p: int, np: Np, trace: seq<Command>,
                                           e: nat, x: nat, n: nat)
    requires ProperStmt(s) && !SupportedStmt(s, c) && At(sh.script, p, FlatStmt(s))
    requires Ready(np, IfDepthStmt(s), LoopDepthStmt(s)) && CmdEnabled(np) && InContext(np, c)
    requires Entered(sh, Running(np, p, trace)) && Ahead(sh, np, p + |FlatStmt(s)|, e, n)
    requires Obeys(sh.oracle, |trace|, DetourStmt(s, c, e, x).answers)
    ensures Needs(sh, Running(np, p, trace), Value(DetourStmt(s, c, e, x), e, x) + 1, n)
    decreases s, 1
  {
    hide Step, Iter, At, Ahead, Entered, Needs, Safe, Keeps, Cost, Obeys, Detour;
    match s
    case Break => BreakNeverEnds(sh, p, np, trace, x + 2, n);
    case If(_, _, _, _, _) => DetourIf(sh, s, c, p, np, trace, e, x, n);
    case Repeat(_, _, _) => DetourLoop(sh, s, c, p, np, trace, e, x, n);
  }

  lemma {:induction false} DetourIf(sh: Shell, s: Stmt, c: Context, p: int, np: Np, trace: seq<Command>, e: nat,
                                    x: nat, n: nat)
    requires s.If? && ProperStmt(s) && !SupportedStmt(s, c) && At(sh.script, p, FlatStmt(s))
    requires Ready(np, IfDepthStmt(s), LoopDepthStmt(s)) && CmdEnabled(np) && InContext(np, c)
    requires Entered(sh, Running(np, p, trace)) && Ahead(sh, np, p + |FlatStmt(s)|, e, n)
    requires Obeys(sh.oracle, |trace|, DetourStmt(s, c, e, x).answers)
    ensures Needs(sh, Running(np, p, trace), Value(DetourStmt(s, c, e, x), e, x) + 1, n)
    decreases s, 0
  {
    hide Step, Iter, At, FlatBlock, FlatStmt, Ahead, Needs, SafeSaved, SafeLp, SafeIe, Nested, Steady, PlacedConfig,
         Detour, SupportedBlock, IfDepth, LoopDepth, ProperBlock;
    AtIf(sh.script, p, s);
    var start, trace1, w := Running(np, p, trace), trace + [s.cond], DetourStmt(s, c, e, x).answers;
    assert w == [w[0]] + w[1..];
    ObeysParts(sh.oracle, |trace|, [w[0]], w[1..]);
    var total := Value(DetourStmt(s, c, e, x), e, x) + 1;
    var q := EnterIf(sh, s.inverted, s.cond, p, np, trace);
    hide Obeys;
    if n >= 2 {
      EnteredLater(sh, start, 2);
      if !SupportedBlock(s.thn, Inner(c)) {
        ThenAhead(sh, s, p, np, q, e, n);
        DetourCosts(sh, s.thn, Inner(c), p + 2, q, trace1, e, x, n - 2);
      } else {
        DetourElse(sh, s, c, p, np, q, trace1, e, x, n);
      }
    }
    NeedsAfter(sh, start, 2, total - 1, n, total);
  }

  lemma {:induction false} DetourElse(sh: Shell, s: Stmt, c: Context, p: int, np: Np, q: Np, trace: seq<Command>,
                                      e: nat, x: nat, n: nat)
    requires s.If? && ProperStmt(s) && At(sh.script, p, FlatStmt(s)) && n >= 2 && s.hasElse
             && !SupportedBlock(s.els, Inner(c))
    requires Ready(np, IfDepthStmt(s), LoopDepthStmt(s)) && CmdEnabled(np) && InContext(np, c)
    requires Deeper(np, q, IeThen, true) && Entered(sh, Running(q, p + 2, trace))
    requires Ahead(sh, np, p + |FlatStmt(s)|, e, n) && Obeys(sh.oracle, |trace|, Detour(s.els, Inner(c), e, x).answers)
    ensures Needs(sh, Running(q, p + 2, trace), Value(Detour(s.els, Inner(c), e, x), e, x) + 1, n - 2)
    decreases s.els, 3
  {
    hide Step, Iter, At, FlatBlock, FlatStmt, Ahead, Needs, SafeSaved, SafeLp, Nested, Steady, PlacedConfig, Detour,
         SupportedBlock, Obeys, IfDepth, LoopDepth, ProperBlock;
    AtIf(sh.script, p, s);
    var c0, mid, total := Running(q, p + 2, trace), p + 2 + |FlatBlock(s.thn)|,
        Value(Detour(s.els, Inner(c), e, x), e, x) + 1;
    var m, q1 := SkipBlock(sh, s.thn, p + 2, q, trace);
    var q2 := StepElse(sh, mid, q1, trace);
    IterAdd(sh, c0, m, 1);
    if n - 2 >= m + 1 {
      EnteredLater(sh, c0, m + 1);
      ElseAhead(sh, np, q2, mid + 1 + |FlatBlock(s.els)|, e, n, n - 2 - (m + 1));
      DetourCosts(sh, s.els, Inner(c), mid + 1, q2, trace, e, x, n - 2 - (m + 1));
    }
    NeedsAfter(sh, c0, m + 1, total, n - 2, total);
  }

  lemma {:induction false} DetourLoop(sh: Shell, s: Stmt, c: Context, p: int, np: Np, trace: seq<Command>, e: nat,
                                      x: nat, n: nat)
    requires s.Repeat? && ProperStmt(s) && !SupportedStmt(s, c) && At(sh.script, p, FlatStmt(s))
    requires Ready(np, IfDepthStmt(s), LoopDepthStmt(s)) && CmdEnabled(np)
    requires Entered(sh, Running(np, p, trace)) && Ahead(sh, np, p + |FlatStmt(s)|, e, n)
    requires Obeys(sh.oracle, |trace|, DetourStmt(s, c, e, x).answers)
    ensures Needs(sh, Running(np, p, trace), Value(DetourStmt(s, c, e, x), e, x) + 1, n)
    decreases s, 0
  {
    hide Step, Iter, At, FlatBlock, FlatStmt, Ahead, Needs, SafeSaved, SafeLp, SafeIe, Nested, Steady, PlacedConfig,
         Detour, SupportedBlock, IfDepth, LoopDepth, ProperBlock;
    var start, trace1, w := Running(np, p, trace), trace + [s.cond], DetourStmt(s, c, e, x).answers;
    var total := Value(DetourStmt(s, c, e, x), e, x) + 1;
    AtRepeat(sh.script, p, s);
    var q := EnterLoop(sh, s.until, s.cond, p, np, trace);
    assert q.LpTop().enable == (w[0] == s.until);
    if n >= 2 {
      EnteredLater(sh, start, 2);
      if !NoDirectLoop(s.body) {
        BodyOn(sh, s, p, np, q, e, e, n);
        PassOff(sh, s.body, p + 2, q, trace1, e, n - 2);
      } else {
        BodyOn(sh, s, p, np, q, e, 1 + e, n);
        BodyObeys(sh.oracle, s, e, |trace|, c, x);
        DetourCosts(sh, s.body, Directly, p + 2, q, trace1, 1 + e, e, n - 2);
      }
    }
    NeedsAfter(sh, start, 2, total - 1, n, total);
  }

  lemma BodyObeys(oracle: Oracle, s: Stmt, e: nat, k: nat, c: Context, x: nat)
    requires s.Repeat? && !SupportedStmt(s, c) && NoDirectLoop(s.body)
             && Obeys(oracle, k, DetourStmt(s, c, e, x).answers)
    ensures Obeys(oracle, k + 1, Detour(s.body, Directly, 1 + e, e).answers)
    ensures var d := Detour(s.body, Directly, 1 + e, e);
            Value(d, 1 + e, e) + 1 == Value(DetourStmt(s, c, e, x), e, x)
  {
    hide Detour;
    var d := Detour(s.body, Directly, 1 + e, e);
    DetourEnds(s.body, Directly, 1 + e, e);
    var back := if d.out.Normal? then [!s.until] else [];
    assert DetourStmt(s, c, e, x).answers == [s.until] + (d.answers + back);
    ObeysParts(oracle, k, [s.until], d.answers + back);
    ObeysParts(oracle, k + 1, d.answers, back);
  }
}
