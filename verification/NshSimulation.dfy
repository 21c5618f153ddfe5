/**
  The two-stack machine runs structured scripts as their syntax tree says.
*/
module NshSimulation {
  import opened NshMachine
  import opened NshStructured
  import opened NshRun
  import opened NshSteps
  import opened NshSkip
  import opened NshNesting

  // The loop entry on top says where the statement at hand stands.
  ghost predicate InContext(np: Np, c: Context)
    requires np.InBounds()
  {
    match c
    case Outside => np.LpTop().state == LpNormal
    case Directly => np.LpTop().state == LpDo && np.LpTop().iendx == np.iendx
    case UnderIf => np.LpTop().state == LpDo && np.LpTop().iendx < np.iendx
  }

  function Eval(sh: Shell, b: Block, c: Context, np: Np, trace: seq<Command>, fuel: nat): Result {
    EvalBlock(b, c != Outside, History(trace, np.fail), fuel, sh.oracle, sh.ignore)
  }

  function EvalS(sh: Shell, s: Stmt, c: Context, np: Np, trace: seq<Command>, fuel: nat): Result {
    EvalStmt(s, c != Outside, History(trace, np.fail), fuel, sh.oracle, sh.ignore)
  }

  /**
    `n` steps from the code at `p`, which is `len` commands long, take the machine
    where the result `r` of the structured evaluation is, and run every command at the
    level of its `if`s.
  */
  ghost predicate Follows(sh: Shell, np: Np, p: int, trace: seq<Command>, len: nat, n: nat, fuel: nat, r: Result)
    requires Safe(np)
  {
    var c := Iter(sh, Running(np, p, trace), n);
    && c.trace == r.h.trace
    && n >= fuel - r.fuel
    && RightWay(sh, Running(np, p, trace), n, Base(sh, np, p))
    && match r.out
       case Normal => c.Running? && c.pos == p + len && Keeps(np, c.np) && c.np.fail == r.h.fail
       case Broke => c.Running? && c.pos == p + len && KeepsBroken(np, c.np) && c.np.fail == r.h.fail
       case Stopped => c.Halted? && !c.atEnd && c.np.fail == r.h.fail
       case OutOfFuel => c.Running? && r.fuel == 0
  }

  // `m` silent steps first, `n` steps that follow `r` after them.
  lemma FollowsAfter(sh: Shell, np: Np, p: int, trace: seq<Command>, len: nat, m: nat,
                     np1: Np, p1: int, trace1: seq<Command>, len1: nat, n: nat, fuel1: nat, fuel: nat, r: Result)
    requires Safe(np) && Safe(np1)
    requires Iter(sh, Running(np, p, trace), m) == Running(np1, p1, trace1)
    requires Follows(sh, np1, p1, trace1, len1, n, fuel1, r)
    requires p1 + len1 == p + len && Keeps(np, np1) && m >= fuel - fuel1
    requires RightWay(sh, Running(np, p, trace), m, Base(sh, np, p)) && Base(sh, np1, p1) == Base(sh, np, p)
    ensures Follows(sh, np, p, trace, len, m + n, fuel, r)
  {
    hide Iter, Step, RightWay, Base;
    IterAdd(sh, Running(np, p, trace), m, n);
    RightWayAdd(sh, Running(np, p, trace), m, n, Base(sh, np, p));
  }

  lemma FollowsNothing(sh: Shell, np: Np, p: int, trace: seq<Command>, fuel: nat)
    requires Safe(np)
    ensures Follows(sh, np, p, trace, 0, 0, fuel, Result(History(trace, np.fail), fuel, Normal))
  {
  }

  // Where a script stops does not depend on what follows.
  lemma FollowsAnyLength(sh: Shell, np: Np, p: int, trace: seq<Command>, len: nat, len': nat, n: nat, fuel: nat,
                         r: Result)
    requires Safe(np) && Follows(sh, np, p, trace, len, n, fuel, r)
    requires r.out.Stopped? || r.out.OutOfFuel?
    ensures Follows(sh, np, p, trace, len', n, fuel, r)
  {
    hide Iter, Step, RightWay, Base;
  }

  // A `break` reaches its loop only from directly inside the loop body.
  lemma {:induction false} BrokeOnlyDirectly(b: Block, c: Context, h: History, fuel: nat, oracle: Oracle, ignore: bool)
    requires SupportedBlock(b, c) && c != Directly
    ensures !EvalBlock(b, c != Outside, h, fuel, oracle, ignore).out.Broke?
    decreases b
  {
    if b.Nil? {
    } else {
      BrokeOnlyDirectlyStmt(b.head, c, h, fuel, oracle, ignore);
      var r := EvalStmt(b.head, c != Outside, h, fuel, oracle, ignore);
      BrokeOnlyDirectly(b.tail, c, r.h, r.fuel, oracle, ignore);
    }
  }

  lemma {:induction false} BrokeOnlyDirectlyStmt(s: Stmt, c: Context, h: History, fuel: nat, oracle: Oracle,
                                                 ignore: bool)
    requires SupportedStmt(s, c) && c != Directly
    ensures !EvalStmt(s, c != Outside, h, fuel, oracle, ignore).out.Broke?
    decreases s
  {
    match s
    case If(_, cond, thn, hasElse, els) =>
      var h1 := History(h.trace + [cond], false);
      BrokeOnlyDirectly(thn, c, h1, fuel, oracle, ignore);
      if hasElse { BrokeOnlyDirectly(els, c, h1, fuel, oracle, ignore); }
    case Repeat(_, _, _) =>
      RepeatNeverBroke(s, c != Outside, h, fuel, oracle, ignore);
    case _ =>
  }

  lemma {:induction false} RepeatNeverBroke(s: Stmt, inLoop: bool, h: History, fuel: nat, oracle: Oracle, ignore: bool)
    requires s.Repeat?
    ensures !EvalStmt(s, inLoop, h, fuel, oracle, ignore).out.Broke?
    decreases fuel
  {
    var r := EvalBlock(s.body, true, History(h.trace + [s.cond], false), fuel, oracle, ignore);
    if r.fuel == 0 {
    } else {
      RepeatNeverBroke(s, inLoop, r.h, r.fuel - 1, oracle, ignore);
    }
  }

  // A `break` in a loop does not let the block go on.
  lemma BreakBreaks(s: Stmt, c: Context, h: History, fuel: nat, oracle: Oracle, ignore: bool)
    requires s.Break? && c != Outside
    ensures EvalStmt(s, c != Outside, h, fuel, oracle, ignore).out.Broke?
  {
  }

  // Nothing more of the loop body is run after a `break`.
  lemma SkipAfterBreak(sh: Shell, len: nat, rest: Block, p: int, np: Np, trace: seq<Command>, fuel: nat, m: nat,
                       r: Result)
      returns (n: nat)
    requires ProperBlock(rest) && NoDirectLoop(rest) && At(sh.script, p + len, FlatBlock(rest))
    requires Ready(np, IfDepth(rest), LoopDepth(rest)) && CmdEnabled(np) && InContext(np, Directly)
    requires r.out.Broke? && Follows(sh, np, p, trace, len, m, fuel, r)
    ensures Follows(sh, np, p, trace, len + |FlatBlock(rest)|, n, fuel, r)
  {
    hide Step, Iter, At, EvalBlock, EvalStmt, ProperBlock, FlatBlock, IfDepth, LoopDepth, SafeSaved, NoDirectLoop,
         RightWay, Base;
    var q := Iter(sh, Running(np, p, trace), m);
    var k, q' := SkipLoopBody(sh, rest, q.pos, q.np, q.trace);
    IterAdd(sh, Running(np, p, trace), m, k);
    RightWayQuiet(sh, q, k, Base(sh, np, p));
    RightWayAdd(sh, Running(np, p, trace), m, k, Base(sh, np, p));
    n := m + k;
  }

  lemma SameBase(sh: Shell, np: Np, np': Np, p: int)
    requires np.iendx == np'.iendx
    ensures Base(sh, np, p) == Base(sh, np', p)
  {
    hide NestAt;
  }

  lemma StmtBase(sh: Shell, s: Stmt, p: int, np: Np)
    requires ProperStmt(s) && At(sh.script, p, FlatStmt(s))
    ensures Base(sh, np, p + |FlatStmt(s)|) == Base(sh, np, p)
  {
    hide NestAt, FlatStmt;
    StmtRegion(sh.script, s, p);
  }

  lemma {:induction false} SimBlock(sh: Shell, b: Block, c: Context, p: int, np: Np, trace: seq<Command>, fuel: nat)
      returns (n: nat)
    requires ProperBlock(b) && SupportedBlock(b, c) && At(sh.script, p, FlatBlock(b))
    requires Ready(np, IfDepth(b), LoopDepth(b)) && CmdEnabled(np) && InContext(np, c)
    requires c == Directly ==> NoDirectLoop(b)
    ensures Follows(sh, np, p, trace, |FlatBlock(b)|, n, fuel, Eval(sh, b, c, np, trace, fuel))
    decreases fuel, b, 1
  {
    hide Step, Iter, Follows, At, EvalStmt, FlatStmt, ProperStmt, SupportedStmt, IfDepth, LoopDepth, CmdEnabled,
         InContext, SafeIe, SafeLp, SafeSaved;
    match b
    case Nil =>
      FollowsNothing(sh, np, p, trace, fuel);
      n := 0;
    case Cons(s, rest) =>
      AtSplit(sh.script, p, FlatStmt(s), FlatBlock(rest));
      DepthParts(s, rest);
      n := SimCons(sh, s, rest, c, p, np, trace, fuel);
  }

  lemma DepthParts(s: Stmt, rest: Block)
    ensures IfDepth(Cons(s, rest)) == Max(IfDepthStmt(s), IfDepth(rest))
    ensures LoopDepth(Cons(s, rest)) == Max(LoopDepthStmt(s), LoopDepth(rest))
  {
  }

  lemma {:induction false} SimCons(sh: Shell, s: Stmt, rest: Block, c: Context, p: int, np: Np, trace: seq<Command>,
                                   fuel: nat)
      returns (n: nat)
    requires ProperStmt(s) && SupportedStmt(s, c) && At(sh.script, p, FlatStmt(s))
    requires ProperBlock(rest) && (SupportedBlock(rest, c) || (s.Break? && c == Directly))
    requires At(sh.script, p + |FlatStmt(s)|, FlatBlock(rest)) && (c == Directly ==> NoDirectLoop(rest))
    requires Ready(np, IfDepthStmt(s), LoopDepthStmt(s)) && Ready(np, IfDepth(rest), LoopDepth(rest))
    requires CmdEnabled(np) && InContext(np, c)
    ensures var r := EvalS(sh, s, c, np, trace, fuel);
            Follows(sh, np, p, trace, |FlatStmt(s)| + |FlatBlock(rest)|, n, fuel,
                    if r.out.Normal? then EvalBlock(rest, c != Outside, r.h, r.fuel, sh.oracle, sh.ignore) else r)
    decreases fuel, Cons(s, rest), 0
  {
    hide Step, Iter, Follows, Safe, At, EvalStmt, EvalBlock, FlatStmt, FlatBlock, ProperStmt, ProperBlock,
         SupportedStmt, SupportedBlock, IfDepthStmt, LoopDepthStmt, IfDepth, LoopDepth, NoDirectLoop, CmdEnabled,
         InContext, Base;
    StmtBase(sh, s, p, np);
    var m := SimStmt(sh, s, c, p, np, trace, fuel);
    var r := EvalS(sh, s, c, np, trace, fuel);
    if s.Break? && c == Directly { BreakBreaks(s, c, History(trace, np.fail), fuel, sh.oracle, sh.ignore); }
    match r.out
    case Normal =>
      n := SimRest(sh, |FlatStmt(s)|, rest, c, p, np, trace, fuel, m, r);
    case Broke =>
      if c != Directly { BrokeOnlyDirectlyStmt(s, c, History(trace, np.fail), fuel, sh.oracle, sh.ignore); }
      n := SkipAfterBreak(sh, |FlatStmt(s)|, rest, p, np, trace, fuel, m, r);
    case _ =>
      FollowsAnyLength(sh, np, p, trace, |FlatStmt(s)|, |FlatStmt(s)| + |FlatBlock(rest)|, m, fuel, r);
      n := m;
  }

  // The statements after one that has ended normally.
  lemma {:induction false} SimRest(sh: Shell, len: nat, rest: Block, c: Context, p: int, np: Np, trace: seq<Command>,
                                   fuel: nat, m: nat, r: Result)
      returns (n: nat)
    requires ProperBlock(rest) && SupportedBlock(rest, c) && At(sh.script, p + len, FlatBlock(rest))
    requires Ready(np, IfDepth(rest), LoopDepth(rest)) && CmdEnabled(np) && InContext(np, c)
    requires c == Directly ==> NoDirectLoop(rest)
    requires r.out.Normal? && Follows(sh, np, p, trace, len, m, fuel, r)
    requires Base(sh, np, p + len) == Base(sh, np, p)
    ensures Follows(sh, np, p, trace, len + |FlatBlock(rest)|, n, fuel,
                    EvalBlock(rest, c != Outside, r.h, r.fuel, sh.oracle, sh.ignore))
    decreases r.fuel, rest, 2
  {
    hide Step, Iter, At, RightWay, Base, EvalBlock, FlatBlock, ProperBlock, SupportedBlock, IfDepth, LoopDepth,
         NoDirectLoop, SafeSaved;
    var q := Iter(sh, Running(np, p, trace), m);
    SameBase(sh, np, q.np, p + len);
    var k := SimBlock(sh, rest, c, q.pos, q.np, q.trace, r.fuel);
    FollowsAfter(sh, np, p, trace, len + |FlatBlock(rest)|, m, q.np, q.pos, q.trace, |FlatBlock(rest)|, k, r.fuel, fuel,
                 Eval(sh, rest, c, q.np, q.trace, r.fuel));
    n := m + k;
  }

  lemma {:induction false} SimStmt(sh: Shell, s: Stmt, c: Context, p: int, np: Np, trace: seq<Command>, fuel: nat)
      returns (n: nat)
    requires ProperStmt(s) && SupportedStmt(s, c) && At(sh.script, p, FlatStmt(s))
    requires Ready(np, IfDepthStmt(s), LoopDepthStmt(s)) && CmdEnabled(np) && InContext(np, c)
    ensures Follows(sh, np, p, trace, |FlatStmt(s)|, n, fuel, EvalS(sh, s, c, np, trace, fuel))
    decreases fuel, s, 1
  {
    hide Step, Iter, At;
    match s
    case Cmd(argv) =>
      n := SimCmd(sh, argv, c, p, np, trace, fuel);
    case Break =>
      n := SimBreak(sh, c, p, np, trace, fuel);
    case If(_, _, _, _, _) =>
      n := SimIf(sh, s, c, p, np, trace, fuel);
    case Repeat(_, _, _) =>
      n := SimRepeat(sh, s, c, p, np, trace, fuel);
  }

  lemma SimCmd(sh: Shell, argv: Command, c: Context, p: int, np: Np, trace: seq<Command>, fuel: nat)
      returns (n: nat)
    requires PlainCommand(argv) && At(sh.script, p, [argv])
    requires Ready(np, 0, 0) && CmdEnabled(np)
    ensures Follows(sh, np, p, trace, 1, n, fuel, EvalS(sh, Cmd(argv), c, np, trace, fuel))
  {
    hide Step, Iter, ParseCommand, RightWay, Base;
    var r := One(sh, np, p, trace, argv);
    ParsePlain(Positioned(np, p), argv, trace, sh.oracle);
    RightStep(sh, np, p, trace);
    n := 1;
  }

  lemma SimBreak(sh: Shell, c: Context, p: int, np: Np, trace: seq<Command>, fuel: nat)
      returns (n: nat)
    requires c != UnderIf && At(sh.script, p, [[KwBreak]])
    requires Ready(np, 0, 0) && CmdEnabled(np) && InContext(np, c)
    ensures Follows(sh, np, p, trace, 1, n, fuel, EvalS(sh, Break, c, np, trace, fuel))
  {
    hide Step, Iter, ParseCommand, RightWay, Base;
    var r := One(sh, np, p, trace, [KwBreak]);
    ParsePlain(Positioned(np, p), [KwBreak], trace, sh.oracle);
    RightStep(sh, np, p, trace);
    n := 1;
  }

  // ----- Conditionals -----

  // A step that may run something, and one that does not.
  lemma RightFirst(sh: Shell, np: Np, p: int, trace: seq<Command>)
    requires Safe(np)
    requires var c := Running(np, p, trace);
             Iter(sh, c, 2) == Iter(sh, Iter(sh, c, 1), 1) && Iter(sh, c, 2).trace == Iter(sh, c, 1).trace
    ensures RightWay(sh, Running(np, p, trace), 2, Base(sh, np, p))
  {
    hide Step, Iter, RightWay, Base;
    var c := Running(np, p, trace);
    RightStep(sh, np, p, trace);
    RightWayQuiet(sh, Iter(sh, c, 1), 1, Base(sh, np, p));
    RightWayAdd(sh, c, 1, 1, Base(sh, np, p));
  }

  // From an enabled `if` to just after `then`.
  lemma EnterIf(sh: Shell, inverted: bool, cond: Command, p: int, np: Np, trace: seq<Command>)
      returns (q: Np)
    requires Condition(cond) && At(sh.script, p, [IfWords(inverted, cond)]) && At(sh.script, p + 1, [[KwThen]])
    requires Ready(np, 1, 0) && CmdEnabled(np)
    ensures Iter(sh, Running(np, p, trace), 2) == Running(q, p + 2, trace + [cond])
    ensures Safe(q) && !q.fail && q.iendx == np.iendx + 1 && Keeps(np, q.(iendx := np.iendx))
    ensures q.IeTop() == Itef(inverted != sh.oracle(trace, np.fail, cond), false, inverted, IeThen)
    ensures RightWay(sh, Running(np, p, trace), 2, Base(sh, np, p))
  {
    hide Step, Iter, ParseCommand, RightWay, Base;
    var r := One(sh, np, p, trace, IfWords(inverted, cond));
    ParseIf(Positioned(np, p), inverted, cond, trace, sh.oracle);
    var t := One(sh, r.np, p + 1, trace + [cond], [KwThen]);
    ParseThen(Positioned(r.np, p + 1), trace + [cond], sh.oracle);
    IterAdd(sh, Running(np, p, trace), 1, 1);
    RightFirst(sh, np, p, trace);
    q := t.np;
  }

  // A branch that is run, between `m` steps into it and, if it ends, `e` steps out of it.
  lemma Wrap(sh: Shell, np: Np, p: int, trace: seq<Command>, len: nat, m: nat,
             q: Np, p1: int, trace1: seq<Command>, len1: nat, k: nat, e: nat, np2: Np, fuel: nat, r: Result)
      returns (n: nat)
    requires Safe(np) && Safe(q)
    requires Iter(sh, Running(np, p, trace), m) == Running(q, p1, trace1)
    requires Follows(sh, q, p1, trace1, len1, k, fuel, r) && !r.out.Broke?
    requires r.out.Normal? ==>
               && Iter(sh, Iter(sh, Running(q, p1, trace1), k), e) == Running(np2, p + len, r.h.trace)
               && Keeps(np, np2) && np2.fail == r.h.fail
    requires RightWay(sh, Running(np, p, trace), m, Base(sh, np, p)) && Base(sh, q, p1) == Base(sh, np, p)
    ensures Follows(sh, np, p, trace, len, n, fuel, r)
  {
    hide Step, Iter, RightWay, Base;
    IterAdd(sh, Running(np, p, trace), m, k);
    RightWayAdd(sh, Running(np, p, trace), m, k, Base(sh, np, p));
    if r.out.Normal? {
      IterAdd(sh, Running(np, p, trace), m + k, e);
      RightWayQuiet(sh, Iter(sh, Running(np, p, trace), m + k), e, Base(sh, np, p));
      RightWayAdd(sh, Running(np, p, trace), m + k, e, Base(sh, np, p));
      n := m + k + e;
    } else {
      n := m + k;
    }
  }

  lemma {:induction false} SimIf(sh: Shell, s: Stmt, c: Context, p: int, np: Np, trace: seq<Command>, fuel: nat)
      returns (n: nat)
    requires s.If? && ProperStmt(s) && SupportedStmt(s, c) && At(sh.script, p, FlatStmt(s))
    requires Ready(np, IfDepthStmt(s), LoopDepthStmt(s)) && CmdEnabled(np) && InContext(np, c)
    ensures Follows(sh, np, p, trace, |FlatStmt(s)|, n, fuel, EvalS(sh, s, c, np, trace, fuel))
    decreases fuel, s, 0
  {
    hide Step, Iter, At;
    AtIf(sh.script, p, s);
    var q := EnterIf(sh, s.inverted, s.cond, p, np, trace);
    if sh.oracle(trace, np.fail, s.cond) == s.inverted {
      n := SimThen(sh, s, c, p, np, trace, q, fuel);
    } else {
      n := SimElse(sh, s, c, p, np, trace, q, fuel);
    }
  }

  lemma {:induction false} SimThen(sh: Shell, s: Stmt, c: Context, p: int, np: Np, trace: seq<Command>, q: Np,
                                   fuel: nat)
      returns (n: nat)
    requires s.If? && ProperStmt(s) && SupportedStmt(s, c) && At(sh.script, p, FlatStmt(s))
    requires Ready(np, IfDepthStmt(s), LoopDepthStmt(s)) && CmdEnabled(np) && InContext(np, c)
    requires Iter(sh, Running(np, p, trace), 2) == Running(q, p + 2, trace + [s.cond])
    requires Safe(q) && !q.fail && q.iendx == np.iendx + 1 && Keeps(np, q.(iendx := np.iendx))
    requires q.IeTop() == Itef(false, false, s.inverted, IeThen)
    requires RightWay(sh, Running(np, p, trace), 2, Base(sh, np, p))
    ensures Follows(sh, np, p, trace, |FlatStmt(s)|, n, fuel, Eval(sh, s.thn, c, q, trace + [s.cond], fuel))
    decreases fuel, s.thn, 2
  {
    hide Step, Iter, At, EvalBlock, EvalStmt, FlatBlock, FlatStmt, ProperBlock, SupportedBlock, IfDepth, LoopDepth,
         SafeSaved, RightWay, Base;
    AtIf(sh.script, p, s);
    ThenBase(sh, s, p, np, q);
    var trace1 := trace + [s.cond];
    var k := SimBlock(sh, s.thn, Inner(c), p + 2, q, trace1, fuel);
    BrokeOnlyDirectly(s.thn, Inner(c), History(trace1, q.fail), fuel, sh.oracle, sh.ignore);
    var r := Eval(sh, s.thn, c, q, trace1, fuel);
    var mid := Iter(sh, Running(q, p + 2, trace1), k);
    var e, np2 := 0, np;
    if r.out.Normal? {
      e, np2 := SkipToFi(sh, s.hasElse, s.els, mid.pos, mid.np, mid.trace);
    }
    n := Wrap(sh, np, p, trace, |FlatStmt(s)|, 2, q, p + 2, trace1, |FlatBlock(s.thn)|, k, e, np2, fuel, r);
  }

  lemma {:induction false} SimElse(sh: Shell, s: Stmt, c: Context, p: int, np: Np, trace: seq<Command>, q: Np,
                                   fuel: nat)
      returns (n: nat)
    requires s.If? && ProperStmt(s) && SupportedStmt(s, c) && At(sh.script, p, FlatStmt(s))
    requires Ready(np, IfDepthStmt(s), LoopDepthStmt(s)) && CmdEnabled(np) && InContext(np, c)
    requires Iter(sh, Running(np, p, trace), 2) == Running(q, p + 2, trace + [s.cond])
    requires Safe(q) && !q.fail && q.iendx == np.iendx + 1 && Keeps(np, q.(iendx := np.iendx))
    requires q.IeTop() == Itef(true, false, s.inverted, IeThen)
    requires RightWay(sh, Running(np, p, trace), 2, Base(sh, np, p))
    ensures Follows(sh, np, p, trace, |FlatStmt(s)|, n, fuel,
                    if s.hasElse then Eval(sh, s.els, c, q, trace + [s.cond], fuel)
                    else Result(History(trace + [s.cond], false), fuel, Normal))
    decreases fuel, s.els, 3
  {
    hide Step, Iter, At, EvalBlock, EvalStmt, FlatBlock, FlatStmt, ProperBlock, SupportedBlock, IfDepth, LoopDepth,
         SafeSaved, RightWay, Base, Follows;
    AtIf(sh.script, p, s);
    var trace1 := trace + [s.cond];
    var m, q1 := SkipBlock(sh, s.thn, p + 2, q, trace1);
    IterAdd(sh, Running(np, p, trace), 2, m);
    var p1 := p + 2 + |FlatBlock(s.thn)|;
    if s.hasElse {
      var q2 := StepElse(sh, p1, q1, trace1);
      IterAdd(sh, Running(np, p, trace), 2 + m, 1);
      QuietAfter(sh, np, p, trace, 2, m + 1);
      ElseBase(sh, s, p, np, q2);
      n := SimElseBranch(sh, s, c, p, np, trace, m + 3, p1 + 1, q2, fuel);
    } else {
      n := SimNoElse(sh, s, p, np, trace, m + 2, p1, q1, fuel);
    }
  }

  lemma SimNoElse(sh: Shell, s: Stmt, p: int, np: Np, trace: seq<Command>, m: nat, p1: int, q: Np, fuel: nat)
      returns (n: nat)
    requires s.If? && At(sh.script, p1, [[KwFi]]) && p1 + 1 == p + |FlatStmt(s)| && m >= 2
    requires Ready(np, 0, 0) && Iter(sh, Running(np, p, trace), m) == Running(q, p1, trace + [s.cond])
    requires Iter(sh, Running(np, p, trace), 2).trace == trace + [s.cond]
    requires Safe(q) && !q.fail && q.iendx == np.iendx + 1 && Keeps(np, q.(iendx := np.iendx))
             && q.IeTop().state == IeThen
    requires RightWay(sh, Running(np, p, trace), 2, Base(sh, np, p))
    ensures Follows(sh, np, p, trace, |FlatStmt(s)|, n, fuel, Result(History(trace + [s.cond], false), fuel, Normal))
  {
    hide Step, Iter, At, FlatStmt, SafeSaved, RightWay, Base;
    var np2 := StepFi(sh, p1, q, trace + [s.cond]);
    IterAdd(sh, Running(np, p, trace), m, 1);
    QuietAfter(sh, np, p, trace, 2, m - 1);
    n := m + 1;
  }

  // `k` steps that run nothing, after `m` that are as they should be.
  lemma QuietAfter(sh: Shell, np: Np, p: int, trace: seq<Command>, m: nat, k: nat)
    requires Safe(np) && RightWay(sh, Running(np, p, trace), m, Base(sh, np, p))
    requires Iter(sh, Running(np, p, trace), m + k).trace == Iter(sh, Running(np, p, trace), m).trace
    ensures RightWay(sh, Running(np, p, trace), m + k, Base(sh, np, p))
  {
    hide Step, Iter, RightWay, Base;
    var c := Running(np, p, trace);
    IterAdd(sh, c, m, k);
    RightWayQuiet(sh, Iter(sh, c, m), k, Base(sh, np, p));
    RightWayAdd(sh, c, m, k, Base(sh, np, p));
  }

  lemma ThenBase(sh: Shell, s: Stmt, p: int, np: Np, q: Np)
    requires s.If? && ProperStmt(s) && At(sh.script, p, FlatStmt(s)) && q.iendx == np.iendx + 1
    ensures Base(sh, q, p + 2) == Base(sh, np, p)
  {
    hide NestAt, FlatStmt;
    AtIf(sh.script, p, s);
    OpenIf(sh.script, s.inverted, s.cond, p);
  }

  lemma ElseBase(sh: Shell, s: Stmt, p: int, np: Np, q: Np)
    requires s.If? && s.hasElse && ProperStmt(s) && At(sh.script, p, FlatStmt(s)) && q.iendx == np.iendx + 1
    ensures Base(sh, q, p + 3 + |FlatBlock(s.thn)|) == Base(sh, np, p)
  {
    hide NestAt, FlatBlock, FlatStmt, Fits, Within;
    AtIf(sh.script, p, s);
    OpenIf(sh.script, s.inverted, s.cond, p);
    BlockRegion(sh.script, s.thn, p + 2);
    ClauseAt(sh.script, p + 2 + |FlatBlock(s.thn)|, [KwElse]);
  }

  lemma {:induction false} SimElseBranch(sh: Shell, s: Stmt, c: Context, p: int, np: Np, trace: seq<Command>,
                                         m: nat, p1: int, q: Np, fuel: nat)
      returns (n: nat)
    requires s.If? && ProperStmt(s) && SupportedStmt(s, c) && s.hasElse
    requires At(sh.script, p1, FlatBlock(s.els)) && At(sh.script, p1 + |FlatBlock(s.els)|, [[KwFi]])
    requires p1 + |FlatBlock(s.els)| + 1 == p + |FlatStmt(s)|
    requires Ready(np, IfDepthStmt(s), LoopDepthStmt(s)) && CmdEnabled(np) && InContext(np, c)
    requires Iter(sh, Running(np, p, trace), m) == Running(q, p1, trace + [s.cond])
    requires Safe(q) && !q.fail && q.iendx == np.iendx + 1 && Keeps(np, q.(iendx := np.iendx))
    requires q.IeTop() == Itef(true, false, s.inverted, IeElse)
    requires RightWay(sh, Running(np, p, trace), m, Base(sh, np, p)) && Base(sh, q, p1) == Base(sh, np, p)
    ensures Follows(sh, np, p, trace, |FlatStmt(s)|, n, fuel, Eval(sh, s.els, c, q, trace + [s.cond], fuel))
    decreases fuel, s.els, 2
  {
    hide Step, Iter, At, EvalBlock, EvalStmt, FlatBlock, FlatStmt, ProperBlock, SupportedBlock, IfDepth, LoopDepth,
         SafeSaved, RightWay, Base;
    var trace1 := trace + [s.cond];
    var k := SimBlock(sh, s.els, Inner(c), p1, q, trace1, fuel);
    BrokeOnlyDirectly(s.els, Inner(c), History(trace1, q.fail), fuel, sh.oracle, sh.ignore);
    var r := Eval(sh, s.els, c, q, trace1, fuel);
    var mid := Iter(sh, Running(q, p1, trace1), k);
    var np2 := np;
    if r.out.Normal? {
      np2 := StepFi(sh, mid.pos, mid.np, mid.trace);
    }
    n := Wrap(sh, np, p, trace, |FlatStmt(s)|, m, q, p1, trace1, |FlatBlock(s.els)|, k, 1, np2, fuel, r);
  }

  // ----- Loops -----

  // From an enabled `while` or `until` to just after `do`.
  lemma EnterLoop(sh: Shell, until: bool, cond: Command, p: int, np: Np, trace: seq<Command>)
      returns (q: Np)
    requires Condition(cond)
    requires At(sh.script, p, [[LoopKeyword(until)] + cond]) && At(sh.script, p + 1, [[KwDo]])
    requires Ready(np, 0, 1) && ItefEnabled(np)
    ensures Iter(sh, Running(np, p, trace), 2) == Running(q, p + 2, trace + [cond])
    ensures Safe(q) && !q.fail && q.lpndx == np.lpndx + 1 && Keeps(np, q.(lpndx := np.lpndx))
    ensures q.LpTop() == Loop(sh.oracle(trace, np.fail, cond) == until, LpDo, np.iendx, p)
    ensures RightWay(sh, Running(np, p, trace), 2, Base(sh, np, p))
  {
    hide Step, Iter, ParseCommand, RightWay, Base;
    var w := One(sh, np, p, trace, [LoopKeyword(until)] + cond);
    ParseWhile(Positioned(np, p), until, cond, trace, sh.oracle);
    var d := One(sh, w.np, p + 1, trace + [cond], [KwDo]);
    ParseDo(Positioned(w.np, p + 1), trace + [cond], sh.oracle);
    IterAdd(sh, Running(np, p, trace), 1, 1);
    RightFirst(sh, np, p, trace);
    q := d.np;
  }

  // `done` at the end of a loop body that was run goes back to the top of the loop.
  lemma GoBack(sh: Shell, p: int, np: Np, trace: seq<Command>) returns (np': Np)
    requires Ready(np, 0, 0) && At(sh.script, p, [[KwDone]])
    requires np.LpTop().state == LpDo && np.LpTop().enable
    ensures Iter(sh, Running(np, p, trace), 1) == Running(np', np.LpTop().topoffs, trace)
    ensures Safe(np') && np'.fail == np.fail
    ensures np.lpndx >= 1 && np'.lpndx == np.lpndx - 1 && Keeps(np.(lpndx := np.lpndx - 1), np')
  {
    hide Step, Iter, ParseCommand;
    var r := One(sh, np, p, trace, [KwDone]);
    ParseDone(Positioned(np, p), trace, sh.oracle);
    np' := r.np;
  }

  lemma {:induction false} SimRepeat(sh: Shell, s: Stmt, c: Context, p: int, np: Np, trace: seq<Command>, fuel: nat)
      returns (n: nat)
    requires s.Repeat? && ProperStmt(s) && SupportedStmt(s, c) && At(sh.script, p, FlatStmt(s))
    requires Ready(np, IfDepthStmt(s), LoopDepthStmt(s)) && CmdEnabled(np) && InContext(np, c)
    ensures Follows(sh, np, p, trace, |FlatStmt(s)|, n, fuel, EvalS(sh, s, c, np, trace, fuel))
    decreases fuel, s, 0
  {
    hide Step, Iter, At;
    AtRepeat(sh.script, p, s);
    var q := EnterLoop(sh, s.until, s.cond, p, np, trace);
    var trace1 := trace + [s.cond];
    if sh.oracle(trace, np.fail, s.cond) != s.until {
      n := NoPass(sh, s, p, np, trace, trace1, 2, q, fuel);
    } else {
      n := SimPass(sh, s, c, p, np, trace, q, fuel);
    }
  }

  // The condition ends the loop: the body is read past.
  lemma NoPass(sh: Shell, s: Stmt, p: int, np: Np, trace: seq<Command>, trace1: seq<Command>, m: nat, q: Np, fuel: nat)
      returns (n: nat)
    requires s.Repeat? && ProperStmt(s) && NoDirectLoop(s.body) && At(sh.script, p, FlatStmt(s))
    requires Ready(np, IfDepthStmt(s), LoopDepthStmt(s)) && CmdEnabled(np)
    requires Iter(sh, Running(np, p, trace), m) == Running(q, p + 2, trace1)
    requires Safe(q) && q.lpndx == np.lpndx + 1 && Keeps(np, q.(lpndx := np.lpndx))
    requires q.LpTop().state == LpDo && !q.LpTop().enable
    requires RightWay(sh, Running(np, p, trace), m, Base(sh, np, p))
    ensures Follows(sh, np, p, trace, |FlatStmt(s)|, n, fuel, Result(History(trace1, q.fail), fuel, Normal))
  {
    hide Step, Iter, At, EvalBlock, EvalStmt, FlatBlock, FlatStmt, ProperBlock, SupportedBlock, IfDepth, LoopDepth,
         SafeSaved, RightWay, Base;
    AtRepeat(sh.script, p, s);
    var k, q1 := SkipLoopBody(sh, s.body, p + 2, q, trace1);
    IterAdd(sh, Running(np, p, trace), m, k);
    var np2 := LeaveLoop(sh, p + 2 + |FlatBlock(s.body)|, q1, trace1);
    IterAdd(sh, Running(np, p, trace), m + k, 1);
    QuietAfter(sh, np, p, trace, m, k + 1);
    n := m + k + 1;
  }

  // A pass through the body, and what comes after it.
  lemma {:induction false} SimPass(sh: Shell, s: Stmt, c: Context, p: int, np: Np, trace: seq<Command>, q: Np,
                                   fuel: nat)
      returns (n: nat)
    requires s.Repeat? && ProperStmt(s) && SupportedStmt(s, c) && At(sh.script, p, FlatStmt(s))
    requires Ready(np, IfDepthStmt(s), LoopDepthStmt(s)) && CmdEnabled(np) && InContext(np, c)
    requires sh.oracle(trace, np.fail, s.cond) == s.until
    requires Iter(sh, Running(np, p, trace), 2) == Running(q, p + 2, trace + [s.cond])
    requires Safe(q) && !q.fail && q.lpndx == np.lpndx + 1 && Keeps(np, q.(lpndx := np.lpndx))
    requires q.LpTop() == Loop(true, LpDo, np.iendx, p)
    requires RightWay(sh, Running(np, p, trace), 2, Base(sh, np, p))
    ensures Follows(sh, np, p, trace, |FlatStmt(s)|, n, fuel, EvalS(sh, s, c, np, trace, fuel))
    decreases fuel, s.body, 2
  {
    hide Step, Iter, At, EvalBlock, FlatBlock, FlatStmt, ProperBlock, SupportedBlock, IfDepth, LoopDepth, SafeSaved,
         RightWay, Base;
    AtRepeat(sh.script, p, s);
    BodyBase(sh, s, p, np, q);
    var trace1 := trace + [s.cond];
    var k := SimBlock(sh, s.body, Directly, p + 2, q, trace1, fuel);
    var r := Eval(sh, s.body, Directly, q, trace1, fuel);
    IterAdd(sh, Running(np, p, trace), 2, k);
    RightWayAdd(sh, Running(np, p, trace), 2, k, Base(sh, np, p));
    match r.out
    case Normal =>
      n := NextPass(sh, s, c, p, np, trace, 2 + k, q, fuel, r);
    case Broke =>
      n := AfterBreak(sh, s, p, np, trace, 2 + k, q, fuel, r);
    case _ =>
      n := 2 + k;
  }

  lemma BodyBase(sh: Shell, s: Stmt, p: int, np: Np, q: Np)
    requires s.Repeat? && ProperStmt(s) && At(sh.script, p, FlatStmt(s)) && q.iendx == np.iendx
    ensures Base(sh, q, p + 2) == Base(sh, np, p)
  {
    hide NestAt, FlatStmt;
    AtRepeat(sh.script, p, s);
    OpenLoop(sh.script, s.until, s.cond, p);
  }

  // The body has been broken out of.
  lemma AfterBreak(sh: Shell, s: Stmt, p: int, np: Np, trace: seq<Command>, m: nat, q: Np, fuel: nat, r: Result)
      returns (n: nat)
    requires s.Repeat? && At(sh.script, p, FlatStmt(s))
    requires Ready(np, 0, 0) && Safe(q) && q.lpndx == np.lpndx + 1 && Keeps(np, q.(lpndx := np.lpndx))
    requires q.LpTop().state == LpDo && m >= fuel - r.fuel
    requires var c := Iter(sh, Running(np, p, trace), m);
             && c.Running? && c.pos == p + 2 + |FlatBlock(s.body)| && c.trace == r.h.trace
             && KeepsBroken(q, c.np) && c.np.fail == r.h.fail
    requires RightWay(sh, Running(np, p, trace), m, Base(sh, np, p))
    ensures Follows(sh, np, p, trace, |FlatStmt(s)|, n, fuel, r.(out := Normal))
  {
    hide Step, Iter, At, RightWay, Base;
    AtRepeat(sh.script, p, s);
    var mid := Iter(sh, Running(np, p, trace), m);
    var np2 := LeaveLoop(sh, mid.pos, mid.np, mid.trace);
    IterAdd(sh, Running(np, p, trace), m, 1);
    QuietAfter(sh, np, p, trace, m, 1);
    n := m + 1;
  }

  // The body has ended: back to the top, if there is fuel.
  lemma {:induction false} NextPass(sh: Shell, s: Stmt, c: Context, p: int, np: Np, trace: seq<Command>,
                                    m: nat, q: Np, fuel: nat, r: Result)
      returns (n: nat)
    requires s.Repeat? && ProperStmt(s) && SupportedStmt(s, c) && At(sh.script, p, FlatStmt(s))
    requires Ready(np, IfDepthStmt(s), LoopDepthStmt(s)) && CmdEnabled(np) && InContext(np, c)
    requires Safe(q) && q.lpndx == np.lpndx + 1 && Keeps(np, q.(lpndx := np.lpndx))
    requires q.LpTop() == Loop(true, LpDo, np.iendx, p)
    requires m >= fuel - r.fuel && r.fuel <= fuel
    requires var c := Iter(sh, Running(np, p, trace), m);
             && c.Running? && c.pos == p + 2 + |FlatBlock(s.body)| && c.trace == r.h.trace
             && Keeps(q, c.np) && c.np.fail == r.h.fail
    requires RightWay(sh, Running(np, p, trace), m, Base(sh, np, p))
    ensures Follows(sh, np, p, trace, |FlatStmt(s)|, n, fuel,
                    if r.fuel == 0 then r.(out := OutOfFuel)
                    else EvalStmt(s, c != Outside, r.h, r.fuel - 1, sh.oracle, sh.ignore))
    decreases r.fuel, s.body, 0
  {
    hide Step, Iter, At, EvalBlock, EvalStmt, FlatBlock, FlatStmt, ProperStmt, SupportedStmt, IfDepthStmt,
         LoopDepthStmt, SafeSaved, RightWay, Base;
    AtRepeat(sh.script, p, s);
    var mid := Iter(sh, Running(np, p, trace), m);
    var np' := GoBack(sh, mid.pos, mid.np, mid.trace);
    IterAdd(sh, Running(np, p, trace), m, 1);
    QuietAfter(sh, np, p, trace, m, 1);
    if r.fuel == 0 {
      n := m + 1;
    } else {
      var l := SimRepeat(sh, s, c, p, np', mid.trace, r.fuel - 1);
      SameBase(sh, np, np', p);
      FollowsAfter(sh, np, p, trace, |FlatStmt(s)|, m + 1, np', p, mid.trace, |FlatStmt(s)|, l, r.fuel - 1, fuel,
                   EvalS(sh, s, c, np', mid.trace, r.fuel - 1));
      n := m + 1 + l;
    }
  }
}
