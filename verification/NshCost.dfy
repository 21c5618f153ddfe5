/**
  How many commands the machine must run at least before it can reach the end of the
  script, from any place of a script of any shape.
*/
module NshCost {
  import opened NshMachine
  import opened NshStructured
  import opened NshRun
  import opened NshSteps
  import opened NshSkip
  import opened NshSimulation
  import opened NshNesting
  import opened NshPlaced

  // ----- The cheapest way through a block -----

  function Min(a: nat, b: nat): nat {
    if a < b then a else b
  }

  // Commands run on the shortest way through a block, with `e` to come after its end
  // and `x` after the loop it is in, if that is left.
  function Cost(b: Block, inLoop: bool, e: nat, x: nat): nat {
    match b
    case Nil => e
    case Cons(s, rest) => CostStmt(s, inLoop, Cost(rest, inLoop, e, x), x)
  }

  function CostStmt(s: Stmt, inLoop: bool, e: nat, x: nat): nat {
    match s
    case Cmd(_) => 1 + e
    case Break => 1 + if inLoop then x else e
    case If(_, _, thn, hasElse, els) =>
      1 + Min(Cost(thn, inLoop, e, x), if hasElse then Cost(els, inLoop, e, x) else e)
    case Repeat(_, _, _) => 1 + e
  }

  lemma {:induction false} CostAtLeast(b: Block, inLoop: bool, e: nat, x: nat, least: nat)
    requires least <= e && least <= x
    ensures least <= Cost(b, inLoop, e, x)
    decreases b
  {
    match b
    case Nil =>
    case Cons(s, rest) =>
      CostAtLeast(rest, inLoop, e, x, least);
      if s.If? {
        CostAtLeast(s.thn, inLoop, Cost(rest, inLoop, e, x), x, least);
        CostAtLeast(s.els, inLoop, Cost(rest, inLoop, e, x), x, least);
      }
  }

  // ----- Lower bounds on runs -----

  // If the end of the script is reached after `n` steps, `cost` commands have been run.
  ghost predicate Needs(sh: Shell, c: Config, cost: nat, n: nat)
    requires Safe(c.np)
  {
    var d := Iter(sh, c, n);
    d.Halted? && d.atEnd ==> |d.trace| >= |c.trace| + cost
  }

  lemma NeedsAfter(sh: Shell, c: Config, k: nat, cost: nat, n: nat, total: nat)
    requires Safe(c.np) && Iter(sh, c, k).Running?
    requires n >= k ==> Needs(sh, Iter(sh, c, k), cost, n - k)
    requires |c.trace| + total <= |Iter(sh, c, k).trace| + cost
    ensures Needs(sh, c, total, n)
  {
    hide Step, Iter;
    if n >= k {
      IterAdd(sh, c, k, n - k);
    } else if Iter(sh, c, n).Halted? {
      HaltedLater(sh, c, n, k);
    }
  }

  // A place that a run from the start of the script can be at.
  ghost predicate Entered(sh: Shell, c: Config) {
    && Safe(c.np) && !sh.ignore && Nested(sh.script) && Steady(sh, c)
    && exists missing: nat :: PlacedConfig(sh, c, missing)
  }

  lemma EnteredLater(sh: Shell, c: Config, k: nat)
    requires Entered(sh, c) && Iter(sh, c, k).Running?
    ensures Entered(sh, Iter(sh, c, k))
  {
    hide Step, PlacedConfig, Nested, Steady;
    var missing: nat :| PlacedConfig(sh, c, missing);
    Stays(sh, c, missing, k);
    SteadyLater(sh, c, k);
  }

  lemma {:induction false} SteadyLater(sh: Shell, c: Config, k: nat)
    requires Safe(c.np) && Steady(sh, c)
    ensures Steady(sh, Iter(sh, c, k))
    decreases k
  {
    hide Step, Steady;
    if k == 0 {
    } else {
      SteadyNext(sh, c);
      SteadyLater(sh, Step(sh, c), k - 1);
    }
  }

  // From `p` on, with the stacks as in `np`, at least `cost` commands are to come.
  ghost predicate Ahead(sh: Shell, np: Np, p: int, cost: nat, n: nat)
    requires np.InBounds()
  {
    forall np': Np, trace: seq<Command>, j: nat {:trigger Needs(sh, Running(np', p, trace), cost, j)} ::
      j <= n && Keeps(np, np') && Entered(sh, Running(np', p, trace)) ==> Needs(sh, Running(np', p, trace), cost, j)
  }

  // The same after the innermost loop has been switched off.
  ghost predicate AheadBroken(sh: Shell, np: Np, p: int, cost: nat, n: nat)
    requires np.InBounds()
  {
    Ahead(sh, np.SetLp(np.LpTop().(enable := false)), p, cost, n)
  }

  lemma AheadAlike(sh: Shell, np: Np, np': Np, p: int, cost: nat, n: nat, n': nat)
    requires np.InBounds() && np'.InBounds() && Keeps(np, np') && Ahead(sh, np, p, cost, n) && n' <= n
    ensures Ahead(sh, np', p, cost, n')
  {
    hide Needs, Steady, Nested, PlacedConfig;
    forall np2: Np, trace: seq<Command>, j: nat | j <= n' && Keeps(np', np2) && Entered(sh, Running(np2, p, trace))
      ensures Needs(sh, Running(np2, p, trace), cost, j)
    {
      assert Keeps(np, np2);
    }
  }

  // `k` steps to a place from where a bound is known.
  lemma Arrives(sh: Shell, c: Config, k: nat, np: Np, cost: nat, n: nat, total: nat)
    requires Entered(sh, c) && np.InBounds()
    requires var d := Iter(sh, c, k);
             d.Running? && Keeps(np, d.np) && Ahead(sh, np, d.pos, cost, n) && |c.trace| + total <= |d.trace| + cost
    ensures Needs(sh, c, total, n)
  {
    hide Step, Iter, Needs, Steady, Nested, PlacedConfig;
    EnteredLater(sh, c, k);
    var d := Iter(sh, c, k);
    assert n >= k ==> Needs(sh, Running(d.np, d.pos, d.trace), cost, n - k);
    NeedsAfter(sh, c, k, cost, n, total);
  }

  // ----- Through a loop body that is switched off -----

  predicate Off(np: Np)
    requires np.InBounds()
  {
    np.LpTop().state == LpDo && !np.LpTop().enable && ItefEnabled(np)
  }

  function Extra(b: Block): nat {
    if NoDirectLoop(b) then 0 else 1
  }

  lemma Here(sh: Shell, np: Np, p: int, trace: seq<Command>, cost: nat, n: nat)
    requires Entered(sh, Running(np, p, trace)) && Ahead(sh, np, p, cost, n)
    ensures Needs(sh, Running(np, p, trace), cost, n)
  {
    hide Needs, Steady, Nested, PlacedConfig;
    assert Keeps(np, np);
  }

  // A script that stops short of its end reaches no end.
  lemma NeedsNothing(sh: Shell, c: Config, k: nat, cost: nat, n: nat)
    requires Safe(c.np) && Iter(sh, c, k).Halted? && !Iter(sh, c, k).atEnd
    ensures Needs(sh, c, cost, n)
  {
    hide Step, Iter;
    if Iter(sh, c, n).Halted? {
      Unique(sh, c, n, k);
    }
  }

  lemma {:induction false} PassOff(sh: Shell, b: Block, p: int, np: Np, trace: seq<Command>, e: nat, n: nat)
    requires ProperBlock(b) && At(sh.script, p, FlatBlock(b)) && Ready(np, IfDepth(b), LoopDepth(b)) && Off(np)
    requires Entered(sh, Running(np, p, trace)) && Ahead(sh, np, p + |FlatBlock(b)|, e, n)
    ensures Needs(sh, Running(np, p, trace), e + Extra(b), n)
    decreases n, b, 1
  {
    hide Step, Iter, At, FlatStmt, ProperStmt, IfDepthStmt, LoopDepthStmt, Ahead, Needs, SafeSaved, SafeLp, SafeIe,
         Keeps, Nested, Steady, PlacedConfig;
    match b
    case Nil =>
      Here(sh, np, p, trace, e, n);
    case Cons(s, rest) =>
      AtSplit(sh.script, p, FlatStmt(s), FlatBlock(rest));
      OffRest(sh, rest, p + |FlatStmt(s)|, np, e, n);
      if s.Repeat? {
        DeepLoop(s);
        PassLoopOff(sh, b, p, np, trace, e, n);
      } else {
        var k, np' := SkipDisabled(sh, s, p, np, trace);
        Arrives(sh, Running(np, p, trace), k, np, e + Extra(rest), n, e + Extra(rest));
      }
  }

  lemma {:induction false} OffRest(sh: Shell, rest: Block, mid: int, np: Np, e: nat, n: nat)
    requires ProperBlock(rest) && At(sh.script, mid, FlatBlock(rest))
    requires Ready(np, IfDepth(rest), LoopDepth(rest)) && Off(np)
    requires Ahead(sh, np, mid + |FlatBlock(rest)|, e, n)
    ensures Ahead(sh, np, mid, e + Extra(rest), n)
    decreases n, rest, 2
  {
    hide At, FlatBlock, ProperBlock, IfDepth, LoopDepth, Needs, NoDirectLoop, Nested, Steady, PlacedConfig,
         SafeSaved, SafeLp;
    var least := e + Extra(rest);
    forall np': Np, trace: seq<Command>, j: nat | j <= n && Keeps(np, np') && Entered(sh, Running(np', mid, trace))
      ensures Needs(sh, Running(np', mid, trace), least, j)
    {
      AheadAlike(sh, np, np', mid + |FlatBlock(rest)|, e, n, j);
      PassOff(sh, rest, mid, np', trace, e, j);
    }
  }

  // A loop in a loop body that is switched off: its test is run, and its body may be.
  lemma {:induction false} PassLoopOff(sh: Shell, b: Block, p: int, np: Np, trace: seq<Command>, e: nat, n: nat)
    requires b.Cons? && b.head.Repeat? && ProperBlock(b) && At(sh.script, p, FlatBlock(b))
    requires At(sh.script, p, FlatStmt(b.head))
    requires Ready(np, IfDepth(b), LoopDepth(b)) && Off(np) && LoopDepthStmt(b.head) >= 1
    requires Entered(sh, Running(np, p, trace)) && Ahead(sh, np, p + |FlatBlock(b)|, e, n)
    requires Ahead(sh, np, p + |FlatStmt(b.head)|, e + Extra(b.tail), n)
    ensures Needs(sh, Running(np, p, trace), e + 1, n)
    decreases n, b, 0
  {
    hide Step, Iter, At, FlatBlock, FlatStmt, Ahead, Needs, SafeSaved, SafeLp, SafeIe, Nested, Steady, PlacedConfig;
    var s, c := b.head, Running(np, p, trace);
    AtRepeat(sh.script, p, s);
    var q := EnterLoop(sh, s.until, s.cond, p, np, trace);
    if n >= 2 {
      EnteredLater(sh, c, 2);
      BodyOff(sh, b, p, np, q, e, n);
      PassBodyOff(sh, s, p, q, trace + [s.cond], e, n - 2);
    }
    NeedsAfter(sh, c, 2, e, n, e + 1);
  }

  lemma {:induction false} PassBodyOff(sh: Shell, s: Stmt, p: int, q: Np, trace: seq<Command>, e: nat, n: nat)
    requires s.Repeat? && ProperStmt(s) && At(sh.script, p + 2, FlatBlock(s.body))
    requires Ready(q, IfDepth(s.body), LoopDepth(s.body)) && ItefEnabled(q)
    requires q.LpTop().state == LpDo && q.LpTop().iendx == q.iendx
    requires Entered(sh, Running(q, p + 2, trace))
    requires Ahead(sh, q, p + 2 + |FlatBlock(s.body)|, e, n) && AheadBroken(sh, q, p + 2 + |FlatBlock(s.body)|, e, n)
    ensures Needs(sh, Running(q, p + 2, trace), e, n)
    decreases n, s.body, 3
  {
    hide Step, Iter, At, FlatBlock, Ahead, SafeSaved, SafeLp, SafeIe, Nested, Steady, PlacedConfig, Cost,
         ProperBlock, IfDepth, LoopDepth;
    if q.LpTop().enable {
      PassBlock(sh, s.body, Directly, p + 2, q, trace, e, e, n);
      CostAtLeast(s.body, true, e, e, e);
    } else {
      PassOff(sh, s.body, p + 2, q, trace, e, n);
    }
  }

  // At the `done` of such a loop.
  lemma {:induction false} BodyOff(sh: Shell, b: Block, p: int, np: Np, q: Np, e: nat, n: nat)
    requires b.Cons? && b.head.Repeat? && ProperBlock(b) && At(sh.script, p, FlatBlock(b))
             && At(sh.script, p, FlatStmt(b.head))
    requires Ready(np, IfDepth(b), LoopDepth(b)) && Off(np) && n >= 2
    requires Ahead(sh, np, p + |FlatBlock(b)|, e, n) && Ahead(sh, np, p + |FlatStmt(b.head)|, e + Extra(b.tail), n)
    requires q.InBounds() && q.lpndx == np.lpndx + 1 && Keeps(np, q.(lpndx := np.lpndx))
    requires q.LpTop().state == LpDo && q.LpTop().topoffs == p
    ensures Ahead(sh, q, p + 2 + |FlatBlock(b.head.body)|, e, n - 2)
    ensures AheadBroken(sh, q, p + 2 + |FlatBlock(b.head.body)|, e, n - 2)
    decreases n - 1, b, 1
  {
    hide Step, Iter, At, FlatBlock, FlatStmt, Needs, SafeSaved, SafeLp, SafeIe, Nested, Steady, PlacedConfig,
         ProperBlock, IfDepth, LoopDepth, NoDirectLoop;
    AtRepeat(sh.script, p, b.head);
    var d := p + 2 + |FlatBlock(b.head.body)|;
    forall np': Np, trace: seq<Command>, j: nat | j <= n - 2 && Keeps(q, np') && Entered(sh, Running(np', d, trace))
      ensures Needs(sh, Running(np', d, trace), e, j)
    {
      DoneOff(sh, b, p, np, q, np', d, trace, e, n, j);
    }
    var q' := q.SetLp(q.LpTop().(enable := false));
    forall np': Np, trace: seq<Command>, j: nat | j <= n - 2 && Keeps(q', np') && Entered(sh, Running(np', d, trace))
      ensures Needs(sh, Running(np', d, trace), e, j)
    {
      DoneOff(sh, b, p, np, q', np', d, trace, e, n, j);
    }
  }

  lemma {:induction false} DoneOff(sh: Shell, b: Block, p: int, np: Np, q: Np, np': Np, d: int, trace: seq<Command>,
                                   e: nat, n: nat, j: nat)
    requires b.Cons? && b.head.Repeat? && ProperBlock(b) && At(sh.script, p, FlatBlock(b))
    requires At(sh.script, d, [[KwDone]]) && d + 1 == p + |FlatStmt(b.head)|
    requires Ready(np, IfDepth(b), LoopDepth(b)) && Off(np) && j + 2 <= n
    requires Ahead(sh, np, p + |FlatBlock(b)|, e, n) && Ahead(sh, np, p + |FlatStmt(b.head)|, e + Extra(b.tail), n)
    requires q.InBounds() && q.lpndx == np.lpndx + 1 && Keeps(np, q.(lpndx := np.lpndx))
    requires q.LpTop().state == LpDo && q.LpTop().topoffs == p && Keeps(q, np')
    requires Entered(sh, Running(np', d, trace))
    ensures Needs(sh, Running(np', d, trace), e, j)
    decreases j + 1, b, 0
  {
    hide Step, Iter, At, FlatBlock, FlatStmt, Ahead, Needs, SafeSaved, SafeLp, Nested, Steady, PlacedConfig,
         ProperBlock, IfDepth, LoopDepth, NoDirectLoop;
    var c := Running(np', d, trace);
    if np'.LpTop().enable {
      var np2 := GoBack(sh, d, np', trace);
      if j >= 1 {
        EnteredLater(sh, c, 1);
        AheadAlike(sh, np, np2, p + |FlatBlock(b)|, e, n, j - 1);
        PassOff(sh, b, p, np2, trace, e, j - 1);
        NeedsAfter(sh, c, 1, e + Extra(b), j, e);
      } else {
        NeedsAfter(sh, c, 1, e, j, e);
      }
    } else {
      var np2 := LeaveLoop(sh, d, np', trace);
      AheadAlike(sh, np, np, d + 1, e + Extra(b.tail), n, j);
      Arrives(sh, c, 1, np, e + Extra(b.tail), j, e);
    }
  }

  // ----- Through code that is run -----

  /**
    Whatever the results of the commands and the shape of the block: a run that reaches the
    end of the script runs as many commands as the cheapest way through the block needs.
  */
  lemma {:induction false} PassBlock(sh: Shell, b: Block, c: Context, p: int, np: Np, trace: seq<Command>, e: nat,
                                     x: nat, n: nat)
    requires ProperBlock(b) && At(sh.script, p, FlatBlock(b))
    requires Ready(np, IfDepth(b), LoopDepth(b)) && CmdEnabled(np) && InContext(np, c)
    requires Entered(sh, Running(np, p, trace)) && Ahead(sh, np, p + |FlatBlock(b)|, e, n)
    requires c == Directly ==> AheadBroken(sh, np, p + |FlatBlock(b)|, x, n)
    ensures Needs(sh, Running(np, p, trace), Cost(b, c != Outside, e, x), n)
    decreases n, b, 1
  {
    hide Step, Iter, At, FlatStmt, ProperStmt, IfDepthStmt, LoopDepthStmt, Ahead, Needs, SafeSaved, SafeLp, SafeIe,
         Keeps, Nested, Steady, PlacedConfig, CostStmt;
    match b
    case Nil =>
      Here(sh, np, p, trace, e, n);
    case Cons(s, rest) =>
      AtSplit(sh.script, p, FlatStmt(s), FlatBlock(rest));
      BlockRest(sh, rest, c, p + |FlatStmt(s)|, np, e, x, n);
      PassStmt(sh, s, c, p, np, trace, Cost(rest, c != Outside, e, x), x, n);
  }

  lemma {:induction false} BlockRest(sh: Shell, rest: Block, c: Context, mid: int, np: Np, e: nat, x: nat, n: nat)
    requires ProperBlock(rest) && At(sh.script, mid, FlatBlock(rest))
    requires Ready(np, IfDepth(rest), LoopDepth(rest)) && CmdEnabled(np) && InContext(np, c)
    requires Ahead(sh, np, mid + |FlatBlock(rest)|, e, n)
    requires c == Directly ==> AheadBroken(sh, np, mid + |FlatBlock(rest)|, x, n)
    ensures Ahead(sh, np, mid, Cost(rest, c != Outside, e, x), n)
    ensures c == Directly ==> AheadBroken(sh, np, mid, x, n)
    decreases n, rest, 3
  {
    hide At, FlatBlock, ProperBlock, IfDepth, LoopDepth, Needs, NoDirectLoop, Nested, Steady, PlacedConfig,
         SafeSaved, SafeLp, Cost;
    var end := mid + |FlatBlock(rest)|;
    var least := Cost(rest, c != Outside, e, x);
    forall np': Np, trace: seq<Command>, j: nat | j <= n && Keeps(np, np') && Entered(sh, Running(np', mid, trace))
      ensures Needs(sh, Running(np', mid, trace), least, j)
    {
      AheadAlike(sh, np, np', end, e, n, j);
      if c == Directly {
        BrokenAlike(sh, np, np', end, x, n, j);
      }
      PassBlock(sh, rest, c, mid, np', trace, e, x, j);
    }
    if c == Directly {
      BrokenRest(sh, rest, mid, np, x, n);
    }
  }

  lemma BrokenAlike(sh: Shell, np: Np, np': Np, p: int, cost: nat, n: nat, n': nat)
    requires np.InBounds() && np'.InBounds() && Keeps(np, np') && AheadBroken(sh, np, p, cost, n) && n' <= n
    ensures AheadBroken(sh, np', p, cost, n')
  {
    hide Ahead;
    AheadAlike(sh, np.SetLp(np.LpTop().(enable := false)), np'.SetLp(np'.LpTop().(enable := false)), p, cost, n, n');
  }

  lemma {:induction false} BrokenRest(sh: Shell, rest: Block, mid: int, np: Np, x: nat, n: nat)
    requires ProperBlock(rest) && At(sh.script, mid, FlatBlock(rest))
    requires Ready(np, IfDepth(rest), LoopDepth(rest)) && CmdEnabled(np) && InContext(np, Directly)
    requires AheadBroken(sh, np, mid + |FlatBlock(rest)|, x, n)
    ensures AheadBroken(sh, np, mid, x, n)
    decreases n, rest, 2
  {
    hide At, FlatBlock, ProperBlock, IfDepth, LoopDepth, NoDirectLoop, Nested, Steady, PlacedConfig, SafeSaved, Iter;
    var q := np.SetLp(np.LpTop().(enable := false));
    forall np': Np, trace: seq<Command>, j: nat | j <= n && Keeps(q, np') && Entered(sh, Running(np', mid, trace))
      ensures Needs(sh, Running(np', mid, trace), x, j)
    {
      AheadAlike(sh, q, np', mid + |FlatBlock(rest)|, x, n, j);
      PassOff(sh, rest, mid, np', trace, x, j);
    }
  }

  lemma {:induction false} PassStmt(sh: Shell, s: Stmt, c: Context, p: int, np: Np, trace: seq<Command>, e: nat,
                                    x: nat, n: nat)
    requires ProperStmt(s) && At(sh.script, p, FlatStmt(s))
    requires Ready(np, IfDepthStmt(s), LoopDepthStmt(s)) && CmdEnabled(np) && InContext(np, c)
    requires Entered(sh, Running(np, p, trace)) && Ahead(sh, np, p + |FlatStmt(s)|, e, n)
    requires c == Directly ==> AheadBroken(sh, np, p + |FlatStmt(s)|, x, n)
    ensures Needs(sh, Running(np, p, trace), CostStmt(s, c != Outside, e, x), n)
    decreases n, s, 3
  {
    hide Step, Iter, At, Ahead, AheadBroken, Entered, Needs, Safe, Keeps, Cost;
    match s
    case Cmd(argv) =>
      PassCmd(sh, argv, p, np, trace, e, n);
    case Break =>
      PassBreak(sh, c, p, np, trace, e, x, n);
    case If(_, _, _, _, _) =>
      PassIf(sh, s, c, p, np, trace, e, x, n);
    case Repeat(_, _, _) =>
      PassRepeat(sh, s, p, np, trace, e, n);
  }

  lemma PassCmd(sh: Shell, argv: Command, p: int, np: Np, trace: seq<Command>, e: nat, n: nat)
    requires PlainCommand(argv) && At(sh.script, p, [argv]) && Ready(np, 0, 0) && CmdEnabled(np)
    requires Entered(sh, Running(np, p, trace)) && Ahead(sh, np, p + 1, e, n)
    ensures Needs(sh, Running(np, p, trace), 1 + e, n)
  {
    hide Step, Iter, ParseCommand, Ahead, Needs, Nested, Steady, PlacedConfig;
    var r := One(sh, np, p, trace, argv);
    ParsePlain(Positioned(np, p), argv, trace, sh.oracle);
    if r.ok {
      Arrives(sh, Running(np, p, trace), 1, np, e, n, 1 + e);
    } else {
      NeedsNothing(sh, Running(np, p, trace), 1, 1 + e, n);
    }
  }

  lemma PassBreak(sh: Shell, c: Context, p: int, np: Np, trace: seq<Command>, e: nat, x: nat, n: nat)
    requires At(sh.script, p, [[KwBreak]]) && Ready(np, 0, 0) && CmdEnabled(np) && InContext(np, c)
    requires Entered(sh, Running(np, p, trace)) && Ahead(sh, np, p + 1, e, n)
    requires c == Directly ==> AheadBroken(sh, np, p + 1, x, n)
    ensures Needs(sh, Running(np, p, trace), 1 + if c != Outside then x else e, n)
  {
    hide Step, Iter, ParseCommand, Ahead, Needs, Nested, Steady, PlacedConfig;
    if c == UnderIf {
      BreakNeverEnds(sh, p, np, trace, 1 + x, n);
    } else {
      var r := One(sh, np, p, trace, [KwBreak]);
      ParsePlain(Positioned(np, p), [KwBreak], trace, sh.oracle);
      if c == Outside {
        Arrives(sh, Running(np, p, trace), 1, np, e, n, 1 + e);
      } else {
        Arrives(sh, Running(np, p, trace), 1, np.SetLp(np.LpTop().(enable := false)), x, n, 1 + x);
      }
    }
  }

  /** After a `break` under an `if` of its loop the end of the script is not reached. */
  lemma BreakNeverEnds(sh: Shell, p: int, np: Np, trace: seq<Command>, cost: nat, n: nat)
    requires At(sh.script, p, [[KwBreak]]) && Ready(np, 0, 0) && CmdEnabled(np) && InContext(np, UnderIf)
    requires Entered(sh, Running(np, p, trace))
    ensures Needs(sh, Running(np, p, trace), cost, n)
  {
    hide Step, Unrescued, Steady, HoldsAll, ClearTo, NestAt;
    var c := Running(np, p, trace);
    var missing: nat :| PlacedConfig(sh, c, missing);
    assert sh.script[p] == [KwBreak];
    NotAfter(sh.script, p);
    SavedClear(np);
    BreakRuns(sh, np, p, trace);
    SteadyNext(sh, c);
    var q := Left(Positioned(np, p));
    assert trace + [[KwBreak]] != trace;
    assert OnLevel(sh, c, 0) ==> missing == 0;
    var more := PlacedLeft(sh.script, np, p, missing);
    PlacedAlike(sh.script, Left(np), p + 1, q, p + 1, more);
    if n > 0 {
      Stays(sh, Running(q, p + 1, trace + [[KwBreak]]), more, n - 1);
    }
  }

  lemma {:induction false} PassIf(sh: Shell, s: Stmt, c: Context, p: int, np: Np, trace: seq<Command>, e: nat, x: nat,
                                  n: nat)
    requires s.If? && ProperStmt(s) && At(sh.script, p, FlatStmt(s))
    requires Ready(np, IfDepthStmt(s), LoopDepthStmt(s)) && CmdEnabled(np) && InContext(np, c)
    requires Entered(sh, Running(np, p, trace)) && Ahead(sh, np, p + |FlatStmt(s)|, e, n)
    ensures Needs(sh, Running(np, p, trace), CostStmt(s, c != Outside, e, x), n)
    decreases n, s, 2
  {
    hide Step, Iter, At, FlatBlock, FlatStmt, Ahead, Needs, SafeSaved, SafeLp, SafeIe, Nested, Steady, PlacedConfig,
         Cost, Keeps, IfDepth, LoopDepth, ProperBlock;
    AtIf(sh.script, p, s);
    var start, trace1 := Running(np, p, trace), trace + [s.cond];
    var q := EnterIf(sh, s.inverted, s.cond, p, np, trace);
    if n >= 2 {
      EnteredLater(sh, start, 2);
      if sh.oracle(trace, np.fail, s.cond) == s.inverted {
        PassThen(sh, s, c, p, np, q, trace1, e, x, n);
        NeedsAfter(sh, start, 2, Cost(s.thn, c != Outside, e, x), n, CostStmt(s, c != Outside, e, x));
      } else {
        var least := if s.hasElse then Cost(s.els, c != Outside, e, x) else e;
        PassElse(sh, s, c, p, np, q, trace1, e, x, n);
        NeedsAfter(sh, start, 2, least, n, CostStmt(s, c != Outside, e, x));
      }
    } else {
      NeedsAfter(sh, start, 2, CostStmt(s, c != Outside, e, x), n, CostStmt(s, c != Outside, e, x));
    }
  }

  // `q` is `np` with one more `if` open.
  ghost predicate Deeper(np: Np, q: Np, state: ItefState, ifcond: bool)
    requires np.InBounds()
  {
    && Safe(q) && q.iendx == np.iendx + 1 && Keeps(np, q.(iendx := np.iendx))
    && q.IeTop().state == state && q.IeTop().ifcond == ifcond && !q.IeTop().disabled
  }

  lemma {:induction false} PassThen(sh: Shell, s: Stmt, c: Context, p: int, np: Np, q: Np, trace: seq<Command>,
                                    e: nat, x: nat, n: nat)
    requires s.If? && ProperStmt(s) && At(sh.script, p, FlatStmt(s)) && n >= 2
    requires Ready(np, IfDepthStmt(s), LoopDepthStmt(s)) && CmdEnabled(np) && InContext(np, c)
    requires Deeper(np, q, IeThen, false) && Entered(sh, Running(q, p + 2, trace))
    requires Ahead(sh, np, p + |FlatStmt(s)|, e, n)
    ensures Needs(sh, Running(q, p + 2, trace), Cost(s.thn, c != Outside, e, x), n - 2)
    decreases n, s, 1
  {
    hide Step, Iter, At, FlatBlock, FlatStmt, Needs, SafeSaved, SafeLp, SafeIe, Nested, Steady, PlacedConfig, Cost,
         IfDepth, LoopDepth, ProperBlock;
    AtIf(sh.script, p, s);
    ThenAhead(sh, s, p, np, q, e, n);
    PassBlock(sh, s.thn, Inner(c), p + 2, q, trace, e, x, n - 2);
  }

  lemma ThenAhead(sh: Shell, s: Stmt, p: int, np: Np, q: Np, e: nat, n: nat)
    requires s.If? && ProperStmt(s) && At(sh.script, p, FlatStmt(s)) && n >= 2
    requires Ready(np, IfDepthStmt(s), LoopDepthStmt(s)) && Deeper(np, q, IeThen, false)
    requires Ahead(sh, np, p + |FlatStmt(s)|, e, n)
    ensures Ahead(sh, q, p + 2 + |FlatBlock(s.thn)|, e, n - 2)
  {
    hide FlatBlock, FlatStmt, Needs, Nested, Steady, PlacedConfig, IfDepth, LoopDepth, ProperBlock;
    var mid := p + 2 + |FlatBlock(s.thn)|;
    forall np': Np, trace': seq<Command>, j: nat | j <= n - 2 && Keeps(q, np') && Entered(sh, Running(np', mid, trace'))
      ensures Needs(sh, Running(np', mid, trace'), e, j)
    {
      ThenEnds(sh, s, p, np, q, np', mid, trace', e, n, j);
    }
  }

  lemma ThenEnds(sh: Shell, s: Stmt, p: int, np: Np, q: Np, np': Np, mid: int, trace: seq<Command>, e: nat, n: nat,
                 j: nat)
    requires s.If? && ProperStmt(s) && At(sh.script, p, FlatStmt(s)) && mid == p + 2 + |FlatBlock(s.thn)|
    requires Ready(np, IfDepthStmt(s), LoopDepthStmt(s)) && Deeper(np, q, IeThen, false) && Keeps(q, np')
    requires Entered(sh, Running(np', mid, trace)) && Ahead(sh, np, p + |FlatStmt(s)|, e, n) && j <= n
    ensures Needs(sh, Running(np', mid, trace), e, j)
  {
    hide Step, Iter, At, FlatBlock, FlatStmt, Ahead, Needs, SafeSaved, SafeLp, Nested, Steady, PlacedConfig, IfDepth,
         LoopDepth, ProperBlock;
    AtIf(sh.script, p, s);
    var k, np2 := SkipToFi(sh, s.hasElse, s.els, mid, np', trace);
    AheadAlike(sh, np, np, p + |FlatStmt(s)|, e, n, j);
    Arrives(sh, Running(np', mid, trace), k, np, e, j, e);
  }

  lemma {:induction false} PassElse(sh: Shell, s: Stmt, c: Context, p: int, np: Np, q: Np, trace: seq<Command>,
                                    e: nat, x: nat, n: nat)
    requires s.If? && ProperStmt(s) && At(sh.script, p, FlatStmt(s)) && n >= 2
    requires Ready(np, IfDepthStmt(s), LoopDepthStmt(s)) && CmdEnabled(np) && InContext(np, c)
    requires Deeper(np, q, IeThen, true) && Entered(sh, Running(q, p + 2, trace))
    requires Ahead(sh, np, p + |FlatStmt(s)|, e, n)
    ensures Needs(sh, Running(q, p + 2, trace), if s.hasElse then Cost(s.els, c != Outside, e, x) else e, n - 2)
    decreases n, s, 1
  {
    hide Step, Iter, At, FlatBlock, FlatStmt, Ahead, Needs, SafeSaved, SafeLp, Nested, Steady, PlacedConfig, Cost,
         IfDepth, LoopDepth, ProperBlock;
    AtIf(sh.script, p, s);
    var c0, mid := Running(q, p + 2, trace), p + 2 + |FlatBlock(s.thn)|;
    var m, q1 := SkipBlock(sh, s.thn, p + 2, q, trace);
    if s.hasElse {
      var q2 := StepElse(sh, mid, q1, trace);
      IterAdd(sh, c0, m, 1);
      if n - 2 >= m + 1 {
        EnteredLater(sh, c0, m + 1);
        PassElseBranch(sh, s, c, p, np, q2, mid + 1, trace, e, x, n, n - 2 - (m + 1));
      }
      NeedsAfter(sh, c0, m + 1, Cost(s.els, c != Outside, e, x), n - 2, Cost(s.els, c != Outside, e, x));
    } else {
      var np2 := StepFi(sh, mid, q1, trace);
      IterAdd(sh, c0, m, 1);
      AheadAlike(sh, np, np, p + |FlatStmt(s)|, e, n, n - 2);
      Arrives(sh, c0, m + 1, np, e, n - 2, e);
    }
  }

  lemma {:induction false} PassElseBranch(sh: Shell, s: Stmt, c: Context, p: int, np: Np, q: Np, p1: int,
                                          trace: seq<Command>, e: nat, x: nat, n: nat, j: nat)
    requires s.If? && s.hasElse && ProperStmt(s) && j <= n
    requires At(sh.script, p1, FlatBlock(s.els)) && At(sh.script, p1 + |FlatBlock(s.els)|, [[KwFi]])
    requires p1 + |FlatBlock(s.els)| + 1 == p + |FlatStmt(s)|
    requires Ready(np, IfDepthStmt(s), LoopDepthStmt(s)) && CmdEnabled(np) && InContext(np, c)
    requires Deeper(np, q, IeElse, true) && Entered(sh, Running(q, p1, trace))
    requires Ahead(sh, np, p + |FlatStmt(s)|, e, n)
    ensures Needs(sh, Running(q, p1, trace), Cost(s.els, c != Outside, e, x), j)
    decreases n, s, 0
  {
    hide Step, Iter, At, FlatBlock, FlatStmt, Needs, SafeSaved, SafeLp, SafeIe, Nested, Steady, PlacedConfig, Cost,
         IfDepth, LoopDepth, ProperBlock;
    ElseAhead(sh, np, q, p1 + |FlatBlock(s.els)|, e, n, j);
    PassBlock(sh, s.els, Inner(c), p1, q, trace, e, x, j);
  }

  lemma ElseAhead(sh: Shell, np: Np, q: Np, f: int, e: nat, n: nat, j: nat)
    requires At(sh.script, f, [[KwFi]]) && Ready(np, 0, 0) && Deeper(np, q, IeElse, true)
    requires Ahead(sh, np, f + 1, e, n) && j <= n
    ensures Ahead(sh, q, f, e, j)
  {
    hide Needs, Nested, Steady, PlacedConfig;
    forall np': Np, trace': seq<Command>, i: nat | i <= j && Keeps(q, np') && Entered(sh, Running(np', f, trace'))
      ensures Needs(sh, Running(np', f, trace'), e, i)
    {
      ElseEnds(sh, np, q, np', f, trace', e, n, i);
    }
  }

  lemma ElseEnds(sh: Shell, np: Np, q: Np, np': Np, f: int, trace: seq<Command>, e: nat, n: nat, j: nat)
    requires At(sh.script, f, [[KwFi]]) && Ready(np, 0, 0) && Deeper(np, q, IeElse, true) && Keeps(q, np')
    requires Entered(sh, Running(np', f, trace)) && Ahead(sh, np, f + 1, e, n) && j <= n
    ensures Needs(sh, Running(np', f, trace), e, j)
  {
    hide Step, Iter, At, Ahead, Needs, SafeSaved, SafeLp, Nested, Steady, PlacedConfig;
    var np2 := StepFi(sh, f, np', trace);
    AheadAlike(sh, np, np, f + 1, e, n, j);
    Arrives(sh, Running(np', f, trace), 1, np, e, j, e);
  }

  lemma {:induction false} PassRepeat(sh: Shell, s: Stmt, p: int, np: Np, trace: seq<Command>, e: nat, n: nat)
    requires s.Repeat? && ProperStmt(s) && At(sh.script, p, FlatStmt(s))
    requires Ready(np, IfDepthStmt(s), LoopDepthStmt(s)) && CmdEnabled(np)
    requires Entered(sh, Running(np, p, trace)) && Ahead(sh, np, p + |FlatStmt(s)|, e, n)
    ensures Needs(sh, Running(np, p, trace), 1 + e, n)
    decreases n, s, 2
  {
    hide Step, Iter, At, FlatBlock, FlatStmt, Ahead, Needs, SafeSaved, SafeLp, SafeIe, Nested, Steady, PlacedConfig,
         IfDepth, LoopDepth, ProperBlock;
    var c := Running(np, p, trace);
    AtRepeat(sh.script, p, s);
    var q := EnterLoop(sh, s.until, s.cond, p, np, trace);
    if n >= 2 {
      EnteredLater(sh, c, 2);
      BodyOn(sh, s, p, np, q, e, e, n);
      PassBodyOff(sh, s, p, q, trace + [s.cond], e, n - 2);
    }
    NeedsAfter(sh, c, 2, e, n, 1 + e);
  }

  // At the `done` of a loop: another round costs its test, and leaving it nothing.
  lemma {:induction false} BodyOn(sh: Shell, s: Stmt, p: int, np: Np, q: Np, e: nat, more: nat, n: nat)
    requires s.Repeat? && ProperStmt(s) && At(sh.script, p, FlatStmt(s)) && n >= 2
    requires Ready(np, IfDepthStmt(s), LoopDepthStmt(s)) && CmdEnabled(np)
    requires Ahead(sh, np, p + |FlatStmt(s)|, e, n)
    requires Safe(q) && q.lpndx == np.lpndx + 1 && Keeps(np, q.(lpndx := np.lpndx))
    requires q.LpTop().state == LpDo && q.LpTop().topoffs == p
    requires more == e || (more == 1 + e && q.LpTop().enable)
    ensures Ahead(sh, q, p + 2 + |FlatBlock(s.body)|, more, n - 2)
    ensures AheadBroken(sh, q, p + 2 + |FlatBlock(s.body)|, e, n - 2)
    decreases n, s, 1
  {
    hide Step, Iter, At, FlatBlock, FlatStmt, Needs, SafeSaved, SafeLp, SafeIe, Nested, Steady, PlacedConfig,
         ProperBlock, IfDepth, LoopDepth;
    AtRepeat(sh.script, p, s);
    var d := p + 2 + |FlatBlock(s.body)|;
    forall np': Np, trace: seq<Command>, j: nat | j <= n - 2 && Keeps(q, np') && Entered(sh, Running(np', d, trace))
      ensures Needs(sh, Running(np', d, trace), more, j)
    {
      DoneOn(sh, s, p, np, q, np', d, trace, e, more, n, j);
    }
    var q' := q.SetLp(q.LpTop().(enable := false));
    forall np': Np, trace: seq<Command>, j: nat | j <= n - 2 && Keeps(q', np') && Entered(sh, Running(np', d, trace))
      ensures Needs(sh, Running(np', d, trace), e, j)
    {
      DoneOn(sh, s, p, np, q', np', d, trace, e, e, n, j);
    }
  }

  lemma {:induction false} DoneOn(sh: Shell, s: Stmt, p: int, np: Np, q: Np, np': Np, d: int, trace: seq<Command>,
                                  e: nat, more: nat, n: nat, j: nat)
    requires s.Repeat? && ProperStmt(s) && At(sh.script, p, FlatStmt(s))
    requires At(sh.script, d, [[KwDone]]) && d + 1 == p + |FlatStmt(s)|
    requires Ready(np, IfDepthStmt(s), LoopDepthStmt(s)) && CmdEnabled(np) && j + 2 <= n
    requires Ahead(sh, np, p + |FlatStmt(s)|, e, n)
    requires q.InBounds() && q.lpndx == np.lpndx + 1 && Keeps(np, q.(lpndx := np.lpndx))
    requires q.LpTop().state == LpDo && q.LpTop().topoffs == p && Keeps(q, np')
    requires more == e || (more == 1 + e && q.LpTop().enable)
    requires Entered(sh, Running(np', d, trace))
    ensures Needs(sh, Running(np', d, trace), more, j)
    decreases n, s, 0
  {
    hide Step, Iter, At, FlatBlock, FlatStmt, Ahead, Needs, SafeSaved, SafeLp, Nested, Steady, PlacedConfig,
         ProperStmt, IfDepthStmt, LoopDepthStmt;
    var c := Running(np', d, trace);
    if np'.LpTop().enable {
      var np2 := GoBack(sh, d, np', trace);
      if j >= 1 {
        EnteredLater(sh, c, 1);
        AheadAlike(sh, np, np2, p + |FlatStmt(s)|, e, n, j - 1);
        PassRepeat(sh, s, p, np2, trace, e, j - 1);
      }
      NeedsAfter(sh, c, 1, 1 + e, j, more);
    } else {
      var np2 := LeaveLoop(sh, d, np', trace);
      AheadAlike(sh, np, np, d + 1, e, n, j);
      Arrives(sh, c, 1, np, e, j, e);
    }
  }
}
