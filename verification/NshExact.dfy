/**
  Exactly which scripts the machine gives their structured meaning.
*/
module NshExact {
  import opened NshMachine
  import opened NshStructured
  import opened NshRun
  import opened NshSteps
  import opened NshSimulation
  import opened NshMeaning
  import opened NshNesting
  import opened NshPlaced
  import opened NshRescue
  import opened NshCost
  import opened NshDetour

  // A script of any shape that fits the stacks, and a state to run it in.
  ghost predicate Startable(b: Block, np: Np) {
    && ProperBlock(b) && Ready(np, IfDepth(b), LoopDepth(b)) && CmdEnabled(np)
    && np.LpTop().state == LpNormal && np.iendx == 0
  }

  // The machine and the structured meaning give the script the same endings, whatever the
  // commands return; errors are ignored or not.
  ghost predicate AlwaysAgrees(b: Block, joined: seq<bool>, np: Np, ignore: bool)
    requires Safe(np)
  {
    forall oracle: Oracle, trace: seq<Command>, e: Ending ::
      Halts(Shell(FlatBlock(b), joined, oracle, ignore), Running(np, 0, trace), e)
      <==> Means(b, History(trace, np.fail), oracle, ignore, e)
  }

  // Whatever the commands return, each is run at the level of the `if`s around it.
  ghost predicate AlwaysOnLevel(b: Block, joined: seq<bool>, np: Np, ignore: bool)
    requires Safe(np)
  {
    forall oracle: Oracle, trace: seq<Command>, i: nat ::
      var sh := Shell(FlatBlock(b), joined, oracle, ignore);
      OnLevel(sh, Iter(sh, Running(np, 0, trace), i), 0)
  }

  /** A supported shape is enough, with errors ignored or not. */
  lemma SupportedAgrees(b: Block, joined: seq<bool>, np: Np, ignore: bool)
    requires Startable(b, np) && SupportedBlock(b, Outside)
    ensures AlwaysAgrees(b, joined, np, ignore) && AlwaysOnLevel(b, joined, np, ignore)
  {
    hide Halts, Means, OnLevel, Iter, FlatBlock;
    forall oracle: Oracle, trace: seq<Command>, e: Ending
      ensures Halts(Shell(FlatBlock(b), joined, oracle, ignore), Running(np, 0, trace), e)
              <==> Means(b, History(trace, np.fail), oracle, ignore, e)
    {
      ScriptMeaning(Shell(FlatBlock(b), joined, oracle, ignore), b, np, trace, e);
    }
    forall oracle: Oracle, trace: seq<Command>, i: nat
      ensures var sh := Shell(FlatBlock(b), joined, oracle, ignore);
              OnLevel(sh, Iter(sh, Running(np, 0, trace), i), 0)
    {
      ScriptOnLevel(Shell(FlatBlock(b), joined, oracle, ignore), b, np, trace, i);
    }
  }

  // ----- Unsupported shapes -----

  lemma Starts(sh: Shell, b: Block, np: Np)
    requires Startable(b, np) && sh.script == FlatBlock(b) && !sh.ignore && Steady(sh, Running(np, 0, []))
    ensures Entered(sh, Running(np, 0, []))
  {
    hide Steady, Step, FlatBlock;
    FlatNested(b);
    Outermost(sh.script);
    assert PlacedConfig(sh, Running(np, 0, []), 0);
  }

  lemma NothingAhead(sh: Shell, np: Np, p: int, n: nat)
    requires np.InBounds()
    ensures Ahead(sh, np, p, 0, n)
  {
    hide Steady, Nested, PlacedConfig, Step, Iter;
    forall np': Np, trace: seq<Command>, j: nat | j <= n && Keeps(np, np') && Entered(sh, Running(np', p, trace))
      ensures Needs(sh, Running(np', p, trace), 0, j)
    {
      TraceGrows(sh, Running(np', p, trace), j);
    }
  }

  // Outside of loops there is nothing to leave.
  lemma {:induction false} NeverBrokeOutside(b: Block, h: History, fuel: nat, oracle: Oracle, ignore: bool)
    ensures !EvalBlock(b, false, h, fuel, oracle, ignore).out.Broke?
    decreases b
  {
    hide EvalStmt;
    if b.Nil? {
    } else {
      NeverBrokeStmt(b.head, h, fuel, oracle, ignore);
      var r := EvalStmt(b.head, false, h, fuel, oracle, ignore);
      NeverBrokeOutside(b.tail, r.h, r.fuel, oracle, ignore);
    }
  }

  lemma {:induction false} NeverBrokeStmt(s: Stmt, h: History, fuel: nat, oracle: Oracle, ignore: bool)
    ensures !EvalStmt(s, false, h, fuel, oracle, ignore).out.Broke?
    decreases s
  {
    match s
    case If(_, cond, thn, _, els) =>
      var h1 := History(h.trace + [cond], false);
      NeverBrokeOutside(thn, h1, fuel, oracle, ignore);
      NeverBrokeOutside(els, h1, fuel, oracle, ignore);
    case Repeat(_, _, _) =>
      RepeatNeverBroke(s, false, h, fuel, oracle, ignore);
    case _ =>
  }

  function Following(answers: seq<bool>): Oracle {
    (t: seq<Command>, _, _) => |t| < |answers| && answers[|t|]
  }

  // The script of an unsupported shape, with the results that bring this out.
  function Misled(b: Block, joined: seq<bool>): Shell
    requires !SupportedBlock(b, Outside)
  {
    Shell(FlatBlock(b), joined, Following(Detour(b, Outside, 0, 0).answers), false)
  }

  lemma UnsupportedMisruns(b: Block, joined: seq<bool>, np: Np) returns (e: Ending)
    requires Startable(b, np) && !SupportedBlock(b, Outside) && Steady(Misled(b, joined), Running(np, 0, []))
    ensures var sh := Misled(b, joined);
            !Halts(sh, Running(np, 0, []), e) && Means(b, History([], np.fail), sh.oracle, sh.ignore, e)
  {
    hide EvalBlock, Detour, SupportedBlock, Steady, FlatBlock, IfDepth, LoopDepth, ProperBlock, Iter, Step;
    var sh, path, h := Misled(b, joined), Detour(b, Outside, 0, 0), History([], np.fail);
    var c, fuel := Running(np, 0, []), |path.answers|;
    DetourTaken(b, Outside, 0, 0, h, fuel, sh.oracle);
    DetourEnds(b, Outside, 0, 0);
    NeverBrokeOutside(b, h, fuel, sh.oracle, false);
    var r := EvalBlock(b, false, h, fuel, sh.oracle, false);
    e := Ending(r.h.trace, r.h.fail, true);
    assert MeansWith(b, h, fuel, sh.oracle, false, e);
    Starts(sh, b, np);
    forall n: nat ensures !HaltsIn(sh, c, n, e) {
      NothingAhead(sh, np, |sh.script|, n);
      assert sh.script[0..0 + |sh.script|] == sh.script;
      DetourCosts(sh, b, Outside, 0, np, [], 0, 0, n);
    }
  }

  lemma UnsupportedDisagrees(b: Block, joined: seq<bool>, np: Np)
    requires Startable(b, np) && !SupportedBlock(b, Outside)
    requires Unrescued(FlatBlock(b)) || AlwaysOnLevel(b, joined, np, false)
    ensures !AlwaysAgrees(b, joined, np, false)
  {
    hide Halts, Means, OnLevel, Iter, FlatBlock, Unrescued, Detour, Startable, SupportedBlock;
    var e := UnsupportedMisruns(b, joined, np);
  }

  /**
    For every script that fits the stacks, with errors not ignored: the machine gives it its
    structured endings and runs every command at its own level, for all command results, if
    and only if it is of a supported shape.
  */
  lemma ScriptExact(b: Block, joined: seq<bool>, np: Np)
    requires Startable(b, np)
    ensures AlwaysAgrees(b, joined, np, false) && AlwaysOnLevel(b, joined, np, false) <==> SupportedBlock(b, Outside)
  {
    hide AlwaysAgrees, AlwaysOnLevel, SupportedBlock;
    if SupportedBlock(b, Outside) {
      SupportedAgrees(b, joined, np, false);
    } else if AlwaysOnLevel(b, joined, np, false) {
      UnsupportedDisagrees(b, joined, np);
    }
  }

  /**
    For the endings alone it is the same, unless a loop with a `break` directly in its body,
    under `n` levels of `if`, is around one that is left under `n` or fewer levels.
  */
  lemma EndingsExact(b: Block, joined: seq<bool>, np: Np)
    requires Startable(b, np) && NoRescue(b, 0)
    ensures AlwaysAgrees(b, joined, np, false) <==> SupportedBlock(b, Outside)
  {
    hide AlwaysAgrees, AlwaysOnLevel, SupportedBlock, NoRescue, Unrescued;
    FlatUnrescued(b);
    if SupportedBlock(b, Outside) {
      SupportedAgrees(b, joined, np, false);
    } else {
      UnsupportedDisagrees(b, joined, np);
    }
  }
}
