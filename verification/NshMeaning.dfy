/**
  What a whole script does: the machine halts with a trace of commands, a value of
  `$?` and a reason for halting if and only if the structured meaning gives the same.
*/
module NshMeaning {
  import opened NshMachine
  import opened NshStructured
  import opened NshRun
  import opened NshSteps
  import opened NshNesting
  import opened NshSimulation

  // How a script ended: commands run, `$?`, and whether the end of the script was reached.
  datatype Ending = Ending(trace: seq<Command>, fail: bool, atEnd: bool)

  ghost predicate HaltsIn(sh: Shell, c: Config, n: nat, e: Ending)
    requires Safe(c.np)
  {
    var d := Iter(sh, c, n);
    d.Halted? && e == Ending(d.trace, d.np.fail, d.atEnd)
  }

  ghost predicate Halts(sh: Shell, c: Config, e: Ending)
    requires Safe(c.np)
  {
    exists n: nat :: HaltsIn(sh, c, n, e)
  }

  ghost predicate MeansWith(b: Block, h: History, fuel: nat, oracle: Oracle, ignore: bool, e: Ending) {
    var r := EvalBlock(b, false, h, fuel, oracle, ignore);
    r.h == History(e.trace, e.fail) && (if e.atEnd then r.out.Normal? else r.out.Stopped?)
  }

  ghost predicate Means(b: Block, h: History, oracle: Oracle, ignore: bool, e: Ending) {
    exists fuel: nat :: MeansWith(b, h, fuel, oracle, ignore, e)
  }

  // A script the theorems are about, and a state to run it in.
  ghost predicate Runnable(script: seq<Command>, b: Block, np: Np) {
    && script == FlatBlock(b)
    && ProperBlock(b) && SupportedBlock(b, Outside)
    && Ready(np, IfDepth(b), LoopDepth(b)) && CmdEnabled(np) && np.LpTop().state == LpNormal
  }

  // With this much fuel, the machine either halts as the structured script ends, or
  // has been running for as many steps.
  lemma Agreement(sh: Shell, b: Block, np: Np, trace: seq<Command>, fuel: nat) returns (n: nat)
    requires Runnable(sh.script, b, np)
    ensures var r := EvalBlock(b, false, History(trace, np.fail), fuel, sh.oracle, sh.ignore);
            var c := Iter(sh, Running(np, 0, trace), n);
            match r.out
            case Normal => HaltsIn(sh, Running(np, 0, trace), n, Ending(r.h.trace, r.h.fail, true)) && Keeps(np, c.np)
            case Stopped => HaltsIn(sh, Running(np, 0, trace), n, Ending(r.h.trace, r.h.fail, false))
            case OutOfFuel => c.Running? && n >= fuel && c.trace == r.h.trace
            case Broke => false
    ensures RightWay(sh, Running(np, 0, trace), n, np.iendx)
  {
    hide Step, Iter, RightWay;
    assert sh.script[0..0 + |FlatBlock(b)|] == FlatBlock(b);
    n := SimBlock(sh, b, Outside, 0, np, trace, fuel);
    BrokeOnlyDirectly(b, Outside, History(trace, np.fail), fuel, sh.oracle, sh.ignore);
    var r := Eval(sh, b, Outside, np, trace, fuel);
    if r.out.Normal? {
      var c := Iter(sh, Running(np, 0, trace), n);
      AtTheEnd(sh, c);
      OneStep(sh, c);
      IterAdd(sh, Running(np, 0, trace), n, 1);
      QuietAfter(sh, np, 0, trace, n, 1);
      n := n + 1;
    }
  }

  /** The machine halts exactly where, and as, the structured script ends. */
  lemma ScriptMeaning(sh: Shell, b: Block, np: Np, trace: seq<Command>, e: Ending)
    requires Runnable(sh.script, b, np)
    ensures Halts(sh, Running(np, 0, trace), e) <==> Means(b, History(trace, np.fail), sh.oracle, sh.ignore, e)
  {
    hide Iter, EvalBlock;
    var c, h := Running(np, 0, trace), History(trace, np.fail);
    if Halts(sh, c, e) {
      var m: nat :| HaltsIn(sh, c, m, e);
      var n := Agreement(sh, b, np, trace, m + 1);
      Unique(sh, c, m, n);
      assert MeansWith(b, h, m + 1, sh.oracle, sh.ignore, e);
    }
    if Means(b, h, sh.oracle, sh.ignore, e) {
      var fuel: nat :| MeansWith(b, h, fuel, sh.oracle, sh.ignore, e);
      var n := Agreement(sh, b, np, trace, fuel);
      assert HaltsIn(sh, c, n, e);
    }
  }

  /** A script that is read to its end leaves both stacks as it found them. */
  lemma ScriptBalanced(sh: Shell, b: Block, np: Np, trace: seq<Command>, n: nat)
    requires Runnable(sh.script, b, np)
    requires Iter(sh, Running(np, 0, trace), n).Halted? && Iter(sh, Running(np, 0, trace), n).atEnd
    ensures Keeps(np, Iter(sh, Running(np, 0, trace), n).np)
  {
    hide Iter, EvalBlock;
    var c := Running(np, 0, trace);
    var m := Agreement(sh, b, np, trace, n + 1);
    Unique(sh, c, n, m);
  }

  /** Every command of a supported script is run at the level of the `if`s around it. */
  lemma ScriptOnLevel(sh: Shell, b: Block, np: Np, trace: seq<Command>, i: nat)
    requires Runnable(sh.script, b, np)
    ensures OnLevel(sh, Iter(sh, Running(np, 0, trace), i), np.iendx)
  {
    hide Iter, EvalBlock, Step, NestAt;
    var c := Running(np, 0, trace);
    var n := Agreement(sh, b, np, trace, i + 1);
    if i >= n {
      HaltedLater(sh, c, n, i);
    }
  }
}
