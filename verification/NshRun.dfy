/**
  Runs of the machine over a script given as a list of clauses.  A position is an
  index into that list; `done` seeks back to the position its loop has saved.
  A command line such as `then cmd` makes two clauses, the second joined to the
  first: it is dropped when the keyword before it is rejected.
*/
module NshRun {
  import opened NshOption
  import opened NshMachine

  datatype Shell = Shell(script: seq<Command>, joined: seq<bool>, oracle: Oracle, ignore: bool)
  {
    // The position after a clause that went as it should, or was rejected.
    function Next(pos: int, rejected: bool): int {
      if rejected && 0 <= pos + 1 < |joined| && joined[pos + 1] then pos + 2 else pos + 1
    }
  }

  datatype Config =
    | Running(np: Np, pos: int, trace: seq<Command>)
    | Halted(np: Np, trace: seq<Command>, atEnd: bool)

  function Ran(trace: seq<Command>, p: Parsed): seq<Command> {
    match p.ran
    case None => trace
    case Some(argv) => trace + [argv]
  }

  // The state in which the command at `pos` is handled.
  function Positioned(np: Np, pos: int): Np {
    np.(foffs := pos, loffs := 0, jump := false)
  }

  ghost function Step(sh: Shell, c: Config): (c': Config)
    requires Safe(c.np)
    ensures Safe(c'.np)
  {
    match c
    case Halted(_, _, _) => c
    case Running(np, pos, trace) =>
      if !(0 <= pos < |sh.script|) then Halted(np, trace, true)
      else
        var p := ParseCommand(Positioned(np, pos), sh.script[pos], trace, sh.oracle);
        CommandKeepsSafe(Positioned(np, pos), sh.script[pos], trace, sh.oracle);
        if !p.ok && !sh.ignore then Halted(p.np, Ran(trace, p), false)
        else Running(p.np, if p.np.jump then p.np.seek else sh.Next(pos, p.rejected), Ran(trace, p))
  }

  ghost function Iter(sh: Shell, c: Config, n: nat): (c': Config)
    requires Safe(c.np)
    ensures Safe(c'.np)
    decreases n
  {
    if n == 0 then c else Iter(sh, Step(sh, c), n - 1)
  }

  lemma {:induction false} IterAdd(sh: Shell, c: Config, m: nat, n: nat)
    requires Safe(c.np)
    ensures Iter(sh, c, m + n) == Iter(sh, Iter(sh, c, m), n)
    decreases m
  {
    hide Step;
    if m == 0 {
    } else {
      IterAdd(sh, Step(sh, c), m - 1, n);
    }
  }

  lemma AtTheEnd(sh: Shell, c: Config)
    requires Safe(c.np) && c.Running? && c.pos >= |sh.script|
    ensures Step(sh, c) == Halted(c.np, c.trace, true)
  {
  }

  lemma {:induction false} HaltedStays(sh: Shell, c: Config, n: nat)
    requires Safe(c.np) && c.Halted?
    ensures Iter(sh, c, n) == c
    decreases n
  {
    if n == 0 {
    } else {
      assert Step(sh, c) == c;
      HaltedStays(sh, c, n - 1);
    }
  }

  // A run that has halted after `n` steps is the same after any more.
  lemma HaltedLater(sh: Shell, c: Config, n: nat, m: nat)
    requires Safe(c.np) && n <= m && Iter(sh, c, n).Halted?
    ensures Iter(sh, c, m) == Iter(sh, c, n)
  {
    hide Step, Iter;
    IterAdd(sh, c, n, m - n);
    HaltedStays(sh, Iter(sh, c, n), m - n);
  }

  lemma Unique(sh: Shell, c: Config, m: nat, n: nat)
    requires Safe(c.np) && Iter(sh, c, m).Halted? && (n > m || Iter(sh, c, n).Halted?)
    ensures Iter(sh, c, n) == Iter(sh, c, m)
  {
    if m <= n { HaltedLater(sh, c, m, n); } else { HaltedLater(sh, c, n, m); }
  }

  lemma StepTraceGrows(sh: Shell, c: Config)
    requires Safe(c.np)
    ensures c.trace <= Step(sh, c).trace
  {
    hide ParseCommand;
  }

  lemma {:induction false} TraceGrows(sh: Shell, c: Config, n: nat)
    requires Safe(c.np)
    ensures c.trace <= Iter(sh, c, n).trace
    decreases n
  {
    hide Step;
    if n == 0 {
    } else {
      StepTraceGrows(sh, c);
      TraceGrows(sh, Step(sh, c), n - 1);
    }
  }

  // The commands of `code` stand in the script from position `p` on.
  ghost predicate At(script: seq<Command>, p: int, code: seq<Command>) {
    0 <= p && p + |code| <= |script| && script[p..p + |code|] == code
  }

  lemma AtSplit(script: seq<Command>, p: int, a: seq<Command>, b: seq<Command>)
    ensures At(script, p, a + b) <==> At(script, p, a) && At(script, p + |a|, b)
  {
    if At(script, p, a + b) {
      var s := script[p..p + |a + b|];
      assert script[p..p + |a|] == s[..|a|];
      assert script[p + |a|..p + |a| + |b|] == s[|a|..];
    }
    if At(script, p, a) && At(script, p + |a|, b) {
      assert script[p..p + |a + b|] == script[p..p + |a|] + script[p + |a|..p + |a| + |b|];
    }
  }

  /** The entries at or below the current level are the same. */
  ghost predicate Keeps(a: Np, b: Np)
    requires a.InBounds()
  {
    && a.lpndx == b.lpndx && a.iendx == b.iendx && a.fd == b.fd
    && |a.ie| == |b.ie| && |a.lp| == |b.lp|
    && (forall j :: 0 <= j <= a.iendx ==> a.ie[j] == b.ie[j])
    && (forall k :: 0 <= k <= a.lpndx ==> a.lp[k] == b.lp[k])
  }

  // Keeps everything but the entry of the innermost loop, which `break` has switched off.
  ghost predicate KeepsBroken(a: Np, b: Np)
    requires a.InBounds()
  {
    Keeps(a.SetLp(a.LpTop().(enable := false)), b)
  }

  // Between statements, with room for `ifs` and `loops` more levels.
  ghost predicate Ready(np: Np, ifs: nat, loops: nat) {
    && Safe(np)
    && !np.AwaitsDo()
    && np.IeTop().state != IeIf
    && np.fd >= 0
    && np.iendx + ifs < |np.ie|
    && np.lpndx + loops < |np.lp|
  }
}
