/**
  The control skeleton of the NuttShell command parser: the two bounded stacks
  that drive if/then/else/fi and while/until/do/done, and the decision whether
  a command runs.  A command is a sequence of words; what running it does is
  supplied by an oracle.

  The functions describe one call on a snapshot of the parser state.  `NshParser` has
  the in-place form, proved to compute those functions.
*/
module NshMachine {
  import opened NshOption

  // A word of a command line, with the reserved words told apart.
  datatype Word =
    | KwWhile | KwUntil | KwDo | KwDone
    | KwIf | KwBang | KwThen | KwElse | KwFi
    | KwBreak
    | Text(s: string)

  type Command = seq<Word>

  // `oracle(trace, lastFailed, argv)`: does `argv` fail when it is run after the
  // commands of `trace`, with `lastFailed` as the value of `$?`.
  type Oracle = (seq<Command>, bool, Command) -> bool

  datatype ItefState = IeNormal | IeIf | IeThen | IeElse
  datatype Itef = Itef(ifcond: bool, disabled: bool, inverted: bool, state: ItefState)

  datatype LoopState = LpNormal | LpWhile | LpUntil | LpDo
  datatype Loop = Loop(enable: bool, state: LoopState, iendx: nat, topoffs: int)

  // Parser state.  `seek` is the position of the script file.
  datatype Np = Np(
    fail: bool, fd: int, foffs: int, loffs: int, jump: bool, seek: int,
    lpndx: nat, iendx: nat, ie: seq<Itef>, lp: seq<Loop>)
  {
    predicate InBounds() {
      lpndx < |lp| && iendx < |ie|
    }

    function LpTop(): Loop
      requires InBounds()
    {
      lp[lpndx]
    }

    function IeTop(): Itef
      requires InBounds()
    {
      ie[iendx]
    }

    // A while/until has been read and its `do` has not.
    predicate AwaitsDo()
      requires InBounds()
    {
      LpTop().state in {LpWhile, LpUntil}
    }

    function SetLp(e: Loop): Np
      requires InBounds()
    {
      this.(lp := lp[lpndx := e])
    }

    function SetIe(e: Itef): Np
      requires InBounds()
    {
      this.(ie := ie[iendx := e])
    }
  }

  const ITEF_RESET := Itef(false, false, false, IeNormal)
  const LOOP_RESET := Loop(false, LpNormal, 0, 0)

  // The state a session starts from, with `depth` entries in each stack.
  function Zeroed(depth: nat): Np {
    Np(false, 0, 0, 0, false, 0, 0, 0, seq(depth, _ => ITEF_RESET), seq(depth, _ => LOOP_RESET))
  }

  predicate LoopEnabled(np: Np)
    requires np.InBounds()
  {
    np.LpTop().state == LpDo ==> np.LpTop().enable
  }

  predicate ItefEnabled(np: Np)
    requires np.InBounds()
  {
    && !np.IeTop().disabled
    && (np.IeTop().state == IeThen ==> !np.IeTop().ifcond)
    && (np.IeTop().state == IeElse ==> np.IeTop().ifcond)
  }

  predicate CmdEnabled(np: Np)
    requires np.InBounds()
  {
    LoopEnabled(np) && ItefEnabled(np)
  }

  // A new state and whether the call returned OK.
  datatype Ret = Ret(np: Np, ok: bool)

  function SaveResult(np: Np, failed: bool): Ret
    requires np.InBounds()
  {
    if np.LpTop().state == LpWhile then
      Ret(np.(fail := false).SetLp(np.LpTop().(enable := !failed)), true)
    else if np.LpTop().state == LpUntil then
      Ret(np.(fail := false).SetLp(np.LpTop().(enable := failed)), true)
    else if np.IeTop().state == IeIf then
      Ret(np.(fail := false).SetIe(np.IeTop().(ifcond := np.IeTop().inverted != failed)), true)
    else
      Ret(np.(fail := failed), !failed)
  }

  // A new state, the words still to be processed, and whether the call returned OK.
  datatype Phase = Phase(np: Np, rest: Command, ok: bool)

  function LoopError(np: Np): Phase
    requires np.InBounds()
  {
    Phase(np.(jump := false, lpndx := 0,
              lp := np.lp[0 := np.lp[0].(state := LpNormal, enable := true, topoffs := 0)]),
          [], false)
  }

  predicate NoWord(rest: Command) {
    rest == [] || rest[0] == Text("")
  }

  function LoopPhase(np: Np, words: Command): Phase
    requires np.InBounds()
  {
    if words == [] then
      Phase(np, words, true)
    else
      match words[0]
      case KwWhile => LoopPush(np, false, words[1..])
      case KwUntil => LoopPush(np, true, words[1..])
      case KwDo =>
        if !np.AwaitsDo() then LoopError(np)
        else Phase(np.SetLp(np.LpTop().(state := LpDo)), words[1..], true)
      case KwDone => LoopPop(np, words[1..])
      case _ =>
        if np.AwaitsDo() then LoopError(np) else Phase(np, words, true)
  }

  // A loop is opened, which notes where it stands.
  function Pushed(np: Np, until: bool): Np
    requires np.InBounds() && np.lpndx + 1 < |np.lp|
  {
    np.(jump := false, lpndx := np.lpndx + 1,
        lp := np.lp[np.lpndx + 1 :=
          Loop(CmdEnabled(np), if until then LpUntil else LpWhile, np.iendx, np.foffs + np.loffs)])
  }

  function LoopPush(np: Np, until: bool, rest: Command): Phase
    requires np.InBounds()
  {
    if NoWord(rest) then LoopError(np)
    else if np.IeTop().state == IeIf || np.AwaitsDo() || np.fd < 0 || np.foffs < 0 then LoopError(np)
    else if np.lpndx >= |np.lp| - 1 then LoopError(np)
    else Phase(Pushed(np, until), rest, true)
  }

  // The innermost loop is left, or run again from its top.
  function Popped(np: Np): Np
    requires np.InBounds() && np.lpndx >= 1
  {
    var e := np.LpTop();
    var q := np.SetLp(e.(enable := true, state := LpNormal)).(lpndx := np.lpndx - 1);
    if e.enable then q.(jump := true, seek := e.topoffs) else q
  }

  function LoopPop(np: Np, rest: Command): Phase
    requires np.InBounds()
  {
    if rest != [] then LoopError(np)
    else if np.LpTop().state != LpDo then LoopError(np)
    else if np.lpndx < 1 then LoopError(np)  // "Shouldn't happen"
    else Phase(Popped(np), rest, true)
  }

  function ItefError(np: Np): Phase
    requires np.InBounds()
  {
    Phase(np.(iendx := 0, ie := np.ie[0 := ITEF_RESET]), [], false)
  }

  function ItefPhase(np: Np, words: Command): Phase
    requires np.InBounds()
  {
    if words == [] then
      Phase(np, words, true)
    else
      match words[0]
      case KwIf =>
        if NoWord(words[1..]) then ItefError(np)
        else if words[1] != KwBang then ItefPush(np, false, words[1..])
        else if NoWord(words[2..]) then ItefError(np)
        else ItefPush(np, true, words[2..])
      case KwThen =>
        if np.IeTop().state != IeIf then ItefError(np)
        else Phase(np.SetIe(np.IeTop().(state := IeThen)), words[1..], true)
      case KwElse =>
        if np.IeTop().state != IeThen then ItefError(np)
        else Phase(np.SetIe(np.IeTop().(state := IeElse)), words[1..], true)
      case KwFi =>
        if words[1..] != [] then ItefError(np)
        else if np.IeTop().state !in {IeThen, IeElse} then ItefError(np)
        else if np.iendx < 1 then ItefError(np)  // "Shouldn't happen"
        else Phase(np.(iendx := np.iendx - 1), [], true)
      case _ =>
        if np.IeTop().state == IeIf then ItefError(np) else Phase(np, words, true)
  }

  function Opened(np: Np, inverted: bool): Np
    requires np.InBounds() && np.iendx + 1 < |np.ie|
  {
    np.(iendx := np.iendx + 1, ie := np.ie[np.iendx + 1 := Itef(false, !CmdEnabled(np), inverted, IeIf)])
  }

  function ItefPush(np: Np, inverted: bool, rest: Command): Phase
    requires np.InBounds()
  {
    if np.IeTop().state == IeIf then ItefError(np)
    else if np.iendx >= |np.ie| - 1 then ItefError(np)
    else Phase(Opened(np, inverted), rest, true)
  }

  // The if-entries 1..n exist and some `if` has filled them in.
  ghost predicate Filled(ie: seq<Itef>, n: nat) {
    && n < |ie|
    && forall j :: 1 <= j <= n ==> ie[j].state != IeNormal
  }

  /**
    What every reachable state satisfies.  The saved if-indices of the open loops
    never point above filled entries, which matters because `break` restores such
    an index even after a syntax error has reset the if-stack.
  */
  ghost predicate Safe(np: Np) {
    SafeIe(np) && SafeLp(np) && SafeSaved(np)
  }

  ghost predicate SafeIe(np: Np) {
    && Filled(np.ie, np.iendx)
    && np.ie[0].state == IeNormal
  }

  ghost predicate SafeLp(np: Np) {
    && np.lpndx < |np.lp|
    && np.lp[0].state == LpNormal
    && (forall k :: 1 <= k < np.lpndx ==> np.lp[k].state == LpDo)
    && (np.lpndx >= 1 ==> np.lp[np.lpndx].state != LpNormal)
  }

  ghost predicate SafeSaved(np: Np) {
    && np.lpndx < |np.lp|
    && forall k :: 1 <= k <= np.lpndx ==> Filled(np.ie, np.lp[k].iendx)
  }

  // Safety does not depend on where the script file stands.
  lemma SafeAnywhere(np: Np, foffs: int, loffs: int, seek: int, jump: bool)
    requires Safe(np)
    ensures Safe(np.(foffs := foffs, loffs := loffs, seek := seek, jump := jump))
  {
  }

  // Writing an if-entry never turns a filled entry back into a normal one.
  lemma WriteIeKeepsSafe(np: Np, at: nat, e: Itef, iendx: nat)
    requires Safe(np) && at < |np.ie|
    requires at == 0 <==> e.state == IeNormal
    requires Filled(np.ie[at := e], iendx)
    ensures Safe(np.(ie := np.ie[at := e], iendx := iendx))
  {
    var ie := np.ie[at := e];
    forall k | 1 <= k <= np.lpndx ensures Filled(ie, np.lp[k].iendx) {
      assert Filled(np.ie, np.lp[k].iendx);
    }
  }

  lemma LoopPhaseKeepsSafe(np: Np, words: Command)
    requires Safe(np)
    ensures Safe(LoopPhase(np, words).np)
  {
    if words != [] && words[0] == KwDone {
      LoopPopKeepsSafe(np, words[1..]);
    } else if words != [] && words[0] == KwWhile {
      LoopPushKeepsSafe(np, false, words[1..]);
    } else if words != [] && words[0] == KwUntil {
      LoopPushKeepsSafe(np, true, words[1..]);
    }
  }

  lemma LoopPushKeepsSafe(np: Np, until: bool, rest: Command)
    requires Safe(np)
    ensures Safe(LoopPush(np, until, rest).np)
  {
  }

  lemma LoopPopKeepsSafe(np: Np, rest: Command)
    requires Safe(np)
    ensures Safe(LoopPop(np, rest).np)
  {
  }

  lemma ItefErrorKeepsSafe(np: Np)
    requires Safe(np)
    ensures Safe(ItefError(np).np)
  {
    WriteIeKeepsSafe(np, 0, ITEF_RESET, 0);
  }

  lemma ItefPushKeepsSafe(np: Np, inverted: bool, rest: Command)
    requires Safe(np)
    ensures Safe(ItefPush(np, inverted, rest).np)
  {
    ItefErrorKeepsSafe(np);
    if np.iendx < |np.ie| - 1 {
      WriteIeKeepsSafe(np, np.iendx + 1, Itef(false, !CmdEnabled(np), inverted, IeIf), np.iendx + 1);
    }
  }

  lemma ItefPhaseKeepsSafe(np: Np, words: Command)
    requires Safe(np)
    ensures Safe(ItefPhase(np, words).np)
  {
    ItefErrorKeepsSafe(np);
    if words != [] {
      match words[0]
      case KwIf =>
        ItefPushKeepsSafe(np, false, words[1..]);
        if |words| > 2 { ItefPushKeepsSafe(np, true, words[2..]); }
      case KwThen =>
        if np.iendx > 0 { WriteIeKeepsSafe(np, np.iendx, np.IeTop().(state := IeThen), np.iendx); }
      case KwElse =>
        if np.iendx > 0 { WriteIeKeepsSafe(np, np.iendx, np.IeTop().(state := IeElse), np.iendx); }
      case _ =>
    }
  }

  function BreakLoop(np: Np): Np
    requires Safe(np)
  {
    if np.LpTop().state == LpDo then
      assert Filled(np.ie, np.lp[np.lpndx].iendx);
      np.(iendx := np.LpTop().iendx).SetLp(np.LpTop().(enable := false))
    else np
  }

  lemma BreakLoopKeepsSafe(np: Np)
    requires Safe(np)
    ensures Safe(BreakLoop(np))
  {
    assert np.LpTop().state == LpDo ==> Filled(np.ie, np.lp[np.lpndx].iendx);
  }

  lemma SaveResultKeepsSafe(np: Np, failed: bool)
    requires Safe(np)
    ensures Safe(SaveResult(np, failed).np)
  {
    if np.AwaitsDo() {
      SetEnableKeepsSafe(np.(fail := false), if np.LpTop().state == LpWhile then !failed else failed);
    } else if np.IeTop().state == IeIf {
      SetCondKeepsSafe(np.(fail := false), np.IeTop().inverted != failed);
    }
  }

  lemma SetEnableKeepsSafe(np: Np, enable: bool)
    requires Safe(np)
    ensures Safe(np.SetLp(np.LpTop().(enable := enable)))
  {
  }

  lemma SetCondKeepsSafe(np: Np, cond: bool)
    requires Safe(np) && np.IeTop().state == IeIf
    ensures Safe(np.SetIe(np.IeTop().(ifcond := cond)))
  {
    WriteIeKeepsSafe(np, np.iendx, np.IeTop().(ifcond := cond), np.iendx);
  }

  // The effect of one command: new state, return status, the command that was
  // run, if any, and whether a keyword was rejected.
  datatype Parsed = Parsed(np: Np, ok: bool, ran: Option<Command>, rejected: bool)

  function Failed(np: Np): Parsed
    requires np.InBounds()
  {
    var r := SaveResult(np, true);
    Parsed(r.np, r.ok, None, true)
  }

  function Execute(np: Np, argv: Command, trace: seq<Command>, oracle: Oracle): Parsed
    requires Safe(np)
  {
    BreakLoopKeepsSafe(np);
    var r := if argv == [KwBreak] then SaveResult(BreakLoop(np), false)
             else SaveResult(np, oracle(trace, np.fail, argv));
    Parsed(r.np, r.ok, Some(argv), false)
  }

  // After the keywords: an empty or disabled command does nothing.
  function RunWords(np: Np, argv: Command, trace: seq<Command>, oracle: Oracle): Parsed
    requires Safe(np)
  {
    if argv == [] || !CmdEnabled(np) then Parsed(np, true, None, false)
    else Execute(np, argv, trace, oracle)
  }

  function AfterLoop(np: Np, words: Command, trace: seq<Command>, oracle: Oracle): Parsed
    requires Safe(np)
  {
    ItefPhaseKeepsSafe(np, words);
    var b := ItefPhase(np, words);
    if !b.ok then Failed(b.np) else RunWords(b.np, b.rest, trace, oracle)
  }

  function ParseCommand(np: Np, words: Command, trace: seq<Command>, oracle: Oracle): Parsed
    requires Safe(np)
  {
    LoopPhaseKeepsSafe(np, words);
    var a := LoopPhase(np, words);
    if !a.ok then Failed(a.np) else AfterLoop(a.np, a.rest, trace, oracle)
  }

  /**
    Safety of one command, whatever its words are: malformed keywords, resets
    after syntax errors, failing commands and `break` anywhere.
  */
  lemma CommandKeepsSafe(np: Np, words: Command, trace: seq<Command>, oracle: Oracle)
    requires Safe(np)
    ensures Safe(ParseCommand(np, words, trace, oracle).np)
  {
    LoopPhaseKeepsSafe(np, words);
    var a := LoopPhase(np, words);
    if a.ok {
      AfterLoopKeepsSafe(a.np, a.rest, trace, oracle);
    } else {
      SaveResultKeepsSafe(a.np, true);
    }
  }

  lemma AfterLoopKeepsSafe(np: Np, words: Command, trace: seq<Command>, oracle: Oracle)
    requires Safe(np)
    ensures Safe(AfterLoop(np, words, trace, oracle).np)
  {
    ItefPhaseKeepsSafe(np, words);
    var b := ItefPhase(np, words);
    if !b.ok {
      SaveResultKeepsSafe(b.np, true);
    } else if b.rest != [] && CmdEnabled(b.np) {
      BreakLoopKeepsSafe(b.np);
      SaveResultKeepsSafe(BreakLoop(b.np), false);
      SaveResultKeepsSafe(b.np, oracle(trace, b.np.fail, b.rest));
    }
  }
}
