/**
  Where a command may stand.  A table says which commands are rejected, and a rejected one runs
  nothing.
*/
module NshGrammar {
  import opened NshOption
  import opened NshMachine
  import opened NshStructured
  import opened NshRun
  import opened NshSteps

  // ----- One command -----

  // There is no word at `k`, or an empty one.
  predicate Missing(words: Command, k: nat) {
    |words| <= k || words[k] == Text("")
  }

  // Out of place for the loops: no test, under an `if` without its `then`, a test without its
  // `do`, not in a file, too deep, a stray `do` or `done`, words after `done`.
  predicate LoopMisplaced(np: Np, words: Command)
    requires np.InBounds()
  {
    words != [] &&
    match words[0]
    case KwWhile => Missing(words, 1) || NoLoopHere(np)
    case KwUntil => Missing(words, 1) || NoLoopHere(np)
    case KwDo => np.LpTop().state !in {LpWhile, LpUntil}
    case KwDone => |words| > 1 || np.LpTop().state != LpDo
    case _ => np.LpTop().state in {LpWhile, LpUntil}
  }

  predicate NoLoopHere(np: Np)
    requires np.InBounds()
  {
    || np.IeTop().state == IeIf || np.LpTop().state in {LpWhile, LpUntil}
    || np.fd < 0 || np.foffs < 0 || np.lpndx + 1 >= |np.lp|
  }

  // What is left of the command once a loop keyword has been taken off.
  function AfterLoopKeyword(words: Command): Command {
    if words != [] && words[0] in {KwWhile, KwUntil, KwDo, KwDone} then words[1..] else words
  }

  // Out of place for the conditionals: no test, too deep, anything but `then` after a test, a
  // stray `then`, `else` or `fi`, words after `fi`.
  predicate IfMisplaced(np: Np, words: Command)
    requires np.InBounds()
  {
    words != [] &&
    match words[0]
    case KwIf =>
      || Missing(words, 1) || (words[1] == KwBang && Missing(words, 2))
      || np.IeTop().state == IeIf || np.iendx + 1 >= |np.ie|
    case KwThen => np.IeTop().state != IeIf
    case KwElse => np.IeTop().state != IeThen
    case KwFi => |words| > 1 || np.IeTop().state !in {IeThen, IeElse}
    case _ => np.IeTop().state == IeIf
  }

  predicate Misplaced(np: Np, words: Command)
    requires np.InBounds()
  {
    LoopMisplaced(np, words) || IfMisplaced(np, AfterLoopKeyword(words))
  }

  // The error is taken for the result of a test and goes unnoticed.
  predicate Swallowed(np: Np, words: Command)
    requires np.InBounds() && Misplaced(np, words)
  {
    if LoopMisplaced(np, words) then np.IeTop().state == IeIf else words[0] in {KwWhile, KwUntil}
  }

  // What the loop phase makes of a command that is in place, and of one that is not.
  ghost predicate LoopTable(np: Np, words: Command, a: Phase)
    requires np.InBounds()
  {
    if LoopMisplaced(np, words) then a == LoopError(np)
    else
      && a.ok && a.rest == AfterLoopKeyword(words) && a.np.InBounds() && a.np.ie == np.ie && a.np.iendx == np.iendx
      && (words != [] ==> a.np.AwaitsDo() == (words[0] in {KwWhile, KwUntil}))
      && a.np.lpndx == np.lpndx + Depth(words)
  }

  // Loops opened less loops closed.
  function Depth(words: Command): int {
    if words == [] then 0
    else if words[0] in {KwWhile, KwUntil} then 1
    else if words[0] == KwDone then -1
    else 0
  }

  lemma LoopPhaseTable(np: Np, words: Command)
    requires Safe(np)
    ensures LoopTable(np, words, LoopPhase(np, words))
  {
    hide CmdEnabled, SafeSaved;
    if words != [] {
      match words[0]
      case KwWhile => PushTable(np, words);
      case KwUntil => PushTable(np, words);
      case KwDone => PopTable(np, words);
      case _ =>
    }
  }

  lemma PushTable(np: Np, words: Command)
    requires Safe(np) && words != [] && words[0] in {KwWhile, KwUntil}
    ensures LoopTable(np, words, LoopPhase(np, words))
  {
    hide CmdEnabled, SafeSaved;
    assert NoWord(words[1..]) == Missing(words, 1);
  }

  lemma PopTable(np: Np, words: Command)
    requires Safe(np) && words != [] && words[0] == KwDone
    ensures LoopTable(np, words, LoopPhase(np, words))
  {
    hide SafeSaved;
    assert words[1..] == [] <==> |words| == 1;
    if |words| == 1 && np.LpTop().state == LpDo {
      PoppedTop(np);
    }
  }

  lemma PoppedTop(np: Np)
    requires Safe(np) && np.LpTop().state == LpDo
    ensures np.lpndx >= 1 && Popped(np).InBounds() && !Popped(np).AwaitsDo()
  {
    hide SafeSaved;
  }

  lemma ItefPhaseTable(np: Np, words: Command)
    requires Safe(np)
    ensures ItefPhase(np, words).ok <==> !IfMisplaced(np, words)
    ensures !ItefPhase(np, words).ok ==> ItefPhase(np, words) == ItefError(np)
  {
    hide CmdEnabled, SafeSaved;
  }

  // Nothing is run, and one stack is reset.
  ghost predicate Refused(np: Np, words: Command, p: Parsed)
    requires np.InBounds() && Misplaced(np, words)
  {
    && p.ran == None && p.ok == !p.np.fail == Swallowed(np, words)
    && if LoopMisplaced(np, words) then
         && p.np.lpndx == 0 && |p.np.lp| >= 1 && p.np.lp[0].(iendx := 0) == Loop(true, LpNormal, 0, 0)
         && !p.np.jump && p.np.iendx == np.iendx
         && p.np.ie == (if Swallowed(np, words) then np.ie[np.iendx := np.IeTop().(ifcond := !np.IeTop().inverted)]
                        else np.ie)
       else p.np.iendx == 0 && |p.np.ie| >= 1 && p.np.ie[0] == ITEF_RESET && p.np.lpndx == np.lpndx + Depth(words)
  }

  /**
    A command is rejected if and only if it is out of place.  Then nothing is run, the stack that
    it does not fit is reset and the other one is not, and unless the error is taken for the
    result of a test `$?` is a failure and the call fails.
  */
  lemma RejectedIff(np: Np, words: Command, trace: seq<Command>, oracle: Oracle)
    requires Safe(np)
    ensures ParseCommand(np, words, trace, oracle).rejected <==> Misplaced(np, words)
    ensures Misplaced(np, words) ==> Refused(np, words, ParseCommand(np, words, trace, oracle))
  {
    LoopPhaseTable(np, words);
    LoopPhaseKeepsSafe(np, words);
    var a := LoopPhase(np, words);
    hide LoopPhase, CmdEnabled, SafeSaved, LoopMisplaced, AfterLoopKeyword, IfMisplaced;
    if a.ok {
      ItefPhaseTable(a.np, a.rest);
      SameMisplaced(np, a.np, a.rest);
      hide ItefPhase;
    }
  }

  lemma SameMisplaced(np: Np, np': Np, words: Command)
    requires np.InBounds() && np'.InBounds() && np'.ie == np.ie && np'.iendx == np.iendx
    ensures IfMisplaced(np, words) == IfMisplaced(np', words)
  {
  }
}
