/**
  The main results about the script engine: what every run keeps, what a script file
  means, and where the machine departs from the structured meaning.
*/
module NshTheorems {
  import opened NshMachine
  import opened NshStructured
  import opened NshRun
  import opened NshSteps
  import opened NshSkip
  import opened NshSimulation
  import opened NshMeaning
  import opened NshText
  import opened NshReading
  import opened NshFileRun
  import opened NshNesting
  import opened NshRescue
  import opened NshExact

  // ----- Safety -----

  // A command as it reaches the parser: from a script at some place, or from the console.
  datatype Input = Input(fd: int, foffs: int, loffs: int, seek: int, jump: bool, words: Command)

  // Any sequence of commands, one after the other.
  ghost function Feed(np: Np, inputs: seq<Input>, trace: seq<Command>, oracle: Oracle): (np': Np)
    requires Safe(np)
    ensures Safe(np') && |np'.ie| == |np.ie| && |np'.lp| == |np.lp|
    decreases |inputs|
  {
    if inputs == [] then np
    else
      var i := inputs[0];
      var q := np.(fd := i.fd, foffs := i.foffs, loffs := i.loffs, seek := i.seek, jump := i.jump);
      var p := ParseCommand(q, i.words, trace, oracle);
      CommandKeepsSafe(q, i.words, trace, oracle);
      CommandFrame(q, i.words, trace, oracle);
      Feed(p.np, inputs[1..], Ran(trace, p), oracle)
  }

  /**
    From the zeroed state, whatever commands come: both indices stay within the stacks,
    entry 0 of each stack stays normal, every loop below the innermost is in its body,
    no entry in use is normal, and neither guard that the source marks as one that
    should not happen can be reached.
  */
  lemma SafetyOfEveryRun(depth: nat, inputs: seq<Input>, oracle: Oracle)
    requires depth >= 1
    ensures Safe(Zeroed(depth))
    ensures var np := Feed(Zeroed(depth), inputs, [], oracle);
            && np.lpndx < depth && np.iendx < depth
            && np.ie[0].state == IeNormal && np.lp[0].state == LpNormal
            && (forall k :: 1 <= k < np.lpndx ==> np.lp[k].state == LpDo)
            && (np.lpndx >= 1 ==> np.LpTop().state != LpNormal)
            && (forall j :: 1 <= j <= np.iendx ==> np.ie[j].state != IeNormal)
            && !(np.LpTop().state == LpDo && np.lpndx < 1)
            && forall words: Command ::
                 var q := LoopPhase(np, words).np;
                 q.InBounds() && !(q.IeTop().state in {IeThen, IeElse} && q.iendx < 1)
  {
    hide Feed, LoopPhase;
    var np := Feed(Zeroed(depth), inputs, [], oracle);
    assert Safe(np);
    forall words: Command ensures Safe(LoopPhase(np, words).np) {
      LoopPhaseKeepsSafe(np, words);
    }
  }

  // ----- Meaning of script files -----

  ghost predicate FileHaltsIn(x: Setting, c: Progress, n: nat, e: Ending)
    requires Safe(c.np)
  {
    var d := ReadLines(x, c, n);
    d.Over? && e == Ending(d.trace, d.np.fail, d.atEnd)
  }

  ghost predicate FileHalts(x: Setting, c: Progress, e: Ending)
    requires Safe(c.np)
  {
    exists n: nat :: FileHaltsIn(x, c, n, e)
  }

  // A file, well-formed or not, with closed quotes and none first in a command that opens a
  // loop, at its beginning and outside of any loop.
  ghost predicate Readable(x: Setting, np: Np) {
    && PlainHeads(x, 0) && x.tok("") == []
    && Safe(np) && np.lpndx == 0 && np.seek == 0 && np.fd >= 0
  }

  lemma LinkedAtStart(x: Setting, np: Np, trace: seq<Command>)
    requires Readable(x, np)
    ensures Linked(x, Reading(np, trace), Running(np, 0, trace))
  {
    hide Deck, DeckJoins;
    assert ShellOf(x).script[0..] == Deck(x, 0);
    assert ShellOf(x).joined[0..] == DeckJoins(x, 0);
  }

  /**
    Reading a file line by line, with seeks back to the top of loops, ends exactly as the
    run over the list of its commands does.
  */
  lemma FileHaltsAsClauses(x: Setting, np: Np, trace: seq<Command>, e: Ending)
    requires Readable(x, np)
    ensures FileHalts(x, Reading(np, trace), e) <==> Halts(ShellOf(x), Running(np, 0, trace), e)
  {
    hide ReadLine, Iter, Step, SimNp, SameStacks, Deck, DeckJoins;
    LinkedAtStart(x, np, trace);
    hide Safe;
    var sh, c, d := ShellOf(x), Reading(np, trace), Running(np, 0, trace);
    if FileHalts(x, c, e) {
      var n: nat :| FileHaltsIn(x, c, n, e);
      var m := ReadMany(x, np, np, trace, n);
      assert HaltsIn(sh, d, m, e);
    }
    if Halts(sh, d, e) {
      var m: nat :| HaltsIn(sh, d, m, e);
      var size := |x.file| + 1;
      var n := size * (m + 1) + 1;
      var k := ReadMany(x, np, np, trace, n);
      if ReadLines(x, c, n).Reading? {
        if k >= m { HaltedLater(sh, d, m, k); } else { Times(size, k + 1, m + 1); }
        assert false;
      }
      Unique(sh, d, m, k);
      assert FileHaltsIn(x, c, n, e);
    }
  }

  // Its commands are those of a supported structured script.
  ghost predicate ScriptFile(x: Setting, b: Block, np: Np) {
    PlainHeads(x, 0) && x.tok("") == [] && Runnable(Deck(x, 0), b, np) && np.seek == 0
  }

  lemma ScriptReadable(x: Setting, b: Block, np: Np)
    requires ScriptFile(x, b, np)
    ensures Readable(x, np)
  {
    hide Deck, FlatBlock;
  }

  lemma Times(size: nat, a: nat, b: nat)
    requires a <= b
    ensures size * a <= size * b
  {
    assert size * b == size * a + size * (b - a);
  }

  /**
    Running a script file, with its lines, semicolons, shared keyword lines and seeks
    back to the top of loops, ends exactly as the structured script does: after the
    same commands, with the same `$?`, at the end of the file or at a failing command.
  */
  lemma FileMeaning(x: Setting, b: Block, np: Np, trace: seq<Command>, e: Ending)
    requires ScriptFile(x, b, np)
    ensures FileHalts(x, Reading(np, trace), e) <==> Means(b, History(trace, np.fail), x.oracle, x.ignore, e)
  {
    hide FileHalts, Halts, Means, Deck, DeckJoins, FlatBlock;
    ScriptReadable(x, b, np);
    FileHaltsAsClauses(x, np, trace, e);
    ScriptMeaning(ShellOf(x), b, np, trace, e);
  }

  /**
    A script file that is read to its end leaves both indices and the entries in use as it
    found them, but for the file offsets in the loop entries.
  */
  lemma FileBalanced(x: Setting, b: Block, np: Np, trace: seq<Command>, n: nat)
    requires ScriptFile(x, b, np)
    requires ReadLines(x, Reading(np, trace), n).Over? && ReadLines(x, Reading(np, trace), n).atEnd
    ensures var np' := ReadLines(x, Reading(np, trace), n).np;
            && np'.iendx == np.iendx && np'.lpndx == np.lpndx && |np'.ie| == |np.ie| && |np'.lp| == |np.lp|
            && (forall j :: 0 <= j <= np.iendx ==> np'.ie[j] == np.ie[j])
            && (forall k :: 0 <= k <= np.lpndx ==> Bare(np'.lp[k]) == Bare(np.lp[k]))
  {
    hide ReadLine, ReadLines, Iter, Step, Deck, DeckJoins, RelatedTops, FlatBlock, IfDepth, LoopDepth, ProperBlock,
         SupportedBlock;
    ScriptReadable(x, b, np);
    LinkedAtStart(x, np, trace);
    var m := ReadMany(x, np, np, trace, n);
    ScriptBalanced(ShellOf(x), b, np, trace, m);
  }

  // ----- Exactness for files -----

  // The file and the structured script have the same endings, whatever the commands return;
  // errors are ignored or not.
  ghost predicate FileAlwaysAgrees(file: string, tok: Tokenizer, b: Block, np: Np, ignore: bool)
    requires Safe(np)
  {
    forall oracle: Oracle, trace: seq<Command>, e: Ending ::
      FileHalts(Setting(file, tok, oracle, ignore), Reading(np, trace), e)
      <==> Means(b, History(trace, np.fail), oracle, ignore, e)
  }

  // The clauses of a file do not depend on what its commands return.
  lemma {:induction false} SameDeck(x: Setting, y: Setting, o: nat)
    requires o <= |x.file| && y == x.(oracle := y.oracle, ignore := y.ignore)
    ensures Deck(y, o) == Deck(x, o) && DeckJoins(y, o) == DeckJoins(x, o) && PlainHeads(y, o) == PlainHeads(x, o)
    decreases |x.file| - o
  {
    if o >= |x.file| {
    } else {
      SameDeck(x, y, NextAt(x.file, o));
    }
  }

  lemma FileAgreesAsClauses(x: Setting, b: Block, np: Np, ignore: bool)
    requires Readable(x, np) && Deck(x, 0) == FlatBlock(b)
    ensures FileAlwaysAgrees(x.file, x.tok, b, np, ignore) <==> AlwaysAgrees(b, DeckJoins(x, 0), np, ignore)
  {
    hide FileHalts, Halts, Means, Deck, DeckJoins, FlatBlock, Safe;
    forall oracle: Oracle, trace: seq<Command>, e: Ending
      ensures FileHalts(Setting(x.file, x.tok, oracle, ignore), Reading(np, trace), e)
              <==> Halts(Shell(FlatBlock(b), DeckJoins(x, 0), oracle, ignore), Running(np, 0, trace), e)
    {
      var y := Setting(x.file, x.tok, oracle, ignore);
      SameDeck(x, y, 0);
      FileHaltsAsClauses(y, np, trace, e);
    }
  }

  /**
    A readable file of any shape that fits the stacks, with errors not ignored, ends as the
    structured script does, for all command results, if and only if the shape is supported,
    but for shapes in which an outer `break` may restore what a `break` under `if`s has lost;
    and, without that exception, if also every command is run at its own level.  With errors
    ignored a supported shape is enough.
  */
  lemma FileExact(x: Setting, b: Block, np: Np)
    requires Readable(x, np) && Deck(x, 0) == FlatBlock(b) && Startable(b, np)
    ensures NoRescue(b, 0) ==> (FileAlwaysAgrees(x.file, x.tok, b, np, false) <==> SupportedBlock(b, Outside))
    ensures FileAlwaysAgrees(x.file, x.tok, b, np, false) && AlwaysOnLevel(b, DeckJoins(x, 0), np, false)
            <==> SupportedBlock(b, Outside)
    ensures SupportedBlock(b, Outside) ==> FileAlwaysAgrees(x.file, x.tok, b, np, true)
  {
    hide FileAlwaysAgrees, AlwaysAgrees, AlwaysOnLevel, Deck, DeckJoins, FlatBlock, NoRescue, SupportedBlock;
    FileAgreesAsClauses(x, b, np, false);
    FileAgreesAsClauses(x, b, np, true);
    ScriptExact(b, DeckJoins(x, 0), np);
    if NoRescue(b, 0) {
      EndingsExact(b, DeckJoins(x, 0), np);
    }
    if SupportedBlock(b, Outside) {
      SupportedAgrees(b, DeckJoins(x, 0), np, true);
    }
  }

  // ----- Where the machine departs from the structured meaning -----

  /**
    A loop that ends at its first test, with another loop directly in its body: the
    structured meaning runs the test and nothing else, the machine also runs the test of
    the inner loop.
  */
  lemma DirectLoopMisruns(sh: Shell, s: Stmt, c: Context, p: int, np: Np, trace: seq<Command>, fuel: nat)
      returns (n: nat)
    requires s.Repeat? && ProperStmt(s) && At(sh.script, p, FlatStmt(s)) && !NoDirectLoop(s.body)
    requires Ready(np, IfDepthStmt(s), LoopDepthStmt(s)) && CmdEnabled(np)
    requires sh.oracle(trace, np.fail, s.cond) != s.until
    ensures Iter(sh, Running(np, p, trace), n).trace == trace + [s.cond, FirstLoopCondition(s.body)]
    ensures EvalS(sh, s, c, np, trace, fuel) == Result(History(trace + [s.cond], false), fuel, Normal)
  {
    hide Step, Iter, At, FlatBlock;
    AtRepeat(sh.script, p, s);
    var q := EnterLoop(sh, s.until, s.cond, p, np, trace);
    var k, q' := SkipLoopBody(sh, s.body, p + 2, q, trace + [s.cond]);
    IterAdd(sh, Running(np, p, trace), 2, k);
    n := 2 + k;
    assert trace + [s.cond, FirstLoopCondition(s.body)] == trace + [s.cond] + [FirstLoopCondition(s.body)];
  }

  /**
    `break` under an `if` of the loop body: the `fi` that closes this `if` is rejected, or
    closes the `if` around the loop instead.  It is accepted if and only if there is one.
  */
  lemma BreakUnderIfUnbalances(np: Np, trace: seq<Command>, oracle: Oracle)
    requires Ready(np, 0, 0) && CmdEnabled(np) && np.LpTop().state == LpDo && np.LpTop().iendx < np.iendx
    ensures var p := ParseCommand(np, [KwBreak], trace, oracle);
            var base := np.LpTop().iendx;
            && p.ok && Safe(p.np) && p.np.iendx == base
            && var q := ParseCommand(p.np, [KwFi], trace + [[KwBreak]], oracle);
               && (q.rejected <==> np.ie[base].state !in {IeThen, IeElse})
               && (q.rejected ==> q.np.iendx == 0)
               && (!q.rejected ==> q.np.iendx == base - 1)
  {
    assert Filled(np.ie, np.LpTop().iendx);
    ParsePlain(np, [KwBreak], trace, oracle);
    CommandKeepsSafe(np, [KwBreak], trace, oracle);
    var p := ParseCommand(np, [KwBreak], trace, oracle);
    assert p.np.iendx == np.LpTop().iendx && p.np.IeTop().state == np.ie[p.np.iendx].state;
    FiAccepted(p.np, trace + [[KwBreak]], oracle);
  }

  lemma FiAccepted(np: Np, trace: seq<Command>, oracle: Oracle)
    requires Safe(np) && !np.AwaitsDo()
    ensures var q := ParseCommand(np, [KwFi], trace, oracle);
            && (q.rejected <==> np.IeTop().state !in {IeThen, IeElse})
            && q.np.iendx == if q.rejected then 0 else np.iendx - 1
  {
    hide CmdEnabled, NoWord;
    assert [KwFi][1..] == [];
    assert LoopPhase(np, [KwFi]) == Phase(np, [KwFi], true);
  }
}
