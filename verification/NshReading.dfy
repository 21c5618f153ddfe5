/**
  The run over the script file is the run over its list of clauses: whenever a command
  without quotes is handled, `foffs + loffs` is where it starts in the file, so that `done`
  goes back to the command its loop started with.
*/
module NshReading {
  import opened NshMachine
  import opened NshRun
  import opened NshSteps
  import opened NshText

  // ----- The clauses of a script file -----

  // A word that starts a command without keywords.
  predicate Starts(w: Word) {
    w.Text? || w.KwBang? || w.KwBreak?
  }

  // Does a command share its line with the keyword that opens its block?
  predicate Shares(words: Command) {
    && |words| > 1
    && if words[0] == KwDo then Starts(words[1]) || words[1] == KwIf
       else words[0] in {KwThen, KwElse} && Starts(words[1])
  }

  function Clauses(words: Command): seq<Command> {
    if words == [] then []
    else if Shares(words) then [[words[0]], words[1..]]
    else [words]
  }

  function Joins(words: Command): seq<bool> {
    if words == [] then []
    else if Shares(words) then [false, true]
    else [false]
  }

  // The rest of the line from `o` on, and the end of the command that starts there.
  function RestAt(s: string, o: nat): string
    requires o <= |s|
  {
    s[o..LineEnd(s, o)]
  }

  function ScanAt(s: string, o: nat): Scan
    requires o <= |s|
  {
    ScanFrom(RestAt(s, o), 0, 0)
  }

  // The text of the command that starts at `o`, and where the next one starts.
  function TextAt(s: string, o: nat): string
    requires o <= |s|
  {
    match ScanAt(s, o)
    case Semicolon(end, _) => RestAt(s, o)[..end]
    case _ => RestAt(s, o)
  }

  function NextAt(s: string, o: nat): (k: nat)
    requires o < |s|
    ensures o < k <= |s|
  {
    match ScanAt(s, o)
    case Semicolon(end, _) => o + end + 1
    case _ => LineEnd(s, o)
  }

  predicate LoopHead(words: Command) {
    words != [] && words[0] in {KwWhile, KwUntil}
  }

  // The first separator of the command at `o` is a quote.
  predicate QuoteFirst(line: string, o: nat)
    requires o <= |line|
  {
    SepFrom(line, o) < |line| && Quote(line[SepFrom(line, o)])
  }

  /** From `o` on all quotes are closed, and no command that opens a loop has one first. */
  predicate PlainHeads(x: Setting, o: nat)
    requires o <= |x.file|
    decreases |x.file| - o
  {
    o < |x.file| ==>
      && !ScanAt(x.file, o).Unclosed?
      && (LoopHead(x.tok(TextAt(x.file, o))) ==> !QuoteFirst(RestAt(x.file, o), 0))
      && PlainHeads(x, NextAt(x.file, o))
  }

  function Deck(x: Setting, o: nat): seq<Command>
    requires o <= |x.file|
    decreases |x.file| - o
  {
    if o == |x.file| then []
    else Clauses(x.tok(TextAt(x.file, o))) + Deck(x, NextAt(x.file, o))
  }

  function DeckJoins(x: Setting, o: nat): (js: seq<bool>)
    requires o <= |x.file|
    ensures |js| == |Deck(x, o)| && (js != [] ==> !js[0])
    decreases |x.file| - o
  {
    if o == |x.file| then []
    else Joins(x.tok(TextAt(x.file, o))) + DeckJoins(x, NextAt(x.file, o))
  }

  // The shell that runs the clauses of the file.
  function ShellOf(x: Setting): Shell {
    Shell(Deck(x, 0), DeckJoins(x, 0), x.oracle, x.ignore)
  }

  // ----- Corresponding positions and states -----

  // From file offset `o` on stand the clauses from position `i` on.
  ghost predicate Rel(x: Setting, o: int, i: int) {
    var sh := ShellOf(x);
    && 0 <= o <= |x.file| && 0 <= i <= |sh.script|
    && sh.script[i..] == Deck(x, o)
    && sh.joined[i..] == DeckJoins(x, o)
    && PlainHeads(x, o)
  }

  function Bare(l: Loop): Loop {
    l.(topoffs := 0)
  }

  ghost predicate SameStacks(b: Np, a: Np) {
    && b.fail == a.fail && b.lpndx == a.lpndx && b.iendx == a.iendx && b.ie == a.ie
    && |b.lp| == |a.lp| && (forall k :: 0 <= k < |b.lp| ==> Bare(b.lp[k]) == Bare(a.lp[k]))
    && b.fd >= 0 && a.fd >= 0 && b.jump == a.jump
  }

  ghost predicate RelatedTops(x: Setting, b: Np, a: Np) {
    && b.lpndx < |b.lp| && b.lpndx < |a.lp|
    && forall k :: 1 <= k <= b.lpndx ==> Rel(x, b.lp[k].topoffs, a.lp[k].topoffs)
  }

  // `b` holds file offsets, `a` positions in the list of clauses.
  ghost predicate SimNp(x: Setting, b: Np, a: Np) {
    SameStacks(b, a) && RelatedTops(x, b, a)
  }

  lemma SimEnabled(b: Np, a: Np)
    requires SameStacks(b, a) && b.InBounds()
    ensures a.InBounds() && CmdEnabled(b) == CmdEnabled(a) && ItefEnabled(b) == ItefEnabled(a)
    ensures b.AwaitsDo() == a.AwaitsDo() && Bare(b.LpTop()) == Bare(a.LpTop())
  {
    assert Bare(b.lp[b.lpndx]) == Bare(a.lp[b.lpndx]);
  }

  ghost predicate SimPhase(x: Setting, p: Phase, q: Phase) {
    && SimNp(x, p.np, q.np) && p.rest == q.rest && p.ok == q.ok
    && (p.np.jump ==> Rel(x, p.np.seek, q.np.seek))
  }

  lemma SimLoopError(x: Setting, b: Np, a: Np)
    requires SimNp(x, b, a) && b.InBounds()
    ensures SimPhase(x, LoopError(b), LoopError(a))
  {
    hide Rel;
    SimEnabled(b, a);
    assert Bare(b.lp[0]) == Bare(a.lp[0]);
  }

  lemma SimLoopPush(x: Setting, b: Np, a: Np, until: bool, rest: Command)
    requires SimNp(x, b, a) && b.InBounds() && !b.jump && b.foffs >= 0 && a.foffs >= 0
    requires Rel(x, b.foffs + b.loffs, a.foffs + a.loffs)
    ensures SimPhase(x, LoopPush(b, until, rest), LoopPush(a, until, rest))
  {
    hide Rel;
    SimEnabled(b, a);
    SimLoopError(x, b, a);
  }

  lemma SimLoopPop(x: Setting, b: Np, a: Np, rest: Command)
    requires SimNp(x, b, a) && b.InBounds() && !b.jump
    ensures SimPhase(x, LoopPop(b, rest), LoopPop(a, rest))
  {
    hide Rel;
    SimEnabled(b, a);
    SimLoopError(x, b, a);
  }

  // Only a loop that is opened notes where it stands.
  ghost predicate SamePlace(x: Setting, b: Np, a: Np, words: Command) {
    LoopHead(words) ==> Rel(x, b.foffs + b.loffs, a.foffs + a.loffs)
  }

  lemma SimLoopPhase(x: Setting, b: Np, a: Np, words: Command)
    requires SimNp(x, b, a) && b.InBounds() && !b.jump && b.foffs >= 0 && a.foffs >= 0
    requires SamePlace(x, b, a, words)
    ensures SimPhase(x, LoopPhase(b, words), LoopPhase(a, words))
  {
    hide Rel, LoopPush, LoopPop, LoopError;
    SimEnabled(b, a);
    SimLoopError(x, b, a);
    if words != [] {
      if words[0] in {KwWhile, KwUntil} {
        SimLoopPush(x, b, a, words[0] == KwUntil, words[1..]);
      }
      SimLoopPop(x, b, a, words[1..]);
    }
  }

  // The same change to both if-stacks.
  lemma SimWriteIe(x: Setting, b: Np, a: Np, ie: seq<Itef>, iendx: nat)
    requires SimNp(x, b, a)
    ensures SimNp(x, b.(ie := ie, iendx := iendx), a.(ie := ie, iendx := iendx))
  {
    hide Rel;
  }

  // The if-phase changes nothing but the if-stack.
  lemma ItefPhaseFrame(np: Np, words: Command)
    requires np.InBounds()
    ensures var p := ItefPhase(np, words).np; p == np.(ie := p.ie, iendx := p.iendx) && |p.ie| == |np.ie|
  {
    hide CmdEnabled, NoWord;
  }

  ghost predicate SamePhase(p: Phase, q: Phase) {
    p.np.ie == q.np.ie && p.np.iendx == q.np.iendx && p.rest == q.rest && p.ok == q.ok
  }

  lemma ItefErrorDepends(b: Np, a: Np)
    requires b.InBounds() && a.InBounds() && b.ie == a.ie && b.iendx == a.iendx
    ensures SamePhase(ItefError(b), ItefError(a))
  {
  }

  lemma ItefPushDepends(b: Np, a: Np, inverted: bool, rest: Command)
    requires b.InBounds() && a.InBounds() && b.ie == a.ie && b.iendx == a.iendx && CmdEnabled(b) == CmdEnabled(a)
    ensures SamePhase(ItefPush(b, inverted, rest), ItefPush(a, inverted, rest))
  {
    hide CmdEnabled;
  }

  lemma IfDepends(b: Np, a: Np, words: Command)
    requires b.InBounds() && a.InBounds() && b.ie == a.ie && b.iendx == a.iendx && CmdEnabled(b) == CmdEnabled(a)
    requires words != [] && words[0] == KwIf
    ensures SamePhase(ItefPhase(b, words), ItefPhase(a, words))
  {
    hide CmdEnabled, ItefPush, ItefError, SamePhase;
    ItefErrorDepends(b, a);
    ItefPushDepends(b, a, false, words[1..]);
    if |words| >= 2 {
      ItefPushDepends(b, a, true, words[2..]);
    }
  }

  lemma RestDepends(b: Np, a: Np, words: Command)
    requires b.InBounds() && a.InBounds() && b.ie == a.ie && b.iendx == a.iendx
    requires words == [] || words[0] != KwIf
    ensures SamePhase(ItefPhase(b, words), ItefPhase(a, words))
  {
    hide ItefError, NoWord;
    ItefErrorDepends(b, a);
  }

  // It depends on nothing but the if-stack and on whether commands are enabled.
  lemma ItefPhaseDepends(b: Np, a: Np, words: Command)
    requires b.InBounds() && a.InBounds() && b.ie == a.ie && b.iendx == a.iendx && CmdEnabled(b) == CmdEnabled(a)
    ensures SamePhase(ItefPhase(b, words), ItefPhase(a, words))
  {
    hide CmdEnabled, ItefPhase, SamePhase;
    if words != [] && words[0] == KwIf {
      IfDepends(b, a, words);
    } else {
      RestDepends(b, a, words);
    }
  }

  lemma SimItefPhase(x: Setting, b: Np, a: Np, words: Command)
    requires SimNp(x, b, a) && b.InBounds() && (b.jump ==> Rel(x, b.seek, a.seek))
    ensures SimPhase(x, ItefPhase(b, words), ItefPhase(a, words))
  {
    SimEnabled(b, a);
    hide Rel, CmdEnabled, ItefPhase;
    ItefPhaseFrame(b, words);
    ItefPhaseFrame(a, words);
    ItefPhaseDepends(b, a, words);
    var p := ItefPhase(b, words);
    SimWriteIe(x, b, a, p.np.ie, p.np.iendx);
  }

  ghost predicate SimParsed(x: Setting, p: Parsed, q: Parsed) {
    && SimNp(x, p.np, q.np) && p.ok == q.ok && p.ran == q.ran && p.rejected == q.rejected
    && (p.np.jump ==> Rel(x, p.np.seek, q.np.seek))
  }

  lemma SimSaveResult(x: Setting, b: Np, a: Np, failed: bool)
    requires SimNp(x, b, a) && b.InBounds() && (b.jump ==> Rel(x, b.seek, a.seek))
    ensures var p, q := SaveResult(b, failed), SaveResult(a, failed);
            SimNp(x, p.np, q.np) && p.ok == q.ok && (p.np.jump ==> Rel(x, p.np.seek, q.np.seek))
  {
    hide SimNp, Rel;
    SimFailed(x, b, a, false);
    SimFailed(x, b, a, failed);
    SimTops(x, b, a);
    if b.AwaitsDo() {
      SimSetEnable(x, b.(fail := false), a.(fail := false), failed == (b.LpTop().state == LpUntil));
    } else if b.IeTop().state == IeIf {
      var e := b.IeTop().(ifcond := b.IeTop().inverted != failed);
      SimWriteIe(x, b.(fail := false), a.(fail := false), b.ie[b.iendx := e], b.iendx);
    }
  }

  lemma SimTops(x: Setting, b: Np, a: Np)
    requires SimNp(x, b, a) && b.InBounds()
    ensures a.InBounds() && b.LpTop().state == a.LpTop().state && b.ie == a.ie && b.iendx == a.iendx
    ensures b.lpndx == a.lpndx && b.jump == a.jump
  {
    hide Rel;
    SimEnabled(b, a);
  }

  lemma SimFailed(x: Setting, b: Np, a: Np, fail: bool)
    requires SimNp(x, b, a)
    ensures SimNp(x, b.(fail := fail), a.(fail := fail))
  {
    hide Rel;
  }

  lemma SimSetEnable(x: Setting, b: Np, a: Np, enable: bool)
    requires SimNp(x, b, a) && b.InBounds() && a.InBounds()
    ensures SimNp(x, b.SetLp(b.LpTop().(enable := enable)), a.SetLp(a.LpTop().(enable := enable)))
  {
    hide Rel;
    SimEnabled(b, a);
  }

  lemma SimBreakLoop(x: Setting, b: Np, a: Np)
    requires SimNp(x, b, a) && Safe(b) && Safe(a) && (b.jump ==> Rel(x, b.seek, a.seek))
    ensures var p, q := BreakLoop(b), BreakLoop(a);
            SimNp(x, p, q) && (p.jump ==> Rel(x, p.seek, q.seek))
  {
    hide Rel;
    SimEnabled(b, a);
  }

  lemma SimAfterLoop(x: Setting, b: Np, a: Np, words: Command, trace: seq<Command>, oracle: Oracle)
    requires SimNp(x, b, a) && Safe(b) && Safe(a) && (b.jump ==> Rel(x, b.seek, a.seek))
    ensures SimParsed(x, AfterLoop(b, words, trace, oracle), AfterLoop(a, words, trace, oracle))
  {
    hide Rel;
    SimItefPhase(x, b, a, words);
    ItefPhaseKeepsSafe(b, words);
    ItefPhaseKeepsSafe(a, words);
    var p, q := ItefPhase(b, words), ItefPhase(a, words);
    hide ItefPhase;
    if !p.ok {
      SimSaveResult(x, p.np, q.np, true);
    } else {
      SimRunWords(x, p.np, q.np, p.rest, trace, oracle);
    }
  }

  lemma SimRunWords(x: Setting, b: Np, a: Np, argv: Command, trace: seq<Command>, oracle: Oracle)
    requires SimNp(x, b, a) && Safe(b) && Safe(a) && (b.jump ==> Rel(x, b.seek, a.seek))
    ensures SimParsed(x, RunWords(b, argv, trace, oracle), RunWords(a, argv, trace, oracle))
  {
    hide Rel;
    SimEnabled(b, a);
    if argv == [KwBreak] {
      SimBreakLoop(x, b, a);
      BreakLoopKeepsSafe(b);
      SimSaveResult(x, BreakLoop(b), BreakLoop(a), false);
    } else {
      SimSaveResult(x, b, a, oracle(trace, b.fail, argv));
    }
    hide CmdEnabled, SaveResult, BreakLoop;
  }

  /** A command does the same in corresponding states, and jumps to corresponding places. */
  lemma SimCommand(x: Setting, b: Np, a: Np, words: Command, trace: seq<Command>, oracle: Oracle)
    requires SimNp(x, b, a) && Safe(b) && Safe(a) && !b.jump && b.foffs >= 0 && a.foffs >= 0
    requires SamePlace(x, b, a, words)
    ensures SimParsed(x, ParseCommand(b, words, trace, oracle), ParseCommand(a, words, trace, oracle))
  {
    hide Rel;
    SimLoopPhase(x, b, a, words);
    LoopPhaseKeepsSafe(b, words);
    LoopPhaseKeepsSafe(a, words);
    var p, q := LoopPhase(b, words), LoopPhase(a, words);
    hide LoopPhase;
    if p.ok {
      SimAfterLoop(x, p.np, q.np, p.rest, trace, oracle);
      hide AfterLoop;
    } else {
      SimSaveResult(x, p.np, q.np, true);
    }
  }
}
