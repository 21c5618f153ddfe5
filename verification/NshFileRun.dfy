/**
  Whole runs over a script file, command by command and line by line.
*/
module NshFileRun {
  import opened NshOption
  import opened NshMachine
  import opened NshRun
  import opened NshSteps
  import opened NshText
  import opened NshReading
  import opened NshScan

  // ----- One command line -----

  // The command acts as its first word followed by the others, or as its first word rejected.
  ghost predicate FirstThenRest(np: Np, words: Command, trace: seq<Command>, oracle: Oracle)
    requires Safe(np) && words != []
  {
    var p := ParseCommand(np, [words[0]], trace, oracle);
    && Safe(p.np) && p.ran == None
    && if p.rejected then ParseCommand(np, words, trace, oracle) == p
       else p.ok && p.np.jump == np.jump && p.np.seek == np.seek
            && ParseCommand(np, words, trace, oracle) == ParseCommand(p.np, words[1..], trace, oracle)
  }

  // `then cmd` is `then` followed by `cmd`, unless the keyword is rejected.
  lemma SharedLine(np: Np, words: Command, trace: seq<Command>, oracle: Oracle)
    requires Safe(np) && Shares(words)
    ensures FirstThenRest(np, words, trace, oracle)
  {
    CommandKeepsSafe(np, [words[0]], trace, oracle);
    if words[0] == KwDo {
      SharedDo(np, words, trace, oracle);
    } else {
      SharedThen(np, words, trace, oracle);
    }
  }

  lemma SharedDo(np: Np, words: Command, trace: seq<Command>, oracle: Oracle)
    requires Safe(np) && Shares(words) && words[0] == KwDo
    ensures FirstThenRest(np, words, trace, oracle)
  {
    CommandKeepsSafe(np, [KwDo], trace, oracle);
    if np.AwaitsDo() {
      ParseDo(np, trace, oracle);
      var q := np.SetLp(np.LpTop().(state := LpDo));
      assert LoopPhase(np, words) == Phase(q, words[1..], true);
      assert LoopPhase(q, words[1..]) == Phase(q, words[1..], true);
      hide LoopPhase, AfterLoop;
    } else {
      assert LoopPhase(np, words) == LoopPhase(np, [KwDo]) == LoopError(np);
      hide LoopPhase, AfterLoop;
    }
  }

  lemma SharedThen(np: Np, words: Command, trace: seq<Command>, oracle: Oracle)
    requires Safe(np) && Shares(words) && words[0] in {KwThen, KwElse}
    ensures FirstThenRest(np, words, trace, oracle)
  {
    var one := [words[0]];
    CommandKeepsSafe(np, one, trace, oracle);
    if np.AwaitsDo() {
      assert LoopPhase(np, words) == LoopPhase(np, one) == LoopError(np);
      hide LoopPhase, AfterLoop;
    } else {
      assert LoopPhase(np, words) == Phase(np, words, true);
      assert LoopPhase(np, one) == Phase(np, one, true);
      hide LoopPhase;
      var a, b := ItefPhase(np, words), ItefPhase(np, one);
      assert one[1..] == [];
      if np.IeTop().state == (if words[0] == KwThen then IeIf else IeThen) {
        assert a == Phase(b.np, words[1..], true) && b.rest == [];
        ItefPhaseKeepsSafe(np, one);
        ParsePlain(b.np, words[1..], trace, oracle);
        hide ItefPhase, RunWords;
        assert RunWords(b.np, [], trace, oracle) == Parsed(b.np, true, None, false)
            by { RunNothing(b.np, trace, oracle); }
      } else {
        assert a == b == ItefError(np);
        hide ItefPhase, RunWords;
      }
    }
  }

  lemma RunNothing(np: Np, trace: seq<Command>, oracle: Oracle)
    requires Safe(np)
    ensures RunWords(np, [], trace, oracle) == Parsed(np, true, None, false)
  {
  }

  lemma ParseNothing(np: Np, trace: seq<Command>, oracle: Oracle)
    requires Safe(np)
    ensures ParseCommand(np, [], trace, oracle) == Parsed(np, true, None, false)
  {
  }

  // ----- What a command leaves alone -----

  ghost predicate SameFile(np: Np, p: Np) {
    && p.foffs == np.foffs && p.fd == np.fd && (!np.jump && !p.jump ==> p.seek == np.seek)
    && |p.ie| == |np.ie| && |p.lp| == |np.lp|
  }

  lemma LoopPhaseFrame(np: Np, words: Command)
    requires np.InBounds()
    ensures SameFile(np, LoopPhase(np, words).np)
  {
    hide CmdEnabled, NoWord;
  }

  ghost predicate SameRest(np: Np, p: Np) {
    && p.foffs == np.foffs && p.fd == np.fd && p.seek == np.seek && p.jump == np.jump
    && |p.ie| == |np.ie| && |p.lp| == |np.lp|
  }

  lemma SaveResultFrame(np: Np, failed: bool)
    requires np.InBounds()
    ensures SameRest(np, SaveResult(np, failed).np)
  {
  }

  lemma BreakLoopFrame(np: Np)
    requires Safe(np)
    ensures SameRest(np, BreakLoop(np)) && BreakLoop(np).InBounds()
  {
    BreakLoopKeepsSafe(np);
  }

  lemma RunWordsFrame(np: Np, argv: Command, trace: seq<Command>, oracle: Oracle)
    requires Safe(np)
    ensures SameRest(np, RunWords(np, argv, trace, oracle).np)
  {
    hide CmdEnabled, SaveResult, BreakLoop;
    BreakLoopFrame(np);
    SaveResultFrame(BreakLoop(np), false);
    SaveResultFrame(np, oracle(trace, np.fail, argv));
  }

  /** A command that does not jump leaves the file position alone, and the stacks never grow. */
  lemma CommandFrame(np: Np, words: Command, trace: seq<Command>, oracle: Oracle)
    requires Safe(np)
    ensures SameFile(np, ParseCommand(np, words, trace, oracle).np)
  {
    hide LoopPhase, ItefPhase, RunWords, CmdEnabled, SaveResult;
    var a := LoopPhase(np, words);
    LoopPhaseFrame(np, words);
    LoopPhaseKeepsSafe(np, words);
    if a.ok {
      var b := ItefPhase(a.np, a.rest);
      ItefPhaseFrame(a.np, a.rest);
      ItefPhaseKeepsSafe(a.np, a.rest);
      if b.ok {
        RunWordsFrame(b.np, b.rest, trace, oracle);
      } else {
        SaveResultFrame(b.np, true);
      }
    } else {
      SaveResultFrame(a.np, true);
    }
  }

  // ----- One command line, in the file and in the list of clauses -----

  lemma SuffixSplit<T>(s: seq<T>, i: nat, a: seq<T>, b: seq<T>)
    requires i <= |s| && s[i..] == a + b
    ensures i + |a| <= |s| && s[i..i + |a|] == a && s[i + |a|..] == b
  {
    assert s[i..i + |a|] == s[i..][..|a|];
    assert s[i + |a|..] == s[i..][|a|..];
  }

  lemma PlainOn(x: Setting, o: nat)
    requires o < |x.file| && PlainHeads(x, o)
    ensures PlainHeads(x, NextAt(x.file, o))
  {
  }

  // The clauses and marks of the command at `o` stand at the corresponding position.
  lemma ClausesAt(x: Setting, o: nat, i: nat, words: Command)
    requires Rel(x, o, i) && o < |x.file| && words == x.tok(TextAt(x.file, o))
    ensures var sh, n := ShellOf(x), |Clauses(words)|;
            && At(sh.script, i, Clauses(words))
            && Rel(x, NextAt(x.file, o), i + n)
            && (n == 1 ==> sh.Next(i, true) == i + 1)
            && (n == 2 ==> sh.Next(i, true) == i + 2 && sh.Next(i + 1, true) == i + 2)
  {
    hide TextAt, NextAt, Shares, PlainHeads;
    PlainOn(x, o);
    var sh, n := ShellOf(x), |Clauses(words)|;
    var next := NextAt(x.file, o);
    var deck, joins := Deck(x, next), DeckJoins(x, next);
    SuffixSplit(sh.script, i, Clauses(words), deck);
    SuffixSplit(sh.joined, i, Joins(words), joins);
    if i + 1 < |sh.joined| {
      assert sh.joined[i + 1] == sh.joined[i..][1];
    }
    if i + 2 < |sh.joined| {
      assert sh.joined[i + 2] == sh.joined[i..][2];
    }
  }

  // `m` steps over the clauses have come where the command in the file has.
  ghost predicate Tracks(x: Setting, b: Np, ok: bool, btrace: seq<Command>, next: int, d: Config) {
    && d.trace == btrace
    && d.np.fail == b.fail
    && if !ok && !x.ignore then d.Halted? && !d.atEnd
       else d.Running? && SimNp(x, b.(jump := false), d.np.(jump := false)) && Rel(x, next, d.pos)
  }

  // Where the command after this one stands in the file.
  function Target(p: Np, next: int): int {
    if p.jump then p.seek else next
  }

  lemma SimWithoutJump(x: Setting, b: Np, a: Np)
    requires SimNp(x, b, a)
    ensures SimNp(x, b.(jump := false), a.(jump := false)) && b.fail == a.fail && b.jump == a.jump
  {
    hide Rel;
  }

  lemma SimPositioned(x: Setting, b: Np, a: Np, i: int)
    requires SimNp(x, b, a.(jump := false))
    ensures SimNp(x, b, Positioned(a, i))
  {
    hide Rel;
  }

  lemma OneCommand(x: Setting, b: Np, a: Np, o: nat, i: nat, words: Command, trace: seq<Command>) returns (m: nat)
    requires SimNp(x, b, a.(jump := false)) && Safe(b) && Safe(a) && !b.jump && b.foffs >= 0
    requires LoopHead(words) ==> b.foffs + b.loffs == o
    requires Rel(x, o, i) && o < |x.file| && words == x.tok(TextAt(x.file, o))
    ensures var p := ParseCommand(b, words, trace, x.oracle);
            && Tracks(x, p.np, p.ok, Ran(trace, p), Target(p.np, NextAt(x.file, o)),
                      Iter(ShellOf(x), Running(a, i, trace), m))
            && (p.np.jump ==> m >= 1)
  {
    if words == [] {
      ClausesAt(x, o, i, words);
      ParseNothing(b, trace, x.oracle);
      SimWithoutJump(x, b, a.(jump := false));
      m := 0;
    } else if Shares(words) {
      m := SharedCommand(x, b, a, o, i, words, trace);
    } else {
      m := SingleCommand(x, b, a, o, i, words, trace);
    }
    hide *;
  }

  lemma SingleCommand(x: Setting, b: Np, a: Np, o: nat, i: nat, words: Command, trace: seq<Command>) returns (m: nat)
    requires SimNp(x, b, a.(jump := false)) && Safe(b) && Safe(a) && !b.jump && b.foffs >= 0
    requires LoopHead(words) ==> b.foffs + b.loffs == o
    requires Rel(x, o, i) && o < |x.file| && words == x.tok(TextAt(x.file, o)) && words != [] && !Shares(words)
    ensures var p := ParseCommand(b, words, trace, x.oracle);
            && Tracks(x, p.np, p.ok, Ran(trace, p), Target(p.np, NextAt(x.file, o)),
                      Iter(ShellOf(x), Running(a, i, trace), m))
            && m >= 1
  {
    hide Rel, SimNp, SimParsed, Tracks, Target, ParseCommand, Iter, Step, TextAt, NextAt, At, Clauses, Shares, Deck,
         DeckJoins;
    SingleClause(words);
    ClausesAt(x, o, i, words);
    SimPositioned(x, b, a, i);
    SimCommand(x, b, Positioned(a, i), words, trace, x.oracle);
    var q := One(ShellOf(x), a, i, trace, words);
    TracksIntro(x, ParseCommand(b, words, trace, x.oracle), q, trace, NextAt(x.file, o), i + 1,
                Iter(ShellOf(x), Running(a, i, trace), 1));
    m := 1;
  }

  lemma SingleClause(words: Command)
    requires words != [] && !Shares(words)
    ensures Clauses(words) == [words]
  {
  }

  lemma TracksIntro(x: Setting, p: Parsed, q: Parsed, trace: seq<Command>, next: int, i: int, d: Config)
    requires SimParsed(x, p, q) && Rel(x, next, i)
    requires d == if !q.ok && !x.ignore then Halted(q.np, Ran(trace, q), false)
                  else Running(q.np, if q.np.jump then q.np.seek else i, Ran(trace, q))
    ensures Tracks(x, p.np, p.ok, Ran(trace, p), Target(p.np, next), d)
  {
    hide Rel, SimNp;
    SimWithoutJump(x, p.np, q.np);
  }

  lemma TwoClauses(words: Command)
    requires Shares(words)
    ensures Clauses(words) == [[words[0]]] + [words[1..]]
    ensures words[1..] != [] && words[1..][0] !in {KwWhile, KwUntil} && words[0] !in {KwWhile, KwUntil}
  {
  }

  lemma SharedCommand(x: Setting, b: Np, a: Np, o: nat, i: nat, words: Command, trace: seq<Command>) returns (m: nat)
    requires SimNp(x, b, a.(jump := false)) && Safe(b) && Safe(a) && !b.jump && b.foffs >= 0
    requires LoopHead(words) ==> b.foffs + b.loffs == o
    requires Rel(x, o, i) && o < |x.file| && words == x.tok(TextAt(x.file, o)) && Shares(words)
    ensures var p := ParseCommand(b, words, trace, x.oracle);
            && Tracks(x, p.np, p.ok, Ran(trace, p), Target(p.np, NextAt(x.file, o)),
                      Iter(ShellOf(x), Running(a, i, trace), m))
            && m >= 1
  {
    hide Rel, SimNp, SimParsed, Tracks, Target, ParseCommand, Iter, Step, TextAt, NextAt, At, Clauses, Deck,
         DeckJoins;
    var sh := ShellOf(x);
    TwoClauses(words);
    ClausesAt(x, o, i, words);
    AtSplit(sh.script, i, [[words[0]]], [words[1..]]);
    SimPositioned(x, b, a, i);
    SimCommand(x, b, Positioned(a, i), [words[0]], trace, x.oracle);
    var p := ParseCommand(b, [words[0]], trace, x.oracle);
    var q := One(sh, a, i, trace, [words[0]]);
    SharedLine(b, words, trace, x.oracle);
    CommandFrame(b, [words[0]], trace, x.oracle);
    SimOutcome(x, p, q);
    if p.rejected {
      TracksIntro(x, p, q, trace, NextAt(x.file, o), i + 2, Iter(sh, Running(a, i, trace), 1));
      m := 1;
    } else {
      SecondClause(x, p, a, q, i, NextAt(x.file, o), words[1..], trace);
      m := 2;
    }
  }

  lemma SimOutcome(x: Setting, p: Parsed, q: Parsed)
    requires SimParsed(x, p, q)
    ensures p.rejected == q.rejected && p.ok == q.ok && p.ran == q.ran && p.np.jump == q.np.jump
    ensures SimNp(x, p.np, q.np)
  {
    hide Rel;
  }

  // The second clause of a shared line opens no loop.
  lemma SecondClause(x: Setting, p: Parsed, a: Np, q: Parsed, i: nat, next: int, words: Command, trace: seq<Command>)
    requires Safe(a) && Safe(p.np) && Safe(q.np) && SimNp(x, p.np, q.np) && !p.np.jump && p.np.foffs >= 0
    requires Iter(ShellOf(x), Running(a, i, trace), 1) == Running(q.np, i + 1, trace)
    requires At(ShellOf(x).script, i + 1, [words]) && words != [] && words[0] !in {KwWhile, KwUntil}
    requires Rel(x, next, i + 2) && ShellOf(x).Next(i + 1, true) == i + 2
    ensures var r := ParseCommand(p.np, words, trace, x.oracle);
            Tracks(x, r.np, r.ok, Ran(trace, r), Target(r.np, next), Iter(ShellOf(x), Running(a, i, trace), 2))
  {
    hide Rel, SimNp, SimParsed, Tracks, Target, ParseCommand, Iter, Step, At, Deck, DeckJoins, Safe;
    SimSecond(x, p.np, q.np, i + 1);
    SimCommand(x, p.np, Positioned(q.np, i + 1), words, trace, x.oracle);
    var r := One(ShellOf(x), q.np, i + 1, trace, words);
    IterAdd(ShellOf(x), Running(a, i, trace), 1, 1);
    TracksIntro(x, ParseCommand(p.np, words, trace, x.oracle), r, trace, next, i + 2,
                Iter(ShellOf(x), Running(a, i, trace), 2));
  }

  lemma SimSecond(x: Setting, b: Np, a: Np, i: int)
    requires SimNp(x, b, a) && !b.jump && Safe(a)
    ensures SimNp(x, b, Positioned(a, i)) && Safe(Positioned(a, i))
  {
    hide Rel;
  }

  // ----- One line -----

  // No line ends between `i` and `k`.
  ghost predicate OneLine(s: string, i: nat, k: nat)
    requires i <= k <= |s|
  {
    forall j :: i <= j < k ==> s[j] != '\n'
  }

  lemma {:induction false} LineEndIs(s: string, i: nat, k: nat)
    requires i <= k <= |s| && OneLine(s, i, k)
    requires k == |s| || s[k] == '\n'
    ensures LineEnd(s, i) == if k == |s| then k else k + 1
    decreases k - i
  {
    if i == k {
    } else {
      LineEndIs(s, i + 1, k);
    }
  }

  lemma {:induction false} LineEndStops(s: string, i: nat) returns (k: nat)
    requires i <= |s|
    ensures i <= k <= |s| && OneLine(s, i, k) && (k == |s| || s[k] == '\n')
    ensures LineEnd(s, i) == if k == |s| then k else k + 1
    decreases |s| - i
  {
    if i == |s| || s[i] == '\n' {
      k := i;
    } else {
      k := LineEndStops(s, i + 1);
    }
  }

  lemma {:induction false} SepIs(s: string, i: nat, k: nat)
    requires i <= k <= |s| && (k == |s| || LineSep(s[k]))
    requires forall j :: i <= j < k ==> !LineSep(s[j])
    ensures SepFrom(s, i) == k
    decreases k - i
  {
    if i == k {
    } else {
      SepIs(s, i + 1, k);
    }
  }

  lemma SameLine(s: string, f: nat, start: nat)
    requires f < |s| && f + start <= LineEnd(s, f) && OneLine(s, f, f + start)
    ensures LineEnd(s, f + start) == LineEnd(s, f) && RestAt(s, f + start) == s[f..LineEnd(s, f)][start..]
    ensures forall j :: f <= j < LineEnd(s, f) && s[j] != '\n' ==> OneLine(s, f, j + 1)
  {
    var k := LineEndStops(s, f);
    LineEndIs(s, f + start, k);
  }

  // The command at `start` of the line that begins at `f`: its text, and where the next one starts.
  lemma SameCommand(s: string, f: nat, start: nat)
    requires f < |s| && f + start <= LineEnd(s, f) && OneLine(s, f, f + start)
    ensures var line := s[f..LineEnd(s, f)];
            && (f + start == |s| ==> ScanFrom(line, start, start) == WithLine(start) && line[start..] == "")
            && (f + start < |s| ==>
                  match ScanFrom(line, start, start)
                  case Semicolon(end, _) =>
                    && TextAt(s, f + start) == line[start..end]
                    && NextAt(s, f + start) == f + end + 1 <= LineEnd(s, f)
                    && OneLine(s, f, f + end + 1)
                  case _ =>
                    && TextAt(s, f + start) == line[start..]
                    && NextAt(s, f + start) == LineEnd(s, f))
  {
    hide LineEnd, ScanFrom, OneLine;
    var line := s[f..LineEnd(s, f)];
    SameLine(s, f, start);
    ScanShift(line, start, start);
    if f + start == |s| {
      NothingLeft(line);
    } else {
      match ScanFrom(line, start, start)
      case Semicolon(end, _) => assert line[start..][..end - start] == line[start..end] && s[f + end] == line[end];
      case _ =>
    }
  }

  lemma NothingLeft(line: string)
    ensures ScanFrom(line, |line|, |line|) == WithLine(|line|)
  {
  }

  // Its quotes are closed, and if it opens a loop it is handled at its own place.
  lemma HandledAt(x: Setting, f: nat, start: nat, i: nat)
    requires f < |x.file| && f + start <= LineEnd(x.file, f) && OneLine(x.file, f, f + start)
    requires f + start < |x.file| && Rel(x, f + start, i)
    ensures var scan := ScanFrom(x.file[f..LineEnd(x.file, f)], start, start);
            !scan.Unclosed? && (LoopHead(x.tok(TextAt(x.file, f + start))) ==> scan.handed == start)
  {
    hide LineEnd, ScanFrom, OneLine, TextAt, NextAt, Deck, DeckJoins, LoopHead, SepFrom;
    var line := x.file[f..LineEnd(x.file, f)];
    SameLine(x.file, f, start);
    ScanShift(line, start, start);
    SepShift(line, start, start);
    if !ScanFrom(line, start, start).Unclosed? {
      HandedIff(line, start);
    }
  }

  lemma SimLoffs(x: Setting, b: Np, a: Np, loffs: int)
    requires SimNp(x, b, a)
    ensures SimNp(x, b.(loffs := loffs), a)
  {
    hide Rel;
  }

  lemma TracksFirst(x: Setting, b: Np, ok: bool, trace: seq<Command>, next: int, d: Config)
    requires Tracks(x, b, ok, trace, next, d) && (ok || x.ignore) && !b.jump
    ensures d.Running? && d.trace == trace && SimNp(x, b, d.np.(jump := false)) && Rel(x, next, d.pos) && d.pos >= 0
  {
    assert b.(jump := false) == b;
  }

  // What the run over the clauses has to do with a line that is parsed from `start` on.
  ghost predicate LineTracks(x: Setting, f: nat, start: nat, b: Np, a: Np, i: nat, trace: seq<Command>, m: nat)
    requires f < |x.file| && f + start <= LineEnd(x.file, f) && Safe(b) && Safe(a)
  {
    var r := ParseLineFrom(x, x.file[f..LineEnd(x.file, f)], start, start, b, trace);
    && Tracks(x, r.np, r.ok, r.trace, r.np.seek, Iter(ShellOf(x), Running(a, i, trace), m))
    && (r.np.seek == LineEnd(x.file, f) || m >= 1)
  }

  // Ready to parse the line that begins at `f`, from `start` on.
  ghost predicate AtCommand(x: Setting, f: nat, start: nat, b: Np, a: Np, i: nat)
    requires f < |x.file| && f + start <= LineEnd(x.file, f)
  {
    && x.tok("") == [] && OneLine(x.file, f, f + start)
    && SimNp(x, b, a.(jump := false)) && Safe(b) && Safe(a) && !b.jump
    && b.foffs == f && b.seek == LineEnd(x.file, f) && Rel(x, f + start, i)
  }

  /**
    A line, from its command at `start` on.  The command that comes next, in the rest of
    the line or where a loop goes back to, is the one at the file position afterwards.
  */
  lemma {:induction false} RunLine(x: Setting, f: nat, start: nat, b: Np, a: Np, i: nat, trace: seq<Command>)
      returns (m: nat)
    requires f < |x.file| && f + start <= LineEnd(x.file, f) && AtCommand(x, f, start, b, a, i)
    ensures LineTracks(x, f, start, b, a, i, trace, m)
    decreases LineEnd(x.file, f) - start, 1
  {
    hide Rel, SimNp, Tracks, LineTracks, ParseCommand, ParseLineFrom, ScanFrom, Iter, Step, TextAt, NextAt, Deck,
         DeckJoins, Safe;
    if ScanFrom(x.file[f..LineEnd(x.file, f)], start, start).Semicolon? {
      m := RunCommand(x, f, start, b, a, i, trace);
    } else {
      m := LastCommand(x, f, start, b, a, i, trace);
    }
  }

  // A command that another one may follow on the line.
  lemma {:induction false} RunCommand(x: Setting, f: nat, start: nat, b: Np, a: Np, i: nat, trace: seq<Command>)
      returns (m: nat)
    requires f < |x.file| && f + start <= LineEnd(x.file, f) && AtCommand(x, f, start, b, a, i)
    requires ScanFrom(x.file[f..LineEnd(x.file, f)], start, start).Semicolon?
    ensures LineTracks(x, f, start, b, a, i, trace, m)
    decreases LineEnd(x.file, f) - start, 0
  {
    hide Rel, SimNp, Tracks, ParseCommand, ParseLineFrom, ScanFrom, Iter, Step, TextAt, NextAt, Deck, DeckJoins, Safe,
         LoopHead;
    var line := x.file[f..LineEnd(x.file, f)];
    SameCommand(x.file, f, start);
    HandledAt(x, f, start, i);
    ParseLineScan(x, line, start, start, b, trace);
    var Semicolon(e, handed) := ScanFrom(line, start, start);
    var q := b.(loffs := handed);
    SimLoffs(x, b, a.(jump := false), handed);
    var words := x.tok(line[start..e]);
    m := OneCommand(x, q, a, f + start, i, words, trace);
    var p := ParseCommand(q, words, trace, x.oracle);
    CommandFrame(q, words, trace, x.oracle);
    if (p.ok || x.ignore) && !p.np.jump {
      var d := Iter(ShellOf(x), Running(a, i, trace), m);
      TracksFirst(x, p.np, p.ok, Ran(trace, p), f + e + 1, d);
      var k := RunLine(x, f, e + 1, p.np, d.np, d.pos, d.trace);
      assert d == Running(d.np, d.pos, d.trace);
      IterAdd(ShellOf(x), Running(a, i, trace), m, k);
      m := m + k;
    } else {
      TracksOk(x, p.np, p.ok, Ran(trace, p), Target(p.np, f + e + 1), p.np.seek,
               Iter(ShellOf(x), Running(a, i, trace), m));
    }
  }

  // With errors ignored, the status does not matter; after an error that is not, what follows does not.
  lemma TracksOk(x: Setting, b: Np, ok: bool, trace: seq<Command>, next: int, next': int, d: Config)
    requires Tracks(x, b, ok, trace, next, d) && (next == next' || (!ok && !x.ignore))
    ensures Tracks(x, b, ok || x.ignore, trace, next', d)
  {
    hide Rel, SimNp;
  }

  lemma LastCommand(x: Setting, f: nat, start: nat, b: Np, a: Np, i: nat, trace: seq<Command>)
      returns (m: nat)
    requires f < |x.file| && f + start <= LineEnd(x.file, f) && AtCommand(x, f, start, b, a, i)
    requires !ScanFrom(x.file[f..LineEnd(x.file, f)], start, start).Semicolon?
    ensures LineTracks(x, f, start, b, a, i, trace, m)
  {
    hide Rel, SimNp, Tracks, ParseCommand, ParseLineFrom, ScanFrom, Iter, Step, TextAt, NextAt, Deck, DeckJoins, Safe,
         LoopHead;
    var line := x.file[f..LineEnd(x.file, f)];
    SameCommand(x.file, f, start);
    if f + start < |x.file| {
      HandledAt(x, f, start, i);
    }
    ParseLineScan(x, line, start, start, b, trace);
    var WithLine(handed) := ScanFrom(line, start, start);
    var q := b.(loffs := handed);
    SimLoffs(x, b, a.(jump := false), handed);
    var words := x.tok(line[start..]);
    CommandFrame(q, words, trace, x.oracle);
    if f + start < |x.file| {
      m := OneCommand(x, q, a, f + start, i, words, trace);
    } else {
      ParseNothing(q, trace, x.oracle);
      m := 0;
      TracksNothing(x, q, a, i, trace);
    }
  }

  lemma TracksNothing(x: Setting, b: Np, a: Np, i: nat, trace: seq<Command>)
    requires SimNp(x, b, a.(jump := false)) && Safe(a) && !b.jump && Rel(x, b.seek, i)
    ensures Tracks(x, b, true, trace, b.seek, Iter(ShellOf(x), Running(a, i, trace), 0))
  {
    assert b.(jump := false) == b;
  }

  // ----- Whole runs -----

  // The run over the file and the run over the clauses have come to the same place.
  ghost predicate Linked(x: Setting, c: Progress, d: Config) {
    && c.trace == d.trace && c.np.fail == d.np.fail
    && Safe(c.np) && Safe(d.np)
    && match c
       case Reading(np, _) =>
         && d.Running? && Rel(x, np.seek, d.pos)
         && SimNp(x, np.(jump := false), d.np.(jump := false))
       case Over(np, _, atEnd) =>
         d.Halted? && d.atEnd == atEnd && (atEnd ==> SameStacks(np.(jump := false), d.np.(jump := false)))
  }

  lemma ReadOne(x: Setting, c: Progress, d: Config) returns (m: nat)
    requires x.tok("") == []
    requires Linked(x, c, d) && c.Reading?
    ensures var c' := ReadLine(x, c);
            && Linked(x, c', Iter(ShellOf(x), d, m))
            && (c'.Reading? ==> c'.np.seek > c.np.seek || m >= 1)
  {
    hide SimNp, Tracks, ParseLineFrom, Iter, Step, Deck, DeckJoins;
    var np, f := c.np, c.np.seek;
    if f < |x.file| {
      m := ReadFull(x, c, d);
    } else {
      AtDeckEnd(x, d);
      StacksOf(x, np.(jump := false), d.np.(jump := false));
      m := 1;
    }
  }

  lemma StacksOf(x: Setting, b: Np, a: Np)
    requires SimNp(x, b, a)
    ensures SameStacks(b, a)
  {
  }

  lemma AtDeckEnd(x: Setting, d: Config)
    requires Safe(d.np) && d.Running? && Rel(x, |x.file|, d.pos)
    ensures Iter(ShellOf(x), d, 1) == Halted(d.np, d.trace, true)
  {
    var sh := ShellOf(x);
    assert sh.script[d.pos..] == [];
    AtTheEnd(sh, d);
    assert Iter(sh, d, 1) == Iter(sh, Step(sh, d), 0);
  }

  lemma ReadFull(x: Setting, c: Progress, d: Config) returns (m: nat)
    requires x.tok("") == []
    requires Linked(x, c, d) && c.Reading? && 0 <= c.np.seek < |x.file| && d.pos >= 0
    ensures var c' := ReadLine(x, c);
            && Linked(x, c', Iter(ShellOf(x), d, m))
            && (c'.Reading? ==> c'.np.seek > c.np.seek || m >= 1)
  {
    hide SimNp, Rel, Tracks, ParseLineFrom, Iter, Step, Deck, DeckJoins;
    var f := c.np.seek;
    var b := c.np.(foffs := f, loffs := 0, seek := LineEnd(x.file, f), jump := false);
    SimFile(x, c.np, d.np, f, LineEnd(x.file, f));
    m := RunLine(x, f, 0, b, d.np, d.pos, d.trace);
    assert d == Running(d.np, d.pos, d.trace);
    var r := ParseLineFrom(x, x.file[f..LineEnd(x.file, f)], 0, 0, b, d.trace);
    TracksLinked(x, r, Iter(ShellOf(x), d, m));
  }

  lemma SimFile(x: Setting, b: Np, a: Np, f: int, seek: int)
    requires SimNp(x, b.(jump := false), a.(jump := false)) && Safe(b)
    ensures SimNp(x, b.(foffs := f, loffs := 0, seek := seek, jump := false), a.(jump := false))
    ensures Safe(b.(foffs := f, loffs := 0, seek := seek, jump := false))
  {
    hide Rel;
  }

  lemma TracksLinked(x: Setting, r: LineResult, d: Config)
    requires Tracks(x, r.np, r.ok, r.trace, r.np.seek, d) && Safe(r.np) && Safe(d.np)
    ensures Linked(x, if !r.ok && !x.ignore then Over(r.np, r.trace, false) else Reading(r.np, r.trace), d)
  {
    hide Rel, SimNp, Safe;
  }

  // `n` lines take `m` steps over the clauses: reading on without a step is bounded by
  // the length of the file.
  lemma {:induction false} ReadMany(x: Setting, np: Np, a: Np, trace: seq<Command>, n: nat) returns (m: nat)
    requires x.tok("") == []
    requires Linked(x, Reading(np, trace), Running(a, 0, trace))
    ensures var c, size := ReadLines(x, Reading(np, trace), n), |x.file| + 1;
            && Linked(x, c, Iter(ShellOf(x), Running(a, 0, trace), m))
            && (c.Reading? ==> 0 <= c.np.seek <= |x.file| && n + |x.file| - c.np.seek <= size * (m + 1))
    decreases n
  {
    hide SimNp, ReadLine, Iter, Step, Deck, DeckJoins, ShellOf, Safe;
    var start, first := Reading(np, trace), Running(a, 0, trace);
    if n == 0 {
      m := 0;
      IterZero(ShellOf(x), first);
    } else {
      m := ReadMany(x, np, a, trace, n - 1);
      ReadLinesLast(x, start, n - 1);
      var c, d := ReadLines(x, start, n - 1), Iter(ShellOf(x), first, m);
      if c.Reading? {
        var k := ReadOne(x, c, d);
        IterAdd(ShellOf(x), first, m, k);
        Budget(|x.file| + 1, n - 1, c.np.seek, m, k);
        m := m + k;
      } else {
        ReadOver(x, c);
      }
    }
  }

  lemma IterZero(sh: Shell, c: Config)
    requires Safe(c.np)
    ensures Iter(sh, c, 0) == c
  {
  }

  lemma ReadOver(x: Setting, c: Progress)
    requires Safe(c.np) && c.Over?
    ensures ReadLine(x, c) == c
  {
  }

  lemma {:induction false} ReadLinesLast(x: Setting, c: Progress, n: nat)
    requires Safe(c.np)
    ensures ReadLines(x, c, n + 1) == ReadLine(x, ReadLines(x, c, n))
    decreases n
  {
    hide ReadLine;
    if n > 0 {
      ReadLinesLast(x, ReadLine(x, c), n - 1);
    } else {
      assert ReadLines(x, c, 1) == ReadLines(x, ReadLine(x, c), 0);
    }
  }

  lemma Budget(size: nat, n: nat, seek: int, m: nat, k: nat)
    requires size >= 1 && 0 <= seek <= size - 1 && n + size - 1 - seek <= size * (m + 1)
    ensures k >= 1 ==> n + size <= size * (m + k + 1)
    ensures size * (m + 1) <= size * (m + k + 1)
  {
    assert size * (m + k + 1) == size * (m + 1) + size * k;
    if k >= 1 {
      assert size * k == size + size * (k - 1);
    }
  }
}
