/**
  The nesting of a script, read off its list of clauses: how many `if`s are open at a
  position, and which loops, with the place of each and the `if`s around it.
*/
module NshNesting {
  import opened NshMachine
  import opened NshStructured
  import opened NshRun
  import opened NshSteps

  datatype Open = Open(pos: int, ifs: int)
  datatype Nest = Nest(ifs: int, loops: seq<Open>)

  function Last(s: seq<Open>): Open
    requires s != []
  {
    s[|s| - 1]
  }

  predicate Begins(words: Command, w: Word) {
    words != [] && words[0] == w
  }

  predicate BeginsLoop(words: Command) {
    Begins(words, KwWhile) || Begins(words, KwUntil)
  }

  // The nesting after the clause at `p`.
  function Read(n: Nest, words: Command, p: int): Nest {
    if Begins(words, KwIf) then n.(ifs := n.ifs + 1)
    else if Begins(words, KwFi) then n.(ifs := n.ifs - 1)
    else if BeginsLoop(words) then n.(loops := n.loops + [Open(p, n.ifs)])
    else if Begins(words, KwDone) && n.loops != [] then n.(loops := n.loops[..|n.loops| - 1])
    else n
  }

  function NestAt(script: seq<Command>, p: nat): Nest
    requires p <= |script|
  {
    if p == 0 then Nest(0, []) else Read(NestAt(script, p - 1), script[p - 1], p - 1)
  }

  predicate IfClause(words: Command) {
    && |words| > 1
    && if words[1] == KwBang then words == IfWords(true, words[2..]) && Condition(words[2..])
       else words == IfWords(false, words[1..]) && Condition(words[1..])
  }

  predicate LoopClause(words: Command) {
    |words| > 1 && Condition(words[1..])
  }

  // The clause at `q` has the neighbours and the nesting that a structured script gives it.
  predicate Fits(script: seq<Command>, q: nat)
    requires q < |script|
  {
    var words, n := script[q], NestAt(script, q);
    && words != []
    && match words[0]
       case KwIf => IfClause(words) && q + 1 < |script| && script[q + 1] == [KwThen]
       case KwThen => words == [KwThen] && q > 0 && Begins(script[q - 1], KwIf)
       case KwElse => words == [KwElse]
       case KwFi => words == [KwFi]
       case KwWhile => LoopClause(words) && q + 1 < |script| && script[q + 1] == [KwDo]
       case KwUntil => LoopClause(words) && q + 1 < |script| && script[q + 1] == [KwDo]
       case KwDo => words == [KwDo] && q > 0 && BeginsLoop(script[q - 1])
       case KwDone => words == [KwDone] && n.loops != [] && Last(n.loops).ifs == n.ifs
       case _ => true
  }

  // Between `p` and `p + len` every clause fits and stands inside the nesting at `p`.
  ghost predicate Region(script: seq<Command>, p: nat, len: nat)
    requires p + len <= |script|
  {
    && NestAt(script, p + len) == NestAt(script, p)
    && forall q :: p <= q < p + len ==> Fits(script, q) && Within(script, p, q)
  }

  ghost predicate Within(script: seq<Command>, p: nat, q: nat)
    requires p <= q <= |script|
  {
    var n, k := NestAt(script, q), |NestAt(script, p).loops|;
    && NestAt(script, p).ifs <= n.ifs
    && k <= |n.loops| && n.loops[..k] == NestAt(script, p).loops
    && forall i :: k <= i < |n.loops| ==> p <= n.loops[i].pos < q && n.loops[i].ifs <= n.ifs
  }

  lemma WithinTrans(script: seq<Command>, p: nat, p': nat, q: nat)
    requires p <= p' <= q <= |script| && Within(script, p, p') && Within(script, p', q)
    ensures Within(script, p, q)
  {
    var n, m, k, k' := NestAt(script, q), NestAt(script, p'), |NestAt(script, p).loops|, |NestAt(script, p').loops|;
    assert n.loops[..k] == n.loops[..k'][..k];
    forall i | k <= i < |n.loops| ensures p <= n.loops[i].pos < q && n.loops[i].ifs <= n.ifs {
      if i < k' { assert n.loops[i] == n.loops[..k'][i] == m.loops[i]; }
    }
  }

  lemma {:induction false} BlockRegion(script: seq<Command>, b: Block, p: nat)
    requires ProperBlock(b) && At(script, p, FlatBlock(b))
    ensures Region(script, p, |FlatBlock(b)|)
    decreases b, 0
  {
    hide NestAt, Fits, FlatStmt;
    match b
    case Nil =>
    case Cons(s, rest) =>
      AtSplit(script, p, FlatStmt(s), FlatBlock(rest));
      StmtRegion(script, s, p);
      BlockRegion(script, rest, p + |FlatStmt(s)|);
      RegionJoin(script, p, |FlatStmt(s)|, |FlatBlock(rest)|);
  }

  // Two regions side by side.
  lemma RegionJoin(script: seq<Command>, p: nat, len: nat, len': nat)
    requires p + len + len' <= |script| && Region(script, p, len) && Region(script, p + len, len')
    ensures Region(script, p, len + len')
  {
    hide NestAt, Fits;
    forall q | p + len <= q < p + len + len' ensures Fits(script, q) && Within(script, p, q) {
      assert Within(script, p + len, q);
    }
  }

  lemma {:induction false} StmtRegion(script: seq<Command>, s: Stmt, p: nat)
    requires ProperStmt(s) && At(script, p, FlatStmt(s))
    ensures Region(script, p, |FlatStmt(s)|)
    decreases s, 1
  {
    match s
    case Cmd(argv) => PlainRegion(script, argv, p);
    case Break => PlainRegion(script, [KwBreak], p);
    case If(_, _, _, _, _) => IfRegion(script, s, p);
    case Repeat(_, _, _) => LoopRegion(script, s, p);
  }

  lemma PlainRegion(script: seq<Command>, argv: Command, p: nat)
    requires PlainCommand(argv) || argv == [KwBreak]
    requires At(script, p, [argv])
    ensures Region(script, p, 1)
  {
    assert script[p] == argv;
    assert NestAt(script, p + 1) == Read(NestAt(script, p), argv, p);
  }

  lemma {:induction false} IfRegion(script: seq<Command>, s: Stmt, p: nat)
    requires s.If? && ProperStmt(s) && At(script, p, FlatStmt(s))
    ensures Region(script, p, |FlatStmt(s)|)
    decreases s, 0
  {
    hide FlatBlock, FlatStmt, At, NestAt, Fits, Within;
    AtIf(script, p, s);
    var t, e := p + 2, p + 2 + |FlatBlock(s.thn)|;
    OpenIf(script, s.inverted, s.cond, p);
    BlockRegion(script, s.thn, t);
    if s.hasElse {
      ClauseAt(script, e, [KwElse]);
      BlockRegion(script, s.els, e + 1);
      ClauseAt(script, e + 1 + |FlatBlock(s.els)|, [KwFi]);
      CloseIf(script, p, t, e, e + 1 + |FlatBlock(s.els)|);
    } else {
      ClauseAt(script, e, [KwFi]);
      CloseIf(script, p, t, e, e);
    }
  }

  lemma ClauseAt(script: seq<Command>, p: nat, words: Command)
    requires At(script, p, [words])
    ensures p < |script| && script[p] == words
    ensures NestAt(script, p + 1) == Read(NestAt(script, p), words, p)
  {
    assert script[p..p + 1][0] == words;
  }

  lemma OpenIf(script: seq<Command>, inverted: bool, cond: Command, p: nat)
    requires Condition(cond) && At(script, p, [IfWords(inverted, cond)]) && At(script, p + 1, [[KwThen]])
    ensures p + 2 <= |script| && Fits(script, p) && Fits(script, p + 1)
    ensures NestAt(script, p + 1) == NestAt(script, p + 2) == NestAt(script, p).(ifs := NestAt(script, p).ifs + 1)
  {
    ClauseAt(script, p, IfWords(inverted, cond));
    ClauseAt(script, p + 1, [KwThen]);
    var words := script[p];
    hide NestAt;
    assert inverted ==> words[1] == KwBang && words[2..] == cond;
    assert !inverted ==> words[1..] == cond;
  }

  // `thn` from `t` to `e`, and from after the `else` at `e`, if `e < f`, to the `fi` at `f`.
  lemma CloseIf(script: seq<Command>, p: nat, t: nat, e: nat, f: nat)
    requires t == p + 2 <= e <= f < |script| && script[f] == [KwFi]
    requires Fits(script, p) && Fits(script, p + 1)
    requires NestAt(script, p + 1) == NestAt(script, t) == NestAt(script, p).(ifs := NestAt(script, p).ifs + 1)
    requires Region(script, t, e - t)
    requires e < f ==> script[e] == [KwElse] && Region(script, e + 1, f - (e + 1))
    ensures Region(script, p, f + 1 - p)
  {
    hide NestAt, Fits;
    CloseFits(script, t, e, f);
    forall q | p <= q < f + 1 ensures Fits(script, q) && Within(script, p, q) {
      if t <= q < e {
        assert Within(script, t, q);
      } else if e < q < f {
        assert Within(script, e + 1, q);
      }
    }
  }

  lemma CloseFits(script: seq<Command>, t: nat, e: nat, f: nat)
    requires t <= e <= f < |script| && script[f] == [KwFi]
    requires NestAt(script, e) == NestAt(script, t)
    requires e < f ==> script[e] == [KwElse] && NestAt(script, f) == NestAt(script, e + 1)
    ensures NestAt(script, f) == NestAt(script, t) && NestAt(script, f + 1) == Read(NestAt(script, f), [KwFi], f)
    ensures Fits(script, f) && (e < f ==> Fits(script, e) && NestAt(script, e + 1) == NestAt(script, t))
  {
    assert NestAt(script, f + 1) == Read(NestAt(script, f), [KwFi], f);
    assert e < f ==> NestAt(script, e + 1) == Read(NestAt(script, e), [KwElse], e);
  }

  lemma {:induction false} LoopRegion(script: seq<Command>, s: Stmt, p: nat)
    requires s.Repeat? && ProperStmt(s) && At(script, p, FlatStmt(s))
    ensures Region(script, p, |FlatStmt(s)|)
    decreases s, 0
  {
    hide FlatBlock, FlatStmt, At, NestAt, Fits, Within;
    AtRepeat(script, p, s);
    OpenLoop(script, s.until, s.cond, p);
    BlockRegion(script, s.body, p + 2);
    ClauseAt(script, p + 2 + |FlatBlock(s.body)|, [KwDone]);
    CloseLoop(script, p, |FlatBlock(s.body)|);
  }

  lemma OpenLoop(script: seq<Command>, until: bool, cond: Command, p: nat)
    requires Condition(cond) && At(script, p, [[LoopKeyword(until)] + cond]) && At(script, p + 1, [[KwDo]])
    ensures p + 2 <= |script| && Fits(script, p) && Fits(script, p + 1)
    ensures var n := NestAt(script, p);
            NestAt(script, p + 1) == NestAt(script, p + 2) == n.(loops := n.loops + [Open(p, n.ifs)])
  {
    ClauseAt(script, p, [LoopKeyword(until)] + cond);
    ClauseAt(script, p + 1, [KwDo]);
    assert script[p][1..] == cond;
  }

  lemma CloseLoop(script: seq<Command>, p: nat, len: nat)
    requires p + 2 + len < |script| && script[p + 2 + len] == [KwDone]
    requires Fits(script, p) && Fits(script, p + 1)
    requires var n := NestAt(script, p);
             NestAt(script, p + 1) == NestAt(script, p + 2) == n.(loops := n.loops + [Open(p, n.ifs)])
    requires Region(script, p + 2, len)
    ensures Region(script, p, len + 3)
  {
    hide NestAt, Fits, Within;
    var d := p + 2 + len;
    DoneFits(script, p, d);
    WithinOpened(script, p);
    forall q | p <= q < d + 1 ensures Fits(script, q) && Within(script, p, q) {
      if p + 2 <= q < d {
        WithinTrans(script, p, p + 2, q);
      }
    }
  }

  lemma DoneFits(script: seq<Command>, p: nat, d: nat)
    requires p + 2 <= d < |script| && script[d] == [KwDone]
    requires var n := NestAt(script, p); NestAt(script, d) == n.(loops := n.loops + [Open(p, n.ifs)])
    ensures Fits(script, d) && NestAt(script, d + 1) == NestAt(script, p) && Within(script, p, d)
  {
    var n := NestAt(script, p);
    assert NestAt(script, d + 1) == Read(NestAt(script, d), [KwDone], d);
    assert (n.loops + [Open(p, n.ifs)])[..|n.loops|] == n.loops;
  }

  lemma WithinOpened(script: seq<Command>, p: nat)
    requires p + 2 <= |script|
    requires var n := NestAt(script, p);
             NestAt(script, p + 1) == NestAt(script, p + 2) == n.(loops := n.loops + [Open(p, n.ifs)])
    ensures Within(script, p, p) && Within(script, p, p + 1) && Within(script, p, p + 2)
  {
    var n := NestAt(script, p);
    assert (n.loops + [Open(p, n.ifs)])[..|n.loops|] == n.loops;
  }

  // ----- The level that commands are run at -----

  /** If a command is run next, `np_iendx` is the number of `if`s open around it, above `base`. */
  ghost predicate OnLevel(sh: Shell, c: Config, base: int)
    requires Safe(c.np)
  {
    c.Running? && 0 <= c.pos <= |sh.script| && Step(sh, c).trace != c.trace ==>
      c.np.iendx == base + NestAt(sh.script, c.pos).ifs
  }

  // So it is for the next `n` steps.
  ghost predicate RightWay(sh: Shell, c: Config, n: nat, base: int)
    requires Safe(c.np)
  {
    forall i: nat :: i < n ==> OnLevel(sh, Iter(sh, c, i), base)
  }

  function Base(sh: Shell, np: Np, p: int): int {
    if 0 <= p <= |sh.script| then np.iendx - NestAt(sh.script, p).ifs else 0
  }

  lemma RightWayAdd(sh: Shell, c: Config, m: nat, n: nat, base: int)
    requires Safe(c.np) && RightWay(sh, c, m, base) && RightWay(sh, Iter(sh, c, m), n, base)
    ensures RightWay(sh, c, m + n, base)
  {
    hide OnLevel, Iter, Step;
    forall i: nat | i < m + n ensures OnLevel(sh, Iter(sh, c, i), base) {
      if i >= m {
        IterAdd(sh, c, m, i - m);
        assert OnLevel(sh, Iter(sh, Iter(sh, c, m), i - m), base);
      }
    }
  }

  // Where nothing is run nothing is run at a wrong level.
  lemma RightWayQuiet(sh: Shell, c: Config, n: nat, base: int)
    requires Safe(c.np) && Iter(sh, c, n).trace == c.trace
    ensures RightWay(sh, c, n, base)
  {
    hide Step, NestAt;
    forall i: nat | i < n ensures OnLevel(sh, Iter(sh, c, i), base) {
      hide Iter;
      var d := Iter(sh, c, i);
      TraceGrows(sh, c, i);
      IterAdd(sh, c, i, 1);
      IterAdd(sh, c, i + 1, n - (i + 1));
      OneStep(sh, d);
      StepTraceGrows(sh, d);
      TraceGrows(sh, Step(sh, d), n - (i + 1));
    }
  }

  lemma OneStep(sh: Shell, c: Config)
    requires Safe(c.np)
    ensures Iter(sh, c, 1) == Step(sh, c)
  {
    hide Step;
    assert Iter(sh, c, 1) == Iter(sh, Step(sh, c), 0);
  }

  // A step from where `base` is measured.
  lemma RightStep(sh: Shell, np: Np, p: int, trace: seq<Command>)
    requires Safe(np)
    ensures RightWay(sh, Running(np, p, trace), 1, Base(sh, np, p))
  {
    hide Step, NestAt;
  }
}
